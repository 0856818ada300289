/** The cases of the unit tests of `ansi_output`, each derived from the
    general properties of the model. */
module AnsiOutputExamples {
  import opened AnsiCodes
  import opened Coercion
  import opened Capability
  import opened Markup
  import opened Renderer
  import opened MarkupDocs

  /** The parametrised `to_bool` table. */
  lemma ToBoolTable()
    ensures !ToBool(NoneValue)
    ensures ToBool(BoolValue(true)) && !ToBool(BoolValue(false))
    ensures ToBool(StrValue("yes")) && ToBool(StrValue("YES"))
    ensures ToBool(StrValue("on")) && ToBool(StrValue("ON"))
    ensures ToBool(StrValue("1"))
    ensures ToBool(StrValue("true")) && ToBool(StrValue("TRUE"))
    ensures !ToBool(StrValue("no")) && !ToBool(StrValue("off")) && !ToBool(StrValue("0"))
    ensures !ToBool(StrValue("false")) && !ToBool(StrValue("random"))
    ensures ToBool(IntValue(1)) && !ToBool(IntValue(0)) && !ToBool(IntValue(42))
  {
    assert Lower("YES") == "yes";
    assert Lower("ON") == "on";
    assert Lower("TRUE") == "true";
    assert Lower("yes") == "yes";
    assert Lower("on") == "on";
    assert Lower("true") == "true";
    assert Lower("1") == "1";
    assert Lower("no") == "no";
    assert Lower("off") == "off";
    assert Lower("0") == "0";
    assert Lower("false") == "false";
    assert Lower("random") == "random";
  }

  /** Colour is on whenever NO_COLOR is absent and FORCE_COLOR is "1", as in
      the tests that enable markup. */
  lemma ForceColorEnables(env: Env)
    requires "NO_COLOR" !in env && "FORCE_COLOR" in env && env["FORCE_COLOR"] == "1"
    ensures NewAnsiOutput(env).markupEnabled
  {
    assert Lower("1") == "1";
  }

  /** Colour is off whenever NO_COLOR is "1", as in the tests that disable markup. */
  lemma NoColorDisables(env: Env)
    requires "NO_COLOR" in env && env["NO_COLOR"] == "1"
    ensures !NewAnsiOutput(env).markupEnabled
  {
  }

  /** A span holding only plain text. */
  lemma TextSpan(table: map<string, string>, name: string, text: string)
    requires IsTagName(name) && '[' !in text
    ensures WellFormed([Span(name, [Plain(text)])])
    ensures Serialize([Span(name, [Plain(text)])]) == "[" + name + "]" + text + "[/]"
    ensures Content([Span(name, [Plain(text)])]) == text
    ensures Render(table, [Span(name, [Plain(text)])]) == Lookup(table, name) + text + RESET
  {
    SingleNode(table, Plain(text));
    SingleNode(table, Span(name, [Plain(text)]));
  }

  /** The document `[n1]x1[/]t`. */
  function SpanText(n1: string, x1: string, t: string): (doc: seq<Node>) {
    [Span(n1, [Plain(x1)])] + [Plain(t)]
  }

  lemma SpanTextDoc(table: map<string, string>, n1: string, x1: string, t: string)
    requires IsTagName(n1) && '[' !in x1 && '[' !in t
    ensures WellFormed(SpanText(n1, x1, t))
    ensures Serialize(SpanText(n1, x1, t)) == "[" + n1 + "]" + x1 + "[/]" + t
    ensures Content(SpanText(n1, x1, t)) == x1 + t
    ensures Render(table, SpanText(n1, x1, t)) == Lookup(table, n1) + x1 + RESET + t
  {
    TextSpan(table, n1, x1);
    SingleNode(table, Plain(t));
    Concatenation(table, [Span(n1, [Plain(x1)])], [Plain(t)]);
  }

  /** The document `[n1]x1[/]t[n2]x2[/]`. */
  function SpanTextSpan(n1: string, x1: string, t: string, n2: string, x2: string): (doc: seq<Node>) {
    SpanText(n1, x1, t) + [Span(n2, [Plain(x2)])]
  }

  lemma SpanTextSpanDoc(table: map<string, string>, n1: string, x1: string, t: string, n2: string, x2: string)
    requires IsTagName(n1) && IsTagName(n2) && '[' !in x1 && '[' !in t && '[' !in x2
    ensures WellFormed(SpanTextSpan(n1, x1, t, n2, x2))
    ensures Serialize(SpanTextSpan(n1, x1, t, n2, x2)) == "[" + n1 + "]" + x1 + "[/]" + t + "[" + n2 + "]" + x2 + "[/]"
    ensures Content(SpanTextSpan(n1, x1, t, n2, x2)) == x1 + t + x2
    ensures Render(table, SpanTextSpan(n1, x1, t, n2, x2))
         == Lookup(table, n1) + x1 + RESET + t + Lookup(table, n2) + x2 + RESET
  {
    SpanTextDoc(table, n1, x1, t);
    TextSpan(table, n2, x2);
    Concatenation(table, SpanText(n1, x1, t), [Span(n2, [Plain(x2)])]);
  }

  /** The document `[n0]p[n1]x1[/]t[n2]x2[/][/]`. */
  function Nested(n0: string, p: string, n1: string, x1: string, t: string, n2: string, x2: string): (doc: seq<Node>) {
    [Span(n0, [Plain(p)] + SpanTextSpan(n1, x1, t, n2, x2))]
  }

  lemma NestedDoc(table: map<string, string>, n0: string, p: string, n1: string, x1: string, t: string, n2: string, x2: string)
    requires IsTagName(n0) && IsTagName(n1) && IsTagName(n2)
    requires '[' !in p && '[' !in x1 && '[' !in t && '[' !in x2
    ensures WellFormed(Nested(n0, p, n1, x1, t, n2, x2))
    ensures Serialize(Nested(n0, p, n1, x1, t, n2, x2))
         == "[" + n0 + "]" + (p + Serialize(SpanTextSpan(n1, x1, t, n2, x2))) + "[/]"
    ensures Content(Nested(n0, p, n1, x1, t, n2, x2)) == p + Content(SpanTextSpan(n1, x1, t, n2, x2))
    ensures Render(table, Nested(n0, p, n1, x1, t, n2, x2))
         == Lookup(table, n0) + (p + Render(table, SpanTextSpan(n1, x1, t, n2, x2))) + RESET
  {
    var inner := SpanTextSpan(n1, x1, t, n2, x2);
    var body := [Plain(p)] + inner;
    SpanTextSpanDoc(table, n1, x1, t, n2, x2);
    SingleNode(table, Plain(p));
    Concatenation(table, [Plain(p)], inner);
    SingleNode(table, Span(n0, body));
  }

  /** Processing `[n1]x1[/]t`. */
  lemma ProcessSpanText(o: AnsiOutput, n1: string, x1: string, t: string)
    requires IsTagName(n1) && '[' !in x1 && '[' !in t
    ensures o.markupEnabled ==>
      o.ProcessMarkup("[" + n1 + "]" + x1 + "[/]" + t) == Lookup(o.markupMap, n1) + x1 + RESET + t
  {
    SpanTextDoc(o.markupMap, n1, x1, t);
    ProcessSerialize(o, SpanText(n1, x1, t));
  }

  /** Stripping and processing `[n1]x1[/]t[n2]x2[/]`. */
  lemma ProcessSpanTextSpan(o: AnsiOutput, n1: string, x1: string, t: string, n2: string, x2: string)
    requires IsTagName(n1) && IsTagName(n2) && '[' !in x1 && '[' !in t && '[' !in x2
    ensures o.StripMarkup("[" + n1 + "]" + x1 + "[/]" + t + "[" + n2 + "]" + x2 + "[/]") == x1 + t + x2
    ensures !o.markupEnabled ==>
      o.ProcessMarkup("[" + n1 + "]" + x1 + "[/]" + t + "[" + n2 + "]" + x2 + "[/]") == x1 + t + x2
    ensures o.markupEnabled ==>
      o.ProcessMarkup("[" + n1 + "]" + x1 + "[/]" + t + "[" + n2 + "]" + x2 + "[/]")
      == Lookup(o.markupMap, n1) + x1 + RESET + t + Lookup(o.markupMap, n2) + x2 + RESET
  {
    SpanTextSpanDoc(o.markupMap, n1, x1, t, n2, x2);
    StripSerialize(o, SpanTextSpan(n1, x1, t, n2, x2));
    ProcessSerialize(o, SpanTextSpan(n1, x1, t, n2, x2));
  }

  /** Stripping and processing `[n0]p[n1]x1[/]t[n2]x2[/][/]`. */
  lemma ProcessNested(o: AnsiOutput, n0: string, p: string, n1: string, x1: string, t: string, n2: string, x2: string)
    requires IsTagName(n0) && IsTagName(n1) && IsTagName(n2)
    requires '[' !in p && '[' !in x1 && '[' !in t && '[' !in x2
    ensures o.StripMarkup("[" + n0 + "]" + p + ("[" + n1 + "]" + x1 + "[/]" + t + "[" + n2 + "]" + x2 + "[/]") + "[/]")
         == p + (x1 + t + x2)
    ensures o.markupEnabled ==>
      o.ProcessMarkup("[" + n0 + "]" + p + ("[" + n1 + "]" + x1 + "[/]" + t + "[" + n2 + "]" + x2 + "[/]") + "[/]")
      == Lookup(o.markupMap, n0)
         + (p + (Lookup(o.markupMap, n1) + x1 + RESET + t + Lookup(o.markupMap, n2) + x2 + RESET)) + RESET
  {
    SpanTextSpanDoc(o.markupMap, n1, x1, t, n2, x2);
    NestedDoc(o.markupMap, n0, p, n1, x1, t, n2, x2);
    var inner := "[" + n1 + "]" + x1 + "[/]" + t + "[" + n2 + "]" + x2 + "[/]";
    assert "[" + n0 + "]" + (p + inner) == "[" + n0 + "]" + p + inner;
    StripSerialize(o, Nested(n0, p, n1, x1, t, n2, x2));
    ProcessSerialize(o, Nested(n0, p, n1, x1, t, n2, x2));
  }

  /** The two-span text of the strip and disabled-processing tests, assembled. */
  lemma TwoSpansText()
    ensures "[" + "red" + "]" + "Error message" + "[/]" + " with " + "[" + "bold" + "]" + "bold text" + "[/]"
         == "[red]Error message[/] with [bold]bold text[/]"
    ensures "Error message" + " with " + "bold text" == "Error message with bold text"
    ensures IsTagName("red") && IsTagName("bold")
  {
    assert "[" + "red" + "]" + "Error message" + "[/]" == "[red]Error message[/]";
    assert "[" + "red" + "]" + "Error message" + "[/]" + " with " == "[red]Error message[/] with ";
    assert "[" + "red" + "]" + "Error message" + "[/]" + " with " + "[" == "[red]Error message[/] with [";
    assert "[" + "red" + "]" + "Error message" + "[/]" + " with " + "[" + "bold" + "]" == "[red]Error message[/] with [bold]";
  }

  /** The inner spans of the nested text, assembled. */
  lemma NestedInnerText()
    ensures "[" + "scenario" + "]" + "test" + "[/]" + " > " + "[" + "action" + "]" + "create" + "[/]"
         == "[scenario]test[/] > [action]create[/]"
  {
    assert "[" + "scenario" + "]" + "test" + "[/]" == "[scenario]test[/]";
    assert "[" + "scenario" + "]" + "test" + "[/]" + " > " == "[scenario]test[/] > ";
    assert "[" + "scenario" + "]" + "test" + "[/]" + " > " + "[" == "[scenario]test[/] > [";
    assert "[" + "scenario" + "]" + "test" + "[/]" + " > " + "[" + "action" == "[scenario]test[/] > [action";
    assert "[" + "scenario" + "]" + "test" + "[/]" + " > " + "[" + "action" + "]" == "[scenario]test[/] > [action]";
    assert "[" + "scenario" + "]" + "test" + "[/]" + " > " + "[" + "action" + "]" + "create"
        == "[scenario]test[/] > [action]create";
  }

  /** The nested text of the strip and complex-processing tests, assembled. */
  lemma NestedText()
    ensures "[" + "info" + "]" + "Running " + ("[" + "scenario" + "]" + "test" + "[/]" + " > " + "[" + "action" + "]" + "create" + "[/]") + "[/]"
         == "[info]Running [scenario]test[/] > [action]create[/][/]"
    ensures "Running " + ("test" + " > " + "create") == "Running test > create"
    ensures IsTagName("info") && IsTagName("scenario") && IsTagName("action")
  {
    NestedInnerText();
    assert "[" + "info" + "]" + "Running " == "[info]Running ";
    NestedOuterText();
    assert "test" + " > " + "create" == "test > create";
  }

  lemma NestedOuterText()
    ensures "[info]Running " + "[scenario]test[/] > [action]create[/]" + "[/]"
         == "[info]Running [scenario]test[/] > [action]create[/][/]"
  {
    NestedPrefixText();
  }

  lemma NestedPrefixText()
    ensures "[info]Running " + "[scenario]test[/] > [action]create[/]" == "[info]Running [scenario]test[/] > [action]create[/]"
  {
  }

  lemma StripMarkupExamples(o: AnsiOutput)
    ensures o.StripMarkup("[red]Error message[/] with [bold]bold text[/]") == "Error message with bold text"
    ensures o.StripMarkup("Plain text message") == "Plain text message"
    ensures o.StripMarkup("[info]Running [scenario]test[/] > [action]create[/][/]") == "Running test > create"
  {
    TwoSpansText();
    ProcessSpanTextSpan(o, "red", "Error message", " with ", "bold", "bold text");
    NestedText();
    ProcessNested(o, "info", "Running ", "scenario", "test", " > ", "action", "create");
  }

  lemma ProcessMarkupDisabledExample(env: Env)
    requires NoColorDisablesAt(env)
    ensures NewAnsiOutput(env).ProcessMarkup("[red]Error message[/] with [bold]bold text[/]")
         == "Error message with bold text"
  {
    TwoSpansText();
    ProcessSpanTextSpan(NewAnsiOutput(env), "red", "Error message", " with ", "bold", "bold text");
  }

  /** The red code, the reset and the plain text, in the order the test looks for them. */
  lemma ProcessMarkupEnabledExample(env: Env)
    requires ForceColorAt(env)
    ensures NewAnsiOutput(env).ProcessMarkup("[red]Error[/] message") == RED + "Error" + RESET + " message"
  {
    var o := NewAnsiOutput(env);
    ForceColorEnables(env);
    DefaultLookup("red");
    assert DefaultCode("red") == RED;
    assert IsTagName("red");
    ErrorMessageText();
    ProcessSpanText(o, "red", "Error", " message");
    assert o.markupEnabled;
    assert Lookup(o.markupMap, "red") == RED;
    assert o.ProcessMarkup("[" + "red" + "]" + "Error" + "[/]" + " message") == RED + "Error" + RESET + " message";
  }

  lemma ErrorMessageText()
    ensures "[" + "red" + "]" + "Error" + "[/]" + " message" == "[red]Error[/] message"
  {
  }

  /** The text of the unknown-tag test, assembled. */
  lemma UnknownTagText()
    ensures "[" + "unknown_tag" + "]" + "Text" + "[/]" + " with " + "[" + "red" + "]" + "known tag" + "[/]"
         == "[unknown_tag]Text[/] with [red]known tag[/]"
  {
    assert "[" + "unknown_tag" + "]" + "Text" + "[/]" == "[unknown_tag]Text[/]";
    assert "[" + "unknown_tag" + "]" + "Text" + "[/]" + " with " + "[" + "red" + "]"
        == "[unknown_tag]Text[/] with [red]";
  }

  /** The codes of the unknown-tag test: none for the unknown tag, red for "red". */
  lemma UnknownTagCodes()
    ensures Lookup(DefaultMarkupMap(), "red") == RED
    ensures Lookup(DefaultMarkupMap(), "unknown_tag") == ""
    ensures IsTagName("red") && IsTagName("unknown_tag")
  {
    DefaultLookup("red");
    DefaultLookup("unknown_tag");
  }

  /** An unknown tag contributes no code, but its closer still resets. */
  lemma ProcessMarkupUnknownTagExample(env: Env)
    requires ForceColorAt(env)
    ensures NewAnsiOutput(env).ProcessMarkup("[unknown_tag]Text[/] with [red]known tag[/]")
         == "Text" + RESET + " with " + RED + "known tag" + RESET
  {
    var o := NewAnsiOutput(env);
    ForceColorEnables(env);
    UnknownTagCodes();
    UnknownTagText();
    ProcessSpanTextSpan(o, "unknown_tag", "Text", " with ", "red", "known tag");
    assert o.markupEnabled;
    assert Lookup(o.markupMap, "unknown_tag") + "Text" == "Text";
    assert o.ProcessMarkup("[" + "unknown_tag" + "]" + "Text" + "[/]" + " with " + "[" + "red" + "]" + "known tag" + "[/]")
        == "Text" + RESET + " with " + RED + "known tag" + RESET;
  }

  /** Malformed markup: an unclosed tag is closed at the end of the text, a
      stray closer is dropped, and a '[' that starts no tag stays. */
  lemma MalformedMarkupExamples(env: Env)
    requires ForceColorAt(env)
    ensures NewAnsiOutput(env).StripMarkup("[red]abc") == "abc"
    ensures NewAnsiOutput(env).ProcessMarkup("[red]abc") == RED + "abc" + RESET
    ensures NewAnsiOutput(env).ProcessMarkup("[/]b") == "b"
    ensures NewAnsiOutput(env).ProcessMarkup("[b") == "[b"
  {
    var o := NewAnsiOutput(env);
    ForceColorEnables(env);
    UnknownTagCodes();
    assert "[" + "red" + "]" + "abc" == "[red]abc";
    UnclosedTag(o, "red", "abc");
    assert "[/]" + "b" == "[/]b";
    StrayCloserDropped(o, "b");
    assert "[" + "b" == "[b";
    LoneBracketKept(o, "b");
  }

  /** Each span opens with its code and closes with a reset; the enclosing
      style is not restored after an inner span. */
  lemma ComplexMarkupExample(env: Env)
    requires ForceColorAt(env)
    ensures NewAnsiOutput(env).ProcessMarkup("[info]Running [scenario]test[/] > [action]create[/][/]")
         == DIM + ("Running " + (GREEN + "test" + RESET + " > " + GREEN + "create" + RESET)) + RESET
  {
    var o := NewAnsiOutput(env);
    ForceColorEnables(env);
    var table := DefaultMarkupMap();
    assert Lookup(table, "info") == DIM by { assert table["info"] == DefaultCode("info"); }
    assert Lookup(table, "scenario") == GREEN by { assert table["scenario"] == DefaultCode("scenario"); }
    assert Lookup(table, "action") == GREEN by { assert table["action"] == DefaultCode("action"); }
    NestedText();
    ProcessNested(o, "info", "Running ", "scenario", "test", " > ", "action", "create");
  }

  lemma FormatScenarioExamples(env: Env)
    ensures NoColorDisablesAt(env) ==> NewAnsiOutput(env).FormatScenario("test_scenario") == "[test_scenario]"
    ensures ForceColorAt(env) ==> NewAnsiOutput(env).FormatScenario("test_scenario") == GREEN + "[test_scenario]" + RESET
  {
    assert "[" + "test_scenario" + "]" == "[test_scenario]";
    if ForceColorAt(env) {
      ForceColorEnables(env);
      DefaultFormatterStyles();
    }
  }

  lemma FormatLogLevelExamples(env: Env)
    ensures NoColorDisablesAt(env) ==> NewAnsiOutput(env).FormatLogLevel("INFO", INFO) == "INFO    "
    ensures ForceColorAt(env) ==> NewAnsiOutput(env).FormatLogLevel("INFO", INFO) == BLUE + "INFO    " + RESET
    ensures ForceColorAt(env) ==> NewAnsiOutput(env).FormatLogLevel("WARNING", WARNING) == RED + "WARNING " + RESET
    ensures ForceColorAt(env) ==> NewAnsiOutput(env).FormatLogLevel("ERROR", ERROR) == BOLD + "ERROR   " + RESET
  {
    assert LeftJustify("INFO", LevelWidth) == "INFO    ";
    assert LeftJustify("WARNING", LevelWidth) == "WARNING ";
    assert LeftJustify("ERROR", LevelWidth) == "ERROR   ";
    if ForceColorAt(env) {
      var o := NewAnsiOutput(env);
      ForceColorEnables(env);
      DefaultFormatterStyles();
      FormatLogLevelStyled(o, "INFO", INFO);
      FormatLogLevelStyled(o, "WARNING", WARNING);
      FormatLogLevelStyled(o, "ERROR", ERROR);
    }
  }

  /** With markup disabled the INFO label holds no escape sequence at all. */
  lemma FormatLogLevelDisabledHasNoEscape(env: Env)
    requires NoColorDisablesAt(env)
    ensures ESC !in NewAnsiOutput(env).FormatLogLevel("INFO", INFO)
  {
    assert LeftJustify("INFO", LevelWidth) == "INFO    ";
  }

  predicate NoColorDisablesAt(env: Env) {
    "NO_COLOR" in env && env["NO_COLOR"] == "1"
  }

  predicate ForceColorAt(env: Env) {
    "NO_COLOR" !in env && "FORCE_COLOR" in env && env["FORCE_COLOR"] == "1"
  }
}
