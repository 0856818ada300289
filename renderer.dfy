/** The `AnsiOutput` renderer: a style table and an enabled flag fixed at
    construction, with markup stripping and rendering and the two label
    formatters. */
module Renderer {
  import opened AnsiCodes
  import opened Markup
  import opened SeqFacts
  import Capability

  /** Numeric logging severities, as in Python's `logging` module. */
  const INFO: int := 20
  const WARNING: int := 30
  const ERROR: int := 40

  /** Width of the field a level name is left-justified in. */
  const LevelWidth: nat := 8

  /** The style names every renderer's table defines. */
  const RequiredStyles: set<string> := {
    "info", "warning", "danger", "scenario", "action",
    "logging.level.info", "logging.level.warning", "logging.level.error",
    "red", "green", "blue", "bold", "dim"
  }

  /** Every entry of the table is a (possibly empty) sequence of SGR codes. */
  predicate ValidTable(table: map<string, string>) {
    forall k :: k in table ==> IsStyleCode(table[k])
  }

  /** The code of each style of the default table. */
  function DefaultCode(style: string): (code: string) {
    match style
    case "info" => DIM
    case "warning" => RED
    case "danger" => BOLD + RED
    case "scenario" => GREEN
    case "action" => GREEN
    case "logging.level.info" => BLUE
    case "logging.level.warning" => RED
    case "logging.level.error" => BOLD
    case "red" => RED
    case "green" => GREEN
    case "blue" => BLUE
    case "bold" => BOLD
    case "dim" => DIM
    case _ => ""
  }

  function DefaultMarkupMap(): (table: map<string, string>)
    ensures table.Keys == RequiredStyles
    ensures forall style :: style in table ==> table[style] == DefaultCode(style)
  {
    map style | style in RequiredStyles :: DefaultCode(style)
  }

  /** Every code of the default table is a sequence of SGR codes. */
  lemma DefaultMarkupMapValid()
    ensures ValidTable(DefaultMarkupMap())
  {
    ConstantsAreStyleCodes();
    var table := DefaultMarkupMap();
    assert forall k :: k in table ==> table[k] in {DIM, RED, BOLD + RED, GREEN, BLUE, BOLD, ""};
  }

  /** The default codes of the styles the formatters use: scenario names in
      green, INFO in blue, WARNING in red, ERROR in bold. */
  lemma DefaultFormatterStyles()
    ensures DefaultMarkupMap()["scenario"] == GREEN
    ensures DefaultMarkupMap()["logging.level.info"] == BLUE
    ensures DefaultMarkupMap()["logging.level.warning"] == RED
    ensures DefaultMarkupMap()["logging.level.error"] == BOLD
  {
    var table := DefaultMarkupMap();
    assert table["scenario"] == DefaultCode("scenario") == GREEN;
    assert table["logging.level.info"] == DefaultCode("logging.level.info") == BLUE;
    assert table["logging.level.warning"] == DefaultCode("logging.level.warning") == RED;
    assert table["logging.level.error"] == DefaultCode("logging.level.error") == BOLD;
  }

  /** Looking a style up in the default table gives its default code, and no
      code for a style the table does not define. */
  lemma DefaultLookup(style: string)
    ensures Lookup(DefaultMarkupMap(), style) == DefaultCode(style)
  {
    var table := DefaultMarkupMap();
    if style in RequiredStyles {
      assert table[style] == DefaultCode(style);
    } else {
      assert style !in table;
      assert style != "info" && style != "warning" && style != "danger" && style != "scenario";
      assert style != "action" && style != "logging.level.info" && style != "logging.level.warning";
      assert style != "logging.level.error" && style != "red" && style != "green";
      assert style != "blue" && style != "bold" && style != "dim";
    }
  }

  /** `n` spaces. */
  function Spaces(n: nat): (r: string)
    ensures |r| == n
    ensures forall i :: 0 <= i < n ==> r[i] == ' '
  {
    seq(n, i => ' ')
  }

  /** `s` left-justified in a field of `width` characters, never truncated. */
  function LeftJustify(s: string, width: nat): (r: string)
    ensures |r| == if |s| < width then width else |s|
    ensures r[..|s|] == s
    ensures forall i :: |s| <= i < |r| ==> r[i] == ' '
  {
    if |s| < width then s + Spaces(width - |s|) else s
  }

  /** The style name for a numeric level: error tier and above, warning tier,
      info tier; below INFO there is none. */
  function LevelStyle(levelNo: int): (style: string)
    ensures levelNo >= ERROR ==> style == "logging.level.error"
    ensures WARNING <= levelNo < ERROR ==> style == "logging.level.warning"
    ensures INFO <= levelNo < WARNING ==> style == "logging.level.info"
    ensures levelNo < INFO ==> style == ""
  {
    if levelNo >= ERROR then "logging.level.error"
    else if levelNo >= WARNING then "logging.level.warning"
    else if levelNo >= INFO then "logging.level.info"
    else ""
  }

  datatype AnsiOutput = AnsiOutput(markupEnabled: bool, markupMap: map<string, string>) {

    /** Removes every `[name]` opener and `[/]` closer, known or not. */
    function StripMarkup(text: string): (r: string)
      ensures |r| <= |text|
      ensures '[' !in text ==> r == text
    {
      var r := TextOf(Tokenize(text));
      if '[' !in text then
        TokenizeTagFree(text, []);
        assert text + [] == text;
        assert Chars(text) + [] == Chars(text);
        TextOfChars(text);
        r
      else r
    }

    /** Replaces tags with their codes when markup is enabled; strips them otherwise. */
    function ProcessMarkup(text: string): (r: string)
      ensures !markupEnabled ==> r == StripMarkup(text)
      ensures '[' !in text ==> r == text
    {
      if !markupEnabled then StripMarkup(text)
      else
        var r := RenderTokens(markupMap, 0, Tokenize(text));
        if '[' !in text then
          TokenizeTagFree(text, []);
          assert text + [] == text;
          RenderChars(markupMap, 0, text, []);
          assert Chars(text) + [] == Chars(text);
          r
        else r
    }

    /** The bracketed scenario name, coloured with the scenario style when enabled. */
    function FormatScenario(name: string): (r: string)
      ensures !markupEnabled ==> r == "[" + name + "]"
      ensures markupEnabled ==> r == Lookup(markupMap, "scenario") + "[" + name + "]" + RESET
    {
      var shown := "[" + name + "]";
      if markupEnabled then Lookup(markupMap, "scenario") + shown + RESET else shown
    }

    /** The level name left-justified to eight characters, styled by severity
        when enabled and the severity has a non-empty style. */
    function FormatLogLevel(levelName: string, levelNo: int): (r: string)
      ensures |r| >= LevelWidth
      ensures !markupEnabled ==> r == LeftJustify(levelName, LevelWidth)
    {
      var shown := LeftJustify(levelName, LevelWidth);
      var style := LevelStyle(levelNo);
      var code := if style == "" then "" else Lookup(markupMap, style);
      if markupEnabled && code != "" then code + shown + RESET else shown
    }
  }

  /** The renderer `AnsiOutput()` builds: colour decided from the environment,
      the default style table. */
  function NewAnsiOutput(env: Capability.Env): (o: AnsiOutput)
    ensures o.markupEnabled <==> Capability.ShouldDoMarkup(env)
    ensures o.markupMap == DefaultMarkupMap()
  {
    AnsiOutput(Capability.ShouldDoMarkup(env), DefaultMarkupMap())
  }

  /** Every value of the default table is empty or starts with ESC '['. */
  lemma DefaultMarkupMapValues()
    ensures forall k :: k in DefaultMarkupMap() ==>
      DefaultMarkupMap()[k] == [] || DefaultMarkupMap()[k][..2] == [ESC, '[']
  {
    var table := DefaultMarkupMap();
    DefaultMarkupMapValid();
    forall k | k in table
      ensures table[k] == [] || table[k][..2] == [ESC, '[']
    {
      StyleCodeStart(table[k]);
    }
  }

  /** With markup enabled, a terminal shows exactly the stripped text: the
      codes that replace tags are invisible and nothing else changes. */
  lemma ProcessMarkupVisibleText(o: AnsiOutput, text: string)
    requires ValidTable(o.markupMap)
    requires ESC !in text
    ensures StripAnsi(o.ProcessMarkup(text)) == o.StripMarkup(text)
  {
    var toks := Tokenize(text);
    assert ESC !in TextOf(toks) by {
      TextOfTokenizeIsSubsequence(text);
      SubsequenceMembers(TextOf(toks), text);
    }
    if o.markupEnabled {
      RenderTokensVisible(o.markupMap, 0, toks);
    } else {
      StripAnsiText(TextOf(toks), []);
      assert TextOf(toks) + [] == TextOf(toks);
    }
  }

  /** Stripping only deletes characters: the result keeps the order of what
      remains and adds nothing. */
  lemma StripMarkupDeletesOnly(o: AnsiOutput, text: string)
    ensures IsSubsequence(o.StripMarkup(text), text)
  {
    TextOfTokenizeIsSubsequence(text);
  }

  /** Stripping removes exactly the tags: the text is the written form of its
      tokens, and the stripped text is what their plain-character tokens hold. */
  lemma StripMarkupRemovesTags(o: AnsiOutput, text: string)
    ensures Write(Tokenize(text)) == text
    ensures o.StripMarkup(text) == TextOf(Tokenize(text))
  {
    WriteTokenize(text);
  }

  /** A character other than '[' is kept, stripped or processed. */
  lemma PlainCharKept(o: AnsiOutput, c: char, rest: string)
    requires c != '['
    ensures o.StripMarkup([c] + rest) == [c] + o.StripMarkup(rest)
    ensures o.ProcessMarkup([c] + rest) == [c] + o.ProcessMarkup(rest)
  {
    TokenizePlainChar(c, rest);
    TextOfCons(Char(c), Tokenize(rest));
    RenderChar(o.markupMap, 0, c, Tokenize(rest));
  }

  /** A '[' that starts no tag, as in "a[b" or "[/x]", is kept as text. */
  lemma LoneBracketKept(o: AnsiOutput, rest: string)
    requires !StartsTag("[" + rest)
    ensures o.StripMarkup("[" + rest) == "[" + o.StripMarkup(rest)
    ensures o.ProcessMarkup("[" + rest) == "[" + o.ProcessMarkup(rest)
  {
    TokenizePlainBracket(rest);
    TextOfCons(Char('['), Tokenize(rest));
    RenderChar(o.markupMap, 0, '[', Tokenize(rest));
  }

  /** A closer with no open tag is dropped, stripped or processed. */
  lemma StrayCloserDropped(o: AnsiOutput, rest: string)
    ensures o.StripMarkup("[/]" + rest) == o.StripMarkup(rest)
    ensures o.ProcessMarkup("[/]" + rest) == o.ProcessMarkup(rest)
  {
    TokenizeClose(rest);
    TextOfCons(Close, Tokenize(rest));
    RenderStrayClose(o.markupMap, Tokenize(rest));
  }

  /** Stripping drops an opener, known or unknown, whether or not it is closed. */
  lemma OpenerDropped(o: AnsiOutput, name: string, rest: string)
    requires IsTagName(name)
    ensures o.StripMarkup("[" + name + "]" + rest) == o.StripMarkup(rest)
  {
    TokenizeOpen(name, rest);
    TextOfCons(Open(name), Tokenize(rest));
  }

  /** A tag left open is closed at the end of the text: stripped, only its text
      remains; processed, its code comes first and a reset last. */
  lemma UnclosedTag(o: AnsiOutput, name: string, t: string)
    requires IsTagName(name) && '[' !in t
    ensures o.StripMarkup("[" + name + "]" + t) == t
    ensures o.markupEnabled ==> o.ProcessMarkup("[" + name + "]" + t) == Lookup(o.markupMap, name) + t + RESET
  {
    OpenerDropped(o, name, t);
    TokenizeOpen(name, t);
    TokenizeTagFree(t, []);
    assert t + [] == t;
    RenderOpen(o.markupMap, 0, name, Chars(t) + []);
    RenderChars(o.markupMap, 1, t, []);
  }

  lemma {:induction false} SubsequenceMembers(a: string, b: string)
    requires IsSubsequence(a, b)
    ensures forall c :: c in a ==> c in b
    decreases |b|
  {
    if a != [] {
      if a[0] == b[0] && IsSubsequence(a[1..], b[1..]) {
        SubsequenceMembers(a[1..], b[1..]);
        assert a == [a[0]] + a[1..];
      } else {
        SubsequenceMembers(a, b[1..]);
      }
      assert b == [b[0]] + b[1..];
    }
  }

  /** A style code, then text free of escapes, then a reset reads as that text. */
  lemma WrappedVisibleText(code: string, t: string)
    requires IsStyleCode(code)
    requires ESC !in t
    ensures StripAnsi(code + t + RESET) == t
  {
    ResetInvisible();
    StripAnsiText(t, RESET);
    assert t + [] == t;
    StripAnsiStyleCode(code, t + RESET);
    Regroup3(code, t, RESET);
  }

  /** On a terminal the scenario label always reads "[name]". */
  lemma FormatScenarioVisibleText(o: AnsiOutput, name: string)
    requires ValidTable(o.markupMap)
    requires ESC !in name
    ensures StripAnsi(o.FormatScenario(name)) == "[" + name + "]"
  {
    var shown := "[" + name + "]";
    assert ESC !in shown;
    if o.markupEnabled {
      var code := Lookup(o.markupMap, "scenario");
      assert IsStyleCode(code) by {
        if "scenario" !in o.markupMap { assert code == []; }
      }
      WrappedVisibleText(code, shown);
    } else {
      StripAnsiText(shown, []);
      assert shown + [] == shown;
    }
  }

  /** On a terminal the level label always reads as the name left-justified
      to eight characters. */
  lemma FormatLogLevelVisibleText(o: AnsiOutput, levelName: string, levelNo: int)
    requires ValidTable(o.markupMap)
    requires ESC !in levelName
    ensures StripAnsi(o.FormatLogLevel(levelName, levelNo)) == LeftJustify(levelName, LevelWidth)
  {
    var shown := LeftJustify(levelName, LevelWidth);
    assert ESC !in shown by {
      assert shown[..|levelName|] == levelName;
      forall i | 0 <= i < |shown| ensures shown[i] != ESC {
        if i < |levelName| { assert shown[i] == levelName[i]; }
      }
    }
    var style := LevelStyle(levelNo);
    var code := if style == "" then "" else Lookup(o.markupMap, style);
    if o.markupEnabled && code != "" {
      assert style in o.markupMap;
      WrappedVisibleText(code, shown);
    } else {
      StripAnsiText(shown, []);
      assert shown + [] == shown;
    }
  }

  /** With markup enabled and a severity that has a style, the label is
      wrapped in that style's code and a reset. */
  lemma FormatLogLevelStyled(o: AnsiOutput, levelName: string, levelNo: int)
    requires o.markupEnabled && levelNo >= INFO
    requires RequiredStyles <= o.markupMap.Keys
    requires o.markupMap[LevelStyle(levelNo)] != ""
    ensures o.FormatLogLevel(levelName, levelNo)
         == o.markupMap[LevelStyle(levelNo)] + LeftJustify(levelName, LevelWidth) + RESET
  {
    assert LevelStyle(levelNo) in RequiredStyles;
  }
}
