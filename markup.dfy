/** The markup tokenizer: splits text into plain characters, `[name]` openers
    and `[/]` closers, and renders a token stream either as plain text or with
    ANSI codes. */
module Markup {
  import opened AnsiCodes
  import opened SeqFacts

  datatype Token = Char(c: char) | Open(name: string) | Close

  /** Characters allowed in a style name: letters, digits, '.' and '_'. */
  predicate IsTagChar(c: char) {
    'a' <= c <= 'z' || 'A' <= c <= 'Z' || '0' <= c <= '9' || c == '.' || c == '_'
  }

  predicate AllTagChars(t: string) {
    forall i :: 0 <= i < |t| ==> IsTagChar(t[i])
  }

  predicate IsTagName(name: string) {
    |name| > 0 && AllTagChars(name)
  }

  /** Length of the longest prefix of `s` made of tag-name characters. */
  function TagNameLen(s: string): (n: nat)
    ensures n <= |s|
    ensures AllTagChars(s[..n])
    ensures n < |s| ==> !IsTagChar(s[n])
  {
    if s == [] || !IsTagChar(s[0]) then 0
    else
      var n := 1 + TagNameLen(s[1..]);
      assert s[..n] == [s[0]] + s[1..][..n - 1];
      n
  }

  /** The first token of a non-empty text and how many characters it spans.
      A '[' that does not start a well-formed tag is plain text. */
  function Lex(s: string): (r: (Token, nat))
    requires |s| > 0
    ensures 1 <= r.1 <= |s|
    ensures r.0.Char? ==> r.1 == 1 && r.0.c == s[0]
    ensures r.0.Close? ==> r.1 == 3 && s[..3] == "[/]"
    ensures r.0.Open? ==> IsTagName(r.0.name) && s[..r.1] == "[" + r.0.name + "]"
  {
    if s[0] != '[' then (Char(s[0]), 1)
    else if |s| >= 3 && s[1] == '/' && s[2] == ']' then (Close, 3)
    else
      var k := TagNameLen(s[1..]);
      if 0 < k && k + 1 < |s| && s[k + 1] == ']' then
        assert s[1..k + 1] == s[1..][..k];
        assert s[..k + 2] == "[" + s[1..k + 1] + "]";
        (Open(s[1..k + 1]), k + 2)
      else (Char('['), 1)
  }

  function Tokenize(s: string): (toks: seq<Token>)
    decreases |s|
    ensures |toks| <= |s|
    ensures toks == [] <==> s == []
  {
    if s == [] then []
    else
      var (t, n) := Lex(s);
      [t] + Tokenize(s[n..])
  }

  /** The plain characters of a token stream, in order. */
  function TextOf(toks: seq<Token>): (r: string)
    ensures |r| <= |toks|
  {
    if toks == [] then []
    else if toks[0].Char? then [toks[0].c] + TextOf(toks[1..])
    else TextOf(toks[1..])
  }

  /** The style code for `name`, or no code for a name the table does not know. */
  function Lookup(table: map<string, string>, name: string): (code: string)
    ensures name !in table ==> code == ""
  {
    if name in table then table[name] else ""
  }

  /** Renders tokens with styling: an opener becomes its code, a closer of an
      open tag becomes the reset (the enclosing style is not restored), a
      closer with no open tag is dropped, and tags still open at the end are
      closed by one final reset. `depth` counts the open tags. */
  function RenderTokens(table: map<string, string>, depth: nat, toks: seq<Token>): (r: string)
    decreases |toks|
  {
    if toks == [] then (if depth > 0 then RESET else [])
    else
      match toks[0]
      case Char(c) => [c] + RenderTokens(table, depth, toks[1..])
      case Open(name) => Lookup(table, name) + RenderTokens(table, depth + 1, toks[1..])
      case Close =>
        if depth > 0 then RESET + RenderTokens(table, depth - 1, toks[1..])
        else RenderTokens(table, depth, toks[1..])
  }

  /** The characters a token was read from. */
  function WriteToken(t: Token): (s: string)
    ensures |s| >= 1
  {
    match t
    case Char(c) => [c]
    case Open(name) => "[" + name + "]"
    case Close => "[/]"
  }

  /** A token stream written back as text. */
  function Write(toks: seq<Token>): (s: string)
    ensures |s| >= |toks|
  {
    if toks == [] then [] else WriteToken(toks[0]) + Write(toks[1..])
  }

  /** `s` starts with a closer `[/]` or with a well-formed opener `[name]`. */
  predicate StartsTag(s: string) {
    "[/]" <= s || (s != [] && s[0] == '[' && exists j :: 2 <= j < |s| && s[j] == ']' && IsTagName(s[1..j]))
  }

  /** The tokens of plain text: one character token per character. */
  function Chars(t: string): (toks: seq<Token>)
    ensures |toks| == |t|
    ensures forall i :: 0 <= i < |t| ==> toks[i] == Char(t[i])
  {
    seq(|t|, i requires 0 <= i < |t| => Char(t[i]))
  }

  lemma {:induction false} TagNameLenAppend(a: string, b: string)
    requires TagNameLen(a) < |a|
    ensures TagNameLen(a + b) == TagNameLen(a)
  {
    if IsTagChar(a[0]) {
      assert (a + b)[1..] == a[1..] + b;
      TagNameLenAppend(a[1..], b);
    }
  }

  /** A well-formed opener is recognised whatever follows it. */
  lemma LexOpen(name: string, rest: string)
    requires IsTagName(name)
    ensures Lex("[" + name + "]" + rest) == (Open(name), |name| + 2)
  {
    var s := "[" + name + "]" + rest;
    assert s[1..] == (name + "]") + rest;
    assert (name + "]")[|name|] == ']';
    TagNameLenAppend(name + "]", rest);
    assert s[1] == name[0];
    assert s[1..|name| + 1] == name;
  }

  lemma {:induction false} TokenizeOpen(name: string, rest: string)
    requires IsTagName(name)
    ensures Tokenize("[" + name + "]" + rest) == [Open(name)] + Tokenize(rest)
  {
    var s := "[" + name + "]" + rest;
    LexOpen(name, rest);
    assert s[|name| + 2..] == rest;
  }

  lemma {:induction false} TokenizeClose(rest: string)
    ensures Tokenize("[/]" + rest) == [Close] + Tokenize(rest)
  {
    var s := "[/]" + rest;
    assert s[3..] == rest;
  }

  /** A character other than '[' is a token of its own. */
  lemma TokenizePlainChar(c: char, rest: string)
    requires c != '['
    ensures Tokenize([c] + rest) == [Char(c)] + Tokenize(rest)
  {
    assert ([c] + rest)[1..] == rest;
  }

  /** The longest tag-name prefix ends exactly at the first character that is
      not a tag-name character. */
  lemma TagNameLenExact(s: string, k: nat)
    requires k < |s| && AllTagChars(s[..k]) && !IsTagChar(s[k])
    ensures TagNameLen(s) == k
  {
  }

  /** Lex reads a tag exactly when the text starts with one; any other first
      character, '[' included, is a plain character. */
  lemma LexStartsTag(s: string)
    requires |s| > 0
    ensures Lex(s).0.Char? <==> !StartsTag(s)
  {
    var (t, n) := Lex(s);
    if t.Close? {
      assert s[..3] == "[/]";
    } else if t.Open? {
      var j := n - 1;
      assert s[..n] == "[" + t.name + "]";
      assert s[1..j] == s[..n][1..j] == t.name;
      assert s[j] == s[..n][j] == ']';
    } else if StartsTag(s) {
      assert s[0] == '[';
      if !("[/]" <= s) {
        var j :| 2 <= j < |s| && s[j] == ']' && IsTagName(s[1..j]);
        assert s[1..][..j - 1] == s[1..j];
        assert s[1..][j - 1] == s[j];
        TagNameLenExact(s[1..], j - 1);
        assert false;
      }
    }
  }

  /** A '[' that starts no tag is a plain character. */
  lemma TokenizePlainBracket(rest: string)
    requires !StartsTag("[" + rest)
    ensures Tokenize("[" + rest) == [Char('[')] + Tokenize(rest)
  {
    LexStartsTag("[" + rest);
    assert ("[" + rest)[1..] == rest;
  }

  /** One step of the tokenizer: the first token, then the tokens of the rest. */
  lemma TokenizeStep(s: string)
    requires s != []
    ensures Tokenize(s) == [Lex(s).0] + Tokenize(s[Lex(s).1..])
  {
  }

  lemma WriteCons(t: Token, toks: seq<Token>)
    ensures Write([t] + toks) == WriteToken(t) + Write(toks)
  {
    assert ([t] + toks)[1..] == toks;
  }

  /** The characters Lex consumes are the written form of the token it reads. */
  lemma LexWrites(s: string)
    requires |s| > 0
    ensures s[..Lex(s).1] == WriteToken(Lex(s).0)
  {
    var (t, n) := Lex(s);
    if t.Char? {
      assert s[..1] == [s[0]];
    }
  }

  /** Tokenizing loses nothing: writing the tokens back gives the text. */
  lemma {:induction false} WriteTokenize(s: string)
    ensures Write(Tokenize(s)) == s
    decreases |s|
  {
    if s != [] {
      var t, n := Lex(s).0, Lex(s).1;
      TokenizeStep(s);
      WriteCons(t, Tokenize(s[n..]));
      WriteTokenize(s[n..]);
      LexWrites(s);
      assert s[..n] + s[n..] == s;
    }
  }

  /** The plain text of one token followed by more. */
  lemma TextOfCons(t: Token, toks: seq<Token>)
    ensures TextOf([t] + toks) == (if t.Char? then [t.c] else []) + TextOf(toks)
  {
    assert ([t] + toks)[1..] == toks;
  }

  lemma CharsFirst(t: string)
    requires t != []
    ensures Chars(t) == [Char(t[0])] + Chars(t[1..])
  {
  }

  /** Text without '[' tokenizes to its characters. */
  lemma {:induction false} TokenizeTagFree(t: string, rest: string)
    requires '[' !in t
    ensures Tokenize(t + rest) == Chars(t) + Tokenize(rest)
  {
    if t == [] {
      assert t + rest == rest;
    } else {
      var tail := t[1..];
      SplitFirst(t, rest);
      TokenizePlainChar(t[0], tail + rest);
      TokenizeTagFree(tail, rest);
      CharsFirst(t);
      Regroup3([Char(t[0])], Chars(tail), Tokenize(rest));
    }
  }

  lemma {:induction false} TextOfAppend(a: seq<Token>, b: seq<Token>)
    ensures TextOf(a + b) == TextOf(a) + TextOf(b)
  {
    if a == [] {
      assert a + b == b;
    } else {
      assert (a + b)[1..] == a[1..] + b;
      TextOfAppend(a[1..], b);
    }
  }

  lemma {:induction false} TextOfChars(t: string)
    ensures TextOf(Chars(t)) == t
  {
    if t != [] {
      assert Chars(t)[1..] == Chars(t[1..]);
      TextOfChars(t[1..]);
    }
  }

  /** `a` is obtained from `b` by deleting characters. */
  predicate IsSubsequence(a: string, b: string)
    decreases |b|
  {
    a == [] || (b != [] && ((a[0] == b[0] && IsSubsequence(a[1..], b[1..])) || IsSubsequence(a, b[1..])))
  }

  lemma {:induction false} SubsequenceDropPrefix(a: string, b: string, n: nat)
    requires n <= |b|
    requires IsSubsequence(a, b[n..])
    ensures IsSubsequence(a, b)
    decreases n
  {
    if n > 0 {
      assert b[n..] == b[1..][n - 1..];
      SubsequenceDropPrefix(a, b[1..], n - 1);
    }
  }

  /** The plain text of a string's tokens is obtained from the string by
      deleting characters: order is kept and nothing is added. */
  lemma {:induction false} TextOfTokenizeIsSubsequence(s: string)
    ensures IsSubsequence(TextOf(Tokenize(s)), s)
    decreases |s|
  {
    if s != [] {
      var (t, n) := Lex(s);
      TextOfTokenizeIsSubsequence(s[n..]);
      var tail := TextOf(Tokenize(s[n..]));
      assert Tokenize(s) == [t] + Tokenize(s[n..]);
      assert ([t] + Tokenize(s[n..]))[1..] == Tokenize(s[n..]);
      if t.Char? {
        assert TextOf(Tokenize(s)) == [s[0]] + tail;
        assert s[1..] == s[n..];
      } else {
        assert TextOf(Tokenize(s)) == tail;
        SubsequenceDropPrefix(tail, s, n);
      }
    }
  }

  /** The plain text of one token followed by the rest. */
  lemma TextOfStep(toks: seq<Token>)
    requires toks != []
    ensures TextOf(toks) == (if toks[0].Char? then [toks[0].c] else []) + TextOf(toks[1..])
  {
  }

  /** A terminal shows nothing for the code of a tag or for the reset. */
  lemma TagCodeInvisible(table: map<string, string>, depth: nat, t: Token, rendered: string)
    requires forall k :: k in table ==> IsStyleCode(table[k])
    requires !t.Char?
    ensures StripAnsi((if t.Open? then Lookup(table, t.name) else if depth > 0 then RESET else []) + rendered)
         == StripAnsi(rendered)
  {
    if t.Open? {
      var code := Lookup(table, t.name);
      assert IsStyleCode(code) by {
        if t.name !in table { assert code == []; }
      }
      StripAnsiStyleCode(code, rendered);
    } else if depth > 0 {
      ResetInvisible();
      StripAnsiStyleCode(RESET, rendered);
    } else {
      assert [] + rendered == rendered;
    }
  }

  /** Rendering shows, on a terminal, exactly the plain text of the tokens,
      provided every code in the table is a style code and the text holds no
      escape character of its own. */
  lemma {:induction false} RenderTokensVisible(table: map<string, string>, depth: nat, toks: seq<Token>)
    requires forall k :: k in table ==> IsStyleCode(table[k])
    requires ESC !in TextOf(toks)
    ensures StripAnsi(RenderTokens(table, depth, toks)) == TextOf(toks)
    decreases |toks|
  {
    if toks == [] {
      ResetInvisible();
    } else {
      var t, tail := toks[0], toks[1..];
      var depth' := if t.Open? then depth + 1 else if t.Close? && depth > 0 then depth - 1 else depth;
      var rendered := RenderTokens(table, depth', tail);
      TextOfStep(toks);
      RenderTokensVisible(table, depth', tail);
      if t.Char? {
        assert RenderTokens(table, depth, toks) == [t.c] + rendered;
        StripAnsiText([t.c], rendered);
      } else {
        assert RenderTokens(table, depth, toks)
            == (if t.Open? then Lookup(table, t.name) else if depth > 0 then RESET else []) + rendered;
        TagCodeInvisible(table, depth, t, rendered);
      }
    }
  }

  /** A plain character renders as itself. */
  lemma RenderChar(table: map<string, string>, depth: nat, c: char, toks: seq<Token>)
    ensures RenderTokens(table, depth, [Char(c)] + toks) == [c] + RenderTokens(table, depth, toks)
  {
    assert ([Char(c)] + toks)[1..] == toks;
  }

  /** An opener renders as its code, and what follows it is one level deeper. */
  lemma RenderOpen(table: map<string, string>, depth: nat, name: string, toks: seq<Token>)
    ensures RenderTokens(table, depth, [Open(name)] + toks) == Lookup(table, name) + RenderTokens(table, depth + 1, toks)
  {
    assert ([Open(name)] + toks)[1..] == toks;
  }

  /** A closer inside an open tag renders as the reset, one level up. */
  lemma RenderClose(table: map<string, string>, depth: nat, toks: seq<Token>)
    requires depth > 0
    ensures RenderTokens(table, depth, [Close] + toks) == RESET + RenderTokens(table, depth - 1, toks)
  {
    assert ([Close] + toks)[1..] == toks;
  }

  /** A closer with no open tag renders as nothing. */
  lemma RenderStrayClose(table: map<string, string>, toks: seq<Token>)
    ensures RenderTokens(table, 0, [Close] + toks) == RenderTokens(table, 0, toks)
  {
    assert ([Close] + toks)[1..] == toks;
  }

  /** Tokens with no tags render as their plain text. */
  lemma {:induction false} RenderChars(table: map<string, string>, depth: nat, t: string, more: seq<Token>)
    ensures RenderTokens(table, depth, Chars(t) + more) == t + RenderTokens(table, depth, more)
  {
    if t == [] {
      assert Chars(t) + more == more;
    } else {
      CharsFirst(t);
      SplitFirst(Chars(t), more);
      RenderChar(table, depth, t[0], Chars(t[1..]) + more);
      RenderChars(table, depth, t[1..], more);
      SplitFirst(t, RenderTokens(table, depth, more));
    }
  }
}
