/** Well-formed markup documents: plain text and `[name]...[/]` spans nested to
    any depth. Writing a document out and reading it back with the tokenizer
    gives its tokens; stripping it gives its plain content; rendering it gives
    each span's code, its body and a reset. */
module MarkupDocs {
  import opened AnsiCodes
  import opened Markup
  import opened SeqFacts
  import opened Renderer

  datatype Node = Plain(text: string) | Span(name: string, body: seq<Node>)

  /** Plain text holds no '[' and every span is named by a valid style name. */
  predicate WellFormed(doc: seq<Node>)
    decreases doc
  {
    doc == [] ||
    (&& (match doc[0]
         case Plain(t) => '[' !in t
         case Span(name, body) => IsTagName(name) && WellFormed(body))
     && WellFormed(doc[1..]))
  }

  /** The document written out as markup text. */
  function Serialize(doc: seq<Node>): (text: string)
    decreases doc
  {
    if doc == [] then []
    else
      match doc[0]
      case Plain(t) => t + Serialize(doc[1..])
      case Span(name, body) => "[" + name + "]" + Serialize(body) + "[/]" + Serialize(doc[1..])
  }

  /** The tokens the document stands for. */
  function TokensOf(doc: seq<Node>): (toks: seq<Token>)
    decreases doc
  {
    if doc == [] then []
    else
      match doc[0]
      case Plain(t) => Chars(t) + TokensOf(doc[1..])
      case Span(name, body) => [Open(name)] + TokensOf(body) + [Close] + TokensOf(doc[1..])
  }

  /** The plain content of the document, spans removed, text in order. */
  function Content(doc: seq<Node>): (text: string)
    decreases doc
  {
    if doc == [] then []
    else
      match doc[0]
      case Plain(t) => t + Content(doc[1..])
      case Span(_, body) => Content(body) + Content(doc[1..])
  }

  /** The styled rendering of the document: each span is its style's code, its
      body, then a reset. */
  function Render(table: map<string, string>, doc: seq<Node>): (styled: string)
    decreases doc
  {
    if doc == [] then []
    else
      match doc[0]
      case Plain(t) => t + Render(table, doc[1..])
      case Span(name, body) => Lookup(table, name) + Render(table, body) + RESET + Render(table, doc[1..])
  }

  lemma TokenizeSpanNested(name: string, body: string, bodyToks: seq<Token>, after: string, afterToks: seq<Token>)
    requires IsTagName(name)
    requires Tokenize(body + ("[/]" + after)) == bodyToks + Tokenize("[/]" + after)
    requires Tokenize(after) == afterToks
    ensures Tokenize("[" + name + "]" + (body + ("[/]" + after))) == [Open(name)] + bodyToks + [Close] + afterToks
  {
    TokenizeOpen(name, body + ("[/]" + after));
    TokenizeClose(after);
    Regroup4([Open(name)], bodyToks, [Close], afterToks);
  }

  /** A one-node document. */
  lemma SingleNode(table: map<string, string>, n: Node)
    ensures n.Plain? ==> Serialize([n]) == n.text && Content([n]) == n.text && Render(table, [n]) == n.text
    ensures n.Plain? ==> (WellFormed([n]) <==> '[' !in n.text)
    ensures n.Span? ==> Serialize([n]) == "[" + n.name + "]" + Serialize(n.body) + "[/]"
    ensures n.Span? ==> Content([n]) == Content(n.body)
    ensures n.Span? ==> Render(table, [n]) == Lookup(table, n.name) + Render(table, n.body) + RESET
    ensures n.Span? ==> (WellFormed([n]) <==> IsTagName(n.name) && WellFormed(n.body))
  {
    assert [n][1..] == [];
  }

  /** Documents written one after the other. */
  lemma Concatenation(table: map<string, string>, a: seq<Node>, b: seq<Node>)
    ensures Serialize(a + b) == Serialize(a) + Serialize(b)
    ensures Content(a + b) == Content(a) + Content(b)
    ensures Render(table, a + b) == Render(table, a) + Render(table, b)
    ensures WellFormed(a + b) <==> WellFormed(a) && WellFormed(b)
  {
    SerializeAppend(a, b);
    ContentAppend(a, b);
    RenderAppend(table, a, b);
    WellFormedAppend(a, b);
  }

  lemma {:induction false} SerializeAppend(a: seq<Node>, b: seq<Node>)
    ensures Serialize(a + b) == Serialize(a) + Serialize(b)
    decreases a
  {
    if a == [] {
      assert a + b == b;
    } else {
      assert (a + b)[0] == a[0];
      assert (a + b)[1..] == a[1..] + b;
      SerializeAppend(a[1..], b);
    }
  }

  lemma {:induction false} ContentAppend(a: seq<Node>, b: seq<Node>)
    ensures Content(a + b) == Content(a) + Content(b)
    decreases a
  {
    if a == [] {
      assert a + b == b;
    } else {
      assert (a + b)[0] == a[0];
      assert (a + b)[1..] == a[1..] + b;
      ContentAppend(a[1..], b);
    }
  }

  lemma {:induction false} RenderAppend(table: map<string, string>, a: seq<Node>, b: seq<Node>)
    ensures Render(table, a + b) == Render(table, a) + Render(table, b)
    decreases a
  {
    if a == [] {
      assert a + b == b;
    } else {
      assert (a + b)[0] == a[0];
      assert (a + b)[1..] == a[1..] + b;
      RenderAppend(table, a[1..], b);
    }
  }

  lemma {:induction false} WellFormedAppend(a: seq<Node>, b: seq<Node>)
    ensures WellFormed(a + b) <==> WellFormed(a) && WellFormed(b)
    decreases a
  {
    if a == [] {
      assert a + b == b;
    } else {
      assert (a + b)[0] == a[0];
      assert (a + b)[1..] == a[1..] + b;
      WellFormedAppend(a[1..], b);
    }
  }

  /** Plain text reads back as its characters. */
  lemma TokenizePlain(t: string, tail: string, tailToks: seq<Token>, rest: string)
    requires '[' !in t
    requires Tokenize(tail + rest) == tailToks + Tokenize(rest)
    ensures Tokenize(t + tail + rest) == Chars(t) + tailToks + Tokenize(rest)
  {
    TokenizeTagFree(t, tail + rest);
    Regroup3(t, tail, rest);
    Regroup3(Chars(t), tailToks, Tokenize(rest));
  }

  /** A tagged span reads back as its opener, its body's tokens and a closer. */
  lemma TokenizeSpan(name: string, body: string, bodyToks: seq<Token>, tail: string, tailToks: seq<Token>, rest: string)
    requires IsTagName(name)
    requires Tokenize(body + ("[/]" + (tail + rest))) == bodyToks + Tokenize("[/]" + (tail + rest))
    requires Tokenize(tail + rest) == tailToks + Tokenize(rest)
    ensures Tokenize("[" + name + "]" + body + "[/]" + tail + rest)
         == [Open(name)] + bodyToks + [Close] + tailToks + Tokenize(rest)
  {
    var restToks := Tokenize(rest);
    TokenizeSpanNested(name, body, bodyToks, tail + rest, tailToks + restToks);
    Regroup5("[" + name + "]", body, "[/]", tail, rest);
    Regroup3([Open(name)] + bodyToks + [Close], tailToks, restToks);
  }

  /** Reading back a written document yields its tokens, whatever follows it. */
  lemma {:induction false} TokenizeSerialize(doc: seq<Node>, rest: string)
    requires WellFormed(doc)
    ensures Tokenize(Serialize(doc) + rest) == TokensOf(doc) + Tokenize(rest)
    decreases doc
  {
    if doc == [] {
      assert Serialize(doc) + rest == rest;
    } else {
      var tail := doc[1..];
      TokenizeSerialize(tail, rest);
      match doc[0]
      case Plain(t) =>
        TokenizePlain(t, Serialize(tail), TokensOf(tail), rest);
      case Span(name, body) =>
        TokenizeSerialize(body, "[/]" + (Serialize(tail) + rest));
        TokenizeSpan(name, Serialize(body), TokensOf(body), Serialize(tail), TokensOf(tail), rest);
    }
  }

  /** The plain text of a document's tokens is its content. */
  lemma {:induction false} TextOfTokensOf(doc: seq<Node>)
    ensures TextOf(TokensOf(doc)) == Content(doc)
    decreases doc
  {
    if doc != [] {
      var tail := doc[1..];
      match doc[0]
      case Plain(t) =>
        TextOfAppend(Chars(t), TokensOf(tail));
        TextOfChars(t);
        TextOfTokensOf(tail);
      case Span(name, body) =>
        var inner := TokensOf(body);
        assert TokensOf(doc) == [Open(name)] + (inner + ([Close] + TokensOf(tail)));
        TextOfAppend([Open(name)], inner + ([Close] + TokensOf(tail)));
        TextOfAppend(inner, [Close] + TokensOf(tail));
        TextOfAppend([Close], TokensOf(tail));
        TextOfTokensOf(body);
        TextOfTokensOf(tail);
    }
  }

  /** A span's tokens render as its code, its body's rendering and a reset. */
  lemma RenderSpan(table: map<string, string>, depth: nat, name: string, bodyToks: seq<Token>, body: string,
                   tailToks: seq<Token>, tail: string, more: seq<Token>)
    requires RenderTokens(table, depth + 1, bodyToks + ([Close] + (tailToks + more)))
          == body + RenderTokens(table, depth + 1, [Close] + (tailToks + more))
    requires RenderTokens(table, depth, tailToks + more) == tail + RenderTokens(table, depth, more)
    ensures RenderTokens(table, depth, [Open(name)] + bodyToks + [Close] + tailToks + more)
         == Lookup(table, name) + body + RESET + tail + RenderTokens(table, depth, more)
  {
    var after := tailToks + more;
    Regroup5([Open(name)], bodyToks, [Close], tailToks, more);
    RenderOpen(table, depth, name, bodyToks + ([Close] + after));
    RenderClose(table, depth + 1, after);
    Regroup5(Lookup(table, name), body, RESET, tail, RenderTokens(table, depth, more));
  }

  /** Rendering a document's tokens closes every span it opens, so the
      rendering of what follows is unaffected. */
  lemma {:induction false} RenderTokensOf(table: map<string, string>, depth: nat, doc: seq<Node>, more: seq<Token>)
    ensures RenderTokens(table, depth, TokensOf(doc) + more) == Render(table, doc) + RenderTokens(table, depth, more)
    decreases doc
  {
    if doc == [] {
      assert TokensOf(doc) + more == more;
    } else {
      var tail := doc[1..];
      RenderTokensOf(table, depth, tail, more);
      match doc[0]
      case Plain(t) =>
        RenderPlainNode(table, depth, t, tail, more);
      case Span(name, body) =>
        RenderTokensOf(table, depth + 1, body, [Close] + (TokensOf(tail) + more));
        RenderSpan(table, depth, name, TokensOf(body), Render(table, body), TokensOf(tail), Render(table, tail), more);
    }
  }

  /** The inductive step of RenderTokensOf for a leading plain node. */
  lemma RenderPlainNode(table: map<string, string>, depth: nat, t: string, tail: seq<Node>, more: seq<Token>)
    requires RenderTokens(table, depth, TokensOf(tail) + more) == Render(table, tail) + RenderTokens(table, depth, more)
    ensures RenderTokens(table, depth, TokensOf([Plain(t)] + tail) + more)
         == Render(table, [Plain(t)] + tail) + RenderTokens(table, depth, more)
  {
    var doc := [Plain(t)] + tail;
    assert doc[1..] == tail;
    assert TokensOf(doc) == Chars(t) + TokensOf(tail);
    assert Render(table, doc) == t + Render(table, tail);
    Regroup3(Chars(t), TokensOf(tail), more);
    RenderChars(table, depth, t, TokensOf(tail) + more);
    Regroup3(t, Render(table, tail), RenderTokens(table, depth, more));
  }

  /** The tokenizer reads back exactly the tokens a document was written from. */
  lemma TokenizeRoundTrip(doc: seq<Node>)
    requires WellFormed(doc)
    ensures Tokenize(Serialize(doc)) == TokensOf(doc)
  {
    TokenizeSerialize(doc, []);
    assert Serialize(doc) + [] == Serialize(doc);
    assert TokensOf(doc) + [] == TokensOf(doc);
  }

  /** Stripping a well-formed document removes every tag and keeps its
      content, in order. */
  lemma StripSerialize(o: AnsiOutput, doc: seq<Node>)
    requires WellFormed(doc)
    ensures o.StripMarkup(Serialize(doc)) == Content(doc)
  {
    TokenizeRoundTrip(doc);
    TextOfTokensOf(doc);
  }

  /** Processing a well-formed document with markup enabled gives each span's
      code, its body and a reset; with markup disabled, its content. */
  lemma ProcessSerialize(o: AnsiOutput, doc: seq<Node>)
    requires WellFormed(doc)
    ensures o.markupEnabled ==> o.ProcessMarkup(Serialize(doc)) == Render(o.markupMap, doc)
    ensures !o.markupEnabled ==> o.ProcessMarkup(Serialize(doc)) == Content(doc)
  {
    TokenizeRoundTrip(doc);
    if o.markupEnabled {
      RenderTokensOf(o.markupMap, 0, doc, []);
      assert TokensOf(doc) + [] == TokensOf(doc);
    } else {
      StripSerialize(o, doc);
    }
  }
}
