/** The ANSI SGR ("select graphic rendition") codes the renderer emits, and
    the text a terminal shows once those codes are interpreted. */
module AnsiCodes {
  import opened SeqFacts

  /** The escape character that starts every CSI sequence. */
  const ESC: char := '\U{1B}'

  const RESET: string := [ESC] + "[0m"
  const BOLD: string := [ESC] + "[1m"
  const DIM: string := [ESC] + "[2m"
  const RED: string := [ESC] + "[31m"
  const GREEN: string := [ESC] + "[32m"
  const BLUE: string := [ESC] + "[34m"

  predicate IsParamChar(c: char) {
    '0' <= c <= '9' || c == ';'
  }

  /** Length of the longest prefix of `s` made of SGR parameter characters. */
  function ParamLen(s: string): (n: nat)
    ensures n <= |s|
    ensures forall i :: 0 <= i < n ==> IsParamChar(s[i])
    ensures n < |s| ==> !IsParamChar(s[n])
  {
    if s == [] || !IsParamChar(s[0]) then 0 else 1 + ParamLen(s[1..])
  }

  /** Length of the SGR sequence ESC '[' params 'm' that starts `s`, or 0 when `s`
      does not start with one. */
  function SgrLen(s: string): (n: nat)
    ensures n == 0 || (3 <= n <= |s| && s[0] == ESC && s[1] == '[' && s[n - 1] == 'm')
    ensures n > 0 ==> forall i :: 2 <= i < n - 1 ==> IsParamChar(s[i])
  {
    if |s| >= 3 && s[0] == ESC && s[1] == '[' then
      var k := ParamLen(s[2..]);
      if 2 + k < |s| && s[2 + k] == 'm' then k + 3 else 0
    else 0
  }

  /** A style code is a concatenation of zero or more SGR sequences. */
  predicate IsStyleCode(v: string)
    decreases |v|
  {
    v == [] || (SgrLen(v) > 0 && IsStyleCode(v[SgrLen(v)..]))
  }

  /** The text a terminal displays for `s`: every SGR sequence removed, every
      other character kept in order. */
  function StripAnsi(s: string): (r: string)
    decreases |s|
    ensures |r| <= |s|
  {
    if s == [] then []
    else if SgrLen(s) > 0 then StripAnsi(s[SgrLen(s)..])
    else [s[0]] + StripAnsi(s[1..])
  }

  lemma {:induction false} ParamLenAppend(a: string, b: string)
    requires ParamLen(a) < |a|
    ensures ParamLen(a + b) == ParamLen(a)
  {
    if IsParamChar(a[0]) {
      assert (a + b)[1..] == a[1..] + b;
      ParamLenAppend(a[1..], b);
    }
  }

  /** An SGR sequence at the head of `v` is recognised the same way whatever follows. */
  lemma SgrLenAppend(v: string, rest: string)
    requires SgrLen(v) > 0
    ensures SgrLen(v + rest) == SgrLen(v)
  {
    var k := ParamLen(v[2..]);
    assert (v + rest)[2..] == v[2..] + rest;
    ParamLenAppend(v[2..], rest);
  }

  /** A terminal shows nothing for a style code. */
  lemma {:induction false} StripAnsiStyleCode(v: string, rest: string)
    requires IsStyleCode(v)
    ensures StripAnsi(v + rest) == StripAnsi(rest)
    decreases |v|
  {
    if v != [] {
      var n := SgrLen(v);
      SgrLenAppend(v, rest);
      assert (v + rest)[n..] == v[n..] + rest;
      StripAnsiStyleCode(v[n..], rest);
      assert StripAnsi(v + rest) == StripAnsi((v + rest)[n..]);
    } else {
      assert v + rest == rest;
    }
  }

  /** A terminal shows text free of escape characters as it is. */
  lemma {:induction false} StripAnsiText(t: string, rest: string)
    requires ESC !in t
    ensures StripAnsi(t + rest) == t + StripAnsi(rest)
  {
    if t != [] {
      assert (t + rest)[0] == t[0] != ESC;
      assert (t + rest)[1..] == t[1..] + rest;
      StripAnsiText(t[1..], rest);
      assert StripAnsi(t + rest) == [t[0]] + StripAnsi(t[1..] + rest);
      SplitFirst(t, StripAnsi(rest));
    } else {
      assert t + rest == rest;
    }
  }

  /** ESC '[' p 'm' is one SGR sequence whenever `p` holds only parameter characters. */
  lemma SingleSgr(p: string, v: string)
    requires forall i :: 0 <= i < |p| ==> IsParamChar(p[i])
    requires v == [ESC, '['] + p + "m"
    ensures SgrLen(v) == |v|
    ensures IsStyleCode(v)
  {
    var x := v[2..];
    assert x == p + "m";
    assert x[|p|] == 'm';
    assert v[|v|..] == [];
  }

  /** A non-empty style code starts with ESC '['. */
  lemma StyleCodeStart(v: string)
    requires IsStyleCode(v)
    ensures v == [] || v[..2] == [ESC, '[']
  {
    if v != [] {
      assert SgrLen(v) > 0;
    }
  }

  /** The reset shows nothing on a terminal. */
  lemma ResetInvisible()
    ensures IsStyleCode(RESET)
    ensures StripAnsi(RESET) == []
  {
    SingleSgr("0", RESET);
    StripAnsiStyleCode(RESET, []);
    assert RESET + [] == RESET;
  }

  lemma ConstantsAreStyleCodes()
    ensures IsStyleCode(RESET) && IsStyleCode(BOLD) && IsStyleCode(DIM)
    ensures IsStyleCode(RED) && IsStyleCode(GREEN) && IsStyleCode(BLUE)
    ensures IsStyleCode(BOLD + RED)
  {
    SingleSgr("0", RESET);
    SingleSgr("1", BOLD);
    SingleSgr("2", DIM);
    SingleSgr("31", RED);
    SingleSgr("32", GREEN);
    SingleSgr("34", BLUE);
    SgrLenAppend(BOLD, RED);
    assert (BOLD + RED)[SgrLen(BOLD)..] == RED;
  }
}
