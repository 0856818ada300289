/** `to_bool`: the total coercion of a configuration value to a boolean. */
module Coercion {

  /** The kinds of value the coercion distinguishes; `Other` stands for any
      value that is none of the others (a float, a list, an object). */
  datatype Value = NoneValue | BoolValue(b: bool) | StrValue(s: string) | IntValue(i: int) | Other

  /** The strings that coerce to true, in lower case. */
  const TruthyWords: set<string> := {"yes", "on", "1", "true"}

  predicate IsUpper(c: char) {
    'A' <= c <= 'Z'
  }

  predicate IsLower(c: char) {
    'a' <= c <= 'z'
  }

  /** Lower-cases one character (ASCII letters only). */
  function LowerChar(c: char): (r: char)
    ensures IsUpper(c) ==> IsLower(r) && r as int == c as int + 32
    ensures !IsUpper(c) ==> r == c
  {
    if IsUpper(c) then (c as int + 32) as char else c
  }

  /** Lower-cases a string character by character. */
  function Lower(s: string): (r: string)
    ensures |r| == |s|
    ensures forall i :: 0 <= i < |s| ==> r[i] == LowerChar(s[i])
  {
    seq(|s|, i requires 0 <= i < |s| => LowerChar(s[i]))
  }

  function ToBool(v: Value): (r: bool)
    ensures v.NoneValue? || v.Other? ==> !r
    ensures v.BoolValue? ==> r == v.b
    ensures v.IntValue? ==> (r <==> v.i == 1)
  {
    match v
    case NoneValue => false
    case BoolValue(b) => b
    case StrValue(s) => Lower(s) in TruthyWords
    case IntValue(i) => i == 1
    case Other => false
  }

  /** `s` spells the lower-case word `w`, each letter in either case. */
  predicate SpellsIgnoringCase(s: string, w: string) {
    && |s| == |w|
    && forall i :: 0 <= i < |s| ==>
         s[i] == w[i] || (IsLower(w[i]) && s[i] as int == w[i] as int - 32)
  }

  lemma LowerMatches(s: string, w: string)
    requires forall i :: 0 <= i < |w| ==> !IsUpper(w[i])
    ensures Lower(s) == w <==> SpellsIgnoringCase(s, w)
  {
    if SpellsIgnoringCase(s, w) {
      assert forall i :: 0 <= i < |s| ==> Lower(s)[i] == w[i];
    }
    if Lower(s) == w {
      forall i | 0 <= i < |s|
        ensures s[i] == w[i] || (IsLower(w[i]) && s[i] as int == w[i] as int - 32)
      {
        assert LowerChar(s[i]) == w[i];
      }
    }
  }

  /** A string coerces to true exactly when it is "yes", "on", "1" or "true"
      written in any mix of upper and lower case. */
  lemma ToBoolString(s: string)
    ensures ToBool(StrValue(s)) <==>
      || SpellsIgnoringCase(s, "yes")
      || SpellsIgnoringCase(s, "on")
      || SpellsIgnoringCase(s, "1")
      || SpellsIgnoringCase(s, "true")
  {
    LowerMatches(s, "yes");
    LowerMatches(s, "on");
    LowerMatches(s, "1");
    LowerMatches(s, "true");
  }

  /** Changing the case of letters never changes the coercion of a string. */
  lemma ToBoolIgnoresCase(s: string, t: string)
    requires |s| == |t|
    requires forall i :: 0 <= i < |s| ==> LowerChar(s[i]) == LowerChar(t[i])
    ensures ToBool(StrValue(s)) == ToBool(StrValue(t))
  {
    assert Lower(s) == Lower(t);
  }
}
