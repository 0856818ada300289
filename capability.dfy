/** `should_do_markup`: whether ANSI styling should be emitted, decided from a
    snapshot of the process environment passed in as a map. */
module Capability {
  import opened Coercion

  type Env = map<string, string>

  /** The variables the decision reads; every other variable is ignored. */
  const ColourVars: set<string> :=
    {"NO_COLOR", "FORCE_COLOR", "PY_COLORS", "CLICOLOR", "ANSIBLE_FORCE_COLOR", "TERM"}

  /** `sub` occurs somewhere inside `s`. */
  predicate HasInfix(s: string, sub: string)
    decreases |s|
  {
    sub <= s || (s != [] && HasInfix(s[1..], sub))
  }

  /** NO_COLOR is set to a non-empty value. */
  predicate NoColorRequested(env: Env) {
    "NO_COLOR" in env && env["NO_COLOR"] != ""
  }

  /** Variable `name` is set and its value coerces to true. */
  predicate FlagSet(env: Env, name: string) {
    name in env && ToBool(StrValue(env[name]))
  }

  /** One of the tool-specific force flags is set and true. */
  predicate ToolForceRequested(env: Env) {
    FlagSet(env, "PY_COLORS") || FlagSet(env, "CLICOLOR") || FlagSet(env, "ANSIBLE_FORCE_COLOR")
  }

  /** The terminal named by TERM can show colour; "dumb" names neither marker. */
  predicate ColourTerm(term: string) {
    HasInfix(term, "color") || HasInfix(term, "xterm")
  }

  function ShouldDoMarkup(env: Env): (r: bool)
    // NO_COLOR overrides everything else
    ensures NoColorRequested(env) ==> !r
    // then FORCE_COLOR, then the tool-specific flags, whatever TERM says
    ensures !NoColorRequested(env) && FlagSet(env, "FORCE_COLOR") ==> r
    ensures !NoColorRequested(env) && ToolForceRequested(env) ==> r
    // without a force flag the terminal decides, and a missing TERM means no colour
    ensures !FlagSet(env, "FORCE_COLOR") && !ToolForceRequested(env) ==>
              (r <==> !NoColorRequested(env) && "TERM" in env && ColourTerm(env["TERM"]))
  {
    if NoColorRequested(env) then false
    else if FlagSet(env, "FORCE_COLOR") then true
    else if ToolForceRequested(env) then true
    else if "TERM" in env then ColourTerm(env["TERM"])
    else false
  }

  /** The decision reads only the six colour variables. */
  lemma ShouldDoMarkupReadsColourVarsOnly(env1: Env, env2: Env)
    requires forall k :: k in ColourVars ==> (k in env1 <==> k in env2)
    requires forall k :: k in ColourVars && k in env1 ==> env1[k] == env2[k]
    ensures ShouldDoMarkup(env1) == ShouldDoMarkup(env2)
  {
    assert "NO_COLOR" in ColourVars && "FORCE_COLOR" in ColourVars && "TERM" in ColourVars;
    assert "PY_COLORS" in ColourVars && "CLICOLOR" in ColourVars && "ANSIBLE_FORCE_COLOR" in ColourVars;
  }

  /** Of the colour variables only `name` is set, to `value`. */
  predicate OnlyColourVar(env: Env, name: string, value: string) {
    && name in env && env[name] == value
    && forall k :: k in ColourVars && k != name ==> k !in env
  }

  /** The four environments of the unit test, each with the other colour
      variables cleared. */
  lemma ShouldDoMarkupCases(env: Env)
    ensures OnlyColourVar(env, "NO_COLOR", "1") ==> !ShouldDoMarkup(env)
    ensures OnlyColourVar(env, "FORCE_COLOR", "1") ==> ShouldDoMarkup(env)
    ensures OnlyColourVar(env, "TERM", "xterm-256color") ==> ShouldDoMarkup(env)
    ensures OnlyColourVar(env, "TERM", "dumb") ==> !ShouldDoMarkup(env)
  {
    assert Lower("1") == "1";
    if OnlyColourVar(env, "TERM", "xterm-256color") {
      assert "NO_COLOR" in ColourVars && "FORCE_COLOR" in ColourVars;
      assert "PY_COLORS" in ColourVars && "CLICOLOR" in ColourVars && "ANSIBLE_FORCE_COLOR" in ColourVars;
      assert "xterm" <= "xterm-256color";
    }
    if OnlyColourVar(env, "TERM", "dumb") {
      assert "NO_COLOR" in ColourVars && "FORCE_COLOR" in ColourVars;
      assert "PY_COLORS" in ColourVars && "CLICOLOR" in ColourVars && "ANSIBLE_FORCE_COLOR" in ColourVars;
    }
    if OnlyColourVar(env, "FORCE_COLOR", "1") {
      assert "NO_COLOR" in ColourVars;
    }
  }
}
