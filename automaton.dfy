/**
 * The finite automaton of the regular-grammar tool: its five fields, fixed
 * by the constructor, and the membership test that runs it over a string.
 * A `delta` key `"state,symbol"` is modelled as the pair (state, symbol):
 * the symbol is one character, so the string key determines the pair.
 */
module Automata {
  import opened Collections

  /** A `delta` key: the current state and the input character. */
  type TransKey = (string, char)

  /** One lookup of the loop body: a missing or empty target stops the run. */
  function Step(delta: map<TransKey, string>, p: string, c: char): (r: Option<string>)
    ensures r.Some? <==> (p, c) in delta && delta[(p, c)] != ""
    ensures r.Some? ==> r.value == delta[(p, c)]
  {
    if (p, c) in delta && delta[(p, c)] != "" then Some(delta[(p, c)]) else None
  }

  /** The state reached from `q` after reading all of `s`, or `None` when some lookup fails. */
  function Run(delta: map<TransKey, string>, q: string, s: string): (r: Option<string>)
    ensures s == [] ==> r == Some(q)
    decreases |s|
  {
    if s == [] then Some(q)
    else
      match Run(delta, q, s[..|s| - 1])
      case None => None
      case Some(p) => Step(delta, p, s[|s| - 1])
  }

  /** Reading `s` then `t` is reading `s + t`. */
  lemma {:induction false} RunAppend(delta: map<TransKey, string>, q: string, s: string, t: string)
    ensures Run(delta, q, s + t) ==
              match Run(delta, q, s)
              case None => None
              case Some(p) => Run(delta, p, t)
    decreases |t|
  {
    if t == [] {
      assert s + t == s;
    } else {
      var init := t[..|t| - 1];
      assert (s + t)[..|s + t| - 1] == s + init;
      assert (s + t)[|s + t| - 1] == t[|t| - 1];
      RunAppend(delta, q, s, init);
    }
  }

  /** Once a prefix has no run, no extension of it has one. */
  lemma {:induction false} StuckPrefix(delta: map<TransKey, string>, q: string, s: string, i: nat)
    requires i <= |s| && Run(delta, q, s[..i]) == None
    ensures Run(delta, q, s) == None
  {
    assert s == s[..i] + s[i..];
    RunAppend(delta, q, s[..i], s[i..]);
  }

  class FiniteAutomaton {
    const Q: seq<string>
    const Sigma: seq<string>
    const delta: map<TransKey, string>
    const q0: string
    const F: string

    /** Lines 8-14: the constructor stores its five arguments. */
    constructor (Q: seq<string>, Sigma: seq<string>, delta: map<TransKey, string>, q0: string, F: string)
      ensures this.Q == Q && this.Sigma == Sigma && this.delta == delta && this.q0 == q0 && this.F == F
    {
      this.Q := Q;
      this.Sigma := Sigma;
      this.delta := delta;
      this.q0 := q0;
      this.F := F;
    }

    /** The strings the automaton accepts: the run over them exists and ends in `F`. */
    ghost predicate Accepts(s: string) {
      Run(delta, q0, s) == Some(F)
    }

    /** Lines 17-28: `stringBelongToLanguage`. */
    method StringBelongToLanguage(inputString: string) returns (accepted: bool)
      ensures accepted <==> Accepts(inputString)
      ensures inputString == [] ==> (accepted <==> q0 == F)
    {
      var currentState := q0;
      for i := 0 to |inputString|
        invariant Run(delta, q0, inputString[..i]) == Some(currentState)
      {
        var cursor := inputString[i];
        assert inputString[..i + 1][..i] == inputString[..i];
        if (currentState, cursor) !in delta || delta[(currentState, cursor)] == "" {
          StuckPrefix(delta, q0, inputString, i + 1);
          return false;
        }
        currentState := delta[(currentState, cursor)];
      }
      assert inputString[..|inputString|] == inputString;
      return currentState == F;
    }
  }
}
