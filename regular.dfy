/**
 * The regular-grammar class of the regular-grammar tool: its Chomsky
 * classification, its determinism test and its conversion to a finite
 * automaton. Productions are strings, one character per symbol; `VN` and
 * `VT` are lists of strings, so a character is a terminal when the
 * one-character string made of it is listed in `VT`.
 */
module RegularGrammars {
  import opened Collections
  import opened Automata

  const Type3Label: string := "Type 3 (Regular Grammar)"
  const Type2Label: string := "Type 2 (Context-Free Grammar)"
  const Type1Label: string := "Type 1 (Context-Sensitive Grammar)"

  /** The final state `X` every one-character production leads to. */
  const FinalState: string := "X"

  /** The production rules: each left-hand side to its productions, in insertion order. */
  type Rules = OMap<string, seq<string>>

  /** `VT.includes(c)` for the one-character string of `c`. */
  predicate IsTerminal(c: char, VT: seq<string>) {
    [c] in VT
  }

  /** A production that leaves `isType3` set: at most two characters, the first a terminal. */
  predicate RegularProduction(production: string, VT: seq<string>) {
    && |production| <= 2
    && (|production| >= 1 ==> IsTerminal(production[0], VT))
  }

  /** Every production of every rule is regular. */
  ghost predicate AllRegular(m: map<string, seq<string>>, VT: seq<string>) {
    forall k, p :: k in m && p in m[k] ==> RegularProduction(p, VT)
  }

  /** Some rule has the empty production. */
  ghost predicate HasEmpty(m: map<string, seq<string>>) {
    exists k :: k in m && "" in m[k]
  }

  /** The state a production leads to: its second character, or `X` when it has one character. */
  function Target(p: string): (t: string)
    requires |p| >= 1
    ensures |t| == 1
    ensures t == FinalState <==> |p| == 1 || p[1] == 'X'
  {
    if |p| == 1 then FinalState else [p[1]]
  }

  /** The set of targets `isDeterministic` collects at key (nonterminal, `c`) from the productions `prods`. */
  ghost function TargetSet(prods: seq<string>, c: char): set<string> {
    set p | p in prods && |p| >= 1 && p[0] == c :: Target(p)
  }

  /** No key collects two different targets. */
  ghost predicate DeterministicRules(m: map<string, seq<string>>) {
    forall k, c :: k in m ==> |TargetSet(m[k], c)| <= 1
  }

  /** A production the automaton turns into a transition on `c`: one or two characters, starting with `c`. */
  predicate Contributes(p: string, c: char) {
    (|p| == 1 || |p| == 2) && p[0] == c
  }

  /** The targets the automaton collects at key (nonterminal, `c`), in production order, duplicates kept. */
  function Targets(prods: seq<string>, c: char): (ts: seq<string>)
    ensures |ts| <= |prods|
    decreases |prods|
  {
    if prods == [] then []
    else
      var p := prods[|prods| - 1];
      Targets(prods[..|prods| - 1], c) + (if Contributes(p, c) then [Target(p)] else [])
  }

  /** `parts.join(sep)` */
  function Join(parts: seq<string>, sep: string): (s: string)
    ensures |parts| == 1 ==> s == parts[0]
    decreases |parts|
  {
    if parts == [] then ""
    else if |parts| == 1 then parts[0]
    else Join(parts[..|parts| - 1], sep) + sep + parts[|parts| - 1]
  }

  /** The `delta` entry for the collected targets: the sole target, or the composite name `{t1,...,tn}`. */
  function StateName(ts: seq<string>): (name: string)
    requires |ts| >= 1
  {
    if |ts| == 1 then ts[0] else "{" + Join(ts, ",") + "}"
  }

  /** `delta` is the transition table `toFiniteAutomaton` builds from the rules `m`. */
  ghost predicate DeltaOf(m: map<string, seq<string>>, delta: map<TransKey, string>) {
    && (forall tk :: tk in delta <==> tk.0 in m && Targets(m[tk.0], tk.1) != [])
    && (forall tk :: tk in delta ==> delta[tk] == StateName(Targets(m[tk.0], tk.1)))
  }

  class Grammar {
    const VN: seq<string>
    const VT: seq<string>
    const startVariable: string
    const hashMap: Rules

    /** A JavaScript `Map`: its key order lists each key once. */
    ghost predicate Valid() {
      hashMap.Valid()
    }

    /** Lines 9-14: the constructor stores its four arguments. */
    constructor (VN: seq<string>, VT: seq<string>, startVariable: string, hashMap: Rules)
      requires hashMap.Valid()
      ensures Valid()
      ensures this.VN == VN && this.VT == VT && this.startVariable == startVariable && this.hashMap == hashMap
    {
      this.VN := VN;
      this.VT := VT;
      this.startVariable := startVariable;
      this.hashMap := hashMap;
    }

    /** Lines 92-120: `classifyGrammar`. */
    method ClassifyGrammar() returns (r: string)
      requires Valid()
      ensures r == Type3Label <==> AllRegular(hashMap.m, VT)
      ensures r == Type2Label <==> !AllRegular(hashMap.m, VT) && !HasEmpty(hashMap.m)
      ensures r == Type1Label <==> !AllRegular(hashMap.m, VT) && HasEmpty(hashMap.m)
    {
      var isType3 := true;
      var isType2 := true;
      var keys := hashMap.keys;
      for i := 0 to |keys|
        invariant isType3 <==> forall k, p :: k in keys[..i] && p in hashMap.m[k] ==> RegularProduction(p, VT)
        invariant isType2 <==> forall k :: k in keys[..i] ==> "" !in hashMap.m[k]
      {
        isType3, isType2 := ClassifyProductions(hashMap.m[keys[i]], VT, isType3, isType2);
        assert forall k :: k in keys[..i + 1] <==> k in keys[..i] || k == keys[i] by {
          assert keys[..i + 1] == keys[..i] + [keys[i]];
        }
      }
      assert keys[..|keys|] == keys;
      if isType3 {
        r := Type3Label;
      } else if isType2 {
        r := Type2Label;
      } else {
        r := Type1Label;
      }
    }

    /** Lines 123-153: `isDeterministic`. */
    method IsDeterministic() returns (deterministic: bool)
      requires Valid()
      ensures deterministic <==> DeterministicRules(hashMap.m)
    {
      var transitions: map<TransKey, set<string>> := map[];
      var keys := hashMap.keys;
      for i := 0 to |keys|
        invariant forall tk :: tk in transitions <==> tk.0 in keys[..i] && TargetSet(hashMap.m[tk.0], tk.1) != {}
        invariant forall tk :: tk in transitions ==> transitions[tk] == TargetSet(hashMap.m[tk.0], tk.1)
      {
        var nonTerminal := keys[i];
        assert forall k :: k in keys[..i + 1] <==> k in keys[..i] || k == nonTerminal by {
          assert keys[..i + 1] == keys[..i] + [nonTerminal];
        }
        DistinctNotBefore(keys, i);
        transitions := CollectTargetSets(nonTerminal, hashMap.m[nonTerminal], transitions);
      }
      assert keys[..|keys|] == keys;
      var rest := transitions.Keys;
      while rest != {}
        invariant rest <= transitions.Keys
        invariant forall tk :: tk in transitions && tk !in rest ==> |transitions[tk]| <= 1
        decreases rest
      {
        var key :| key in rest;
        if |transitions[key]| > 1 {
          return false;
        }
        rest := rest - {key};
      }
      forall k, c | k in hashMap.m ensures |TargetSet(hashMap.m[k], c)| <= 1 {
        if TargetSet(hashMap.m[k], c) != {} {
          assert (k, c) in transitions;
        }
      }
      return true;
    }

    /** Lines 39-90: `toFiniteAutomaton`. */
    method ToFiniteAutomaton() returns (fa: FiniteAutomaton)
      requires Valid()
      ensures fa.Q == VN + [FinalState] && fa.Sigma == VT
      ensures fa.q0 == startVariable && fa.F == FinalState
      ensures DeltaOf(hashMap.m, fa.delta)
    {
      var sigma := VT;
      var Q := VN + [FinalState];
      var q0 := startVariable;
      var finalState := FinalState;
      var transitions: map<TransKey, seq<string>> := map[];
      var keys := hashMap.keys;
      for i := 0 to |keys|
        invariant forall tk :: tk in transitions <==> tk.0 in keys[..i] && Targets(hashMap.m[tk.0], tk.1) != []
        invariant forall tk :: tk in transitions ==> transitions[tk] == Targets(hashMap.m[tk.0], tk.1)
      {
        var key := keys[i];
        assert forall k :: k in keys[..i + 1] <==> k in keys[..i] || k == key by {
          assert keys[..i + 1] == keys[..i] + [key];
        }
        DistinctNotBefore(keys, i);
        transitions := CollectTargets(key, hashMap.m[key], transitions);
      }
      assert keys[..|keys|] == keys;
      var delta: map<TransKey, string> := map[];
      var rest := transitions.Keys;
      while rest != {}
        invariant rest <= transitions.Keys
        invariant forall tk :: tk in delta <==> tk in transitions && tk !in rest
        invariant forall tk :: tk in delta ==> |transitions[tk]| >= 1 && delta[tk] == StateName(transitions[tk])
        decreases rest
      {
        var transKey :| transKey in rest;
        var nextStates := transitions[transKey];
        if |nextStates| == 1 {
          delta := delta[transKey := nextStates[0]];
        } else {
          delta := delta[transKey := "{" + Join(nextStates, ",") + "}"];
        }
        rest := rest - {transKey};
      }
      fa := new FiniteAutomaton(Q, sigma, delta, q0, finalState);
    }
  }

  /** Lines 97-110: the flags after the productions of one rule. */
  method ClassifyProductions(productions: seq<string>, VT: seq<string>, isType3: bool, isType2: bool)
    returns (isType3': bool, isType2': bool)
    ensures isType3' <==> isType3 && forall p :: p in productions ==> RegularProduction(p, VT)
    ensures isType2' <==> isType2 && "" !in productions
  {
    isType3', isType2' := isType3, isType2;
    for j := 0 to |productions|
      invariant isType3' <==> isType3 && forall p :: p in productions[..j] ==> RegularProduction(p, VT)
      invariant isType2' <==> isType2 && "" !in productions[..j]
    {
      var production := productions[j];
      assert forall p :: p in productions[..j + 1] <==> p in productions[..j] || p == production by {
        assert productions[..j + 1] == productions[..j] + [production];
      }
      if |production| > 2 {
        isType3' := false;
      }
      if |production| == 2 && !IsTerminal(production[0], VT) {
        isType3' := false;
      }
      if |production| == 1 && !IsTerminal(production[0], VT) {
        isType3' := false;
      }
      if |production| == 0 {
        isType2' := false;
      }
      assert isType3' <==> (isType3 && forall p :: p in productions[..j] ==> RegularProduction(p, VT)) &&
                           RegularProduction(production, VT);
    }
    assert productions[..|productions|] == productions;
  }

  /** Lines 127-142: the target sets one rule adds to `transitions`. */
  method CollectTargetSets(nonTerminal: string, productions: seq<string>, transitions: map<TransKey, set<string>>)
    returns (transitions': map<TransKey, set<string>>)
    requires forall tk :: tk in transitions ==> tk.0 != nonTerminal
    ensures forall tk: TransKey :: tk.0 != nonTerminal ==>
              (tk in transitions' <==> tk in transitions) && (tk in transitions ==> transitions'[tk] == transitions[tk])
    ensures forall tk: TransKey :: tk.0 == nonTerminal ==>
              (tk in transitions' <==> TargetSet(productions, tk.1) != {}) &&
              (tk in transitions' ==> transitions'[tk] == TargetSet(productions, tk.1))
  {
    transitions' := transitions;
    for j := 0 to |productions|
      invariant forall tk: TransKey :: tk.0 != nonTerminal ==>
                  (tk in transitions' <==> tk in transitions) && (tk in transitions ==> transitions'[tk] == transitions[tk])
      invariant forall tk: TransKey :: tk.0 == nonTerminal ==>
                  (tk in transitions' <==> TargetSet(productions[..j], tk.1) != {}) &&
                  (tk in transitions' ==> transitions'[tk] == TargetSet(productions[..j], tk.1))
    {
      var production := productions[j];
      TargetSetStep(productions, j);
      if |production| >= 1 {
        var inputSymbol := production[0];
        var transitionKey := (nonTerminal, inputSymbol);
        if transitionKey !in transitions' {
          transitions' := transitions'[transitionKey := {}];
        }
        if |production| == 1 {
          transitions' := transitions'[transitionKey := transitions'[transitionKey] + {FinalState}];
        } else {
          transitions' := transitions'[transitionKey := transitions'[transitionKey] + {[production[1]]}];
        }
      }
    }
    assert productions[..|productions|] == productions;
  }

  /** One more production adds its target to the set at its own first character, and nothing elsewhere. */
  lemma TargetSetStep(productions: seq<string>, j: nat)
    requires j < |productions|
    ensures var p := productions[j];
            forall c :: TargetSet(productions[..j + 1], c) ==
                          TargetSet(productions[..j], c) + (if |p| >= 1 && p[0] == c then {Target(p)} else {})
  {
    assert productions[..j + 1] == productions[..j] + [productions[j]];
  }

  /** Lines 49-72: the target lists one rule adds to `transitions`. */
  method CollectTargets(key: string, values: seq<string>, transitions: map<TransKey, seq<string>>)
    returns (transitions': map<TransKey, seq<string>>)
    requires forall tk :: tk in transitions ==> tk.0 != key
    ensures forall tk: TransKey :: tk.0 != key ==>
              (tk in transitions' <==> tk in transitions) && (tk in transitions ==> transitions'[tk] == transitions[tk])
    ensures forall tk: TransKey :: tk.0 == key ==>
              (tk in transitions' <==> Targets(values, tk.1) != []) &&
              (tk in transitions' ==> transitions'[tk] == Targets(values, tk.1))
  {
    transitions' := transitions;
    for j := 0 to |values|
      invariant forall tk: TransKey :: tk.0 != key ==>
                  (tk in transitions' <==> tk in transitions) && (tk in transitions ==> transitions'[tk] == transitions[tk])
      invariant forall tk: TransKey :: tk.0 == key ==>
                  (tk in transitions' <==> Targets(values[..j], tk.1) != []) &&
                  (tk in transitions' ==> transitions'[tk] == Targets(values[..j], tk.1))
    {
      var value := values[j];
      assert values[..j + 1][..j] == values[..j];
      if |value| == 2 {
        var inputSymbol := value[0];
        var nextState := [value[1]];
        var transKey := (key, inputSymbol);
        if transKey !in transitions' {
          transitions' := transitions'[transKey := []];
        }
        transitions' := transitions'[transKey := transitions'[transKey] + [nextState]];
      } else if |value| == 1 {
        var inputSymbol := value[0];
        var transKey := (key, inputSymbol);
        if transKey !in transitions' {
          transitions' := transitions'[transKey := []];
        }
        transitions' := transitions'[transKey := transitions'[transKey] + [FinalState]];
      }
    }
    assert values[..|values|] == values;
  }
  /** Two different targets at one key exactly when two productions with the same first character lead to different states. */
  lemma NondeterministicIff(prods: seq<string>, c: char)
    ensures |TargetSet(prods, c)| > 1 <==>
              exists p1, p2 :: p1 in prods && p2 in prods && |p1| >= 1 && |p2| >= 1 &&
                               p1[0] == c && p2[0] == c && Target(p1) != Target(p2)
  {
    var s := TargetSet(prods, c);
    if |s| > 1 {
      var t1 :| t1 in s;
      assert |s - {t1}| == |s| - 1;
      var t2 :| t2 in s - {t1};
      var p1 :| p1 in prods && |p1| >= 1 && p1[0] == c && Target(p1) == t1;
      var p2 :| p2 in prods && |p2| >= 1 && p2[0] == c && Target(p2) == t2;
    }
    if exists p1, p2 :: p1 in prods && p2 in prods && |p1| >= 1 && |p2| >= 1 &&
                        p1[0] == c && p2[0] == c && Target(p1) != Target(p2) {
      var p1, p2 :| p1 in prods && p2 in prods && |p1| >= 1 && |p2| >= 1 &&
                    p1[0] == c && p2[0] == c && Target(p1) != Target(p2);
      assert {Target(p1), Target(p2)} <= s;
      SubsetCardinality({Target(p1), Target(p2)}, s);
    }
  }

  /** Every target the automaton collects at a key is one `isDeterministic` collects there too. */
  lemma {:induction false} TargetsInTargetSet(prods: seq<string>, c: char)
    ensures forall t :: t in Targets(prods, c) ==> t in TargetSet(prods, c)
    decreases |prods|
  {
    if prods != [] {
      var init := prods[..|prods| - 1];
      TargetsInTargetSet(init, c);
      assert forall p :: p in init ==> p in prods;
      assert prods[|prods| - 1] in prods;
    }
  }

  /** For rules `isDeterministic` accepts, all the targets collected at one key are the same state. */
  lemma DeterministicSameTargets(m: map<string, seq<string>>, k: string, c: char)
    requires DeterministicRules(m) && k in m
    ensures forall i, j :: 0 <= i < |Targets(m[k], c)| && 0 <= j < |Targets(m[k], c)| ==>
              Targets(m[k], c)[i] == Targets(m[k], c)[j]
  {
    var ts := Targets(m[k], c);
    TargetsInTargetSet(m[k], c);
    forall i, j | 0 <= i < |ts| && 0 <= j < |ts| ensures ts[i] == ts[j] {
      var s := TargetSet(m[k], c);
      assert ts[i] in s && ts[j] in s;
      if ts[i] != ts[j] {
        assert {ts[i], ts[j]} <= s;
        SubsetCardinality({ts[i], ts[j]}, s);
        assert false;
      }
    }
  }

  /** A production `aB` (or `a`) of `A` puts a transition at (A, a) whose collected targets include `B` (or `X`). */
  lemma {:induction false} ProductionContributes(prods: seq<string>, p: string)
    requires p in prods && (|p| == 1 || |p| == 2)
    ensures Target(p) in Targets(prods, p[0])
    decreases |prods|
  {
    var init := prods[..|prods| - 1];
    if p != prods[|prods| - 1] {
      assert p in init by {
        assert prods == init + [prods[|prods| - 1]];
      }
      ProductionContributes(init, p);
    }
  }

  /** In the automaton's table, each one- or two-character production of a rule yields a transition on its first character. */
  lemma DeltaHasProduction(m: map<string, seq<string>>, delta: map<TransKey, string>, k: string, p: string)
    requires DeltaOf(m, delta) && k in m && p in m[k] && (|p| == 1 || |p| == 2)
    ensures (k, p[0]) in delta
    ensures Targets(m[k], p[0]) == [Target(p)] ==> delta[(k, p[0])] == Target(p)
  {
    ProductionContributes(m[k], p);
  }

  /** A composite name starts with `{`. */
  lemma CompositeBrace(ts: seq<string>)
    requires |ts| >= 2
    ensures |StateName(ts)| >= 1 && StateName(ts)[0] == '{'
  {
  }

  /**
   * When no rule's left-hand side starts with `{`, a composite state has no
   * outgoing transition: a run that reaches one stops at the next character.
   */
  lemma CompositeStatesAreStuck(m: map<string, seq<string>>, delta: map<TransKey, string>, tk: TransKey, c: char)
    requires DeltaOf(m, delta)
    requires forall k :: k in m ==> |k| == 0 || k[0] != '{'
    requires tk in delta && |Targets(m[tk.0], tk.1)| >= 2
    ensures (delta[tk], c) !in delta
  {
    CompositeBrace(Targets(m[tk.0], tk.1));
  }

  /**
   * A rule that repeats a production, `S -> aS | aS`, passes `isDeterministic`
   * (both copies give the one target `S`), yet the automaton keeps both
   * copies and gets the composite state `{S,S}` at (S, a).
   */
  lemma RepeatedProductionGivesComposite()
    ensures DeterministicRules(map["S" := ["aS", "aS"]])
    ensures StateName(Targets(["aS", "aS"], 'a')) == "{S,S}"
  {
    var m := map["S" := ["aS", "aS"]];
    forall k, c | k in m ensures |TargetSet(m[k], c)| <= 1 {
      assert TargetSet(m[k], c) <= {"S"};
      SubsetCardinality(TargetSet(m[k], c), {"S"});
    }
    assert ["aS", "aS"][..1] == ["aS"];
    assert Targets(["aS"], 'a') == ["S"] by {
      assert ["aS"][..0] == [];
    }
  }
}
