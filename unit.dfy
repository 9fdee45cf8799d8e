/**
 * Step 2 of the CNF converter: removal of unit productions `A -> B`. The
 * unit pairs are closed by a fixpoint loop; then every entry keeps its own
 * non-unit bodies and receives, without repetition, the non-unit bodies of
 * every nonterminal it reaches through unit productions.
 */
module UnitElimination {
  import opened Collections
  import opened Grammars

  /** Lines 131, 146, 152: a body made of one nonterminal. */
  predicate IsUnitBody(g: Grammar, b: Body) {
    |b| == 1 && b[0] in g.nonTerminals
  }

  /** `a -> c` is a unit production of `g`. */
  ghost predicate UnitStep(g: Grammar, a: Symbol, c: Symbol) {
    a in g.productions.m && [c] in g.productions.m[a] && c in g.nonTerminals
  }

  /** `a` reaches `c` by exactly `n` unit productions. */
  ghost predicate UnitDerives(g: Grammar, a: Symbol, c: Symbol, n: nat)
    decreases n
  {
    if n == 0 then a == c else exists b :: UnitStep(g, a, b) && UnitDerives(g, b, c, n - 1)
  }

  ghost predicate UnitReachable(g: Grammar, a: Symbol, c: Symbol) {
    exists n: nat :: UnitDerives(g, a, c, n)
  }

  /** A unit production in front of a unit chain. */
  lemma ReachStep(g: Grammar, a: Symbol, b: Symbol, c: Symbol)
    requires UnitStep(g, a, b) && UnitReachable(g, b, c)
    ensures UnitReachable(g, a, c)
  {
    var n: nat :| UnitDerives(g, b, c, n);
    assert UnitDerives(g, a, c, n + 1);
  }

  /** Unit reachability is transitive. */
  lemma {:induction false} ReachTransitive(g: Grammar, a: Symbol, b: Symbol, c: Symbol, n: nat)
    requires UnitDerives(g, a, b, n) && UnitReachable(g, b, c)
    ensures UnitReachable(g, a, c)
    decreases n
  {
    if n == 0 {
      assert a == b;
    } else {
      var d :| UnitStep(g, a, d) && UnitDerives(g, d, b, n - 1);
      ReachTransitive(g, d, b, c, n - 1);
      ReachStep(g, a, d, c);
    }
  }

  /** Every unit pair as a pair, the measure of the closure loop. */
  ghost function Pairs(up: map<Symbol, set<Symbol>>): set<(Symbol, Symbol)> {
    set a, c | a in up && c in up[a] :: (a, c)
  }

  ghost function Square(s: set<Symbol>): set<(Symbol, Symbol)> {
    set a, c | a in s && c in s :: (a, c)
  }

  /** Unit pairs only ever grow. */
  ghost predicate Grown(u: map<Symbol, set<Symbol>>, v: map<Symbol, set<Symbol>>) {
    u.Keys <= v.Keys && forall a :: a in u ==> u[a] <= v[a]
  }

  lemma PairsGrow(u: map<Symbol, set<Symbol>>, v: map<Symbol, set<Symbol>>, a: Symbol, c: Symbol)
    requires Grown(u, v)
    requires a in u && c in v[a] && c !in u[a]
    ensures Pairs(u) < Pairs(v)
  {
    assert (a, c) in Pairs(v);
  }

  /** The closure as stated: `up` maps each nonterminal to exactly the nonterminals it unit-reaches. */
  ghost predicate IsUnitClosure(g: Grammar, up: map<Symbol, set<Symbol>>) {
    && up.Keys == g.nonTerminals
    && forall a, c :: a in up ==> (c in up[a] <==> UnitReachable(g, a, c))
  }

  /** A reflexive family closed under unit productions holds every unit-reachable pair. */
  lemma {:induction false} ClosedHoldsReachable(g: Grammar, up: map<Symbol, set<Symbol>>, a: Symbol, c: Symbol, n: nat)
    requires up.Keys == g.nonTerminals && g.productions.m.Keys <= g.nonTerminals
    requires forall x :: x in up ==> x in up[x]
    requires forall k, b :: k in g.productions.m && b in g.productions.m[k] && IsUnitBody(g, b) ==> up[b[0]] <= up[k]
    requires a in up && UnitDerives(g, a, c, n)
    ensures c in up[a]
    decreases n
  {
    if n > 0 {
      var b :| UnitStep(g, a, b) && UnitDerives(g, b, c, n - 1);
      ClosedHoldsReachable(g, up, b, c, n - 1);
      var body: Body := [b];
      assert body in g.productions.m[a] && IsUnitBody(g, body);
    }
  }

  /** Every reachable symbol is a nonterminal (or the symbol itself). */
  lemma {:induction false} ReachableIsNonTerminal(g: Grammar, a: Symbol, c: Symbol, n: nat)
    requires a in g.nonTerminals && UnitDerives(g, a, c, n)
    ensures c in g.nonTerminals
    decreases n
  {
    if n > 0 {
      var b :| UnitStep(g, a, b) && UnitDerives(g, b, c, n - 1);
      ReachableIsNonTerminal(g, b, c, n - 1);
    }
  }

  /** Lines 118-142: the unit pairs, starting reflexive and closed under unit productions. */
  method FindUnitPairs(g: Grammar) returns (unitPairs: map<Symbol, set<Symbol>>)
    requires g.productions.Valid() && g.productions.m.Keys <= g.nonTerminals
    ensures IsUnitClosure(g, unitPairs)
  {
    unitPairs := InitUnitPairs(g);
    var changed := true;
    while changed
      invariant SoundPairs(g, unitPairs)
      invariant !changed ==> UnitClosed(g, unitPairs)
      decreases |Square(g.nonTerminals)| - |Pairs(unitPairs)|, changed
    {
      ghost var before := unitPairs;
      unitPairs, changed := UnitPass(g, unitPairs);
      assert Pairs(unitPairs) <= Square(g.nonTerminals);
      SubsetCardinality(Pairs(unitPairs), Square(g.nonTerminals));
      if changed {
        StrictSubsetCardinality(Pairs(before), Pairs(unitPairs));
      }
    }
    forall a, c | a in unitPairs && UnitReachable(g, a, c) ensures c in unitPairs[a] {
      var n: nat :| UnitDerives(g, a, c, n);
      ClosedHoldsReachable(g, unitPairs, a, c, n);
    }
  }

  /** No unit production `k -> B` leaves a pair of `B` missing from `k`. */
  ghost predicate UnitClosed(g: Grammar, up: map<Symbol, set<Symbol>>)
    requires g.productions.m.Keys <= up.Keys && up.Keys == g.nonTerminals
  {
    forall k, b :: k in g.productions.m && b in g.productions.m[k] && IsUnitBody(g, b) ==> up[b[0]] <= up[k]
  }

  /** Lines 120-123: every nonterminal starts paired with itself only. */
  method InitUnitPairs(g: Grammar) returns (unitPairs: map<Symbol, set<Symbol>>)
    requires g.productions.m.Keys <= g.nonTerminals
    ensures SoundPairs(g, unitPairs)
    ensures forall a :: a in unitPairs ==> unitPairs[a] == {a}
  {
    unitPairs := map[];
    var rest := g.nonTerminals;
    while rest != {}
      invariant unitPairs.Keys + rest == g.nonTerminals && unitPairs.Keys !! rest
      invariant forall a :: a in unitPairs ==> unitPairs[a] == {a}
      decreases rest
    {
      var nt :| nt in rest;
      unitPairs := unitPairs[nt := {nt}];
      rest := rest - {nt};
    }
    forall a, c | a in unitPairs && c in unitPairs[a] ensures UnitReachable(g, a, c) {
      assert UnitDerives(g, a, c, 0);
    }
  }

  /** One pass of lines 128-141 over every entry of the productions Map. */
  method UnitPass(g: Grammar, up: map<Symbol, set<Symbol>>) returns (up': map<Symbol, set<Symbol>>, changed: bool)
    requires g.productions.Valid() && SoundPairs(g, up)
    ensures PassSoFar(g, up, up', changed)
    ensures !changed ==> UnitClosed(g, up')
  {
    var p := g.productions;
    up', changed := up, false;
    for i := 0 to |p.keys|
      invariant PassSoFar(g, up, up', changed)
      invariant !changed ==> forall j, b :: 0 <= j < i && b in p.m[p.keys[j]] && IsUnitBody(g, b) ==>
                               up'[b[0]] <= up'[p.keys[j]]
    {
      ghost var previous := up';
      up', changed := AbsorbUnitBodies(g, p.keys[i], up, up', changed);
      if !changed {
        forall j, b | 0 <= j < i + 1 && b in p.m[p.keys[j]] && IsUnitBody(g, b) ensures up'[b[0]] <= up'[p.keys[j]] {
          if j < i {
            assert up' == previous;
          }
        }
      }
    }
    if !changed {
      forall k, b | k in p.m && b in p.m[k] && IsUnitBody(g, b) ensures up'[b[0]] <= up'[k] {
        var j :| 0 <= j < |p.keys| && p.keys[j] == k;
      }
    }
  }

  /** Every nonterminal has its own entry, holds itself, and holds only nonterminals it unit-reaches. */
  ghost predicate SoundPairs(g: Grammar, up: map<Symbol, set<Symbol>>) {
    && g.productions.m.Keys <= g.nonTerminals
    && up.Keys == g.nonTerminals
    && (forall a :: a in up ==> a in up[a] && up[a] <= g.nonTerminals)
    && (forall a, c :: a in up && c in up[a] ==> UnitReachable(g, a, c))
  }

  /** The state of one pass of lines 127-141 that began with the pairs `before`. */
  ghost predicate PassSoFar(g: Grammar, before: map<Symbol, set<Symbol>>, up: map<Symbol, set<Symbol>>, changed: bool) {
    && SoundPairs(g, up)
    && Grown(before, up)
    && (changed ==> Pairs(before) < Pairs(up))
    && (!changed ==> up == before)
  }

  /** Lines 130-140 for the bodies of `nt`: each unit body `nt -> B` merges the pairs of `B` into those of `nt`. */
  method AbsorbUnitBodies(g: Grammar, nt: Symbol, ghost before: map<Symbol, set<Symbol>>,
                          up: map<Symbol, set<Symbol>>, changed: bool)
    returns (up': map<Symbol, set<Symbol>>, changed': bool)
    requires nt in g.productions.m
    requires PassSoFar(g, before, up, changed)
    ensures PassSoFar(g, before, up', changed')
    ensures changed ==> changed'
    ensures !changed' ==> up' == up
    ensures !changed' ==> forall b :: b in g.productions.m[nt] && IsUnitBody(g, b) ==> up'[b[0]] <= up'[nt]
  {
    up', changed' := up, changed;
    var prods := g.productions.m[nt];
    for j := 0 to |prods|
      invariant PassSoFar(g, before, up', changed')
      invariant changed ==> changed'
      invariant !changed' ==> up' == up
      invariant !changed' ==> forall k :: 0 <= k < j && IsUnitBody(g, prods[k]) ==> up'[prods[k][0]] <= up'[nt]
    {
      up', changed' := AbsorbUnitBody(g, nt, before, prods[j], up', changed');
    }
  }

  /** Lines 131-139 for one body of `nt`: a unit body `nt -> B` merges the pairs of `B` into those of `nt`. */
  method AbsorbUnitBody(g: Grammar, nt: Symbol, ghost before: map<Symbol, set<Symbol>>, prod: Body,
                        up: map<Symbol, set<Symbol>>, changed: bool)
    returns (up': map<Symbol, set<Symbol>>, changed': bool)
    requires nt in g.productions.m && prod in g.productions.m[nt]
    requires PassSoFar(g, before, up, changed)
    ensures PassSoFar(g, before, up', changed')
    ensures changed ==> changed'
    ensures !changed' ==> up' == up
    ensures IsUnitBody(g, prod) ==> up'[prod[0]] <= up'[nt] || changed'
  {
    up', changed' := up, changed;
    if |prod| == 1 && prod[0] in g.nonTerminals {
      var b := prod[0];
      // the loop over C adds every missing member of unitPairs(B) to unitPairs(nt)
      if !(up'[b] <= up'[nt]) {
        var c :| c in up'[b] && c !in up'[nt];
        assert prod == [b];
        forall x | x in up'[b] ensures UnitReachable(g, nt, x) {
          ReachStep(g, nt, b, x);
        }
        up' := up'[nt := up'[nt] + up'[b]];
        PairsGrow(up, up', nt, c);
        changed' := true;
      }
    }
  }

  /** Line 146: the bodies of `prods` that are not unit bodies, order kept. */
  function NonUnitFilter(g: Grammar, prods: seq<Body>): (r: seq<Body>)
    ensures forall b :: b in r <==> b in prods && !IsUnitBody(g, b)
    ensures |r| <= |prods|
  {
    if prods == [] then []
    else
      var init := prods[..|prods| - 1];
      var last := prods[|prods| - 1];
      assert forall b :: b in prods <==> b in init || b == last;
      NonUnitFilter(g, init) + (if IsUnitBody(g, last) then [] else [last])
  }

  /** The non-unit bodies of every left-hand side that `a` unit-reaches, `a` itself included. */
  ghost function UnitTargets(g: Grammar, a: Symbol): set<Body> {
    set c, b | c in g.productions.m && b in g.productions.m[c] && !IsUnitBody(g, b) && UnitReachable(g, a, c) :: b
  }

  /** From index `k` on, no element repeats an earlier one. */
  ghost predicate DistinctAfter(s: seq<Body>, k: int) {
    forall i, j :: 0 <= j < i < |s| && k <= i ==> s[i] != s[j]
  }

  /** The non-unit bodies the loop of lines 148-158 finds in the Map `cur` for the pairs `pairs` of `nt`. */
  ghost function Contributed(g: Grammar, cur: Productions, pairs: set<Symbol>, nt: Symbol): set<Body> {
    set c, b | c in pairs && c != nt && b in cur.GetOr(c, []) && !IsUnitBody(g, b) :: b
  }

  lemma ContributedStep(g: Grammar, cur: Productions, done: set<Symbol>, c: Symbol, nt: Symbol)
    ensures Contributed(g, cur, done + {c}, nt) ==
            Contributed(g, cur, done, nt) + (if c == nt then {} else Elements(NonUnitFilter(g, cur.GetOr(c, []))))
  {
  }

  /**
   * Lines 146-158 for one entry: the non-unit bodies of `prods`, then every
   * non-unit body of the other nonterminals in `pairs` not yet listed.
   */
  method CollectBodies(g: Grammar, cur: Productions, pairs: set<Symbol>, nt: Symbol, prods: seq<Body>)
    returns (newProds: seq<Body>)
    ensures var f := NonUnitFilter(g, prods); |f| <= |newProds| && newProds[..|f|] == f
    ensures DistinctAfter(newProds, |NonUnitFilter(g, prods)|)
    ensures Elements(newProds) == Elements(NonUnitFilter(g, prods)) + Contributed(g, cur, pairs, nt)
  {
    newProds := NonUnitFilter(g, prods);
    ghost var f := newProds;
    var rest := pairs;
    while rest != {}
      invariant rest <= pairs
      invariant |f| <= |newProds| && newProds[..|f|] == f
      invariant DistinctAfter(newProds, |f|)
      invariant Elements(newProds) == Elements(f) + Contributed(g, cur, pairs - rest, nt)
      decreases rest
    {
      var b :| b in rest;
      ghost var done := pairs - rest;
      ContributedStep(g, cur, done, b, nt);
      if nt != b {
        var bProds := cur.GetOr(b, []);
        newProds := AppendNonUnit(g, newProds, bProds, |f|);
      }
      assert pairs - (rest - {b}) == done + {b};
      rest := rest - {b};
    }
    assert pairs - rest == pairs;
  }

  /** Lines 151-157: every non-unit body of `bProds` is appended unless already listed. */
  method AppendNonUnit(g: Grammar, newProds: seq<Body>, bProds: seq<Body>, ghost k: nat) returns (r: seq<Body>)
    requires k <= |newProds| && DistinctAfter(newProds, k)
    ensures |newProds| <= |r| && r[..|newProds|] == newProds
    ensures DistinctAfter(r, k)
    ensures Elements(r) == Elements(newProds) + Elements(NonUnitFilter(g, bProds))
  {
    r := newProds;
    for j := 0 to |bProds|
      invariant |newProds| <= |r| && r[..|newProds|] == newProds
      invariant DistinctAfter(r, k)
      invariant forall x :: x in r <==> x in newProds || (x in bProds[..j] && !IsUnitBody(g, x))
    {
      var prod := bProds[j];
      assert forall x :: x in bProds[..j + 1] <==> x in bProds[..j] || x == prod;
      if !(|prod| == 1 && prod[0] in g.nonTerminals) {
        if !SomeEqual(r, prod) {
          r := r + [prod];
        }
      }
    }
    assert bProds[..|bProds|] == bProds;
    assert forall x :: x in Elements(r) <==> x in Elements(newProds) + Elements(NonUnitFilter(g, bProds));
  }

  /** What line 159 stores for `a`: its own non-unit bodies first, then new ones, all it unit-reaches. */
  ghost predicate RebuiltEntry(g: Grammar, a: Symbol, list: seq<Body>)
    requires a in g.productions.m
  {
    var f := NonUnitFilter(g, g.productions.m[a]);
    && |f| <= |list| && list[..|f|] == f
    && DistinctAfter(list, |f|)
    && Elements(list) == UnitTargets(g, a)
  }

  /** The grammar `eliminateUnitProductions` returns for `g`. */
  ghost predicate UnitEliminated(g: Grammar, r: Grammar) {
    && r.nonTerminals == g.nonTerminals
    && r.terminals == g.terminals
    && r.startSymbol == g.startSymbol
    && r.productions.Valid()
    && r.productions.keys == g.productions.keys
    && r.productions.m.Keys == g.productions.m.Keys
    && forall k :: k in r.productions.m ==> RebuiltEntry(g, k, r.productions.m[k])
  }

  /**
   * Whether an entry of `cur` is read before or after it was rewritten, its
   * non-unit bodies belong to every nonterminal that unit-reaches it, so the
   * collected bodies of `nt` are exactly its unit targets.
   */
  lemma CollectedAreTargets(g: Grammar, cur: Productions, up: map<Symbol, set<Symbol>>, nt: Symbol)
    requires IsUnitClosure(g, up) && g.productions.m.Keys <= g.nonTerminals
    requires cur.m.Keys == g.productions.m.Keys
    requires forall k :: k in cur.m ==> cur.m[k] == g.productions.m[k] || Elements(cur.m[k]) == UnitTargets(g, k)
    requires nt in g.productions.m && cur.m[nt] == g.productions.m[nt]
    ensures Elements(NonUnitFilter(g, g.productions.m[nt])) + Contributed(g, cur, up[nt], nt) == UnitTargets(g, nt)
  {
    var p := g.productions.m;
    forall b | b in Contributed(g, cur, up[nt], nt) ensures b in UnitTargets(g, nt) {
      var c :| c in up[nt] && c != nt && b in cur.GetOr(c, []) && !IsUnitBody(g, b);
      assert c in cur.m;
      var n: nat :| UnitDerives(g, nt, c, n);
      if cur.m[c] == p[c] {
        assert UnitReachable(g, nt, c);
      } else {
        assert b in UnitTargets(g, c);
        var d :| d in p && b in p[d] && !IsUnitBody(g, b) && UnitReachable(g, c, d);
        ReachTransitive(g, nt, c, d, n);
      }
    }
    forall b | b in Elements(NonUnitFilter(g, p[nt])) ensures b in UnitTargets(g, nt) {
      assert UnitDerives(g, nt, nt, 0);
    }
    forall b | b in UnitTargets(g, nt)
      ensures b in Elements(NonUnitFilter(g, p[nt])) + Contributed(g, cur, up[nt], nt)
    {
      var c :| c in p && b in p[c] && !IsUnitBody(g, b) && UnitReachable(g, nt, c);
      if c != nt {
        assert c in up[nt];
        if cur.m[c] != p[c] {
          assert UnitDerives(g, c, c, 0);
          assert b in UnitTargets(g, c);
        }
        assert b in cur.GetOr(c, []);
      }
    }
  }

  /** Lines 116-163: `eliminateUnitProductions`. */
  method EliminateUnitProductions(g: Grammar) returns (r: Grammar)
    requires g.productions.Valid() && g.productions.m.Keys <= g.nonTerminals
    ensures UnitEliminated(g, r)
  {
    var result := CloneGrammar(g);
    var unitPairs := FindUnitPairs(result);
    var productions := result.productions;
    var keys := productions.keys;
    for i := 0 to |keys|
      invariant RebuildState(g, keys, i, productions)
    {
      productions := RebuildStep(result, unitPairs, keys, i, productions);
    }
    forall k | k in productions.m ensures RebuiltEntry(g, k, productions.m[k]) {
      var j :| 0 <= j < |keys| && keys[j] == k;
    }
    r := Grammar(result.nonTerminals, result.terminals, productions, result.startSymbol);
  }

  /** The loop of lines 120-160 after `i` entries: those are rebuilt, the rest are as in `g`. */
  ghost predicate RebuildState(g: Grammar, keys: seq<Symbol>, i: int, productions: Productions) {
    && 0 <= i <= |keys|
    && productions.Valid() && productions.keys == keys && productions.m.Keys == g.productions.m.Keys
    && (forall j :: 0 <= j < i ==> RebuiltEntry(g, keys[j], productions.m[keys[j]]))
    && (forall j :: i <= j < |keys| ==> productions.m[keys[j]] == g.productions.m[keys[j]])
  }

  /** One pass of the loop of lines 120-160: the entry of `keys[i]` gets its new bodies. */
  method RebuildStep(g: Grammar, unitPairs: map<Symbol, set<Symbol>>, keys: seq<Symbol>, i: int, productions: Productions)
    returns (productions': Productions)
    requires IsUnitClosure(g, unitPairs) && g.productions.m.Keys <= g.nonTerminals
    requires RebuildState(g, keys, i, productions) && i < |keys|
    ensures RebuildState(g, keys, i + 1, productions')
  {
    var nt := keys[i];
    forall k | k in productions.m
      ensures productions.m[k] == g.productions.m[k] || Elements(productions.m[k]) == UnitTargets(g, k)
    {
      var j :| 0 <= j < |keys| && keys[j] == k;
    }
    var newProds := CollectBodies(g, productions, unitPairs[nt], nt, productions.m[nt]);
    CollectedAreTargets(g, productions, unitPairs, nt);
    assert RebuiltEntry(g, nt, newProds);
    productions' := productions.Put(nt, newProds);
    forall j | 0 <= j < i + 1 ensures RebuiltEntry(g, keys[j], productions'.m[keys[j]]) {
      if j < i {
        assert keys[j] != nt;
        assert productions'.m[keys[j]] == productions.m[keys[j]];
      }
    }
    forall j | i + 1 <= j < |keys| ensures productions'.m[keys[j]] == g.productions.m[keys[j]] {
      assert keys[j] != nt;
    }
  }

  /** After the step no entry has a unit body. */
  lemma NoUnitBodiesLeft(g: Grammar, r: Grammar, k: Symbol, b: Body)
    requires UnitEliminated(g, r)
    requires k in r.productions.m && b in r.productions.m[k]
    ensures !IsUnitBody(r, b)
  {
    assert b in Elements(r.productions.m[k]);
  }

  /** A nonterminal inherits every body of each nonterminal it unit-reaches. */
  lemma InheritsBodies(g: Grammar, r: Grammar, a: Symbol, c: Symbol, b: Body)
    requires UnitEliminated(g, r)
    requires a in r.productions.m && c in r.productions.m && UnitReachable(g, a, c)
    requires b in r.productions.m[c]
    ensures b in r.productions.m[a]
  {
    assert b in Elements(r.productions.m[c]);
    var n: nat :| UnitDerives(g, a, c, n);
    var d :| d in g.productions.m && b in g.productions.m[d] && !IsUnitBody(g, b) && UnitReachable(g, c, d);
    ReachTransitive(g, a, c, d, n);
    assert b in UnitTargets(g, a);
    assert b in Elements(r.productions.m[a]);
  }

  /** A grammar without unit bodies comes back unchanged. */
  lemma UnitFreeUnchanged(g: Grammar, r: Grammar)
    requires UnitEliminated(g, r)
    requires forall k, b :: k in g.productions.m && b in g.productions.m[k] ==> !IsUnitBody(g, b)
    ensures r == g
  {
    var p := g.productions.m;
    forall k | k in p ensures r.productions.m[k] == p[k] {
      var list := r.productions.m[k];
      NonUnitFilterAll(g, p[k]);
      forall b | b in UnitTargets(g, k) ensures b in p[k] {
        var c :| c in p && b in p[c] && !IsUnitBody(g, b) && UnitReachable(g, k, c);
        var n: nat :| UnitDerives(g, k, c, n);
        NoUnitChain(g, k, c, n);
      }
      assert Elements(list) <= Elements(list[..|p[k]|]);
      SuffixEmpty(list, |p[k]|);
      assert list == list[..|p[k]|];
    }
    assert r.productions.m == p;
  }

  /** A list whose tail repeats nothing that comes before it, and adds no new element, has no tail. */
  lemma SuffixEmpty(list: seq<Body>, k: nat)
    requires k <= |list| && DistinctAfter(list, k)
    requires Elements(list) <= Elements(list[..k])
    ensures |list| == k
  {
    if |list| > k {
      ElementAt(list, k);
      assert false;
    }
  }

  /** Without unit bodies a unit chain has length zero. */
  lemma NoUnitChain(g: Grammar, a: Symbol, c: Symbol, n: nat)
    requires forall k, b :: k in g.productions.m && b in g.productions.m[k] ==> !IsUnitBody(g, b)
    requires UnitDerives(g, a, c, n)
    ensures a == c
  {
    if n > 0 {
      var d :| UnitStep(g, a, d) && UnitDerives(g, d, c, n - 1);
      var body: Body := [d];
      assert IsUnitBody(g, body);
    }
  }

  lemma {:induction false} NonUnitFilterAll(g: Grammar, prods: seq<Body>)
    requires forall b :: b in prods ==> !IsUnitBody(g, b)
    ensures NonUnitFilter(g, prods) == prods
  {
    if prods != [] {
      NonUnitFilterAll(g, prods[..|prods| - 1]);
      assert prods == prods[..|prods| - 1] + [prods[|prods| - 1]];
    }
  }

  /** Eliminating unit productions a second time changes nothing. */
  lemma UnitEliminationIdempotent(g: Grammar, r: Grammar, r2: Grammar)
    requires UnitEliminated(g, r) && UnitEliminated(r, r2)
    ensures r2 == r
  {
    forall k, b | k in r.productions.m && b in r.productions.m[k] ensures !IsUnitBody(r, b) {
      NoUnitBodiesLeft(g, r, k, b);
    }
    UnitFreeUnchanged(r, r2);
  }
}
