/**
 * Step 4 of the CNF converter: removal of non-productive symbols. Starting
 * from the terminals, a fixpoint loop marks every left-hand side with a body
 * made of marked symbols; unmarked nonterminals are removed and the bodies
 * of the others are cut down to those made of marked symbols.
 */
module Productivity {
  import opened Collections
  import opened Grammars

  /** Every symbol of `b` lies in `s` (`prod.every(s => productive.has(s))`). */
  predicate AllIn(b: Body, s: set<Symbol>) {
    forall x :: x in b ==> x in s
  }

  /** `s` holds the terminals and every left-hand side with a body inside `s`. */
  ghost predicate ProductiveClosed(g: Grammar, s: set<Symbol>) {
    && g.terminals <= s
    && forall k, b :: k in g.productions.m && b in g.productions.m[k] && AllIn(b, s) ==> k in s
  }

  /** The productive symbols: the terminals and keys in every closed set. */
  ghost function Productive(g: Grammar): set<Symbol> {
    set x | x in g.terminals + g.productions.m.Keys && forall s :: ProductiveClosed(g, s) ==> x in s
  }

  lemma ProductiveIsLeastClosed(g: Grammar)
    ensures ProductiveClosed(g, Productive(g))
    ensures forall s :: ProductiveClosed(g, s) ==> Productive(g) <= s
  {
    var l := Productive(g);
    forall k, b | k in g.productions.m && b in g.productions.m[k] && AllIn(b, l) ensures k in l {
      forall s | ProductiveClosed(g, s) ensures k in s {
        assert AllIn(b, s);
      }
    }
  }

  /** Lines 208-229: the terminals, then repeated passes over the Map until nothing is added. */
  method FindProductive(g: Grammar) returns (productive: set<Symbol>)
    requires g.productions.Valid()
    ensures productive == Productive(g)
  {
    productive := {};
    var rest := g.terminals;
    while rest != {}
      invariant rest <= g.terminals && productive == g.terminals - rest
      decreases rest
    {
      var t :| t in rest;
      productive := productive + {t};
      rest := rest - {t};
    }
    ProductiveIsLeastClosed(g);
    var changed := true;
    while changed
      invariant PassState(g, productive, productive, false)
      invariant !changed ==> ProductiveClosed(g, productive)
      decreases |g.terminals + g.productions.m.Keys| - |productive|, changed
    {
      ghost var before := productive;
      productive, changed := ProductivePass(g, productive);
      SubsetCardinality(productive, g.terminals + g.productions.m.Keys);
      if changed {
        StrictSubsetCardinality(before, productive);
      }
    }
  }

  /** Facts kept by one pass that began with the set `before`. */
  ghost predicate PassState(g: Grammar, before: set<Symbol>, productive: set<Symbol>, changed: bool) {
    && g.terminals <= before <= productive <= g.terminals + g.productions.m.Keys
    && (forall s :: ProductiveClosed(g, s) ==> productive <= s)
    && (changed ==> before < productive)
    && (!changed ==> productive == before)
  }

  /** One pass of lines 219-228 over every entry of the Map. */
  method ProductivePass(g: Grammar, before: set<Symbol>) returns (productive: set<Symbol>, changed: bool)
    requires g.productions.Valid() && PassState(g, before, before, false)
    ensures PassState(g, before, productive, changed)
    ensures !changed ==> ProductiveClosed(g, productive)
  {
    var p := g.productions;
    productive, changed := before, false;
    for i := 0 to |p.keys|
      invariant PassState(g, before, productive, changed)
      invariant !changed ==> forall j, b :: 0 <= j < i && b in p.m[p.keys[j]] && AllIn(b, productive) ==> p.keys[j] in productive
    {
      var nt := p.keys[i];
      if nt in productive {
        continue;
      }
      var prods := p.m[nt];
      for j := 0 to |prods|
        invariant PassState(g, before, productive, changed)
        invariant !changed ==> forall k :: 0 <= k < j && AllIn(prods[k], productive) ==> nt in productive
        invariant changed ==> nt in productive || forall k :: 0 <= k < j ==> !AllIn(prods[k], productive)
      {
        var prod := prods[j];
        if forall s | s in prod :: s in productive {
          forall s | ProductiveClosed(g, s) ensures productive + {nt} <= s {
            assert AllIn(prod, s);
          }
          productive := productive + {nt};
          changed := true;
          break;
        }
      }
    }
    if !changed {
      forall k, b | k in p.m && b in p.m[k] && AllIn(b, productive) ensures k in productive {
        var j :| 0 <= j < |p.keys| && p.keys[j] == k;
      }
    }
  }

  /** `x` derives a string of terminals by a derivation tree of height at most `n`. */
  ghost predicate ProducesIn(g: Grammar, x: Symbol, n: nat)
    decreases n
  {
    if n == 0 then x in g.terminals
    else ProducesIn(g, x, n - 1) ||
         (x in g.productions.m && exists b :: b in g.productions.m[x] && forall y :: y in b ==> ProducesIn(g, y, n - 1))
  }

  lemma {:induction false} ProducesMonotone(g: Grammar, x: Symbol, n: nat, m: nat)
    requires n <= m && ProducesIn(g, x, n)
    ensures ProducesIn(g, x, m)
    decreases m
  {
    if n < m {
      ProducesMonotone(g, x, n, m - 1);
    }
  }

  /** `x` derives some string of terminals. */
  ghost predicate Produces(g: Grammar, x: Symbol) {
    exists n: nat :: ProducesIn(g, x, n)
  }

  /** Finitely many producing symbols share one height bound. */
  lemma {:induction false} CommonHeight(g: Grammar, b: Body) returns (h: nat)
    requires forall y :: y in b ==> Produces(g, y)
    ensures forall y :: y in b ==> ProducesIn(g, y, h)
  {
    if b == [] {
      h := 0;
    } else {
      var init := b[..|b| - 1];
      var last := b[|b| - 1];
      assert forall y :: y in b <==> y in init || y == last;
      var h1 := CommonHeight(g, init);
      assert Produces(g, last);
      var h2: nat :| ProducesIn(g, last, h2);
      h := if h1 < h2 then h2 else h1;
      forall y | y in b ensures ProducesIn(g, y, h) {
        if y in init {
          ProducesMonotone(g, y, h1, h);
        } else {
          ProducesMonotone(g, y, h2, h);
        }
      }
    }
  }

  lemma {:induction false} ProducesIsProductive(g: Grammar, x: Symbol, n: nat)
    requires ProducesIn(g, x, n)
    ensures x in Productive(g)
    decreases n
  {
    ProductiveIsLeastClosed(g);
    if n > 0 {
      if ProducesIn(g, x, n - 1) {
        ProducesIsProductive(g, x, n - 1);
      } else {
        var b :| b in g.productions.m[x] && forall y :: y in b ==> ProducesIn(g, y, n - 1);
        forall y | y in b ensures y in Productive(g) {
          ProducesIsProductive(g, y, n - 1);
        }
        assert AllIn(b, Productive(g));
      }
    }
  }

  /** The symbols of the universe that derive a string of terminals. */
  ghost function Produced(g: Grammar): set<Symbol> {
    set y | y in g.terminals + g.productions.m.Keys && Produces(g, y)
  }

  lemma ProducedIsClosed(g: Grammar)
    ensures ProductiveClosed(g, Produced(g))
  {
    var s := Produced(g);
    forall t | t in g.terminals ensures t in s {
      assert ProducesIn(g, t, 0);
    }
    forall k, b | k in g.productions.m && b in g.productions.m[k] && AllIn(b, s) ensures k in s {
      forall y | y in b ensures Produces(g, y) {
        assert y in s;
      }
      var h := CommonHeight(g, b);
      assert ProducesIn(g, k, h + 1);
    }
  }

  /** A symbol is productive exactly when it derives a string of terminals. */
  lemma ProductiveIffProduces(g: Grammar, x: Symbol)
    ensures x in Productive(g) <==> exists n: nat :: ProducesIn(g, x, n)
  {
    if exists n: nat :: ProducesIn(g, x, n) {
      var n: nat :| ProducesIn(g, x, n);
      ProducesIsProductive(g, x, n);
    }
    ProducedIsClosed(g);
    ProductiveIsLeastClosed(g);
    if x in Productive(g) {
      assert x in Produced(g);
      var n: nat :| ProducesIn(g, x, n);
      assert ProducesIn(g, x, n);
    }
  }

  /** A productive symbol that is not a terminal has a body made of productive symbols. */
  lemma ProductiveJustified(g: Grammar, k: Symbol)
    requires k in Productive(g) && k !in g.terminals
    ensures exists b :: b in Prods(g, k) && AllIn(b, Productive(g))
  {
    ProductiveIsLeastClosed(g);
    var l := Productive(g);
    if forall b :: b in Prods(g, k) ==> !AllIn(b, l) {
      var s := l - {k};
      forall k', b | k' in g.productions.m && b in g.productions.m[k'] && AllIn(b, s) ensures k' in s {
        assert AllIn(b, l);
      }
      assert ProductiveClosed(g, s);
      assert false;
    }
  }

  /** Lines 238-240: the bodies of `prods` made of productive symbols only, order kept. */
  function FilterBodies(prods: seq<Body>, productive: set<Symbol>): (r: seq<Body>)
    ensures forall b :: b in r <==> b in prods && AllIn(b, productive)
    ensures |r| <= |prods|
  {
    if prods == [] then []
    else
      var init := prods[..|prods| - 1];
      var last := prods[|prods| - 1];
      assert forall b :: b in prods <==> b in init || b == last;
      FilterBodies(init, productive) + (if AllIn(last, productive) then [last] else [])
  }

  /**
   * The grammar `eliminateNonProductiveSymbols` returns for `g`: unproductive
   * nonterminals leave the set and the Map; every productive nonterminal gets
   * the entry of its productive bodies (an entry is created if it had none);
   * entries of other keys, the terminals and the start are kept.
   */
  ghost predicate ProductivityPruned(g: Grammar, r: Grammar) {
    var prod := Productive(g);
    && r.terminals == g.terminals
    && r.startSymbol == g.startSymbol
    && r.nonTerminals == g.nonTerminals * prod
    && r.productions.Valid()
    && r.productions.m.Keys == (g.productions.m.Keys - g.nonTerminals) + (g.nonTerminals * prod)
    && (forall k :: k in r.productions.m ==>
          r.productions.m[k] == if k in g.nonTerminals then FilterBodies(Prods(g, k), prod) else g.productions.m[k])
    && (g.nonTerminals <= g.productions.m.Keys ==>
          r.productions.keys == FilterOut(g.productions.keys, g.nonTerminals - prod))
  }

  /** Lines 206-246: `eliminateNonProductiveSymbols`. */
  method EliminateNonProductiveSymbols(g: Grammar) returns (r: Grammar)
    requires g.productions.Valid()
    ensures ProductivityPruned(g, r)
  {
    var result := CloneGrammar(g);
    var productive := FindProductive(result);
    var nonTerminals, productions := PruneNonTerminals(result, productive);
    r := Grammar(nonTerminals, result.terminals, productions, result.startSymbol);
  }

  /**
   * The pruning loop so far: the nonterminals outside `rest` have been
   * handled, the unproductive ones (`gone`) removed and the productive ones
   * (`kept`) given their productive bodies.
   */
  ghost predicate PruneState(g: Grammar, productive: set<Symbol>, rest: set<Symbol>,
                             gone: set<Symbol>, kept: set<Symbol>,
                             nonTerminals: set<Symbol>, productions: Productions)
  {
    && g.productions.Valid()
    && rest <= g.nonTerminals
    && gone == (g.nonTerminals - rest) - productive
    && kept == (g.nonTerminals - rest) * productive
    && nonTerminals == g.nonTerminals - gone
    && productions.Valid()
    && productions.m.Keys == (g.productions.m.Keys - gone) + kept
    && (forall k :: k in productions.m ==>
          productions.m[k] == if k in kept then FilterBodies(Prods(g, k), productive) else g.productions.m[k])
    && (g.nonTerminals <= g.productions.m.Keys ==> productions.keys == FilterOut(g.productions.keys, gone))
  }

  /** Lines 232-243: drop the unproductive nonterminals, cut the bodies of the others. */
  method PruneNonTerminals(g: Grammar, productive: set<Symbol>)
    returns (nonTerminals: set<Symbol>, productions: Productions)
    requires g.productions.Valid()
    ensures nonTerminals == g.nonTerminals * productive
    ensures productions.Valid()
    ensures productions.m.Keys == (g.productions.m.Keys - g.nonTerminals) + (g.nonTerminals * productive)
    ensures forall k :: k in productions.m ==>
              productions.m[k] == if k in g.nonTerminals then FilterBodies(Prods(g, k), productive) else g.productions.m[k]
    ensures g.nonTerminals <= g.productions.m.Keys ==>
              productions.keys == FilterOut(g.productions.keys, g.nonTerminals - productive)
  {
    nonTerminals := g.nonTerminals;
    productions := g.productions;
    var rest := g.nonTerminals;
    ghost var gone: set<Symbol> := {};
    ghost var kept: set<Symbol> := {};
    FilterOutNothing(g.productions.keys, {});
    while rest != {}
      invariant PruneState(g, productive, rest, gone, kept, nonTerminals, productions)
      decreases rest
    {
      var nt :| nt in rest;
      nonTerminals, productions, gone, kept := PruneOne(g, productive, rest, gone, kept, nonTerminals, productions, nt);
      rest := rest - {nt};
    }
  }

  /** One round of the loop at lines 232-243, for the nonterminal `nt`. */
  method PruneOne(g: Grammar, productive: set<Symbol>, rest: set<Symbol>,
                  ghost gone: set<Symbol>, ghost kept: set<Symbol>,
                  nonTerminals: set<Symbol>, productions: Productions, nt: Symbol)
    returns (nonTerminals': set<Symbol>, productions': Productions, ghost gone': set<Symbol>, ghost kept': set<Symbol>)
    requires PruneState(g, productive, rest, gone, kept, nonTerminals, productions)
    requires nt in rest
    ensures PruneState(g, productive, rest - {nt}, gone', kept', nonTerminals', productions')
  {
    if nt !in productive {
      nonTerminals' := nonTerminals - {nt};
      productions' := productions.Remove(nt);
      gone', kept' := gone + {nt}, kept;
      DropStep(g, productive, rest, gone, kept, nonTerminals, productions, nt);
    } else {
      nonTerminals' := nonTerminals;
      productions' := productions.Put(nt, FilterBodies(productions.GetOr(nt, []), productive));
      gone', kept' := gone, kept + {nt};
      KeepStep(g, productive, rest, gone, kept, nonTerminals, productions, nt);
    }
  }

  lemma DropStep(g: Grammar, productive: set<Symbol>, rest: set<Symbol>,
                 gone: set<Symbol>, kept: set<Symbol>,
                 nonTerminals: set<Symbol>, productions: Productions, nt: Symbol)
    requires PruneState(g, productive, rest, gone, kept, nonTerminals, productions)
    requires nt in rest && nt !in productive
    ensures PruneState(g, productive, rest - {nt}, gone + {nt}, kept, nonTerminals - {nt}, productions.Remove(nt))
  {
    var p := productions.Remove(nt);
    FilterOutMore(g.productions.keys, gone, nt);
    assert p.m == productions.m - {nt};
    DropSets(g.nonTerminals, g.productions.m.Keys, productive, rest, gone, kept, nonTerminals, nt);
    assert forall k :: k in p.m ==>
             p.m[k] == if k in kept then FilterBodies(Prods(g, k), productive) else g.productions.m[k];
    if g.nonTerminals <= g.productions.m.Keys {
      assert p.keys == FilterOut(FilterOut(g.productions.keys, gone), {nt});
    }
  }

  /** The set bookkeeping of `DropStep`, on plain sets. */
  lemma DropSets(nts: set<Symbol>, keys: set<Symbol>, productive: set<Symbol>, rest: set<Symbol>,
                 gone: set<Symbol>, kept: set<Symbol>, nonTerminals: set<Symbol>, nt: Symbol)
    requires rest <= nts && gone == (nts - rest) - productive && kept == (nts - rest) * productive
    requires nonTerminals == nts - gone && nt in rest && nt !in productive
    ensures gone + {nt} == (nts - (rest - {nt})) - productive
    ensures kept == (nts - (rest - {nt})) * productive
    ensures nonTerminals - {nt} == nts - (gone + {nt})
    ensures ((keys - gone) + kept) - {nt} == (keys - (gone + {nt})) + kept
  {
  }

  lemma KeepStep(g: Grammar, productive: set<Symbol>, rest: set<Symbol>,
                 gone: set<Symbol>, kept: set<Symbol>,
                 nonTerminals: set<Symbol>, productions: Productions, nt: Symbol)
    requires PruneState(g, productive, rest, gone, kept, nonTerminals, productions)
    requires nt in rest && nt in productive
    ensures PruneState(g, productive, rest - {nt}, gone, kept + {nt}, nonTerminals,
                       productions.Put(nt, FilterBodies(productions.GetOr(nt, []), productive)))
  {
    assert nt !in gone && nt !in kept;
    assert productions.GetOr(nt, []) == Prods(g, nt);
    var p := productions.Put(nt, FilterBodies(Prods(g, nt), productive));
    assert p.m == productions.m[nt := FilterBodies(Prods(g, nt), productive)];
    KeepSets(g.nonTerminals, g.productions.m.Keys, productive, rest, gone, kept, nt);
    assert p.m.Keys == productions.m.Keys + {nt};
    assert forall k :: k in p.m ==>
             p.m[k] == if k in kept + {nt} then FilterBodies(Prods(g, k), productive) else g.productions.m[k];
    if g.nonTerminals <= g.productions.m.Keys {
      assert nt in productions.m;
      assert p.keys == productions.keys;
    }
  }

  /** The set bookkeeping of `KeepStep`, on plain sets. */
  lemma KeepSets(nts: set<Symbol>, keys: set<Symbol>, productive: set<Symbol>, rest: set<Symbol>,
                 gone: set<Symbol>, kept: set<Symbol>, nt: Symbol)
    requires rest <= nts && gone == (nts - rest) - productive && kept == (nts - rest) * productive
    requires nt in rest && nt in productive
    ensures gone == (nts - (rest - {nt})) - productive
    ensures kept + {nt} == (nts - (rest - {nt})) * productive
    ensures ((keys - gone) + kept) + {nt} == (keys - gone) + (kept + {nt})
  {
  }

  /** After the step every body of a kept nonterminal is made of productive symbols. */
  lemma PrunedBodiesAreProductive(g: Grammar, r: Grammar, k: Symbol, b: Body)
    requires ProductivityPruned(g, r)
    requires k in r.nonTerminals && k in r.productions.m && b in r.productions.m[k]
    ensures AllIn(b, Productive(g))
  {
  }

  /** A kept nonterminal that is not also a terminal keeps at least one body. */
  lemma KeptNonTerminalHasBody(g: Grammar, r: Grammar, k: Symbol)
    requires ProductivityPruned(g, r)
    requires k in r.nonTerminals && k !in g.terminals
    ensures k in r.productions.m && |r.productions.m[k]| > 0
  {
    ProductiveJustified(g, k);
    var b :| b in Prods(g, k) && AllIn(b, Productive(g));
    assert b in r.productions.m[k];
  }

  /** `S -> S` with no terminals: a grammar whose start symbol produces nothing. */
  function SelfLoop(): (g: Grammar)
    ensures g.productions.Valid() && KeysAreNonTerminals(g)
  {
    Grammar({"S"}, {}, OMap(["S"], map["S" := [["S"]]]), "S")
  }

  /** The step can remove the start symbol itself, leaving it outside the nonterminals. */
  lemma StartCanDangle(r: Grammar)
    requires ProductivityPruned(SelfLoop(), r)
    ensures r.startSymbol == "S" && r.startSymbol !in r.nonTerminals && r.productions.m == map[]
  {
    var g := SelfLoop();
    ProductiveIsLeastClosed(g);
    assert ProductiveClosed(g, {});
  }
}
