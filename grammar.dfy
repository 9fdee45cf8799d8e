/**
 * The grammar record every stage of the CNF converter consumes and returns
 * (the `Grammar` interface of the Variant22 converter), with the converter's
 * helpers that build, copy and compare it.
 */
module Grammars {
  import opened Collections

  type Symbol = string

  /** A production body: the symbols of a right-hand side; `[]` is the empty production. */
  type Body = seq<Symbol>

  /** The `productions` Map: left-hand side to its bodies, in key insertion order. */
  type Productions = OMap<Symbol, seq<Body>>

  datatype Grammar = Grammar(
    nonTerminals: set<Symbol>,
    terminals: set<Symbol>,
    productions: Productions,
    startSymbol: Symbol)

  /** The sentinel symbol `ε`. */
  const Epsilon: Symbol := "\U{03B5}"

  /** A body the converter treats as empty: `[]`, or the single sentinel `['ε']`. */
  predicate IsEpsilonBody(b: Body) {
    |b| == 0 || (|b| == 1 && b[0] == Epsilon)
  }

  /** `productions.get(a) || []` */
  function Prods(g: Grammar, a: Symbol): seq<Body> {
    g.productions.GetOr(a, [])
  }

  /** Every nonterminal has a production entry and every entry is a nonterminal. */
  ghost predicate KeysAreNonTerminals(g: Grammar) {
    g.productions.m.Keys == g.nonTerminals
  }

  /** Every symbol that occurs in some body. */
  ghost function BodySymbols(g: Grammar): set<Symbol> {
    set k, b, s | k in g.productions.m && b in g.productions.m[k] && s in b :: s
  }

  /** Element-wise comparison of two bodies, used for deduplication. */
  function ArraysEqual(a: Body, b: Body): (equal: bool)
    ensures equal <==> a == b
  {
    |a| == |b| && forall i | 0 <= i < |a| :: a[i] == b[i]
  }

  /** `list.some(p => arraysEqual(p, b))` */
  function SomeEqual(list: seq<Body>, b: Body): (found: bool)
    ensures found <==> b in list
  {
    exists p | p in list :: ArraysEqual(p, b)
  }

  /** Deep copy: a fresh productions Map with copied body lists, same sets and start. */
  method CloneGrammar(g: Grammar) returns (r: Grammar)
    requires g.productions.Valid()
    ensures r == g
  {
    var keys := g.productions.keys;
    var clonedProds: Productions := EmptyMap();
    var i := 0;
    while i < |keys|
      invariant 0 <= i <= |keys|
      invariant clonedProds.Valid() && clonedProds.keys == keys[..i]
      invariant forall k :: k in clonedProds.m ==> k in g.productions.m && clonedProds.m[k] == g.productions.m[k]
    {
      var nt := keys[i];
      var prods := g.productions.m[nt];
      var copied := seq(|prods|, j requires 0 <= j < |prods| => prods[j]);
      assert copied == prods;
      assert nt !in keys[..i];
      clonedProds := clonedProds.Put(nt, copied);
      assert keys[..i + 1] == keys[..i] + [nt];
      i := i + 1;
    }
    assert keys[..i] == keys;
    assert clonedProds.m.Keys == g.productions.m.Keys;
    r := Grammar(g.nonTerminals, g.terminals, clonedProds, g.startSymbol);
  }

  /** A right-hand side as stored: the single sentinel `['ε']` becomes `[]`. */
  function StoredBody(rhs: seq<Symbol>): Body {
    if |rhs| == 1 && rhs[0] == Epsilon then [] else rhs
  }

  /** The left-hand sides of the given pairs. */
  function LeftSides(prods: seq<(Symbol, seq<Symbol>)>): set<Symbol> {
    set i | 0 <= i < |prods| :: prods[i].0
  }

  /** The right-hand-side symbols that are not left-hand sides (the sentinel pair excepted). */
  function RightOnlySymbols(prods: seq<(Symbol, seq<Symbol>)>, nts: set<Symbol>): set<Symbol> {
    set i, s | 0 <= i < |prods| && StoredBody(prods[i].1) == prods[i].1 && s in prods[i].1 && s !in nts :: s
  }

  /** The stored bodies of the pairs whose left-hand side is `nt`, in input order. */
  function BodiesOf(prods: seq<(Symbol, seq<Symbol>)>, nt: Symbol): seq<Body> {
    if prods == [] then []
    else
      var last := prods[|prods| - 1];
      BodiesOf(prods[..|prods| - 1], nt) + (if last.0 == nt then [StoredBody(last.1)] else [])
  }

  /** Index of the first pair whose left-hand side is `nt`. */
  function FirstIndex(prods: seq<(Symbol, seq<Symbol>)>, nt: Symbol): (i: nat)
    requires nt in LeftSides(prods)
    ensures i < |prods| && prods[i].0 == nt
    ensures forall j :: 0 <= j < i ==> prods[j].0 != nt
  {
    if prods[0].0 == nt then 0
    else
      assert nt in LeftSides(prods[1..]) by {
        var k :| 0 <= k < |prods| && prods[k].0 == nt;
        assert prods[1..][k - 1].0 == nt;
      }
      1 + FirstIndex(prods[1..], nt)
  }

  /**
   * `createGrammarFromProductions`: nonterminals are the left-hand sides,
   * terminals the other right-hand-side symbols, the bodies of each nonterminal
   * are its right-hand sides in input order (`['ε']` stored as `[]`), the
   * Map keys follow first appearance, and the start defaults to the first pair.
   */
  method CreateGrammarFromProductions(prods: seq<(Symbol, seq<Symbol>)>, startSymbol: Option<Symbol>)
    returns (g: Grammar)
    requires (startSymbol.Some? && startSymbol.value != "") || |prods| > 0
    ensures g.startSymbol == if startSymbol.Some? && startSymbol.value != "" then startSymbol.value else prods[0].0
    ensures g.nonTerminals == LeftSides(prods)
    ensures g.terminals == RightOnlySymbols(prods, g.nonTerminals)
    ensures g.nonTerminals !! g.terminals
    ensures g.productions.Valid() && KeysAreNonTerminals(g)
    ensures forall nt :: nt in g.productions.m ==> g.productions.m[nt] == BodiesOf(prods, nt)
    ensures forall i, j :: 0 <= i < j < |g.productions.keys| ==>
              FirstIndex(prods, g.productions.keys[i]) < FirstIndex(prods, g.productions.keys[j])
  {
    var start := if startSymbol.Some? && startSymbol.value != "" then startSymbol.value else prods[0].0;
    var nonTerminals: set<Symbol> := {};
    var i := 0;
    while i < |prods|
      invariant 0 <= i <= |prods|
      invariant nonTerminals == LeftSides(prods[..i])
    {
      LeftSidesStep(prods[..i], prods[i]);
      assert prods[..i + 1] == prods[..i] + [prods[i]];
      nonTerminals := nonTerminals + {prods[i].0};
      i := i + 1;
    }
    assert prods[..i] == prods;

    var terminals: set<Symbol> := {};
    var productions: Productions := EmptyMap();
    i := 0;
    while i < |prods|
      invariant 0 <= i <= |prods|
      invariant BuiltFrom(prods[..i], nonTerminals, terminals, productions)
    {
      terminals, productions := AddPair(prods[..i], prods[i], nonTerminals, terminals, productions);
      assert prods[..i + 1] == prods[..i] + [prods[i]];
      i := i + 1;
    }
    assert prods[..i] == prods;
    g := Grammar(nonTerminals, terminals, productions, start);
  }

  /** What the pairs `pre` have put into the terminal set and the productions Map. */
  ghost predicate BuiltFrom(pre: seq<(Symbol, seq<Symbol>)>, nonTerminals: set<Symbol>,
                            terminals: set<Symbol>, productions: Productions) {
    && productions.Valid()
    && productions.m.Keys == LeftSides(pre)
    && (forall nt :: nt in productions.m ==> productions.m[nt] == BodiesOf(pre, nt))
    && terminals == RightOnlySymbols(pre, nonTerminals)
    && KeysInFirstOrder(pre, productions.keys)
  }

  /** One iteration of the second loop of `createGrammarFromProductions`. */
  method AddPair(pre: seq<(Symbol, seq<Symbol>)>, p: (Symbol, seq<Symbol>), nonTerminals: set<Symbol>,
                 terminals: set<Symbol>, productions: Productions)
    returns (terminals': set<Symbol>, productions': Productions)
    requires BuiltFrom(pre, nonTerminals, terminals, productions)
    ensures BuiltFrom(pre + [p], nonTerminals, terminals', productions')
  {
    var nt := p.0;
    var rhs := p.1;
    productions' := productions;
    terminals' := terminals;
    if nt !in productions'.m {
      productions' := productions'.Put(nt, []);
    }
    if |rhs| == 1 && rhs[0] == Epsilon {
      productions' := productions'.Put(nt, productions'.m[nt] + [[]]);
      assert StoredBody(rhs) != rhs;
    } else {
      productions' := productions'.Put(nt, productions'.m[nt] + [rhs]);
      terminals' := AddTerminals(terminals', rhs, nonTerminals);
    }
    assert productions'.keys == if nt in productions.m then productions.keys else productions.keys + [nt];
    assert productions'.m.Keys == productions.m.Keys + {nt};
    assert productions'.m[nt] == productions.GetOr(nt, []) + [StoredBody(rhs)];
    assert forall k :: k in productions.m && k != nt ==> productions'.m[k] == productions.m[k];
    LeftSidesStep(pre, p);
    PairStep(pre, p, productions, productions');
    KeyOrderStep(pre, p, productions, productions');
    TerminalsStep(pre, p, nonTerminals, terminals, terminals');
  }

  lemma TerminalsStep(pre: seq<(Symbol, seq<Symbol>)>, p: (Symbol, seq<Symbol>), nts: set<Symbol>,
                      terminals: set<Symbol>, terminals': set<Symbol>)
    requires terminals == RightOnlySymbols(pre, nts)
    requires terminals' == if StoredBody(p.1) == p.1 then terminals + (set s | s in p.1 && s !in nts) else terminals
    ensures terminals' == RightOnlySymbols(pre + [p], nts)
  {
    RightOnlyExtend(pre, p, nts);
  }

  /** Lines 373-377: every symbol of a stored right-hand side that is not a nonterminal is a terminal. */
  method AddTerminals(terminals: set<Symbol>, rhs: seq<Symbol>, nonTerminals: set<Symbol>) returns (r: set<Symbol>)
    ensures r == terminals + (set s | s in rhs && s !in nonTerminals)
  {
    r := terminals;
    var k := 0;
    while k < |rhs|
      invariant 0 <= k <= |rhs|
      invariant r == terminals + (set s | s in rhs[..k] && s !in nonTerminals)
    {
      if rhs[k] !in nonTerminals {
        r := r + {rhs[k]};
      }
      assert rhs[..k + 1] == rhs[..k] + [rhs[k]];
      k := k + 1;
    }
    assert rhs[..k] == rhs;
  }

  /** The Map keys appear in the order of their first pair. */
  ghost predicate KeysInFirstOrder(prods: seq<(Symbol, seq<Symbol>)>, keys: seq<Symbol>) {
    && (forall k :: k in keys ==> k in LeftSides(prods))
    && (forall a, b :: 0 <= a < b < |keys| ==> FirstIndex(prods, keys[a]) < FirstIndex(prods, keys[b]))
  }

  lemma LeftSidesStep(pre: seq<(Symbol, seq<Symbol>)>, p: (Symbol, seq<Symbol>))
    ensures LeftSides(pre + [p]) == LeftSides(pre) + {p.0}
  {
    var post := pre + [p];
    assert forall j :: 0 <= j < |pre| ==> post[j] == pre[j];
    assert post[|pre|] == p;
  }

  lemma BodiesOfAbsent(prods: seq<(Symbol, seq<Symbol>)>, nt: Symbol)
    requires nt !in LeftSides(prods)
    ensures BodiesOf(prods, nt) == []
  {
    if prods != [] {
      var init := prods[..|prods| - 1];
      assert LeftSides(init) <= LeftSides(prods) by {
        forall x | x in LeftSides(init) ensures x in LeftSides(prods) {
          var j :| 0 <= j < |init| && init[j].0 == x;
          assert prods[j] == init[j];
        }
      }
      BodiesOfAbsent(init, nt);
      assert prods[|prods| - 1].0 in LeftSides(prods);
    }
  }

  /** Adding one pair to the Map keeps the bodies of every key equal to its pairs' bodies. */
  lemma PairStep(pre: seq<(Symbol, seq<Symbol>)>, p: (Symbol, seq<Symbol>), before: Productions, after: Productions)
    requires before.m.Keys == LeftSides(pre)
    requires forall nt :: nt in before.m ==> before.m[nt] == BodiesOf(pre, nt)
    requires after.m.Keys == before.m.Keys + {p.0}
    requires after.m[p.0] == before.GetOr(p.0, []) + [StoredBody(p.1)]
    requires forall k :: k in before.m && k != p.0 ==> after.m[k] == before.m[k]
    ensures forall nt :: nt in after.m ==> after.m[nt] == BodiesOf(pre + [p], nt)
  {
    var post := pre + [p];
    assert post[..|post| - 1] == pre;
    forall nt | nt in after.m ensures after.m[nt] == BodiesOf(post, nt) {
      if nt == p.0 && p.0 !in before.m {
        BodiesOfAbsent(pre, nt);
      }
    }
  }

  /** Adding one pair to the Map keeps the keys in order of first appearance. */
  lemma KeyOrderStep(pre: seq<(Symbol, seq<Symbol>)>, p: (Symbol, seq<Symbol>), before: Productions, after: Productions)
    requires before.Valid() && before.m.Keys == LeftSides(pre)
    requires KeysInFirstOrder(pre, before.keys)
    requires after.keys == if p.0 in before.m then before.keys else before.keys + [p.0]
    ensures KeysInFirstOrder(pre + [p], after.keys)
  {
    var post := pre + [p];
    LeftSidesStep(pre, p);
    forall k | k in LeftSides(pre) ensures FirstIndex(post, k) == FirstIndex(pre, k) {
      FirstIndexExtend(pre, p, k);
    }
    if p.0 !in before.m {
      assert FirstIndex(post, p.0) == |pre|;
      forall a, b | 0 <= a < b < |after.keys|
        ensures FirstIndex(post, after.keys[a]) < FirstIndex(post, after.keys[b])
      {
        if b == |before.keys| {
          assert after.keys[a] == before.keys[a];
          assert FirstIndex(pre, before.keys[a]) < |pre|;
        } else {
          assert after.keys[a] == before.keys[a] && after.keys[b] == before.keys[b];
        }
      }
    }
  }

  lemma FirstIndexExtend(pre: seq<(Symbol, seq<Symbol>)>, p: (Symbol, seq<Symbol>), k: Symbol)
    requires k in LeftSides(pre)
    ensures k in LeftSides(pre + [p]) && FirstIndex(pre + [p], k) == FirstIndex(pre, k)
  {
    var i := FirstIndex(pre, k);
    assert (pre + [p])[i] == pre[i];
  }

  lemma RightOnlyExtend(pre: seq<(Symbol, seq<Symbol>)>, p: (Symbol, seq<Symbol>), nts: set<Symbol>)
    ensures RightOnlySymbols(pre + [p], nts) ==
            RightOnlySymbols(pre, nts) + (if StoredBody(p.1) == p.1 then set s | s in p.1 && s !in nts else {})
  {
    var post := pre + [p];
    assert forall j :: 0 <= j < |pre| ==> post[j] == pre[j];
    assert post[|pre|] == p;
  }
}
