/**
 * Step 3 of the CNF converter: removal of inaccessible symbols. A
 * depth-first visit from the start symbol collects every symbol reachable
 * through the bodies of nonterminals; unvisited nonterminals lose their
 * entry, unvisited terminals are dropped.
 */
module Accessibility {
  import opened Collections
  import opened Grammars

  /** The start symbol and every symbol that occurs in a body. */
  ghost function AccessUniverse(g: Grammar): set<Symbol> {
    {g.startSymbol} + BodySymbols(g)
  }

  /** `s` holds the start and every symbol in a body of a nonterminal it holds. */
  ghost predicate AccessClosed(g: Grammar, s: set<Symbol>) {
    && g.startSymbol in s
    && forall a, b, x :: a in s && a in g.nonTerminals && a in g.productions.m && b in g.productions.m[a] && x in b ==> x in s
  }

  /** The accessible symbols: those in every closed set. */
  ghost function Accessible(g: Grammar): set<Symbol> {
    set x | x in AccessUniverse(g) && forall s :: AccessClosed(g, s) ==> x in s
  }

  lemma AccessibleIsLeastClosed(g: Grammar)
    ensures AccessClosed(g, Accessible(g))
    ensures forall s :: AccessClosed(g, s) ==> Accessible(g) <= s
  {
    var l := Accessible(g);
    forall a, b, x | a in l && a in g.nonTerminals && a in g.productions.m && b in g.productions.m[a] && x in b
      ensures x in l
    {
      assert x in BodySymbols(g);
    }
  }

  /** `x` is reached from the start through at most `n` bodies. */
  ghost predicate ReachedIn(g: Grammar, x: Symbol, n: nat)
    decreases n
  {
    if n == 0 then x == g.startSymbol
    else ReachedIn(g, x, n - 1) ||
         exists a, b :: ReachedIn(g, a, n - 1) && a in g.nonTerminals && a in g.productions.m && b in g.productions.m[a] && x in b
  }

  lemma {:induction false} ReachedIsAccessible(g: Grammar, x: Symbol, n: nat)
    requires ReachedIn(g, x, n)
    ensures x in Accessible(g)
    decreases n
  {
    AccessibleIsLeastClosed(g);
    if n == 0 {
    } else if ReachedIn(g, x, n - 1) {
      ReachedIsAccessible(g, x, n - 1);
    } else {
      var a, b :| ReachedIn(g, a, n - 1) && a in g.nonTerminals && a in g.productions.m && b in g.productions.m[a] && x in b;
      ReachedIsAccessible(g, a, n - 1);
    }
  }

  /** The symbols of the universe that some chain of bodies reaches. */
  ghost function Reached(g: Grammar): set<Symbol> {
    set y | y in AccessUniverse(g) && exists n: nat :: ReachedIn(g, y, n)
  }

  /** The reached symbols form a closed set. */
  lemma ReachedIsClosed(g: Grammar)
    ensures AccessClosed(g, Reached(g))
  {
    var reached := Reached(g);
    assert ReachedIn(g, g.startSymbol, 0);
    forall a, b, y | a in reached && a in g.nonTerminals && a in g.productions.m && b in g.productions.m[a] && y in b
      ensures y in reached
    {
      var n: nat :| ReachedIn(g, a, n);
      assert ReachedIn(g, y, n + 1);
      assert y in BodySymbols(g);
    }
  }

  /** A symbol is accessible exactly when a chain of bodies leads to it from the start. */
  lemma AccessibleIffReached(g: Grammar, x: Symbol)
    ensures x in Accessible(g) <==> exists n: nat :: ReachedIn(g, x, n)
  {
    if exists n: nat :: ReachedIn(g, x, n) {
      var n: nat :| ReachedIn(g, x, n);
      ReachedIsAccessible(g, x, n);
    }
    ReachedIsClosed(g);
    if x in Accessible(g) {
      assert x in Reached(g);
      var n: nat :| ReachedIn(g, x, n);
      assert ReachedIn(g, x, n);
    }
  }

  /**
   * The visit so far: everything visited or waiting is accessible, the start
   * has been reached, and every body symbol of a visited nonterminal is
   * visited or waiting.
   */
  ghost predicate VisitState(g: Grammar, accessible: set<Symbol>, stack: seq<Symbol>) {
    && accessible <= Accessible(g)
    && (forall x :: x in stack ==> x in Accessible(g))
    && (g.startSymbol in accessible || g.startSymbol in stack)
    && (forall a, b, x ::
          (a in accessible && a in g.nonTerminals && a in g.productions.m && b in g.productions.m[a] && x in b) ==>
          x in accessible || x in stack)
  }

  /** Lines 170-184: the recursive visit, run with an explicit stack of symbols still to visit. */
  method FindAccessible(g: Grammar) returns (accessible: set<Symbol>)
    ensures accessible == Accessible(g)
  {
    accessible := {};
    var stack := [g.startSymbol];
    AccessibleIsLeastClosed(g);
    while stack != []
      invariant VisitState(g, accessible, stack)
      decreases |AccessUniverse(g) - accessible|, |stack|
    {
      accessible, stack := Visit(g, accessible, stack);
    }
  }

  /** One call of `visit` (lines 172-182) on the symbol on top of the stack. */
  method Visit(g: Grammar, accessible: set<Symbol>, stack: seq<Symbol>)
    returns (accessible': set<Symbol>, stack': seq<Symbol>)
    requires VisitState(g, accessible, stack) && stack != []
    ensures VisitState(g, accessible', stack')
    ensures accessible' == accessible ==> |stack'| < |stack|
    ensures accessible' != accessible ==>
              |AccessUniverse(g) - accessible'| < |AccessUniverse(g) - accessible|
    ensures accessible <= accessible'
  {
    AccessibleIsLeastClosed(g);
    var symbol := stack[|stack| - 1];
    stack' := stack[..|stack| - 1];
    accessible' := accessible;
    assert forall x :: x in stack ==> x in stack' || x == symbol by {
      assert stack == stack' + [symbol];
    }
    if symbol !in accessible {
      ghost var universe := AccessUniverse(g);
      assert symbol in stack && symbol in Accessible(g);
      assert symbol in universe;
      accessible' := accessible + {symbol};
      if symbol in g.nonTerminals {
        stack' := PushBodySymbols(stack', Prods(g, symbol));
      }
      StrictSubsetCardinality(universe - accessible', universe - accessible);
    }
  }

  /** Lines 176-180: every symbol of every body, in the order the visit reaches them. */
  method PushBodySymbols(stack: seq<Symbol>, prods: seq<Body>) returns (r: seq<Symbol>)
    ensures forall x :: x in r <==> x in stack || exists b :: b in prods && x in b
  {
    r := stack;
    for j := 0 to |prods|
      invariant forall x :: x in r <==> x in stack || exists b :: b in prods[..j] && x in b
    {
      var prod := prods[j];
      assert forall b :: b in prods[..j + 1] <==> b in prods[..j] || b == prod;
      r := r + prod;
    }
    assert prods[..|prods|] == prods;
  }

  /**
   * The grammar `eliminateInaccessibleSymbols` returns for `g`: inaccessible
   * nonterminals leave the set and the Map, inaccessible terminals leave
   * their set, everything else is kept as it was.
   */
  ghost predicate InaccessibleRemoved(g: Grammar, r: Grammar) {
    var gone := g.nonTerminals - Accessible(g);
    && r.nonTerminals == g.nonTerminals * Accessible(g)
    && r.terminals == g.terminals * Accessible(g)
    && r.startSymbol == g.startSymbol
    && r.productions.Valid()
    && r.productions.keys == FilterOut(g.productions.keys, gone)
    && r.productions.m.Keys == g.productions.m.Keys - gone
    && forall k :: k in r.productions.m ==> r.productions.m[k] == g.productions.m[k]
  }

  /** Lines 168-201: `eliminateInaccessibleSymbols`. */
  method EliminateInaccessibleSymbols(g: Grammar) returns (r: Grammar)
    requires g.productions.Valid()
    ensures InaccessibleRemoved(g, r)
  {
    var result := CloneGrammar(g);
    var accessible := FindAccessible(result);
    var nonTerminals, productions := DropNonTerminals(result, accessible);
    var terminals := DropTerminals(result.terminals, accessible);
    r := Grammar(nonTerminals, terminals, productions, result.startSymbol);
  }

  /** Lines 187-192: every nonterminal outside `keep` leaves the set and the Map. */
  method DropNonTerminals(g: Grammar, keep: set<Symbol>) returns (nonTerminals: set<Symbol>, productions: Productions)
    requires g.productions.Valid()
    ensures nonTerminals == g.nonTerminals * keep
    ensures productions.Valid()
    ensures productions.keys == FilterOut(g.productions.keys, g.nonTerminals - keep)
    ensures productions.m.Keys == g.productions.m.Keys - (g.nonTerminals - keep)
    ensures forall k :: k in productions.m ==> productions.m[k] == g.productions.m[k]
  {
    nonTerminals := g.nonTerminals;
    productions := g.productions;
    var rest := g.nonTerminals;
    ghost var gone: set<Symbol> := {};
    FilterOutNothing(g.productions.keys, {});
    while rest != {}
      invariant rest <= g.nonTerminals
      invariant gone == (g.nonTerminals - rest) - keep
      invariant DropState(g, gone, nonTerminals, productions)
      decreases rest
    {
      var nt :| nt in rest;
      nonTerminals, productions := DropOne(g, keep, gone, nt, nonTerminals, productions);
      if nt !in keep {
        gone := gone + {nt};
      }
      rest := rest - {nt};
    }
  }

  /** The nonterminals in `gone` have left the set and the Map; the rest is as in `g`. */
  ghost predicate DropState(g: Grammar, gone: set<Symbol>, nonTerminals: set<Symbol>, productions: Productions) {
    && nonTerminals == g.nonTerminals - gone
    && productions.Valid()
    && productions.keys == FilterOut(g.productions.keys, gone)
    && productions.m.Keys == g.productions.m.Keys - gone
    && forall k :: k in productions.m ==> productions.m[k] == g.productions.m[k]
  }

  /** One pass of the loop of lines 187-192, on the nonterminal `nt`. */
  method DropOne(g: Grammar, keep: set<Symbol>, ghost gone: set<Symbol>, nt: Symbol, nonTerminals: set<Symbol>, productions: Productions)
    returns (nonTerminals': set<Symbol>, productions': Productions)
    requires DropState(g, gone, nonTerminals, productions)
    ensures DropState(g, if nt in keep then gone else gone + {nt}, nonTerminals', productions')
  {
    nonTerminals', productions' := nonTerminals, productions;
    if nt !in keep {
      nonTerminals' := nonTerminals - {nt};
      FilterOutMore(g.productions.keys, gone, nt);
      productions' := productions.Remove(nt);
    }
  }

  /** Lines 194-198: every terminal outside `keep` leaves the set. */
  method DropTerminals(terminals: set<Symbol>, keep: set<Symbol>) returns (r: set<Symbol>)
    ensures r == terminals * keep
  {
    r := terminals;
    var rest := terminals;
    while rest != {}
      invariant rest <= terminals
      invariant r == terminals - ((terminals - rest) - keep)
      decreases rest
    {
      var t :| t in rest;
      if t !in keep {
        r := r - {t};
      }
      rest := rest - {t};
    }
  }

  /** The start symbol is always accessible, so it keeps its place among the nonterminals and its entry. */
  lemma StartKept(g: Grammar, r: Grammar)
    requires InaccessibleRemoved(g, r)
    ensures r.startSymbol == g.startSymbol
    ensures g.startSymbol in g.nonTerminals ==> g.startSymbol in r.nonTerminals
    ensures g.startSymbol in g.productions.m ==>
              g.startSymbol in r.productions.m && r.productions.m[g.startSymbol] == g.productions.m[g.startSymbol]
  {
    AccessibleIsLeastClosed(g);
  }

  /** Every symbol in a body of a kept nonterminal entry is kept too (or is outside both symbol sets). */
  lemma KeptBodiesUseKeptSymbols(g: Grammar, r: Grammar, a: Symbol, b: Body, x: Symbol)
    requires InaccessibleRemoved(g, r)
    requires a in r.nonTerminals && a in r.productions.m && b in r.productions.m[a] && x in b
    ensures x in g.nonTerminals ==> x in r.nonTerminals
    ensures x in g.terminals ==> x in r.terminals
  {
    AccessibleIsLeastClosed(g);
  }
}
