/**
 * Step 5 of the CNF converter: `convertToStrictCNF`. Every terminal `t`
 * gets a nonterminal `T_t` with the body `[t]`; then every entry of the Map
 * (a snapshot taken after the `T_t` entries were added) has its bodies
 * rewritten: empty bodies are dropped, `[a]` for a terminal `a` becomes
 * `[T_a]`, other single symbols stay, terminals inside longer bodies are
 * replaced by their `T_` names, and bodies longer than two are folded from
 * the left into a chain of fresh nonterminals `N0`, `N1`, ...
 */
module Binarization {
  import opened Collections
  import opened Grammars

  /** Line 258: the nonterminal standing for the terminal `t`. */
  function TermName(t: Symbol): (n: Symbol)
    ensures |n| == |t| + 2 && n[..2] == "T_" && n[2..] == t
  {
    "T_" + t
  }

  /** The character of a decimal digit. */
  function DigitChar(d: nat): (c: char)
    requires d < 10
    ensures '0' <= c <= '9' && c as int - '0' as int == d
  {
    ('0' as int + d) as char
  }

  /** The decimal numeral of `n`, most significant digit first, as a template literal prints it. */
  function Decimal(n: nat): (s: string)
    decreases n
  {
    (if n < 10 then "" else Decimal(n / 10)) + [DigitChar(n % 10)]
  }

  /** A numeral is a non-empty string of digits. */
  lemma {:induction false} DecimalDigits(n: nat)
    ensures |Decimal(n)| >= 1
    ensures forall i :: 0 <= i < |Decimal(n)| ==> '0' <= Decimal(n)[i] <= '9'
    decreases n
  {
    if n >= 10 {
      DecimalDigits(n / 10);
    }
  }

  /** The number a string of decimal digits denotes. */
  function DecimalValue(s: string): int {
    if s == [] then 0 else DecimalValue(s[..|s| - 1]) * 10 + (s[|s| - 1] as int - '0' as int)
  }

  /** Reading a numeral back gives the number it was printed from. */
  lemma {:induction false} DecimalRoundTrip(n: nat)
    ensures DecimalValue(Decimal(n)) == n
    decreases n
  {
    var s := Decimal(n);
    var pre := if n < 10 then "" else Decimal(n / 10);
    assert s[..|s| - 1] == pre;
    if n >= 10 {
      DecimalRoundTrip(n / 10);
    }
  }

  /** Line 294: the `k`-th fresh nonterminal, `N${k}`. */
  function FreshName(k: nat): (n: Symbol)
    ensures |n| >= 2 && n[0] == 'N'
  {
    "N" + Decimal(k)
  }

  /** Different counter values give different names. */
  lemma {:induction false} FreshNameInjective(i: nat, j: nat)
    ensures FreshName(i) == FreshName(j) <==> i == j
  {
    if FreshName(i) == FreshName(j) {
      assert Decimal(i) == FreshName(i)[1..];
      assert Decimal(j) == FreshName(j)[1..];
      DecimalRoundTrip(i);
      DecimalRoundTrip(j);
    }
  }

  /** A fresh name is never the name of a terminal's nonterminal. */
  lemma {:induction false} FreshIsNotTermName(k: nat, t: Symbol)
    ensures FreshName(k) != TermName(t)
  {
    assert FreshName(k)[0] == 'N' && TermName(t)[0] == 'T';
  }

  /** The fresh names with counter values in `[lo, hi)`. */
  ghost function FreshRange(lo: nat, hi: nat): set<Symbol>
    decreases hi
  {
    if hi <= lo then {} else FreshRange(lo, hi - 1) + {FreshName(hi - 1)}
  }

  lemma {:induction false} FreshRangeIff(lo: nat, hi: nat, j: nat)
    ensures FreshName(j) in FreshRange(lo, hi) <==> lo <= j < hi
    decreases hi
  {
    if lo < hi {
      FreshRangeIff(lo, hi - 1, j);
      FreshNameInjective(j, hi - 1);
    }
  }

  /** Every member of a range is the fresh name of a counter value in it. */
  lemma {:induction false} FreshRangeMember(lo: nat, hi: nat, y: Symbol) returns (j: nat)
    requires y in FreshRange(lo, hi)
    ensures lo <= j < hi && FreshName(j) == y
    decreases hi
  {
    if y == FreshName(hi - 1) {
      j := hi - 1;
    } else {
      j := FreshRangeMember(lo, hi - 1, y);
    }
  }

  /** Fresh names over adjacent ranges join into one range. */
  lemma {:induction false} FreshRangeSplit(lo: nat, mid: nat, hi: nat)
    requires lo <= mid <= hi
    ensures FreshRange(lo, hi) == FreshRange(lo, mid) + FreshRange(mid, hi)
    decreases hi
  {
    if mid < hi {
      FreshRangeSplit(lo, mid, hi - 1);
    }
  }

  /** The nonterminals of the terminals. */
  function TermNames(terminals: set<Symbol>): set<Symbol> {
    set t | t in terminals :: TermName(t)
  }

  /** `termToNT`, lines 255-259: each terminal mapped to its nonterminal. */
  function TermMap(terminals: set<Symbol>): (m: map<Symbol, Symbol>)
    ensures m.Keys == terminals
    ensures forall t :: t in m ==> m[t] == TermName(t)
  {
    map t | t in terminals :: TermName(t)
  }

  /** Lines 257-261: the entries `T_t -> [[t]]` the first loop sets. */
  function TermRules(terminals: set<Symbol>): (m: map<Symbol, seq<Body>>)
    ensures m.Keys == TermNames(terminals)
    ensures forall t :: t in terminals ==> m[TermName(t)] == [[t]]
  {
    map k | k in TermNames(terminals) :: [[k[2..]]]
  }

  /** Line 283: each symbol replaced by its `termToNT` entry when it has one. */
  function Convert(b: Body, termToNT: map<Symbol, Symbol>): (c: Body)
    ensures |c| == |b|
  {
    seq(|b|, i requires 0 <= i < |b| => if b[i] in termToNT then termToNT[b[i]] else b[i])
  }

  /**
   * Lines 291-298: the bodies the chain loop gives to the fresh names
   * `N<counter>`, `N<counter+1>`, ... for a converted body of three or more
   * symbols: the first pairs the first two symbols, each later one pairs the
   * previous fresh name with the next symbol.
   */
  function Chain(conv: Body, counter: nat): (chain: seq<Body>)
    requires |conv| >= 3
    ensures |chain| == |conv| - 2
    ensures forall j :: 0 <= j < |chain| ==> |chain[j]| == 2 && chain[j][1] == conv[j + 1]
  {
    seq(|conv| - 2, j requires 0 <= j < |conv| - 2 =>
      [if j == 0 then conv[0] else FreshName(counter + j - 1), conv[j + 1]])
  }

  /** The rewritten bodies of an entry and the bodies given to the fresh names it used. */
  datatype Split = Split(bodies: seq<Body>, minted: seq<Body>)

  /** Every body has one or two symbols. */
  ghost predicate Shaped(list: seq<Body>) {
    forall i :: 0 <= i < |list| ==> 1 <= |list[i]| <= 2
  }

  /** No generated name (`T_...` or `N` and digits) is also the name of a terminal. */
  ghost predicate NoClash(terminals: set<Symbol>) {
    && (forall u {:trigger TermName(u)} :: u in terminals ==> TermName(u) !in terminals)
    && (forall k: nat {:trigger FreshName(k)} :: FreshName(k) !in terminals)
  }

  /** No body mentions a terminal. */
  ghost predicate TerminalFree(list: seq<Body>, terminals: set<Symbol>) {
    forall i, j :: 0 <= i < |list| && 0 <= j < |list[i]| ==> list[i][j] !in terminals
  }

  /** What the rewritten bodies may be: shaped, and terminal-free when names do not clash. */
  ghost predicate CnfBodies(list: seq<Body>, terminals: set<Symbol>) {
    Shaped(list) && (NoClash(terminals) ==> TerminalFree(list, terminals))
  }

  /** Lines 267-300 for one body `b`, with the counter at `counter`. */
  function BinarizeBody(b: Body, terminals: set<Symbol>, counter: nat): (s: Split)
    ensures |s.bodies| == if b == [] then 0 else 1
    ensures |s.minted| == if |b| >= 3 then |b| - 2 else 0
    ensures |b| == 1 && b[0] in terminals ==> s.bodies == [[TermName(b[0])]]
    ensures |b| == 1 && b[0] !in terminals ==> s.bodies == [b]
  {
    if |b| == 0 then Split([], [])
    else if |b| == 1 && b[0] in terminals then Split([[TermName(b[0])]], [])
    else if |b| == 1 then Split([b], [])
    else
      var conv := Convert(b, TermMap(terminals));
      if |conv| == 2 then Split([conv], [])
      else Split([[FreshName(counter + |conv| - 3), conv[|conv| - 1]]], Chain(conv, counter))
  }

  /** A rewritten body and the chain bodies it mints have one or two symbols, and no terminal when names do not clash. */
  lemma {:induction false} BinarizeBodyCnf(b: Body, terminals: set<Symbol>, counter: nat)
    ensures CnfBodies(BinarizeBody(b, terminals, counter).bodies, terminals)
    ensures CnfBodies(BinarizeBody(b, terminals, counter).minted, terminals)
  {
    if |b| == 1 && b[0] in terminals {
      NoClashTermName(terminals, b[0]);
    } else if |b| >= 2 {
      var conv := Convert(b, TermMap(terminals));
      ConvertTerminalFree(b, terminals);
      if |conv| >= 3 {
        FreshNotTerminal(terminals, counter + |conv| - 3);
        ChainTerminalFree(conv, counter, terminals);
      }
    }
  }

  /** A split made of two strict splits, one after the other, is strict. */
  lemma {:induction false} CnfSplitJoin(a: Split, b: Split, s: Split, terminals: set<Symbol>)
    requires s.bodies == a.bodies + b.bodies && s.minted == a.minted + b.minted
    requires CnfBodies(a.bodies, terminals) && CnfBodies(b.bodies, terminals)
    requires CnfBodies(a.minted, terminals) && CnfBodies(b.minted, terminals)
    ensures CnfBodies(s.bodies, terminals) && CnfBodies(s.minted, terminals)
  {
    CnfBodiesJoin(a.bodies, b.bodies, terminals);
    CnfBodiesJoin(a.minted, b.minted, terminals);
  }

  lemma {:induction false} CnfBodiesJoin(a: seq<Body>, b: seq<Body>, terminals: set<Symbol>)
    requires CnfBodies(a, terminals) && CnfBodies(b, terminals)
    ensures CnfBodies(a + b, terminals)
  {
  }

  lemma {:induction false} NoClashTermName(terminals: set<Symbol>, t: Symbol)
    requires t in terminals
    ensures NoClash(terminals) ==> TermName(t) !in terminals
  {
  }

  lemma {:induction false} FreshNotTerminal(terminals: set<Symbol>, k: nat)
    ensures NoClash(terminals) ==> FreshName(k) !in terminals
  {
  }

  /** A converted body holds no terminal when generated names do not clash with terminals. */
  lemma {:induction false} ConvertTerminalFree(b: Body, terminals: set<Symbol>)
    ensures NoClash(terminals) ==> forall x :: x in Convert(b, TermMap(terminals)) ==> x !in terminals
  {
    if NoClash(terminals) {
      var c := Convert(b, TermMap(terminals));
      forall x | x in c ensures x !in terminals {
        var i :| 0 <= i < |c| && c[i] == x;
        if b[i] in terminals {
          NoClashTermName(terminals, b[i]);
        }
      }
    }
  }

  lemma {:induction false} ChainTerminalFree(conv: Body, counter: nat, terminals: set<Symbol>)
    requires |conv| >= 3
    requires NoClash(terminals) ==> forall x :: x in conv ==> x !in terminals
    ensures NoClash(terminals) ==> TerminalFree(Chain(conv, counter), terminals)
  {
    var chain := Chain(conv, counter);
    if NoClash(terminals) {
      forall b, x | b in chain && x in b ensures x !in terminals {
        var j :| 0 <= j < |chain| && chain[j] == b;
        if j > 0 {
          FreshNotTerminal(terminals, counter + j - 1);
        }
      }
    }
  }

  /** The sum over the bodies of how many symbols each has beyond two. */
  function Excess(prods: seq<Body>): nat {
    if prods == [] then 0
    else Excess(prods[..|prods| - 1]) + (if |prods[|prods| - 1]| >= 3 then |prods[|prods| - 1]| - 2 else 0)
  }

  /** Lines 266-301: all bodies of one entry, in order, with the counter threaded through. */
  function BinarizeList(prods: seq<Body>, terminals: set<Symbol>, counter: nat): (s: Split)
    ensures |s.minted| == Excess(prods)
    decreases |prods|
  {
    if prods == [] then Split([], [])
    else
      var pre := BinarizeList(prods[..|prods| - 1], terminals, counter);
      var last := BinarizeBody(prods[|prods| - 1], terminals, counter + |pre.minted|);
      Split(pre.bodies + last.bodies, pre.minted + last.minted)
  }

  /** One more body: its rewritten form and its minted bodies go after those of the earlier ones. */
  lemma {:induction false} BinarizeListStep(prods: seq<Body>, i: nat, terminals: set<Symbol>, counter: nat,
                                            pre: Split, c: nat, step: Split, post: Split)
    requires i < |prods|
    requires pre == BinarizeList(prods[..i], terminals, counter) && c == counter + |pre.minted|
    requires step == BinarizeBody(prods[i], terminals, c) && post == BinarizeList(prods[..i + 1], terminals, counter)
    ensures post == Split(pre.bodies + step.bodies, pre.minted + step.minted)
  {
    assert prods[..i + 1][..i] == prods[..i];
  }

  /** Every body of a rewritten list, and every minted body, is in the strict shape. */
  lemma {:induction false} BinarizeListCnf(prods: seq<Body>, terminals: set<Symbol>, counter: nat)
    ensures CnfBodies(BinarizeList(prods, terminals, counter).bodies, terminals)
    ensures CnfBodies(BinarizeList(prods, terminals, counter).minted, terminals)
    decreases |prods|
  {
    if prods != [] {
      var pre := BinarizeList(prods[..|prods| - 1], terminals, counter);
      var last := BinarizeBody(prods[|prods| - 1], terminals, counter + |pre.minted|);
      BinarizeListCnf(prods[..|prods| - 1], terminals, counter);
      BinarizeBodyCnf(prods[|prods| - 1], terminals, counter + |pre.minted|);
      CnfSplitJoin(pre, last, BinarizeList(prods, terminals, counter), terminals);
    }
  }

  /** Every body of at most two symbols leaves its rewritten form in the entry's new list. */
  lemma {:induction false} ShortBodyKept(prods: seq<Body>, terminals: set<Symbol>, counter: nat, b: Body, k: nat)
    requires b in prods && 1 <= |b| <= 2
    ensures BinarizeBody(b, terminals, k).bodies[0] in BinarizeList(prods, terminals, counter).bodies
    decreases |prods|
  {
    var init := prods[..|prods| - 1];
    var pre := BinarizeList(init, terminals, counter);
    if b == prods[|prods| - 1] {
      assert BinarizeBody(b, terminals, k) == BinarizeBody(b, terminals, counter + |pre.minted|);
    } else {
      assert b in init by {
        assert prods == init + [prods[|prods| - 1]];
      }
      ShortBodyKept(init, terminals, counter, b, k);
    }
  }

  /**
   * The fresh names `N<counter+j>` of a chain, each expanded through the
   * chain's own bodies down to the first pair: the symbols the name stands
   * for.
   */
  function Expand(chain: seq<Body>, counter: nat, j: nat): (symbols: seq<Symbol>)
    requires j < |chain|
    requires forall i :: 0 <= i < |chain| ==> |chain[i]| == 2
    ensures |symbols| >= 2
    decreases j
  {
    if j > 0 && chain[j][0] == FreshName(counter + j - 1) then Expand(chain, counter, j - 1) + [chain[j][1]]
    else chain[j]
  }

  /** Round trip: `N<counter+j>` expands to the first `j + 2` symbols of the converted body. */
  lemma {:induction false} ChainExpands(conv: Body, counter: nat, j: nat)
    requires |conv| >= 3 && j < |conv| - 2
    ensures Expand(Chain(conv, counter), counter, j) == conv[..j + 2]
    decreases j
  {
    if j > 0 {
      ChainExpands(conv, counter, j - 1);
      assert conv[..j + 2] == conv[..j + 1] + [conv[j + 1]];
    }
  }

  /** A body of three or more symbols is rebuilt exactly by expanding the head of its new body. */
  lemma {:induction false} LongBodyRebuilt(b: Body, terminals: set<Symbol>, counter: nat)
    requires |b| >= 3
    ensures var s := BinarizeBody(b, terminals, counter);
            var head := s.bodies[0];
            && head[0] == FreshName(counter + |b| - 3)
            && Expand(s.minted, counter, |b| - 3) + [head[1]] == Convert(b, TermMap(terminals))
  {
    var conv := Convert(b, TermMap(terminals));
    ChainExpands(conv, counter, |b| - 3);
    assert conv[..|b| - 1] + [conv[|b| - 1]] == conv;
  }

  /** The rewritten lists of the entries processed so far, and the bodies given to fresh names. */
  datatype Progress = Progress(rewritten: map<Symbol, seq<Body>>, minted: seq<Body>)

  /** Lines 265-302 as a fold: the entries of `keys` processed in order, the counter threaded through. */
  function Fold(keys: seq<Symbol>, m: map<Symbol, seq<Body>>, terminals: set<Symbol>): (f: Progress)
    requires forall k :: k in keys ==> k in m
    ensures f.rewritten.Keys == Elements(keys)
    decreases |keys|
  {
    if keys == [] then Progress(map[], [])
    else
      var pre := Fold(keys[..|keys| - 1], m, terminals);
      var k := keys[|keys| - 1];
      assert Elements(keys) == Elements(keys[..|keys| - 1]) + {k} by {
        assert keys == keys[..|keys| - 1] + [k];
      }
      var s := BinarizeList(m[k], terminals, |pre.minted|);
      Progress(pre.rewritten[k := s.bodies], pre.minted + s.minted)
  }

  /** Every rewritten list and every minted body is in the strict shape. */
  lemma {:induction false} FoldCnf(keys: seq<Symbol>, m: map<Symbol, seq<Body>>, terminals: set<Symbol>)
    requires forall k :: k in keys ==> k in m
    ensures CnfBodies(Fold(keys, m, terminals).minted, terminals)
    ensures forall k :: k in Fold(keys, m, terminals).rewritten ==> CnfBodies(Fold(keys, m, terminals).rewritten[k], terminals)
    decreases |keys|
  {
    if keys != [] {
      var pre := Fold(keys[..|keys| - 1], m, terminals);
      var k := keys[|keys| - 1];
      FoldCnf(keys[..|keys| - 1], m, terminals);
      BinarizeListCnf(m[k], terminals, |pre.minted|);
      CnfBodiesJoin(pre.minted, BinarizeList(m[k], terminals, |pre.minted|).minted, terminals);
    }
  }

  /** With distinct keys, each entry's rewritten list is its own list rewritten at the counter reached before it. */
  lemma {:induction false} FoldAt(keys: seq<Symbol>, m: map<Symbol, seq<Body>>, terminals: set<Symbol>, p: nat)
    requires forall k :: k in keys ==> k in m
    requires Distinct(keys) && p < |keys|
    ensures keys[p] in Fold(keys, m, terminals).rewritten
    ensures Fold(keys, m, terminals).rewritten[keys[p]] ==
              BinarizeList(m[keys[p]], terminals, |Fold(keys[..p], m, terminals).minted|).bodies
    decreases |keys|
  {
    var init := keys[..|keys| - 1];
    assert Elements(keys) == Elements(init) + {keys[|keys| - 1]} by {
      assert keys == init + [keys[|keys| - 1]];
    }
    if p < |init| {
      assert init[..p] == keys[..p];
      assert keys[p] != keys[|keys| - 1];
      FoldAt(init, m, terminals, p);
    } else {
      assert init == keys[..p];
    }
  }

  /** One more key: its list is rewritten at the counter reached so far. */
  lemma {:induction false} FoldSnoc(keys: seq<Symbol>, k: Symbol, m: map<Symbol, seq<Body>>, terminals: set<Symbol>)
    requires forall x :: x in keys ==> x in m
    requires k in m
    ensures var pre := Fold(keys, m, terminals);
            var s := BinarizeList(m[k], terminals, |pre.minted|);
            Fold(keys + [k], m, terminals) == Progress(pre.rewritten[k := s.bodies], pre.minted + s.minted)
  {
    assert (keys + [k])[..|keys|] == keys;
    assert (keys + [k])[|keys|] == k;
  }

  /** Entries whose bodies are all short mint nothing and leave the counter where it was. */
  lemma {:induction false} FoldTail(keys: seq<Symbol>, tail: seq<Symbol>, m: map<Symbol, seq<Body>>, terminals: set<Symbol>)
    requires forall k :: k in keys ==> k in m
    requires forall k :: k in tail ==> k in m && Excess(m[k]) == 0
    ensures Fold(keys + tail, m, terminals).minted == Fold(keys, m, terminals).minted
    ensures forall k :: k in Fold(keys, m, terminals).rewritten && k !in tail ==>
              Fold(keys + tail, m, terminals).rewritten[k] == Fold(keys, m, terminals).rewritten[k]
    ensures forall k :: k in tail ==>
              Fold(keys + tail, m, terminals).rewritten[k] ==
                BinarizeList(m[k], terminals, |Fold(keys, m, terminals).minted|).bodies
    decreases |tail|
  {
    if tail == [] {
      assert keys + tail == keys;
    } else {
      var init := tail[..|tail| - 1];
      var last := tail[|tail| - 1];
      assert tail == init + [last];
      assert keys + tail == (keys + init) + [last];
      FoldTail(keys, init, m, terminals);
      var f0 := Fold(keys, m, terminals);
      var f1 := Fold(keys + init, m, terminals);
      assert forall x :: x in keys + init ==> x in m;
      FoldSnoc(keys + init, last, m, terminals);
      var s := BinarizeList(m[last], terminals, |f1.minted|);
      assert s.minted == [];
      assert Fold(keys + tail, m, terminals) == Progress(f1.rewritten[last := s.bodies], f1.minted);
    }
  }

  /** The entries `N<counter+j> -> [minted[j]]` for every `j`. */
  ghost function MintMap(counter: nat, minted: seq<Body>): map<Symbol, seq<Body>>
    decreases |minted|
  {
    if minted == [] then map[]
    else MintMap(counter, minted[..|minted| - 1])[FreshName(counter + |minted| - 1) := [minted[|minted| - 1]]]
  }

  lemma {:induction false} MintMapKeys(counter: nat, minted: seq<Body>)
    ensures MintMap(counter, minted).Keys == FreshRange(counter, counter + |minted|)
    decreases |minted|
  {
    if minted != [] {
      MintMapKeys(counter, minted[..|minted| - 1]);
    }
  }

  lemma {:induction false} MintMapAt(counter: nat, minted: seq<Body>, j: nat)
    requires j < |minted|
    ensures FreshName(counter + j) in MintMap(counter, minted)
    ensures MintMap(counter, minted)[FreshName(counter + j)] == [minted[j]]
    decreases |minted|
  {
    var init := minted[..|minted| - 1];
    if j < |init| {
      MintMapAt(counter, init, j);
      FreshNameInjective(counter + j, counter + |minted| - 1);
    }
  }

  /** The fresh names' entries are in the strict shape when the minted bodies are. */
  lemma {:induction false} MintMapCnf(counter: nat, minted: seq<Body>, terminals: set<Symbol>)
    requires CnfBodies(minted, terminals)
    ensures forall k :: k in MintMap(counter, minted) ==> CnfBodies(MintMap(counter, minted)[k], terminals)
    decreases |minted|
  {
    if minted != [] {
      var init := minted[..|minted| - 1];
      assert forall b :: b in init ==> b in minted;
      MintMapCnf(counter, init, terminals);
      assert minted[|minted| - 1] in minted;
    }
  }

  /** Setting a key after merging two maps is merging with the key set in the second. */
  lemma {:induction false} MergeUpdate<K, V>(a: map<K, V>, b: map<K, V>, k: K, v: V)
    ensures (a + b)[k := v] == a + b[k := v]
  {
  }

  /** `productions.set(N<counter + j>, [minted[j]])` for every `j`, in order (lines 292-294). */
  function PutAll(p: Productions, counter: nat, minted: seq<Body>): (r: Productions)
    ensures p.Valid() ==> r.Valid()
    decreases |minted|
  {
    if minted == [] then p
    else PutAll(p, counter, minted[..|minted| - 1]).Put(FreshName(counter + |minted| - 1), [minted[|minted| - 1]])
  }

  /** The fresh entries put are exactly those of `MintMap`; nothing else changes. */
  lemma {:induction false} PutAllMap(p: Productions, counter: nat, minted: seq<Body>)
    ensures PutAll(p, counter, minted).m == p.m + MintMap(counter, minted)
    decreases |minted|
  {
    if minted != [] {
      var init := minted[..|minted| - 1];
      var x := [minted[|minted| - 1]];
      var name := FreshName(counter + |minted| - 1);
      PutAllMap(p, counter, init);
      MergeUpdate(p.m, MintMap(counter, init), name, x);
    }
  }

  /** `Put` keeps every prefix of the key order. */
  lemma {:induction false} PutKeepsPrefix(p: Productions, k: Symbol, v: seq<Body>, n: nat)
    requires n <= |p.keys|
    ensures |p.Put(k, v).keys| >= |p.keys| && p.Put(k, v).keys[..n] == p.keys[..n]
  {
    if k !in p.m {
      assert p.Put(k, v).keys == p.keys + [k];
      assert (p.keys + [k])[..n] == p.keys[..n];
    }
  }

  /** The keys already in the Map keep their places in front. */
  lemma {:induction false} PutAllPrefix(p: Productions, counter: nat, minted: seq<Body>)
    ensures |p.keys| <= |PutAll(p, counter, minted).keys|
    ensures PutAll(p, counter, minted).keys[..|p.keys|] == p.keys
    decreases |minted|
  {
    if minted == [] {
      assert p.keys[..|p.keys|] == p.keys;
    } else {
      var q := PutAll(p, counter, minted[..|minted| - 1]);
      PutAllPrefix(p, counter, minted[..|minted| - 1]);
      PutKeepsPrefix(q, FreshName(counter + |minted| - 1), [minted[|minted| - 1]], |p.keys|);
    }
  }

  /** Putting two runs of fresh entries one after the other is putting their concatenation. */
  lemma {:induction false} PutAllAppend(p: Productions, counter: nat, m1: seq<Body>, m2: seq<Body>)
    ensures PutAll(PutAll(p, counter, m1), counter + |m1|, m2) == PutAll(p, counter, m1 + m2)
    decreases |m2|
  {
    if m2 == [] {
      assert m1 + m2 == m1;
    } else {
      var init := m2[..|m2| - 1];
      var name := FreshName(counter + |m1| + |m2| - 1);
      var x := [m2[|m2| - 1]];
      var q := PutAll(p, counter, m1);
      assert (m1 + m2)[..|m1 + m2| - 1] == m1 + init;
      assert (m1 + m2)[|m1 + m2| - 1] == m2[|m2| - 1];
      PutAllAppend(p, counter, m1, init);
      assert PutAll(q, counter + |m1|, m2) == PutAll(q, counter + |m1|, init).Put(name, x);
      assert PutAll(p, counter, m1 + m2) == PutAll(p, counter, m1 + init).Put(name, x);
    }
  }

  /** Putting the first `i` fresh entries is putting the first `i - 1`, then the `i`-th. */
  lemma {:induction false} PutAllStep(p: Productions, counter: nat, minted: seq<Body>, i: nat)
    requires 1 <= i <= |minted|
    ensures PutAll(p, counter, minted[..i]) ==
              PutAll(p, counter, minted[..i - 1]).Put(FreshName(counter + i - 1), [minted[i - 1]])
  {
    assert minted[..i][..i - 1] == minted[..i - 1];
  }

  /** Lines 290-299: fold a converted body of three or more symbols into a chain of fresh names. */
  method SplitLongBody(conv: Body, nonTerminals: set<Symbol>, productions: Productions, counter: nat)
    returns (head: Body, nonTerminals': set<Symbol>, productions': Productions, counter': nat)
    requires |conv| >= 3
    ensures head == [FreshName(counter + |conv| - 3), conv[|conv| - 1]]
    ensures counter' == counter + |conv| - 2
    ensures nonTerminals' == nonTerminals + FreshRange(counter, counter')
    ensures productions' == PutAll(productions, counter, Chain(conv, counter))
  {
    var current := conv[0];
    counter' := counter;
    nonTerminals' := nonTerminals;
    productions' := productions;
    ChainStart(conv, counter, nonTerminals, productions);
    for i := 1 to |conv| - 1
      invariant ChainState(conv, counter, nonTerminals, productions, i, current, counter', nonTerminals', productions')
    {
      var newNT := FreshName(counter');
      var nts := nonTerminals' + {newNT};
      var ps := productions'.Put(newNT, [[current, conv[i]]]);
      ChainStep(conv, counter, nonTerminals, productions, i, current, counter', nonTerminals', productions', nts, ps);
      counter', nonTerminals', productions', current := counter' + 1, nts, ps, newNT;
    }
    ChainDone(conv, counter, nonTerminals, productions, current, counter', nonTerminals', productions');
    head := [current, conv[|conv| - 1]];
  }

  lemma {:induction false} ChainStart(conv: Body, counter: nat, nonTerminals: set<Symbol>, productions: Productions)
    requires |conv| >= 3
    ensures ChainState(conv, counter, nonTerminals, productions, 1, conv[0], counter, nonTerminals, productions)
  {
    assert Chain(conv, counter)[..0] == [];
  }

  lemma {:induction false} ChainDone(conv: Body, counter: nat, nonTerminals: set<Symbol>, productions: Productions,
                                     current: Symbol, c: nat, nts: set<Symbol>, ps: Productions)
    requires |conv| >= 3
    requires ChainState(conv, counter, nonTerminals, productions, |conv| - 1, current, c, nts, ps)
    ensures current == FreshName(counter + |conv| - 3)
    ensures c == counter + |conv| - 2
    ensures nts == nonTerminals + FreshRange(counter, c)
    ensures ps == PutAll(productions, counter, Chain(conv, counter))
  {
    assert Chain(conv, counter)[..|conv| - 2] == Chain(conv, counter);
  }

  /** The chain loop of lines 292-298 before the symbol at index `i`. */
  ghost predicate ChainState(conv: Body, counter: nat, nonTerminals: set<Symbol>, productions: Productions,
                             i: int, current: Symbol, counter': nat, nonTerminals': set<Symbol>, productions': Productions)
    requires |conv| >= 3
  {
    && 1 <= i <= |conv| - 1
    && counter' == counter + i - 1
    && current == (if i == 1 then conv[0] else FreshName(counter + i - 2))
    && nonTerminals' == nonTerminals + FreshRange(counter, counter')
    && productions' == PutAll(productions, counter, Chain(conv, counter)[..i - 1])
  }

  /** One round of the chain loop: the next fresh name pairs the current symbol with `conv[i]`. */
  lemma {:induction false} ChainStep(conv: Body, counter: nat, nonTerminals: set<Symbol>, productions: Productions,
                                     i: int, current: Symbol, c: nat, nts: set<Symbol>, ps: Productions,
                                     nts': set<Symbol>, ps': Productions)
    requires |conv| >= 3 && i < |conv| - 1
    requires ChainState(conv, counter, nonTerminals, productions, i, current, c, nts, ps)
    requires nts' == nts + {FreshName(c)} && ps' == ps.Put(FreshName(c), [[current, conv[i]]])
    ensures ChainState(conv, counter, nonTerminals, productions, i + 1, FreshName(c), c + 1, nts', ps')
  {
    var chain := Chain(conv, counter);
    assert chain[i - 1] == [current, conv[i]];
    PutAllStep(productions, counter, chain, i);
  }

  /** Lines 267-299: the new list for one entry's bodies, minting fresh names as it goes. */
  method BinarizeBodies(prods: seq<Body>, terminals: set<Symbol>, termToNT: map<Symbol, Symbol>,
                        nonTerminals: set<Symbol>, productions: Productions, counter: nat)
    returns (newProds: seq<Body>, nonTerminals': set<Symbol>, productions': Productions, counter': nat)
    requires termToNT == TermMap(terminals)
    ensures newProds == BinarizeList(prods, terminals, counter).bodies
    ensures counter' == counter + |BinarizeList(prods, terminals, counter).minted|
    ensures nonTerminals' == nonTerminals + FreshRange(counter, counter')
    ensures productions' == PutAll(productions, counter, BinarizeList(prods, terminals, counter).minted)
  {
    newProds := [];
    nonTerminals' := nonTerminals;
    productions' := productions;
    counter' := counter;
    assert prods[..0] == [];
    for i := 0 to |prods|
      invariant BodiesDone(prods, i, terminals, counter, nonTerminals, productions, newProds, nonTerminals', productions', counter')
    {
      ghost var before := (newProds, nonTerminals', productions', counter');
      var added;
      added, nonTerminals', productions', counter' := BinarizeOne(prods[i], terminals, termToNT, nonTerminals', productions', counter');
      newProds := newProds + added;
      BodiesStep(prods, i, terminals, counter, nonTerminals, productions, before.0, before.1, before.2, before.3,
                 added, newProds, nonTerminals', productions', counter');
    }
    assert prods[..|prods|] == prods;
  }

  /** The loop of lines 266-301 after the first `i` bodies of `prods`. */
  ghost predicate BodiesDone(prods: seq<Body>, i: int, terminals: set<Symbol>, counter: nat,
                             nonTerminals: set<Symbol>, productions: Productions,
                             newProds: seq<Body>, nonTerminals': set<Symbol>, productions': Productions, counter': nat)
  {
    && 0 <= i <= |prods|
    && var s := BinarizeList(prods[..i], terminals, counter);
    && newProds == s.bodies
    && counter' == counter + |s.minted|
    && nonTerminals' == nonTerminals + FreshRange(counter, counter')
    && productions' == PutAll(productions, counter, s.minted)
  }

  lemma {:induction false} BodiesStep(prods: seq<Body>, i: int, terminals: set<Symbol>, counter: nat,
                   nonTerminals: set<Symbol>, productions: Productions,
                   newProds0: seq<Body>, nonTerminals0: set<Symbol>, productions0: Productions, counter0: nat,
                   added: seq<Body>, newProds1: seq<Body>, nonTerminals1: set<Symbol>, productions1: Productions, counter1: nat)
    requires BodiesDone(prods, i, terminals, counter, nonTerminals, productions, newProds0, nonTerminals0, productions0, counter0)
    requires i < |prods|
    requires added == BinarizeBody(prods[i], terminals, counter0).bodies
    requires counter1 == counter0 + |BinarizeBody(prods[i], terminals, counter0).minted|
    requires nonTerminals1 == nonTerminals0 + FreshRange(counter0, counter1)
    requires productions1 == PutAll(productions0, counter0, BinarizeBody(prods[i], terminals, counter0).minted)
    requires newProds1 == newProds0 + added
    ensures BodiesDone(prods, i + 1, terminals, counter, nonTerminals, productions, newProds1, nonTerminals1, productions1, counter1)
  {
    var pre := BinarizeList(prods[..i], terminals, counter);
    var step := BinarizeBody(prods[i], terminals, counter0);
    var post := BinarizeList(prods[..i + 1], terminals, counter);
    BinarizeListStep(prods, i, terminals, counter, pre, counter0, step, post);
    StateStep(counter, counter0, counter1, nonTerminals, nonTerminals0, nonTerminals1, productions, productions0, productions1,
              newProds0, newProds1, added, pre.bodies, pre.minted, step.bodies, step.minted, post.bodies, post.minted);
  }

  /** `BodiesStep` on plain values: the counters, names and entries of two runs add up. */
  lemma {:induction false} StateStep(counter: nat, c0: nat, c1: nat, n: set<Symbol>, n0: set<Symbol>, n1: set<Symbol>,
                  p: Productions, p0: Productions, p1: Productions, newProds0: seq<Body>, newProds1: seq<Body>, added: seq<Body>,
                  preBodies: seq<Body>, preMinted: seq<Body>, stepBodies: seq<Body>, stepMinted: seq<Body>,
                  postBodies: seq<Body>, postMinted: seq<Body>)
    requires newProds0 == preBodies && c0 == counter + |preMinted|
    requires n0 == n + FreshRange(counter, c0) && p0 == PutAll(p, counter, preMinted)
    requires added == stepBodies && c1 == c0 + |stepMinted| && n1 == n0 + FreshRange(c0, c1)
    requires p1 == PutAll(p0, c0, stepMinted) && newProds1 == newProds0 + added
    requires postBodies == preBodies + stepBodies && postMinted == preMinted + stepMinted
    ensures newProds1 == postBodies && c1 == counter + |postMinted|
    ensures n1 == n + FreshRange(counter, c1) && p1 == PutAll(p, counter, postMinted)
  {
    FreshRangeSplit(counter, c0, c1);
    PutAllAppend(p, counter, preMinted, stepMinted);
  }

  /** Lines 268-299 for one body: its rewritten form, with the fresh names it needs put into the Map. */
  method BinarizeOne(prod: Body, terminals: set<Symbol>, termToNT: map<Symbol, Symbol>,
                     nonTerminals: set<Symbol>, productions: Productions, counter: nat)
    returns (added: seq<Body>, nonTerminals': set<Symbol>, productions': Productions, counter': nat)
    requires termToNT == TermMap(terminals)
    ensures added == BinarizeBody(prod, terminals, counter).bodies
    ensures counter' == counter + |BinarizeBody(prod, terminals, counter).minted|
    ensures nonTerminals' == nonTerminals + FreshRange(counter, counter')
    ensures productions' == PutAll(productions, counter, BinarizeBody(prod, terminals, counter).minted)
  {
    added, nonTerminals', productions', counter' := [], nonTerminals, productions, counter;
    if |prod| == 0 {
    } else if |prod| == 1 && prod[0] in terminals {
      added := [[termToNT[prod[0]]]];
    } else if |prod| == 1 {
      added := [prod];
    } else {
      var converted := Convert(prod, termToNT);
      if |converted| == 2 {
        added := [converted];
      } else {
        var head;
        head, nonTerminals', productions', counter' := SplitLongBody(converted, nonTerminals, productions, counter);
        added := [head];
      }
    }
  }

  /**
   * The Map after the loop at lines 265-302 has processed the snapshot
   * entries `keys` in order: each entry's fresh names are put, then the
   * entry itself is set to its rewritten list.
   */
  function Stage(keys: seq<Symbol>, snap: Productions, terminals: set<Symbol>): (r: Productions)
    requires forall k :: k in keys ==> k in snap.m
    ensures snap.Valid() ==> r.Valid()
    decreases |keys|
  {
    if keys == [] then snap
    else
      var init := keys[..|keys| - 1];
      var k := keys[|keys| - 1];
      var counter := |Fold(init, snap.m, terminals).minted|;
      var s := BinarizeList(snap.m[k], terminals, counter);
      PutAll(Stage(init, snap, terminals), counter, s.minted).Put(k, s.bodies)
  }

  /** The keys while the loop runs: the snapshot's keys first, then the fresh names minted so far. */
  ghost predicate StageKeys(snap: Productions, counter: nat, p: Productions) {
    && p.m.Keys == snap.m.Keys + FreshRange(0, counter)
    && |snap.keys| <= |p.keys|
    && p.keys[..|snap.keys|] == snap.keys
  }

  lemma {:induction false} StageKeysHold(keys: seq<Symbol>, snap: Productions, terminals: set<Symbol>)
    requires forall k :: k in keys ==> k in snap.m
    ensures StageKeys(snap, |Fold(keys, snap.m, terminals).minted|, Stage(keys, snap, terminals))
    decreases |keys|
  {
    if keys == [] {
      assert snap.keys[..|snap.keys|] == snap.keys;
    } else {
      var init := keys[..|keys| - 1];
      var k := keys[|keys| - 1];
      var counter := |Fold(init, snap.m, terminals).minted|;
      var s := BinarizeList(snap.m[k], terminals, counter);
      StageKeysHold(init, snap, terminals);
      StageKeysStep(snap, counter, Stage(init, snap, terminals), s.minted, k, s.bodies);
    }
  }

  /** `StageKeys` survives one entry: its fresh names are put, then the entry itself is set. */
  lemma {:induction false} StageKeysStep(snap: Productions, counter: nat, q: Productions, minted: seq<Body>, k: Symbol, bodies: seq<Body>)
    requires StageKeys(snap, counter, q) && k in snap.m
    ensures StageKeys(snap, counter + |minted|, PutAll(q, counter, minted).Put(k, bodies))
  {
    var q2 := PutAll(q, counter, minted);
    PutAllMap(q, counter, minted);
    MintMapKeys(counter, minted);
    FreshRangeSplit(0, counter, counter + |minted|);
    KeysStep(snap.m.Keys, q.m, MintMap(counter, minted), k, bodies,
             FreshRange(0, counter), FreshRange(counter, counter + |minted|), FreshRange(0, counter + |minted|));
    PutAllPrefix(q, counter, minted);
    PutKeepsPrefix(q2, k, bodies, |snap.keys|);
    assert q2.keys[..|q.keys|] == q.keys;
  }

  /** The key set after one entry: its fresh names join, and the entry itself was already a key. */
  lemma {:induction false} KeysStep<V>(snapKeys: set<Symbol>, m: map<Symbol, V>, mm: map<Symbol, V>, k: Symbol, v: V,
                    before: set<Symbol>, added: set<Symbol>, after: set<Symbol>)
    requires m.Keys == snapKeys + before && mm.Keys == added && after == before + added
    requires k in snapKeys
    ensures ((m + mm)[k := v]).Keys == snapKeys + after
  {
  }

  /**
   * The entries while the loop runs, once the processed entries have given
   * `f`: processed entries hold their rewritten lists, the others their
   * snapshot lists, the fresh names minted so far hold their chain bodies,
   * and every processed or fresh entry is in the strict shape.
   */
  ghost predicate EntryValues(snapM: map<Symbol, seq<Body>>, terminals: set<Symbol>, f: Progress,
                              m: map<Symbol, seq<Body>>)
  {
    KeptEntries(snapM, f, m) && MintedEntries(snapM, f, m) && CnfEntries(terminals, f, m)
  }

  /** Snapshot entries outside the fresh names hold their rewritten list once processed, their snapshot list before. */
  ghost predicate KeptEntries(snapM: map<Symbol, seq<Body>>, f: Progress, m: map<Symbol, seq<Body>>) {
    forall k :: k in snapM && k !in FreshRange(0, |f.minted|) ==>
      k in m && m[k] == if k in f.rewritten then f.rewritten[k] else snapM[k]
  }

  /** Every fresh name minted so far that was not a snapshot key holds its chain body. */
  ghost predicate MintedEntries(snapM: map<Symbol, seq<Body>>, f: Progress, m: map<Symbol, seq<Body>>) {
    forall j :: 0 <= j < |f.minted| && FreshName(j) !in snapM ==>
      FreshName(j) in m && m[FreshName(j)] == [f.minted[j]]
  }

  /** Every processed entry and every fresh name is in the strict shape. */
  ghost predicate CnfEntries(terminals: set<Symbol>, f: Progress, m: map<Symbol, seq<Body>>) {
    forall k :: k in m && (k in f.rewritten || k in FreshRange(0, |f.minted|)) ==> CnfBodies(m[k], terminals)
  }

  lemma {:induction false} StageValuesHold(keys: seq<Symbol>, snap: Productions, terminals: set<Symbol>)
    requires snap.Valid()
    requires forall k :: k in keys ==> k in snap.m
    ensures EntryValues(snap.m, terminals, Fold(keys, snap.m, terminals), Stage(keys, snap, terminals).m)
    decreases |keys|
  {
    if keys != [] {
      var init := keys[..|keys| - 1];
      var k := keys[|keys| - 1];
      var f := Fold(init, snap.m, terminals);
      var s := BinarizeList(snap.m[k], terminals, |f.minted|);
      StageValuesHold(init, snap, terminals);
      var m0 := Stage(init, snap, terminals).m;
      var m1 := Stage(keys, snap, terminals).m;
      StageLast(keys, snap, terminals, init, k, f, s, m0, m1);
      BinarizeListCnf(snap.m[k], terminals, |f.minted|);
      ValuesStep(snap.m, terminals, f, s, k, m0, m1);
    }
  }

  /** The stage and the fold after the last of `keys`, in terms of those before it. */
  lemma {:induction false} StageLast(keys: seq<Symbol>, snap: Productions, terminals: set<Symbol>, init: seq<Symbol>,
                                     k: Symbol, f: Progress, s: Split, m0: map<Symbol, seq<Body>>, m1: map<Symbol, seq<Body>>)
    requires forall k :: k in keys ==> k in snap.m
    requires keys != [] && init == keys[..|keys| - 1] && k == keys[|keys| - 1]
    requires f == Fold(init, snap.m, terminals) && s == BinarizeList(snap.m[k], terminals, |f.minted|)
    requires m0 == Stage(init, snap, terminals).m && m1 == Stage(keys, snap, terminals).m
    ensures m1 == (m0 + MintMap(|f.minted|, s.minted))[k := s.bodies]
    ensures Fold(keys, snap.m, terminals) == Progress(f.rewritten[k := s.bodies], f.minted + s.minted)
  {
    PutAllMap(Stage(init, snap, terminals), |f.minted|, s.minted);
  }

  /** `EntryValues` survives one entry: its fresh names are put, then it gets `s.bodies`. */
  lemma {:induction false} ValuesStep(snapM: map<Symbol, seq<Body>>, terminals: set<Symbol>, f: Progress, s: Split,
                   nt: Symbol, m0: map<Symbol, seq<Body>>, m1: map<Symbol, seq<Body>>)
    requires EntryValues(snapM, terminals, f, m0)
    requires nt in snapM
    requires m1 == (m0 + MintMap(|f.minted|, s.minted))[nt := s.bodies]
    requires CnfBodies(s.bodies, terminals) && CnfBodies(s.minted, terminals)
    ensures EntryValues(snapM, terminals, Progress(f.rewritten[nt := s.bodies], f.minted + s.minted), m1)
  {
    var f' := Progress(f.rewritten[nt := s.bodies], f.minted + s.minted);
    var mm := MintMap(|f.minted|, s.minted);
    MintMapKeys(|f.minted|, s.minted);
    FreshRangeSplit(0, |f.minted|, |f.minted| + |s.minted|);
    StepValues(snapM, f, f', nt, s.bodies, mm, m0, m1);
    StepMinted(snapM, f, s, f', nt, mm, m0, m1);
    MintMapCnf(|f.minted|, s.minted, terminals);
    StepCnf(terminals, f, f', nt, s.bodies, mm, m0, m1);
  }

  lemma {:induction false} StepValues(snapM: map<Symbol, seq<Body>>, f: Progress, f': Progress, nt: Symbol,
                   bodies: seq<Body>, mm: map<Symbol, seq<Body>>, m0: map<Symbol, seq<Body>>, m1: map<Symbol, seq<Body>>)
    requires m1 == (m0 + mm)[nt := bodies] && f'.rewritten == f.rewritten[nt := bodies]
    requires FreshRange(0, |f'.minted|) == FreshRange(0, |f.minted|) + mm.Keys
    requires KeptEntries(snapM, f, m0)
    ensures KeptEntries(snapM, f', m1)
  {
  }

  lemma {:induction false} StepMinted(snapM: map<Symbol, seq<Body>>, f: Progress, s: Split, f': Progress, nt: Symbol,
                   mm: map<Symbol, seq<Body>>, m0: map<Symbol, seq<Body>>, m1: map<Symbol, seq<Body>>)
    requires nt in snapM && f'.minted == f.minted + s.minted
    requires mm == MintMap(|f.minted|, s.minted)
    requires m1 == (m0 + mm)[nt := s.bodies]
    requires mm.Keys == FreshRange(|f.minted|, |f.minted| + |s.minted|)
    requires MintedEntries(snapM, f, m0)
    ensures MintedEntries(snapM, f', m1)
  {
    var c := |f.minted|;
    forall j | 0 <= j < |f'.minted| && FreshName(j) !in snapM
      ensures FreshName(j) in m1 && m1[FreshName(j)] == [f'.minted[j]]
    {
      if j < c {
        FreshRangeIff(c, c + |s.minted|, j);
      } else {
        MintMapAt(c, s.minted, j - c);
      }
    }
  }

  lemma {:induction false} StepCnf(terminals: set<Symbol>, f: Progress, f': Progress, nt: Symbol, bodies: seq<Body>,
                mm: map<Symbol, seq<Body>>, m0: map<Symbol, seq<Body>>, m1: map<Symbol, seq<Body>>)
    requires m1 == (m0 + mm)[nt := bodies] && f'.rewritten == f.rewritten[nt := bodies]
    requires FreshRange(0, |f'.minted|) == FreshRange(0, |f.minted|) + mm.Keys
    requires CnfBodies(bodies, terminals) && forall k :: k in mm ==> CnfBodies(mm[k], terminals)
    requires CnfEntries(terminals, f, m0)
    ensures CnfEntries(terminals, f', m1)
  {
  }

  /** The loop over the snapshot `snap` (lines 265-302) after `i` entries. */
  ghost predicate EntriesState(g: Grammar, snap: Productions, i: nat, counter: nat,
                               nonTerminals: set<Symbol>, productions: Productions)
  {
    && snap.Valid()
    && i <= |snap.keys|
    && counter == |Fold(snap.keys[..i], snap.m, g.terminals).minted|
    && nonTerminals == g.nonTerminals + TermNames(g.terminals) + FreshRange(0, counter)
    && productions == Stage(snap.keys[..i], snap, g.terminals)
  }

  /** One round of the loop at lines 265-302, for the `i`-th snapshot entry. */
  method ProcessEntry(g: Grammar, snap: Productions, i: nat, counter: nat, termToNT: map<Symbol, Symbol>,
                      nonTerminals: set<Symbol>, productions: Productions)
    returns (counter': nat, nonTerminals': set<Symbol>, productions': Productions)
    requires EntriesState(g, snap, i, counter, nonTerminals, productions)
    requires i < |snap.keys| && termToNT == TermMap(g.terminals)
    ensures EntriesState(g, snap, i + 1, counter', nonTerminals', productions')
  {
    var nt := snap.keys[i];
    ElementAt(snap.keys, i);
    var newProds, prods1;
    newProds, nonTerminals', prods1, counter' := BinarizeBodies(snap.m[nt], g.terminals, termToNT, nonTerminals, productions, counter);
    productions' := prods1.Put(nt, newProds);
    assert snap.keys[..i + 1][..i] == snap.keys[..i];
    FreshRangeSplit(0, counter, counter');
  }

  /**
   * The grammar `convertToStrictCNF` returns for `g`. The snapshot Map
   * `staged` is `g`'s Map with `T_t -> [[t]]` set for every terminal; its
   * entries are rewritten in the order of `g`'s keys (the `T_t` entries
   * new to the Map come after them and give no fresh names), each fresh
   * name holds its chain body, and every entry ends up in the strict shape.
   */
  ghost predicate Binarized(g: Grammar, r: Grammar)
    requires g.productions.Valid()
  {
    var T := g.terminals;
    var staged := g.productions.m + TermRules(T);
    var f := Fold(g.productions.keys, staged, T);
    var names := FreshRange(0, |f.minted|);
    && r.terminals == T
    && r.startSymbol == g.startSymbol
    && r.nonTerminals == g.nonTerminals + TermNames(T) + names
    && r.productions.Valid()
    && r.productions.m.Keys == g.productions.m.Keys + TermNames(T) + names
    && |g.productions.keys| <= |r.productions.keys|
    && r.productions.keys[..|g.productions.keys|] == g.productions.keys
    && RewrittenKept(f, r.productions.m)
    && TermEntries(g.productions.m, T, r.productions.m)
    && MintedKept(g.productions.m, f, r.productions.m)
    && AllStrict(r.productions.m, T)
  }

  /** Every rewritten entry that no fresh name overwrote holds its rewritten list. */
  ghost predicate RewrittenKept(f: Progress, m: map<Symbol, seq<Body>>) {
    forall k :: k in f.rewritten && k !in FreshRange(0, |f.minted|) ==> k in m && m[k] == f.rewritten[k]
  }

  /** Every `T_t` that was not already a key of `g` holds `[[T_t]]`. */
  ghost predicate TermEntries(gm: map<Symbol, seq<Body>>, terminals: set<Symbol>, m: map<Symbol, seq<Body>>) {
    forall t :: t in terminals && TermName(t) !in gm ==>
      TermName(t) in m && m[TermName(t)] == [[TermName(t)]]
  }

  /** Every fresh name that was not already a key of `g` holds its chain body. */
  ghost predicate MintedKept(gm: map<Symbol, seq<Body>>, f: Progress, m: map<Symbol, seq<Body>>) {
    forall j :: 0 <= j < |f.minted| && FreshName(j) !in gm ==>
      FreshName(j) in m && m[FreshName(j)] == [f.minted[j]]
  }

  /** Every entry is in the strict shape. */
  ghost predicate AllStrict(m: map<Symbol, seq<Body>>, terminals: set<Symbol>) {
    forall k :: k in m ==> CnfBodies(m[k], terminals)
  }

  /** Lines 251-305: `convertToStrictCNF`. */
  method ConvertToStrictCNF(g: Grammar) returns (r: Grammar)
    requires g.productions.Valid()
    ensures Binarized(g, r)
  {
    var result := CloneGrammar(g);
    var counter := 0;
    var nonTerminals, productions, termToNT := AddTerminalRules(result);
    var snap := productions;
    StagedState(g, snap, nonTerminals, termToNT);
    ghost var staged := nonTerminals;
    var i := 0;
    while i < |snap.keys|
      invariant EntriesState(g, snap, i, counter, nonTerminals, productions)
      decreases |snap.keys| - i
    {
      counter, nonTerminals, productions := ProcessEntry(g, snap, i, counter, termToNT, nonTerminals, productions);
      i := i + 1;
    }
    r := Grammar(nonTerminals, result.terminals, productions, result.startSymbol);
    FinishState(g, snap, counter, r, staged, termToNT);
  }

  /** Lines 255-261: a `T_t` nonterminal and the entry `T_t -> [[t]]` for every terminal. */
  method AddTerminalRules(g: Grammar) returns (nonTerminals: set<Symbol>, productions: Productions, termToNT: map<Symbol, Symbol>)
    requires g.productions.Valid()
    ensures TermState(g, g.terminals, nonTerminals, productions, termToNT)
  {
    nonTerminals := g.nonTerminals;
    productions := g.productions;
    termToNT := map[];
    var rest := g.terminals;
    assert g.productions.keys[..|g.productions.keys|] == g.productions.keys;
    while rest != {}
      invariant rest <= g.terminals
      invariant TermState(g, g.terminals - rest, nonTerminals, productions, termToNT)
      decreases rest
    {
      rest, nonTerminals, productions, termToNT := AddTerminalRule(g, rest, nonTerminals, productions, termToNT);
    }
    assert g.terminals - rest == g.terminals;
  }

  /**
   * The first loop (lines 255-261) once the terminals `done` are handled:
   * their `T_t` names joined the nonterminals and the Map, after `g`'s own
   * keys, and `termToNT` maps each of them to its name.
   */
  ghost predicate TermState(g: Grammar, done: set<Symbol>, nonTerminals: set<Symbol>, productions: Productions,
                            termToNT: map<Symbol, Symbol>)
  {
    && nonTerminals == g.nonTerminals + TermNames(done)
    && TermProductions(g, done, productions)
    && termToNT == TermMap(done)
  }

  /** The Map once the terminals `done` are handled: their `T_t` entries come after `g`'s own keys. */
  ghost predicate TermProductions(g: Grammar, done: set<Symbol>, productions: Productions) {
    && productions.Valid()
    && productions.m == g.productions.m + TermRules(done)
    && |g.productions.keys| <= |productions.keys|
    && productions.keys[..|g.productions.keys|] == g.productions.keys
    && (forall p :: |g.productions.keys| <= p < |productions.keys| ==>
          productions.keys[p] !in g.productions.m && productions.keys[p] in TermNames(done))
  }

  /** One round of the loop at lines 255-261, for a terminal `t` still in `rest`. */
  method AddTerminalRule(g: Grammar, rest: set<Symbol>, nonTerminals: set<Symbol>,
                         productions: Productions, termToNT: map<Symbol, Symbol>)
    returns (rest': set<Symbol>, nonTerminals': set<Symbol>, productions': Productions, termToNT': map<Symbol, Symbol>)
    requires rest <= g.terminals && rest != {}
    requires TermState(g, g.terminals - rest, nonTerminals, productions, termToNT)
    ensures rest' < rest
    ensures TermState(g, g.terminals - rest', nonTerminals', productions', termToNT')
  {
    var t :| t in rest;
    ghost var done := g.terminals - rest;
    rest' := rest - {t};
    assert g.terminals - rest' == done + {t};
    var nt := TermName(t);
    termToNT' := termToNT[t := nt];
    nonTerminals' := nonTerminals + {nt};
    productions' := productions.Put(nt, [[t]]);
    TermStateStep(g, done, t, nonTerminals, productions, termToNT);
  }

  /** `TermState` survives the round for `t`. */
  lemma {:induction false} TermStateStep(g: Grammar, done: set<Symbol>, t: Symbol, nonTerminals: set<Symbol>,
                                         productions: Productions, termToNT: map<Symbol, Symbol>)
    requires TermState(g, done, nonTerminals, productions, termToNT)
    ensures TermState(g, done + {t}, nonTerminals + {TermName(t)}, productions.Put(TermName(t), [[t]]),
                      termToNT[t := TermName(t)])
  {
    TermNamesAdd(done, t);
    TermMapAdd(done, t);
    TermProductionsStep(g, done, t, productions);
  }

  /** The Map part of `TermState` survives putting `T_t -> [[t]]`. */
  lemma {:induction false} TermProductionsStep(g: Grammar, done: set<Symbol>, t: Symbol, productions: Productions)
    requires TermProductions(g, done, productions)
    ensures TermProductions(g, done + {t}, productions.Put(TermName(t), [[t]]))
  {
    var nt := TermName(t);
    TermNamesAdd(done, t);
    TermRulesAdd(done, t);
    MergeUpdate(g.productions.m, TermRules(done), nt, [[t]]);
    TermKeysStep(g.productions.keys, g.productions.m, productions, nt, [[t]], TermNames(done), TermNames(done + {t}));
  }

  /** The keys after `g`'s own stay new names when one more new name is put. */
  lemma {:induction false} TermKeysStep(keys: seq<Symbol>, m: map<Symbol, seq<Body>>, productions: Productions,
                                        nt: Symbol, v: seq<Body>, names: set<Symbol>, names': set<Symbol>)
    requires productions.Valid() && |keys| <= |productions.keys| && productions.keys[..|keys|] == keys
    requires forall p :: |keys| <= p < |productions.keys| ==> productions.keys[p] !in m && productions.keys[p] in names
    requires names' == names + {nt} && (nt in m ==> nt in productions.m)
    ensures |keys| <= |productions.Put(nt, v).keys| && productions.Put(nt, v).keys[..|keys|] == keys
    ensures forall p :: |keys| <= p < |productions.Put(nt, v).keys| ==>
              productions.Put(nt, v).keys[p] !in m && productions.Put(nt, v).keys[p] in names'
  {
    var q := productions.Put(nt, v);
    PutKeepsPrefix(productions, nt, v, |keys|);
    forall p | |keys| <= p < |q.keys|
      ensures q.keys[p] !in m && q.keys[p] in names'
    {
      if nt in productions.m {
        assert q.keys == productions.keys;
      } else {
        assert q.keys == productions.keys + [nt];
        if p < |productions.keys| {
          assert q.keys[p] == productions.keys[p];
        }
      }
    }
  }

  lemma {:induction false} TermNamesAdd(s: set<Symbol>, t: Symbol)
    ensures TermNames(s + {t}) == TermNames(s) + {TermName(t)}
  {
  }

  lemma {:induction false} TermRulesAdd(s: set<Symbol>, t: Symbol)
    ensures TermRules(s + {t}) == TermRules(s)[TermName(t) := [[t]]]
  {
    var a := TermRules(s + {t});
    var b := TermRules(s)[TermName(t) := [[t]]];
    TermNamesAdd(s, t);
    forall k | k in a ensures k in b && a[k] == b[k] {
      var u :| u in s + {t} && TermName(u) == k;
      assert u == k[2..];
    }
  }

  lemma {:induction false} TermMapAdd(s: set<Symbol>, t: Symbol)
    ensures TermMap(s + {t}) == TermMap(s)[t := TermName(t)]
  {
  }

  /** The snapshot is the state of the loop before its first round. */
  lemma {:induction false} StagedState(g: Grammar, snap: Productions, nonTerminals: set<Symbol>, termToNT: map<Symbol, Symbol>)
    requires TermState(g, g.terminals, nonTerminals, snap, termToNT)
    ensures EntriesState(g, snap, 0, 0, nonTerminals, snap)
  {
    assert snap.keys[..0] == [];
    assert snap.keys[..|snap.keys|] == snap.keys;
  }

  /** The loop's final state, read back in terms of `g`. */
  lemma {:induction false} FinishState(g: Grammar, snap: Productions, counter: nat, r: Grammar,
                                       staged: set<Symbol>, termToNT: map<Symbol, Symbol>)
    requires g.productions.Valid()
    requires TermState(g, g.terminals, staged, snap, termToNT)
    requires r.terminals == g.terminals && r.startSymbol == g.startSymbol
    requires EntriesState(g, snap, |snap.keys|, counter, r.nonTerminals, r.productions)
    ensures Binarized(g, r)
  {
    FinishNonTerminals(g, snap, counter, r, staged, termToNT);
    FinishKeySet(g, snap, counter, r, staged, termToNT);
    FinishKeyOrder(g, snap, counter, r, staged, termToNT);
    FinishKept(g, snap, counter, r, staged, termToNT);
    FinishTermEntries(g, snap, counter, r, staged, termToNT);
    FinishMintedEntries(g, snap, counter, r, staged, termToNT);
    StageStrict(snap, g.terminals, r.productions);
  }

  /** The fold of the snapshot mints what the fold of `g`'s own keys mints, and agrees with it on those keys. */
  lemma {:induction false} FinishFold(g: Grammar, snap: Productions, staged: set<Symbol>, termToNT: map<Symbol, Symbol>)
    returns (tail: seq<Symbol>)
    requires g.productions.Valid()
    requires TermState(g, g.terminals, staged, snap, termToNT)
    ensures snap.keys == g.productions.keys + tail
    ensures forall k :: k in tail ==> k !in g.productions.m && k in TermNames(g.terminals) && k in snap.m
    ensures var f := Fold(g.productions.keys, snap.m, g.terminals);
            var fs := Fold(snap.keys, snap.m, g.terminals);
            && fs.minted == f.minted
            && (forall k :: k in f.rewritten && k !in tail ==> fs.rewritten[k] == f.rewritten[k])
            && (forall k :: k in tail ==> fs.rewritten[k] == BinarizeList(snap.m[k], g.terminals, |f.minted|).bodies)
  {
    var keys := g.productions.keys;
    tail := snap.keys[|keys|..];
    PrefixSplit(snap.keys, keys);
    TailIsTermRules(g.productions.m, g.terminals, snap, keys, tail);
    FoldTail(keys, tail, snap.m, g.terminals);
  }

  /** The snapshot's fold mints as many names as the fold of `g`'s own keys. */
  lemma {:induction false} SnapshotMints(g: Grammar, snap: Productions, staged: set<Symbol>, termToNT: map<Symbol, Symbol>)
    requires g.productions.Valid()
    requires TermState(g, g.terminals, staged, snap, termToNT)
    ensures |Fold(snap.keys, snap.m, g.terminals).minted| ==
            |Fold(g.productions.keys, g.productions.m + TermRules(g.terminals), g.terminals).minted|
  {
    var tail := FinishFold(g, snap, staged, termToNT);
  }

  /** The nonterminals at the end of the loop. */
  lemma {:induction false} FinishNonTerminals(g: Grammar, snap: Productions, counter: nat, r: Grammar,
                                              staged: set<Symbol>, termToNT: map<Symbol, Symbol>)
    requires g.productions.Valid()
    requires TermState(g, g.terminals, staged, snap, termToNT)
    requires EntriesState(g, snap, |snap.keys|, counter, r.nonTerminals, r.productions)
    ensures var f := Fold(g.productions.keys, g.productions.m + TermRules(g.terminals), g.terminals);
            r.nonTerminals == g.nonTerminals + TermNames(g.terminals) + FreshRange(0, |f.minted|)
  {
    SnapshotMints(g, snap, staged, termToNT);
    assert snap.keys[..|snap.keys|] == snap.keys;
  }

  /** The keys at the end of the loop. */
  lemma {:induction false} FinishKeySet(g: Grammar, snap: Productions, counter: nat, r: Grammar,
                                        staged: set<Symbol>, termToNT: map<Symbol, Symbol>)
    requires g.productions.Valid()
    requires TermState(g, g.terminals, staged, snap, termToNT)
    requires EntriesState(g, snap, |snap.keys|, counter, r.nonTerminals, r.productions)
    ensures var f := Fold(g.productions.keys, g.productions.m + TermRules(g.terminals), g.terminals);
            r.productions.m.Keys == g.productions.m.Keys + TermNames(g.terminals) + FreshRange(0, |f.minted|)
  {
    SnapshotMints(g, snap, staged, termToNT);
    assert snap.keys[..|snap.keys|] == snap.keys;
    StageKeysHold(snap.keys, snap, g.terminals);
    assert snap.m.Keys == g.productions.m.Keys + TermNames(g.terminals);
  }

  /** `g`'s keys still come first, in their order, at the end of the loop. */
  lemma {:induction false} FinishKeyOrder(g: Grammar, snap: Productions, counter: nat, r: Grammar,
                                          staged: set<Symbol>, termToNT: map<Symbol, Symbol>)
    requires g.productions.Valid()
    requires TermState(g, g.terminals, staged, snap, termToNT)
    requires EntriesState(g, snap, |snap.keys|, counter, r.nonTerminals, r.productions)
    ensures r.productions.Valid()
    ensures |g.productions.keys| <= |r.productions.keys|
    ensures r.productions.keys[..|g.productions.keys|] == g.productions.keys
  {
    StageKeysHold(snap.keys, snap, g.terminals);
    assert snap.keys[..|snap.keys|] == snap.keys;
    PrefixOfPrefix(r.productions.keys, snap.keys, g.productions.keys);
  }

  /** A prefix of a prefix is a prefix. */
  lemma {:induction false} PrefixOfPrefix<T>(s: seq<T>, a: seq<T>, b: seq<T>)
    requires |a| <= |s| && s[..|a|] == a && |b| <= |a| && a[..|b|] == b
    ensures |b| <= |s| && s[..|b|] == b
  {
    assert s[..|a|][..|b|] == s[..|b|];
  }

  /** The snapshot's fold mints the very bodies the fold of `g`'s own keys mints. */
  lemma {:induction false} SnapshotMinted(g: Grammar, snap: Productions, staged: set<Symbol>, termToNT: map<Symbol, Symbol>)
    requires g.productions.Valid()
    requires TermState(g, g.terminals, staged, snap, termToNT)
    ensures Fold(snap.keys, snap.m, g.terminals).minted == Fold(g.productions.keys, g.productions.m + TermRules(g.terminals), g.terminals).minted
  {
    var tail := FinishFold(g, snap, staged, termToNT);
  }

  /** The snapshot's fold rewrites `g`'s own keys as the fold of those keys does. */
  lemma {:induction false} SnapshotRewritten(g: Grammar, snap: Productions, staged: set<Symbol>, termToNT: map<Symbol, Symbol>)
    requires g.productions.Valid()
    requires TermState(g, g.terminals, staged, snap, termToNT)
    ensures forall k :: k in g.productions.m ==>
              k in Fold(snap.keys, snap.m, g.terminals).rewritten && Fold(snap.keys, snap.m, g.terminals).rewritten[k] == Fold(g.productions.keys, g.productions.m + TermRules(g.terminals), g.terminals).rewritten[k]
  {
    var tail := FinishFold(g, snap, staged, termToNT);
  }

  /** The snapshot's fold rewrites each `T_t` entry new to the Map to `[[T_t]]`. */
  lemma {:induction false} SnapshotTermRules(g: Grammar, snap: Productions, staged: set<Symbol>, termToNT: map<Symbol, Symbol>)
    requires g.productions.Valid()
    requires TermState(g, g.terminals, staged, snap, termToNT)
    ensures forall t :: t in g.terminals && TermName(t) !in g.productions.m ==>
              TermName(t) in Fold(snap.keys, snap.m, g.terminals).rewritten && Fold(snap.keys, snap.m, g.terminals).rewritten[TermName(t)] == [[TermName(t)]]
  {
    var T := g.terminals;
    var tail := FinishFold(g, snap, staged, termToNT);
    var fs := Fold(snap.keys, snap.m, g.terminals);
    forall t | t in T && TermName(t) !in g.productions.m
      ensures TermName(t) in fs.rewritten && fs.rewritten[TermName(t)] == [[TermName(t)]]
    {
      var k := TermName(t);
      assert k in TermNames(T);
      assert k in snap.m && snap.m[k] == [[t]];
      assert k in snap.keys[..|g.productions.keys|] + tail;
      TermRuleRewritten(t, T, |Fold(g.productions.keys, g.productions.m + TermRules(g.terminals), g.terminals).minted|);
    }
  }

  /** The finished stage keeps each snapshot entry that is not a fresh name, rewritten. */
  lemma {:induction false} StageKept(snap: Productions, T: set<Symbol>, p: Productions)
    requires snap.Valid() && p == Stage(snap.keys[..|snap.keys|], snap, T)
    ensures KeptEntries(snap.m, Fold(snap.keys, snap.m, T), p.m)
  {
    assert snap.keys[..|snap.keys|] == snap.keys;
    StageValuesHold(snap.keys, snap, T);
  }

  /** The finished stage gives each fresh name that is not a snapshot key its chain body. */
  lemma {:induction false} StageMinted(snap: Productions, T: set<Symbol>, p: Productions)
    requires snap.Valid() && p == Stage(snap.keys[..|snap.keys|], snap, T)
    ensures MintedEntries(snap.m, Fold(snap.keys, snap.m, T), p.m)
  {
    assert snap.keys[..|snap.keys|] == snap.keys;
    StageValuesHold(snap.keys, snap, T);
  }

  /** The finished stage holds only strict entries. */
  lemma {:induction false} StageStrict(snap: Productions, T: set<Symbol>, p: Productions)
    requires snap.Valid() && p == Stage(snap.keys[..|snap.keys|], snap, T)
    ensures AllStrict(p.m, T)
  {
    assert snap.keys[..|snap.keys|] == snap.keys;
    StageKeysHold(snap.keys, snap, T);
    StageValuesHold(snap.keys, snap, T);
    FinishStrict(T, snap.m, Fold(snap.keys, snap.m, T), p.m);
  }

  /** The entries of `g`'s own keys at the end of the loop. */
  lemma {:induction false} FinishKept(g: Grammar, snap: Productions, counter: nat, r: Grammar,
                                         staged: set<Symbol>, termToNT: map<Symbol, Symbol>)
    requires g.productions.Valid()
    requires TermState(g, g.terminals, staged, snap, termToNT)
    requires EntriesState(g, snap, |snap.keys|, counter, r.nonTerminals, r.productions)
    ensures RewrittenKept(Fold(g.productions.keys, g.productions.m + TermRules(g.terminals), g.terminals), r.productions.m)
  {
    SnapshotMinted(g, snap, staged, termToNT);
    SnapshotRewritten(g, snap, staged, termToNT);
    StageKept(snap, g.terminals, r.productions);
    FinishRewritten(g.productions.m, snap.m, Fold(g.productions.keys, g.productions.m + TermRules(g.terminals), g.terminals), Fold(snap.keys, snap.m, g.terminals), r.productions.m);
  }

  /** The `T_t` entries at the end of the loop. */
  lemma {:induction false} FinishTermEntries(g: Grammar, snap: Productions, counter: nat, r: Grammar,
                                         staged: set<Symbol>, termToNT: map<Symbol, Symbol>)
    requires g.productions.Valid()
    requires TermState(g, g.terminals, staged, snap, termToNT)
    requires EntriesState(g, snap, |snap.keys|, counter, r.nonTerminals, r.productions)
    ensures TermEntries(g.productions.m, g.terminals, r.productions.m)
  {
    StageKept(snap, g.terminals, r.productions);
    SnapshotTermRules(g, snap, staged, termToNT);
    FinishTerms(g.productions.m, g.terminals, snap.m, Fold(snap.keys, snap.m, g.terminals), r.productions.m);
  }

  /** The fresh entries at the end of the loop. */
  lemma {:induction false} FinishMintedEntries(g: Grammar, snap: Productions, counter: nat, r: Grammar,
                                         staged: set<Symbol>, termToNT: map<Symbol, Symbol>)
    requires g.productions.Valid()
    requires TermState(g, g.terminals, staged, snap, termToNT)
    requires EntriesState(g, snap, |snap.keys|, counter, r.nonTerminals, r.productions)
    ensures MintedKept(g.productions.m, Fold(g.productions.keys, g.productions.m + TermRules(g.terminals), g.terminals), r.productions.m)
  {
    SnapshotMinted(g, snap, staged, termToNT);
    StageMinted(snap, g.terminals, r.productions);
    FinishMinted(g.productions.m, g.terminals, snap.m, Fold(g.productions.keys, g.productions.m + TermRules(g.terminals), g.terminals), Fold(snap.keys, snap.m, g.terminals), r.productions.m);
  }

  /** A sequence is its prefix followed by the rest. */
  lemma {:induction false} PrefixSplit<T>(s: seq<T>, pre: seq<T>)
    requires |pre| <= |s| && s[..|pre|] == pre
    ensures s == pre + s[|pre|..]
  {
  }

  /** The snapshot's keys after `g`'s own are `T_t` names new to the Map, whose lists `[[t]]` mint nothing. */
  lemma {:induction false} TailIsTermRules(gm: map<Symbol, seq<Body>>, T: set<Symbol>, snap: Productions,
                                           keys: seq<Symbol>, tail: seq<Symbol>)
    requires snap.m == gm + TermRules(T) && snap.keys == keys + tail
    requires forall p :: |keys| <= p < |snap.keys| ==> snap.keys[p] !in gm && snap.keys[p] in TermNames(T)
    ensures forall k :: k in tail ==> k !in gm && k in TermNames(T) && k in snap.m && Excess(snap.m[k]) == 0
  {
    forall k | k in tail ensures k !in gm && k in TermNames(T) && k in snap.m && Excess(snap.m[k]) == 0 {
      var p :| 0 <= p < |tail| && tail[p] == k;
      assert snap.keys[|keys| + p] == k;
      var t :| t in T && TermName(t) == k;
      assert snap.m[k] == [[t]];
      assert [[t]][..0] == [];
    }
  }

  /** The entries of `g`'s keys hold their rewritten lists. */
  lemma {:induction false} FinishRewritten(gm: map<Symbol, seq<Body>>, staged: map<Symbol, seq<Body>>, f: Progress,
                                           fs: Progress, m: map<Symbol, seq<Body>>)
    requires KeptEntries(staged, fs, m) && fs.minted == f.minted
    requires gm.Keys <= staged.Keys && f.rewritten.Keys == gm.Keys
    requires forall k :: k in gm ==> k in fs.rewritten && fs.rewritten[k] == f.rewritten[k]
    ensures RewrittenKept(f, m)
  {
  }

  /** The `T_t` entries new to the Map are rewritten to `[[T_t]]`. */
  lemma {:induction false} FinishTerms(gm: map<Symbol, seq<Body>>, T: set<Symbol>, staged: map<Symbol, seq<Body>>,
                                       fs: Progress, m: map<Symbol, seq<Body>>)
    requires staged == gm + TermRules(T)
    requires KeptEntries(staged, fs, m)
    requires forall t :: t in T && TermName(t) !in gm ==>
               TermName(t) in fs.rewritten && fs.rewritten[TermName(t)] == [[TermName(t)]]
    ensures TermEntries(gm, T, m)
  {
    forall t | t in T && TermName(t) !in gm
      ensures TermName(t) in m && m[TermName(t)] == [[TermName(t)]]
    {
      var k := TermName(t);
      assert k in TermNames(T);
      if k in FreshRange(0, |fs.minted|) {
        var j := FreshRangeMember(0, |fs.minted|, k);
        FreshIsNotTermName(j, t);
      }
    }
  }

  /** A `T_t -> [[t]]` entry is rewritten to `T_t -> [[T_t]]`. */
  lemma {:induction false} TermRuleRewritten(t: Symbol, T: set<Symbol>, counter: nat)
    requires t in T
    ensures BinarizeList([[t]], T, counter).bodies == [[TermName(t)]]
  {
    assert [[t]][..0] == [];
  }

  /** The fresh names hold their chain bodies. */
  lemma {:induction false} FinishMinted(gm: map<Symbol, seq<Body>>, T: set<Symbol>, staged: map<Symbol, seq<Body>>,
                                        f: Progress, fs: Progress, m: map<Symbol, seq<Body>>)
    requires staged == gm + TermRules(T)
    requires MintedEntries(staged, fs, m) && fs.minted == f.minted
    ensures MintedKept(gm, f, m)
  {
    forall j | 0 <= j < |f.minted| && FreshName(j) !in gm
      ensures FreshName(j) !in staged
    {
    }
  }

  /** Every entry ends up strict: each is a snapshot entry, all of which were processed, or a fresh name. */
  lemma {:induction false} FinishStrict(T: set<Symbol>, staged: map<Symbol, seq<Body>>, fs: Progress, m: map<Symbol, seq<Body>>)
    requires CnfEntries(T, fs, m)
    requires m.Keys == staged.Keys + FreshRange(0, |fs.minted|) && staged.Keys <= fs.rewritten.Keys
    ensures AllStrict(m, T)
  {
  }

  /** The `T_t` entry ends up as `T_t -> T_t`: its one body `[t]` is rewritten like any other `A -> t`. */
  lemma {:induction false} TermRuleLoops(g: Grammar, r: Grammar, t: Symbol)
    requires g.productions.Valid() && Binarized(g, r)
    requires t in g.terminals
    ensures TermName(t) in r.productions.m && r.productions.m[TermName(t)] == [[TermName(t)]]
  {
    var T := g.terminals;
    var k := TermName(t);
    if k in g.productions.m {
      var staged := g.productions.m + TermRules(T);
      var keys := g.productions.keys;
      var f := Fold(keys, staged, T);
      assert k in TermNames(T);
      FoldRewritesTermRule(keys, staged, T, t);
      if k in FreshRange(0, |f.minted|) {
        var j := FreshRangeMember(0, |f.minted|, k);
        FreshIsNotTermName(j, t);
      }
    }
  }

  /** An entry `T_t -> [[t]]` among the keys is rewritten to `T_t -> [[T_t]]`. */
  lemma {:induction false} FoldRewritesTermRule(keys: seq<Symbol>, m: map<Symbol, seq<Body>>, T: set<Symbol>, t: Symbol)
    requires forall k :: k in keys ==> k in m
    requires Distinct(keys) && TermName(t) in keys && m[TermName(t)] == [[t]] && t in T
    ensures TermName(t) in Fold(keys, m, T).rewritten
    ensures Fold(keys, m, T).rewritten[TermName(t)] == [[TermName(t)]]
  {
    var p :| 0 <= p < |keys| && keys[p] == TermName(t);
    FoldAt(keys, m, T, p);
    TermRuleRewritten(t, T, |Fold(keys[..p], m, T).minted|);
  }

  /** A body of at most two symbols of an entry leaves its rewritten form in the entry's rewritten list. */
  lemma {:induction false} FoldKeepsShortBody(keys: seq<Symbol>, m: map<Symbol, seq<Body>>, T: set<Symbol>,
                                              k: Symbol, b: Body)
    requires forall k :: k in keys ==> k in m
    requires Distinct(keys) && k in keys && b in m[k] && 1 <= |b| <= 2
    ensures k in Fold(keys, m, T).rewritten
    ensures BinarizeBody(b, T, 0).bodies[0] in Fold(keys, m, T).rewritten[k]
  {
    var p :| 0 <= p < |keys| && keys[p] == k;
    FoldAt(keys, m, T, p);
    ShortBodyKept(m[k], T, |Fold(keys[..p], m, T).minted|, b, 0);
  }

  /** `A -> a` for a terminal `a` becomes `A -> T_a` in every entry the fresh names do not overwrite. */
  lemma {:induction false} TerminalBodyRenamed(g: Grammar, r: Grammar, k: Symbol, a: Symbol)
    requires g.productions.Valid() && Binarized(g, r)
    requires k in g.productions.m && k !in TermNames(g.terminals)
    requires forall j: nat :: FreshName(j) != k
    requires [a] in g.productions.m[k] && a in g.terminals
    ensures [TermName(a)] in r.productions.m[k]
  {
    var T := g.terminals;
    var staged := g.productions.m + TermRules(T);
    var f := Fold(g.productions.keys, staged, T);
    assert staged[k] == g.productions.m[k];
    FoldKeepsShortBody(g.productions.keys, staged, T, k, [a]);
    assert BinarizeBody([a], T, 0).bodies[0] == [TermName(a)];
    if k in FreshRange(0, |f.minted|) {
      var j := FreshRangeMember(0, |f.minted|, k);
    }
  }
}
