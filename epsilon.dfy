/**
 * Step 1 of the CNF converter: removal of empty productions. The nullable
 * nonterminals are found by a fixpoint loop, every body is replaced by all
 * its variants with some nullable occurrences erased, and a nullable start
 * symbol gets a fresh primed start with an empty production.
 */
module EpsilonElimination {
  import opened Collections
  import opened Grammars

  /** A body that makes its left-hand side nullable once every symbol of `n` is nullable. */
  predicate NullableBody(n: set<Symbol>, b: Body) {
    IsEpsilonBody(b) || forall s :: s in b ==> s in n
  }

  /** No body rule lets a key outside `n` become nullable. */
  ghost predicate NullableClosed(p: Productions, n: set<Symbol>) {
    forall nt, b :: nt in p.m && b in p.m[nt] && NullableBody(n, b) ==> nt in n
  }

  /** The nullable nonterminals: the keys that lie in every closed set. */
  ghost function Nullable(p: Productions): set<Symbol> {
    set nt | nt in p.m && forall n :: NullableClosed(p, n) ==> nt in n
  }

  /** `Nullable(p)` is itself closed, and it is the least closed set. */
  lemma NullableIsLeastClosed(p: Productions)
    ensures NullableClosed(p, Nullable(p))
    ensures forall n :: NullableClosed(p, n) ==> Nullable(p) <= n
  {
    var l := Nullable(p);
    forall nt, b | nt in p.m && b in p.m[nt] && NullableBody(l, b) ensures nt in l {
      forall n | NullableClosed(p, n) ensures nt in n {
        assert NullableBody(n, b);
      }
    }
  }

  /** Lines 49-71: the repeated passes over every body until no nonterminal is added. */
  method FindNullable(p: Productions) returns (nullable: set<Symbol>)
    requires p.Valid()
    ensures nullable == Nullable(p)
  {
    nullable := {};
    var changed := true;
    while changed
      invariant nullable <= p.m.Keys
      invariant forall n :: NullableClosed(p, n) ==> nullable <= n
      invariant !changed ==> NullableClosed(p, nullable)
      decreases |p.m.Keys| - |nullable|, changed
    {
      ghost var before := nullable;
      nullable, changed := NullablePass(p, nullable);
      SubsetCardinality(nullable, p.m.Keys);
      if changed {
        StrictSubsetCardinality(before, nullable);
      }
    }
    NullableIsLeastClosed(p);
  }

  /**
   * A pass in progress that started from `before`: the set only grew, stays
   * inside every closed set, and `changed` says whether it grew.
   */
  ghost predicate PassState(p: Productions, before: set<Symbol>, nullable: set<Symbol>, changed: bool) {
    && before <= nullable <= p.m.Keys
    && (forall n :: NullableClosed(p, n) ==> nullable <= n)
    && (changed ==> before < nullable)
    && (!changed ==> nullable == before)
  }

  /** Lines 52-68: one pass over every entry; when nothing was added the set is closed. */
  method NullablePass(p: Productions, nullable: set<Symbol>) returns (nullable': set<Symbol>, changed: bool)
    requires p.Valid() && nullable <= p.m.Keys
    requires forall n :: NullableClosed(p, n) ==> nullable <= n
    ensures PassState(p, nullable, nullable', changed)
    ensures !changed ==> NullableClosed(p, nullable')
  {
    nullable', changed := nullable, false;
    var i := 0;
    while i < |p.keys|
      invariant 0 <= i <= |p.keys|
      invariant PassState(p, nullable, nullable', changed)
      invariant !changed ==> forall k, b :: k in p.keys[..i] && b in p.m[k] && NullableBody(nullable', b) ==> k in nullable'
    {
      var nt := p.keys[i];
      nullable', changed := ScanBodies(p, nt, nullable, nullable', changed);
      assert p.keys[..i + 1] == p.keys[..i] + [nt];
      i := i + 1;
    }
    assert p.keys[..i] == p.keys;
  }

  /** Lines 54-67: the bodies of `nt`; a nullable one adds `nt` to the set. */
  method ScanBodies(p: Productions, nt: Symbol, ghost before: set<Symbol>, nullable: set<Symbol>, changed: bool)
    returns (nullable': set<Symbol>, changed': bool)
    requires nt in p.m && PassState(p, before, nullable, changed)
    ensures PassState(p, before, nullable', changed') && nullable <= nullable'
    ensures !changed' ==> forall b :: b in p.m[nt] && NullableBody(nullable', b) ==> nt in nullable'
  {
    nullable', changed' := nullable, changed;
    var prods := p.m[nt];
    var j := 0;
    while j < |prods|
      invariant 0 <= j <= |prods|
      invariant PassState(p, before, nullable', changed') && nullable <= nullable'
      invariant !changed' ==> forall b :: b in prods[..j] && NullableBody(nullable', b) ==> nt in nullable'
    {
      var prod := prods[j];
      if IsEpsilonBody(prod) {
        if nt !in nullable' {
          AddKeepsLeast(p, nullable', nt, prod);
          nullable' := nullable' + {nt};
          changed' := true;
        }
      }
      if forall s | s in prod :: s in nullable' {
        if nt !in nullable' {
          AddKeepsLeast(p, nullable', nt, prod);
          nullable' := nullable' + {nt};
          changed' := true;
        }
      }
      assert prods[..j + 1] == prods[..j] + [prod];
      j := j + 1;
    }
    assert prods[..j] == prods;
  }

  /** Adding the left-hand side of a nullable body keeps the set inside every closed set. */
  lemma AddKeepsLeast(p: Productions, nullable: set<Symbol>, nt: Symbol, b: Body)
    requires nt in p.m && b in p.m[nt] && NullableBody(nullable, b)
    requires forall n :: NullableClosed(p, n) ==> nullable <= n
    ensures forall n :: NullableClosed(p, n) ==> nullable + {nt} <= n
  {
    forall n | NullableClosed(p, n) ensures nullable + {nt} <= n {
      assert NullableBody(n, b);
    }
  }

  /** Lines 80-82: the indices of the nullable symbols of `prod`. */
  function NullablePositions(prod: Body, n: set<Symbol>): (r: seq<int>)
    ensures forall i :: i in r <==> 0 <= i < |prod| && prod[i] in n
  {
    if prod == [] then []
    else
      var init := prod[..|prod| - 1];
      assert forall i :: 0 <= i < |init| ==> init[i] == prod[i];
      NullablePositions(init, n) + (if prod[|prod| - 1] in n then [|prod| - 1] else [])
  }

  /** Lines 312-319: every sub-list of `arr`; each item appends a copy of the list extended by it. */
  function Subsets<T>(arr: seq<T>): seq<seq<T>> {
    if arr == [] then [[]]
    else
      var s := Subsets(arr[..|arr| - 1]);
      s + seq(|s|, k requires 0 <= k < |s| => s[k] + [arr[|arr| - 1]])
  }

  /** Lines 312-319: `generateSubsets`. */
  method GenerateSubsets<T>(arr: seq<T>) returns (result: seq<seq<T>>)
    ensures result == Subsets(arr)
  {
    result := [[]];
    for i := 0 to |arr|
      invariant result == Subsets(arr[..i])
    {
      var item := arr[i];
      var newSubsets := seq(|result|, k requires 0 <= k < |result| => result[k] + [item]);
      assert arr[..i + 1][..i] == arr[..i];
      result := result + newSubsets;
    }
    assert arr[..|arr|] == arr;
  }

  /** There are two to the power `|arr|` sub-lists, and the first is empty. */
  lemma {:induction false} SubsetsShape<T>(arr: seq<T>)
    ensures |Subsets(arr)| == Pow2(|arr|)
    ensures Subsets(arr)[0] == []
  {
    if arr != [] {
      SubsetsShape(arr[..|arr| - 1]);
    }
  }

  function Pow2(k: nat): (p: nat)
    ensures p >= 1
  {
    if k == 0 then 1 else 2 * Pow2(k - 1)
  }

  /** A sub-list only holds items of the list. */
  lemma {:induction false} SubsetsWithin<T>(arr: seq<T>)
    ensures forall s, x :: s in Subsets(arr) && x in s ==> x in arr
  {
    if arr != [] {
      var init := arr[..|arr| - 1];
      SubsetsWithin(init);
      assert forall x :: x in init ==> x in arr;
    }
  }

  /** Line 88: `prod` without the symbols whose index is listed in `subset`. */
  function Without(prod: Body, subset: seq<int>): (r: Body)
    ensures |r| <= |prod|
    ensures forall s :: s in r ==> s in prod
  {
    if prod == [] then []
    else
      var init := prod[..|prod| - 1];
      assert forall s :: s in init ==> s in prod;
      Without(init, subset) + (if |prod| - 1 in subset then [] else [prod[|prod| - 1]])
  }

  /** Only the listed indices below `|prod|` matter. */
  lemma {:induction false} WithoutSameIndices(prod: Body, s: seq<int>, t: seq<int>)
    requires forall i :: 0 <= i < |prod| ==> (i in s <==> i in t)
    ensures Without(prod, s) == Without(prod, t)
  {
    if prod != [] {
      WithoutSameIndices(prod[..|prod| - 1], s, t);
    }
  }

  /** Every body obtained from `b` by erasing some of the occurrences of symbols in `n`. */
  ghost function Drops(b: Body, n: set<Symbol>): set<Body> {
    if b == [] then {[]}
    else
      var d := Drops(b[..|b| - 1], n);
      (set x | x in d :: x + [b[|b| - 1]]) + (if b[|b| - 1] in n then d else {})
  }

  /** What lines 80-88 produce from one body: one variant per subset of its nullable positions. */
  ghost function Variants(prod: Body, n: set<Symbol>): set<Body> {
    set s | s in Subsets(NullablePositions(prod, n)) :: Without(prod, s)
  }

  /** The subset construction yields exactly the bodies with some nullable occurrences erased. */
  lemma {:induction false} VariantsAreDrops(prod: Body, n: set<Symbol>)
    ensures Variants(prod, n) == Drops(prod, n)
  {
    if prod == [] {
      assert Subsets(NullablePositions(prod, n)) == [[]];
      assert Without(prod, []) == [];
    } else {
      var init := prod[..|prod| - 1];
      VariantsAreDrops(init, n);
      SubsetsWithin(NullablePositions(init, n));
      if prod[|prod| - 1] in n {
        VariantsStepNullable(prod, n);
      } else {
        VariantsStepKept(prod, n);
      }
    }
  }

  /** The last index is never in a subset of the earlier positions, so the last symbol stays. */
  lemma LastSymbolStays(prod: Body, n: set<Symbol>, s: seq<int>)
    requires prod != []
    requires s in Subsets(NullablePositions(prod[..|prod| - 1], n))
    requires forall t, x :: t in Subsets(NullablePositions(prod[..|prod| - 1], n)) && x in t ==>
               x in NullablePositions(prod[..|prod| - 1], n)
    ensures Without(prod, s) == Without(prod[..|prod| - 1], s) + [prod[|prod| - 1]]
  {
    assert |prod| - 1 !in s;
  }

  /** Induction step of `VariantsAreDrops` when the last symbol is nullable. */
  lemma VariantsStepNullable(prod: Body, n: set<Symbol>)
    requires prod != [] && prod[|prod| - 1] in n
    requires Variants(prod[..|prod| - 1], n) == Drops(prod[..|prod| - 1], n)
    requires forall t, x :: t in Subsets(NullablePositions(prod[..|prod| - 1], n)) && x in t ==>
               x in NullablePositions(prod[..|prod| - 1], n)
    ensures Variants(prod, n) == Drops(prod, n)
  {
    VariantsInDropsNullable(prod, n);
    DropsInVariantsNullable(prod, n);
  }

  /** A sub-list of `arr + [x]` is a sub-list of `arr`, possibly extended by `x`. */
  lemma SubsetsSnoc<T>(arr: seq<T>, x: T, s: seq<T>)
    ensures s in Subsets(arr + [x]) <==> s in Subsets(arr) || exists t :: t in Subsets(arr) && s == t + [x]
  {
    assert (arr + [x])[..|arr|] == arr;
    var s0 := Subsets(arr);
    if exists t :: t in s0 && s == t + [x] {
      var t :| t in s0 && s == t + [x];
      var k :| 0 <= k < |s0| && s0[k] == t;
      assert Subsets(arr + [x])[|s0| + k] == s;
    }
  }

  /** One inclusion of `VariantsStepNullable`. */
  lemma VariantsInDropsNullable(prod: Body, n: set<Symbol>)
    requires prod != [] && prod[|prod| - 1] in n
    requires Variants(prod[..|prod| - 1], n) == Drops(prod[..|prod| - 1], n)
    requires forall t, x :: t in Subsets(NullablePositions(prod[..|prod| - 1], n)) && x in t ==>
               x in NullablePositions(prod[..|prod| - 1], n)
    ensures Variants(prod, n) <= Drops(prod, n)
  {
    var init := prod[..|prod| - 1];
    var m := |init|;
    var p0 := NullablePositions(init, n);
    assert NullablePositions(prod, n) == p0 + [m];
    forall w | w in Variants(prod, n) ensures w in Drops(prod, n) {
      var s :| s in Subsets(p0 + [m]) && w == Without(prod, s);
      SubsetsSnoc(p0, m, s);
      if s in Subsets(p0) {
        LastSymbolStays(prod, n, s);
        assert Without(init, s) in Variants(init, n);
      } else {
        var t :| t in Subsets(p0) && s == t + [m];
        WithoutSameIndices(init, s, t);
        assert w == Without(init, t);
        assert Without(init, t) in Variants(init, n);
      }
    }
  }

  /** The other inclusion of `VariantsStepNullable`. */
  lemma DropsInVariantsNullable(prod: Body, n: set<Symbol>)
    requires prod != [] && prod[|prod| - 1] in n
    requires Variants(prod[..|prod| - 1], n) == Drops(prod[..|prod| - 1], n)
    requires forall t, x :: t in Subsets(NullablePositions(prod[..|prod| - 1], n)) && x in t ==>
               x in NullablePositions(prod[..|prod| - 1], n)
    ensures Drops(prod, n) <= Variants(prod, n)
  {
    var init := prod[..|prod| - 1];
    var x := prod[|prod| - 1];
    var m := |init|;
    var p0 := NullablePositions(init, n);
    var d := Drops(init, n);
    assert NullablePositions(prod, n) == p0 + [m];
    forall w | w in Drops(prod, n) ensures w in Variants(prod, n) {
      if w in d {
        var s :| s in Subsets(p0) && w == Without(init, s);
        SubsetsSnoc(p0, m, s + [m]);
        WithoutSameIndices(init, s + [m], s);
        assert Without(prod, s + [m]) == w;
      } else {
        var v :| v in d && w == v + [x];
        var s :| s in Subsets(p0) && v == Without(init, s);
        LastSymbolStays(prod, n, s);
        SubsetsSnoc(p0, m, s);
      }
    }
  }

  /** Induction step of `VariantsAreDrops` when the last symbol is not nullable. */
  lemma VariantsStepKept(prod: Body, n: set<Symbol>)
    requires prod != [] && prod[|prod| - 1] !in n
    requires Variants(prod[..|prod| - 1], n) == Drops(prod[..|prod| - 1], n)
    requires forall t, x :: t in Subsets(NullablePositions(prod[..|prod| - 1], n)) && x in t ==>
               x in NullablePositions(prod[..|prod| - 1], n)
    ensures Variants(prod, n) == Drops(prod, n)
  {
    var init := prod[..|prod| - 1];
    var x := prod[|prod| - 1];
    var s0 := Subsets(NullablePositions(init, n));
    var d := Drops(init, n);
    assert NullablePositions(prod, n) == NullablePositions(init, n);
    forall w | w in Variants(prod, n) ensures w in Drops(prod, n) {
      var s :| s in s0 && w == Without(prod, s);
      LastSymbolStays(prod, n, s);
      assert Without(init, s) in d;
    }
    forall w | w in Drops(prod, n) ensures w in Variants(prod, n) {
      var v :| v in d && w == v + [x];
      var s :| s in s0 && v == Without(init, s);
      LastSymbolStays(prod, n, s);
    }
  }

  /** The body itself is one of its variants. */
  lemma {:induction false} DropsKeepsBody(b: Body, n: set<Symbol>)
    ensures b in Drops(b, n)
  {
    if b != [] {
      var init := b[..|b| - 1];
      DropsKeepsBody(init, n);
      assert init + [b[|b| - 1]] == b;
    }
  }

  /** A body can be erased completely exactly when all its symbols are in `n`. */
  lemma {:induction false} DropsEmptyIff(b: Body, n: set<Symbol>)
    ensures [] in Drops(b, n) <==> forall s :: s in b ==> s in n
  {
    if b != [] {
      var init := b[..|b| - 1];
      DropsEmptyIff(init, n);
      assert forall s :: s in b <==> s in init || s == b[|b| - 1];
    }
  }

  /** The bodies lines 74-98 give a left-hand side whose bodies are `prods`. */
  ghost function ExpandedSet(prods: seq<Body>, n: set<Symbol>): set<Body> {
    set o, b | o in prods && !IsEpsilonBody(o) && b in Drops(o, n) && b != [] :: b
  }

  /** Lines 89-90 and 95-96: `b` goes at the end of `list` unless it is listed already. */
  function AppendNew(list: seq<Body>, b: Body): (r: seq<Body>)
    ensures b in r && forall x :: x in r <==> x in list || x == b
    ensures |list| <= |r| && r[..|list|] == list
  {
    if b in list then list else list + [b]
  }

  /** Lines 86-92 over `subsets` in order: each non-empty subset's non-empty variant is appended when new. */
  function SubsetVariantsList(list: seq<Body>, prod: Body, subsets: seq<seq<int>>): (r: seq<Body>)
    ensures |list| <= |r| && r[..|list|] == list
    decreases |subsets|
  {
    if subsets == [] then list
    else
      SubsetNext(SubsetVariantsList(list, prod, subsets[..|subsets| - 1]), prod, subsets[|subsets| - 1])
  }

  /** Lines 87-91 for one subset: its variant is appended when the subset and the variant are non-empty and it is new. */
  function SubsetNext(list: seq<Body>, prod: Body, subset: seq<int>): (r: seq<Body>)
    ensures |list| <= |r| && r[..|list|] == list
  {
    if |subset| > 0 && Without(prod, subset) != [] then AppendNew(list, Without(prod, subset)) else list
  }

  /** Lines 80-97: the variants in `generateSubsets` order, then the body itself when not yet listed. */
  function VariantsList(list: seq<Body>, prod: Body, n: set<Symbol>): (r: seq<Body>)
    ensures prod in r && |list| <= |r| && r[..|list|] == list
  {
    var pre := SubsetVariantsList(list, prod, Subsets(NullablePositions(prod, n)));
    var r := AppendNew(pre, prod);
    assert r[..|list|] == pre[..|pre|][..|list|] by {
      assert r[..|pre|] == pre;
    }
    r
  }

  /** Lines 75-98 for the bodies `prods`: the list `newProds` ends as, in order. */
  function ExpandList(prods: seq<Body>, n: set<Symbol>): (r: seq<Body>)
    decreases |prods|
  {
    if prods == [] then []
    else
      var pre := ExpandList(prods[..|prods| - 1], n);
      var o := prods[|prods| - 1];
      if IsEpsilonBody(o) then pre else VariantsList(pre, o, n)
  }

  /** Lines 77-97 for one body: its non-empty variants are appended unless already listed. */
  method AddVariants(newProds: seq<Body>, prod: Body, n: set<Symbol>) returns (r: seq<Body>)
    requires Distinct(newProds) && !IsEpsilonBody(prod)
    ensures r == VariantsList(newProds, prod, n)
    ensures Distinct(r) && |newProds| <= |r| && r[..|newProds|] == newProds
    ensures Elements(r) == Elements(newProds) + (Drops(prod, n) - {[]})
  {
    var nullablePos := NullablePositions(prod, n);
    var subsets := GenerateSubsets(nullablePos);
    var r0 := AddSubsetVariants(newProds, prod, n, subsets);
    r := r0;
    if !SomeEqual(r, prod) {
      r := r + [prod];
    }
    GrowByNew(newProds, r0, r, prod);
    VariantsElements(newProds, prod, n, r0, r);
  }

  /** The elements after lines 86-97: those listed before, and every non-empty variant of `prod`. */
  lemma VariantsElements(newProds: seq<Body>, prod: Body, n: set<Symbol>, r0: seq<Body>, r: seq<Body>)
    requires !IsEpsilonBody(prod)
    requires forall j :: 0 <= j < |Subsets(NullablePositions(prod, n))| && |Subsets(NullablePositions(prod, n))[j]| > 0 &&
                         Without(prod, Subsets(NullablePositions(prod, n))[j]) != [] ==>
                Without(prod, Subsets(NullablePositions(prod, n))[j]) in r0
    requires forall b :: b in r0 ==> b in newProds || (b != [] && b in Variants(prod, n))
    requires |newProds| <= |r0| && r0[..|newProds|] == newProds
    requires forall b :: b in r <==> b in r0 || (r != r0 && b == prod)
    requires prod in r
    ensures Elements(r) == Elements(newProds) + (Drops(prod, n) - {[]})
  {
    var subsets := Subsets(NullablePositions(prod, n));
    WithoutNothing(prod);
    SubsetsShape(NullablePositions(prod, n));
    assert prod in Variants(prod, n) by {
      assert subsets[0] == [];
    }
    VariantsAreDrops(prod, n);
    forall b | b in Variants(prod, n) && b != [] ensures b in r {
      var s :| s in subsets && b == Without(prod, s);
    }
    forall b | b in newProds ensures b in r {
      var j :| 0 <= j < |newProds| && newProds[j] == b;
      assert r0[..|newProds|][j] == b;
    }
    ElementsBetween(r, newProds, Drops(prod, n) - {[]});
  }

  /** `r` holds every item of `newProds` and of `extra`, and nothing else. */
  lemma ElementsBetween(r: seq<Body>, newProds: seq<Body>, extra: set<Body>)
    requires forall b :: b in r ==> b in newProds || b in extra
    requires forall b :: b in newProds ==> b in r
    requires forall b :: b in extra ==> b in r
    ensures Elements(r) == Elements(newProds) + extra
  {
  }

  /** Lines 79-95: the variant of every non-empty subset, when non-empty and not yet listed, is appended. */
  method AddSubsetVariants(newProds: seq<Body>, prod: Body, n: set<Symbol>, subsets: seq<seq<int>>) returns (r: seq<Body>)
    requires Distinct(newProds) && subsets == Subsets(NullablePositions(prod, n))
    ensures r == SubsetVariantsList(newProds, prod, subsets)
    ensures Distinct(r) && |newProds| <= |r| && r[..|newProds|] == newProds
    ensures forall j :: 0 <= j < |subsets| && |subsets[j]| > 0 && Without(prod, subsets[j]) != [] ==>
              Without(prod, subsets[j]) in r
    ensures forall b :: b in r ==> b in newProds || (b != [] && b in Variants(prod, n))
  {
    r := newProds;
    assert subsets[..0] == [];
    for k := 0 to |subsets|
      invariant SubsetState(newProds, prod, n, subsets, k, r)
    {
      var subset := subsets[k];
      ghost var before := r;
      if |subset| > 0 {
        var newProd := Without(prod, subset);
        if |newProd| > 0 && !SomeEqual(r, newProd) {
          r := r + [newProd];
        }
      }
      SubsetStateStep(newProds, prod, n, subsets, k, before, r);
    }
    assert subsets[..|subsets|] == subsets;
  }

  /** The loop of lines 86-92 before the subset at index `k`. */
  ghost predicate SubsetState(newProds: seq<Body>, prod: Body, n: set<Symbol>, subsets: seq<seq<int>>, k: int, r: seq<Body>) {
    && 0 <= k <= |subsets|
    && r == SubsetVariantsList(newProds, prod, subsets[..k])
    && Distinct(r) && |newProds| <= |r| && r[..|newProds|] == newProds
    && (forall j :: 0 <= j < k && |subsets[j]| > 0 && Without(prod, subsets[j]) != [] ==> Without(prod, subsets[j]) in r)
    && (forall b :: b in r ==> b in newProds || (b != [] && b in Variants(prod, n)))
  }

  /** One round of the loop of lines 86-92 keeps `SubsetState`. */
  lemma SubsetStateStep(newProds: seq<Body>, prod: Body, n: set<Symbol>, subsets: seq<seq<int>>, k: int,
                        r: seq<Body>, r': seq<Body>)
    requires SubsetState(newProds, prod, n, subsets, k, r) && k < |subsets|
    requires subsets == Subsets(NullablePositions(prod, n))
    requires r' == if |subsets[k]| > 0 && Without(prod, subsets[k]) != [] && Without(prod, subsets[k]) !in r
                   then r + [Without(prod, subsets[k])] else r
    ensures SubsetState(newProds, prod, n, subsets, k + 1, r')
  {
    var w := Without(prod, subsets[k]);
    assert subsets[..k + 1][..k] == subsets[..k];
    assert r' == SubsetNext(r, prod, subsets[k]);
    GrowByNew(newProds, r, r', w);
    assert w in Variants(prod, n);
  }

  /** Appending an item not yet listed, or nothing, keeps the list free of repeats and its prefix in place. */
  lemma GrowByNew(newProds: seq<Body>, r: seq<Body>, r': seq<Body>, w: Body)
    requires Distinct(r) && |newProds| <= |r| && r[..|newProds|] == newProds
    requires r' == r || (w !in r && r' == r + [w])
    ensures Distinct(r') && |newProds| <= |r'| && r'[..|newProds|] == newProds
    ensures forall b :: b in r' <==> b in r || (r' != r && b == w)
  {
    if r' != r {
      assert r'[..|r|] == r;
    }
  }

  lemma {:induction false} WithoutNothing(prod: Body)
    ensures Without(prod, []) == prod
  {
    if prod != [] {
      WithoutNothing(prod[..|prod| - 1]);
    }
  }

  /** Lines 75-98: the new body list of one left-hand side. */
  method ExpandBodies(prods: seq<Body>, n: set<Symbol>) returns (newProds: seq<Body>)
    ensures newProds == ExpandList(prods, n)
    ensures Distinct(newProds)
    ensures Elements(newProds) == ExpandedSet(prods, n)
  {
    newProds := [];
    for i := 0 to |prods|
      invariant newProds == ExpandList(prods[..i], n)
      invariant Distinct(newProds)
      invariant Elements(newProds) == ExpandedSet(prods[..i], n)
    {
      var prod := prods[i];
      ExpandedSetStep(prods[..i], prod, n);
      assert prods[..i + 1] == prods[..i] + [prod];
      assert prods[..i + 1][..i] == prods[..i];
      if !IsEpsilonBody(prod) {
        newProds := AddVariants(newProds, prod, n);
      }
    }
    assert prods[..|prods|] == prods;
  }

  lemma ExpandedSetStep(pre: seq<Body>, o: Body, n: set<Symbol>)
    ensures ExpandedSet(pre + [o], n) ==
            ExpandedSet(pre, n) + (if IsEpsilonBody(o) then {} else Drops(o, n) - {[]})
  {
    var post := pre + [o];
    assert forall x :: x in post <==> x in pre || x == o;
  }

  /** The fresh start symbol `S'` of line 104. */
  function Primed(s: Symbol): (p: Symbol)
    ensures p != s && |p| == |s| + 1 && p[..|s|] == s
  {
    s + "'"
  }

  /** The start symbol derives the empty string. */
  ghost predicate StartNullable(g: Grammar) {
    g.startSymbol in Nullable(g.productions)
  }

  /**
   * The grammar `eliminateEpsilonProductions` returns for `g`: every old
   * entry keeps its place and holds, in the order of lines 75-98 and
   * without repetition, the non-empty variants of its non-empty bodies; a
   * nullable start gets `S' -> S | ε`.
   */
  ghost predicate EpsilonEliminated(g: Grammar, r: Grammar) {
    var s' := Primed(g.startSymbol);
    && r.productions.Valid()
    && r.terminals == g.terminals
    && r.startSymbol == (if StartNullable(g) then s' else g.startSymbol)
    && r.nonTerminals == g.nonTerminals + (if StartNullable(g) then {s'} else {})
    && r.productions.keys ==
         (if StartNullable(g) && s' !in g.productions.m then g.productions.keys + [s'] else g.productions.keys)
    && r.productions.m.Keys == g.productions.m.Keys + (if StartNullable(g) then {s'} else {})
    && (forall k :: k in r.productions.m ==>
          if StartNullable(g) && k == s' then r.productions.m[k] == [[g.startSymbol], []]
          else r.productions.m[k] == ExpandList(g.productions.m[k], Nullable(g.productions)) &&
               Distinct(r.productions.m[k]) &&
               Elements(r.productions.m[k]) == ExpandedSet(g.productions.m[k], Nullable(g.productions)))
  }

  /** Lines 47-111: `eliminateEpsilonProductions`. */
  method EliminateEpsilonProductions(g: Grammar) returns (r: Grammar)
    requires g.productions.Valid()
    ensures EpsilonEliminated(g, r)
  {
    var result := CloneGrammar(g);
    var nullable := FindNullable(result.productions);
    var productions := result.productions;
    var keys := productions.keys;
    for i := 0 to |keys|
      invariant ExpandState(g, nullable, keys, i, productions)
    {
      productions := ExpandStep(g, nullable, keys, i, productions);
    }
    assert keys[..|keys|] == keys;
    var nonTerminals := result.nonTerminals;
    var start := result.startSymbol;
    if start in nullable {
      var newStart := start + "'";
      nonTerminals := nonTerminals + {newStart};
      productions := productions.Put(newStart, [[start], []]);
      start := newStart;
    }
    r := Grammar(nonTerminals, result.terminals, productions, start);
  }

  /** The loop of lines 74-99 after `i` entries: those hold their expanded bodies, the rest are as in `g`. */
  ghost predicate ExpandState(g: Grammar, nullable: set<Symbol>, keys: seq<Symbol>, i: int, productions: Productions) {
    && 0 <= i <= |keys|
    && productions.Valid() && productions.keys == keys
    && productions.m.Keys == g.productions.m.Keys
    && (forall k :: k in keys[..i] ==>
          productions.m[k] == ExpandList(g.productions.m[k], nullable) &&
          Distinct(productions.m[k]) && Elements(productions.m[k]) == ExpandedSet(g.productions.m[k], nullable))
    && (forall j :: i <= j < |keys| ==> productions.m[keys[j]] == g.productions.m[keys[j]])
  }

  /** One pass of the loop of lines 74-99: the entry of `keys[i]` gets its expanded bodies. */
  method ExpandStep(g: Grammar, nullable: set<Symbol>, keys: seq<Symbol>, i: int, productions: Productions)
    returns (productions': Productions)
    requires ExpandState(g, nullable, keys, i, productions) && i < |keys|
    ensures ExpandState(g, nullable, keys, i + 1, productions')
  {
    var nt := keys[i];
    var newProds := ExpandBodies(productions.m[nt], nullable);
    assert forall j :: i < j < |keys| ==> keys[j] != nt;
    productions' := productions.Put(nt, newProds);
    assert keys[..i + 1] == keys[..i] + [nt];
  }

  /** After the step no entry other than that of the new start `S'` has an empty body. */
  lemma OnlyNewStartIsEmpty(g: Grammar, r: Grammar, k: Symbol)
    requires EpsilonEliminated(g, r)
    requires k in r.productions.m && !(StartNullable(g) && k == Primed(g.startSymbol))
    ensures [] !in r.productions.m[k]
  {
    assert [] !in Elements(r.productions.m[k]);
  }

  /**
   * A body with a nullable symbol yields the variant without it, and a body
   * made of nullable symbols only is not kept in erased form.
   */
  lemma ErasedVariantKept(g: Grammar, r: Grammar, k: Symbol, pre: Body, x: Symbol, post: Body)
    requires EpsilonEliminated(g, r)
    requires k in g.productions.m && pre + [x] + post in g.productions.m[k]
    requires !(StartNullable(g) && k == Primed(g.startSymbol))
    requires x in Nullable(g.productions) && pre + post != []
    ensures pre + post in r.productions.m[k] && pre + [x] + post in r.productions.m[k]
  {
    var n := Nullable(g.productions);
    var o := pre + [x] + post;
    DropsKeepsBody(o, n);
    DropsErasesOne(pre, x, post, n);
    assert pre + post in ExpandedSet(g.productions.m[k], n);
    assert o in ExpandedSet(g.productions.m[k], n);
  }

  /** Erasing one nullable occurrence is among the variants. */
  lemma {:induction false} DropsErasesOne(pre: Body, x: Symbol, post: Body, n: set<Symbol>)
    requires x in n
    ensures pre + post in Drops(pre + [x] + post, n)
    decreases |post|
  {
    if post == [] {
      var b := pre + [x];
      assert b[..|b| - 1] == pre && b == pre + [x] + post && pre + post == pre;
      DropsKeepsBody(pre, n);
    } else {
      var init := post[..|post| - 1];
      var last := post[|post| - 1];
      DropsErasesOne(pre, x, init, n);
      var b := pre + [x] + post;
      assert b[..|b| - 1] == pre + [x] + init;
      assert pre + post == (pre + init) + [last];
    }
  }
}
