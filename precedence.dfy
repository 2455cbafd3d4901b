/** What the tier-by-tier operator fold computes: the usual reading of an
    infix chain with five precedence levels (conjunction binding tightest,
    equivalence loosest) and left associativity within a level. */
module Precedence {
  import opened SyntaxTree
  import opened Grammar

  /** Binding strength, 0 for the tightest. */
  function Prec(k: Kind): nat {
    match k
    case Conjunction => 0
    case Disjunction => 1
    case ExclusiveDisjunction => 2
    case Implication => 3
    case Equivalence => 4
  }

  /** The fold order lists the kinds by increasing `Prec`. */
  lemma OrderByPrec(k: Kind, n: nat)
    requires n <= |OperatorOrder|
    ensures Prec(k) < |OperatorOrder| && OperatorOrder[Prec(k)] == k
    ensures k in OperatorOrder[..n] <==> Prec(k) < n
  {
    assert OperatorOrder[..n] == seq(n, i requires 0 <= i < n => OperatorOrder[i]);
  }

  /** The index of the last operator of the loosest kind in the chain. */
  function LastLoosest(ops: seq<Kind>): (p: nat)
    requires ops != []
    ensures p < |ops|
    ensures forall q | 0 <= q < |ops| :: Prec(ops[q]) <= Prec(ops[p])
    ensures forall q | p < q < |ops| :: Prec(ops[q]) < Prec(ops[p])
  {
    if |ops| == 1 then 0
    else
      var p := LastLoosest(ops[..|ops| - 1]);
      if Prec(ops[|ops| - 1]) >= Prec(ops[p]) then |ops| - 1 else p
  }

  /** Reference reading of the chain `exprs[0] ops[0] exprs[1] ... `: the
      last loosest operator is the root, and each side is read the same
      way. */
  function Grouped(exprs: seq<Formula>, ops: seq<Kind>): Formula
    requires |exprs| == |ops| + 1
    decreases |ops|
  {
    if ops == [] then exprs[0]
    else
      var p := LastLoosest(ops);
      Binary(ops[p], Grouped(exprs[..p + 1], ops[..p]), Grouped(exprs[p + 1..], ops[p + 1..]))
  }

  // ---------------------------------------------------------------------
  // One tier, read from the left

  /** One tier of the fold as a left-to-right recursion. */
  function TierFold(exprs: seq<Formula>, ops: seq<Kind>, k: Kind): (r: (seq<Formula>, seq<Kind>))
    requires |exprs| == |ops| + 1
    ensures |r.0| == |r.1| + 1
    ensures r.1 == Without(ops, k)
    decreases |ops|
  {
    if ops == [] then (exprs, ops)
    else if ops[0] == k then TierFold([Binary(k, exprs[0], exprs[1])] + exprs[2..], ops[1..], k)
    else
      var t := TierFold(exprs[1..], ops[1..], k);
      ([exprs[0]] + t.0, [ops[0]] + t.1)
  }

  /** The in-place scan from index `off` keeps the prefix before `off` and
      folds the rest from the left. */
  lemma {:induction false} FoldTierFromLeft(exprs: seq<Formula>, ops: seq<Kind>, k: Kind, off: nat)
    requires |exprs| == |ops| + 1 && off <= |ops|
    ensures FoldTier(exprs, ops, k, off) ==
      (exprs[..off] + TierFold(exprs[off..], ops[off..], k).0,
       ops[..off] + TierFold(exprs[off..], ops[off..], k).1)
    decreases |ops| - off
  {
    if off == |ops| {
      assert exprs[..off] + exprs[off..] == exprs;
      assert ops[..off] + ops[off..] == ops;
    } else if ops[off] == k {
      var e := exprs[..off] + [Binary(k, exprs[off], exprs[off + 1])] + exprs[off + 2..];
      var o := ops[..off] + ops[off + 1..];
      FoldTierFromLeft(e, o, k, off);
      JoinSlices(exprs, ops, k, off);
    } else {
      FoldTierFromLeft(exprs, ops, k, off + 1);
      KeepSlices(exprs, ops, k, off);
    }
  }

  /** The slices of the fold after a merge at `off`. */
  lemma JoinSlices(exprs: seq<Formula>, ops: seq<Kind>, k: Kind, off: nat)
    requires |exprs| == |ops| + 1 && off < |ops| && ops[off] == k
    ensures var e := exprs[..off] + [Binary(k, exprs[off], exprs[off + 1])] + exprs[off + 2..];
      var o := ops[..off] + ops[off + 1..];
      && e[..off] == exprs[..off] && o[..off] == ops[..off]
      && TierFold(e[off..], o[off..], k) == TierFold(exprs[off..], ops[off..], k)
  {
    var e := exprs[..off] + [Binary(k, exprs[off], exprs[off + 1])] + exprs[off + 2..];
    var o := ops[..off] + ops[off + 1..];
    assert e[..off] == exprs[..off];
    assert e[off..] == [Binary(k, exprs[off..][0], exprs[off..][1])] + exprs[off..][2..];
    assert o[..off] == ops[..off];
    assert o[off..] == ops[off..][1..];
  }

  /** The slices of the fold after stepping over an operator at `off`. */
  lemma KeepSlices(exprs: seq<Formula>, ops: seq<Kind>, k: Kind, off: nat)
    requires |exprs| == |ops| + 1 && off < |ops| && ops[off] != k
    ensures var t := TierFold(exprs[off + 1..], ops[off + 1..], k);
      var u := TierFold(exprs[off..], ops[off..], k);
      && exprs[..off + 1] + t.0 == exprs[..off] + u.0
      && ops[..off + 1] + t.1 == ops[..off] + u.1
  {
    assert exprs[off..][1..] == exprs[off + 1..];
    assert ops[off..][1..] == ops[off + 1..];
    var t := TierFold(exprs[off + 1..], ops[off + 1..], k);
    assert TierFold(exprs[off..], ops[off..], k) == ([exprs[off]] + t.0, [ops[off]] + t.1);
    assert exprs[..off + 1] + t.0 == exprs[..off] + ([exprs[off]] + t.0);
    assert ops[..off + 1] + t.1 == ops[..off] + ([ops[off]] + t.1);
  }

  lemma FoldTierIsTierFold(exprs: seq<Formula>, ops: seq<Kind>, k: Kind)
    requires |exprs| == |ops| + 1
    ensures FoldTier(exprs, ops, k, 0) == TierFold(exprs, ops, k)
  {
    FoldTierFromLeft(exprs, ops, k, 0);
    assert exprs[0..] == exprs && ops[0..] == ops;
    var t := TierFold(exprs, ops, k);
    assert exprs[..0] + t.0 == t.0;
    assert ops[..0] + t.1 == t.1;
  }

  /** A tier whose kind does not occur changes nothing. */
  lemma {:induction false} TierFoldAbsent(exprs: seq<Formula>, ops: seq<Kind>, k: Kind)
    requires |exprs| == |ops| + 1 && k !in ops
    ensures TierFold(exprs, ops, k) == (exprs, ops)
    decreases |ops|
  {
    if ops != [] {
      assert ops[1..] <= ops ==> k !in ops[1..];
      TierFoldAbsent(exprs[1..], ops[1..], k);
      assert [exprs[0]] + exprs[1..] == exprs;
      assert [ops[0]] + ops[1..] == ops;
    }
  }

  // Single unfoldings of `TierFold`, and the sequence identities they are
  // combined with; stated apart so that each proof sees only the terms it
  // needs.

  lemma UnfoldJoin(exprs: seq<Formula>, ops: seq<Kind>, k: Kind)
    requires |exprs| == |ops| + 1 && ops != [] && ops[0] == k
    ensures TierFold(exprs, ops, k) == TierFold([Binary(k, exprs[0], exprs[1])] + exprs[2..], ops[1..], k)
  {
  }

  lemma UnfoldKeep(exprs: seq<Formula>, ops: seq<Kind>, k: Kind)
    requires |exprs| == |ops| + 1 && ops != [] && ops[0] != k
    ensures TierFold(exprs, ops, k) ==
      ([exprs[0]] + TierFold(exprs[1..], ops[1..], k).0, [ops[0]] + TierFold(exprs[1..], ops[1..], k).1)
  {
  }

  lemma ConsSplit<T>(a: seq<T>, b: seq<T>)
    requires a != []
    ensures (a + b)[0] == a[0] && (a + b)[1..] == a[1..] + b
  {
  }

  lemma PairSplit(k: Kind, e1: seq<Formula>, e2: seq<Formula>)
    requires |e1| >= 2
    ensures [Binary(k, (e1 + e2)[0], (e1 + e2)[1])] + (e1 + e2)[2..] == ([Binary(k, e1[0], e1[1])] + e1[2..]) + e2
  {
    var e := e1 + e2;
    assert e[0] == e1[0] && e[1] == e1[1];
    assert e[2..] == e1[2..] + e2;
  }

  lemma OpsSplit(o1: seq<Kind>, c: Kind, o2: seq<Kind>)
    requires o1 != []
    ensures (o1 + [c] + o2)[0] == o1[0] && (o1 + [c] + o2)[1..] == o1[1..] + [c] + o2
  {
  }

  lemma SliceAt<T>(s: seq<T>, i: nat)
    requires i <= |s|
    ensures s == s[..i] + s[i..]
  {
  }

  lemma SliceAround<T>(s: seq<T>, i: nat)
    requires i < |s|
    ensures s == s[..i] + [s[i]] + s[i + 1..]
  {
  }

  lemma ConsAppend<T>(x: T, s: seq<T>, t: seq<T>)
    ensures [x] + (s + t) == ([x] + s) + t
  {
  }

  lemma ConsLast<T>(x: T, s: seq<T>)
    requires s != []
    ensures ([x] + s)[..|s|] == [x] + s[..|s| - 1] && ([x] + s)[|s|] == s[|s| - 1]
  {
  }

  /** Folding a tier acts separately on the two sides of an operator of
      another kind. */
  lemma {:induction false} TierFoldSplit(e1: seq<Formula>, o1: seq<Kind>, c: Kind,
                                         e2: seq<Formula>, o2: seq<Kind>, k: Kind)
    requires |e1| == |o1| + 1 && |e2| == |o2| + 1 && c != k
    ensures TierFold(e1 + e2, o1 + [c] + o2, k) ==
      (TierFold(e1, o1, k).0 + TierFold(e2, o2, k).0,
       TierFold(e1, o1, k).1 + [c] + TierFold(e2, o2, k).1)
    decreases |o1|
  {
    if o1 == [] {
      TierFoldSplitFirst(e1, c, e2, o2, k);
    } else if o1[0] == k {
      var e1' := [Binary(k, e1[0], e1[1])] + e1[2..];
      TierFoldSplit(e1', o1[1..], c, e2, o2, k);
      UnfoldJoin(e1 + e2, o1 + [c] + o2, k);
      UnfoldJoin(e1, o1, k);
      PairSplit(k, e1, e2);
      OpsSplit(o1, c, o2);
    } else {
      TierFoldSplit(e1[1..], o1[1..], c, e2, o2, k);
      TierFoldSplitKeep(e1, o1, c, e2, o2, k);
    }
  }

  lemma TierFoldSplitFirst(e1: seq<Formula>, c: Kind, e2: seq<Formula>, o2: seq<Kind>, k: Kind)
    requires |e1| == 1 && |e2| == |o2| + 1 && c != k
    ensures TierFold(e1 + e2, [] + [c] + o2, k) ==
      (TierFold(e1, [], k).0 + TierFold(e2, o2, k).0, TierFold(e1, [], k).1 + [c] + TierFold(e2, o2, k).1)
  {
    var e, o := e1 + e2, [] + [c] + o2;
    assert o == [c] + o2;
    UnfoldKeep(e, o, k);
    ConsSplit(e1, e2);
    assert e1 == [e[0]];
  }

  lemma TierFoldSplitKeep(e1: seq<Formula>, o1: seq<Kind>, c: Kind,
                          e2: seq<Formula>, o2: seq<Kind>, k: Kind)
    requires |e1| == |o1| + 1 && |e2| == |o2| + 1 && o1 != [] && o1[0] != k
    requires TierFold(e1[1..] + e2, o1[1..] + [c] + o2, k) ==
      (TierFold(e1[1..], o1[1..], k).0 + TierFold(e2, o2, k).0,
       TierFold(e1[1..], o1[1..], k).1 + [c] + TierFold(e2, o2, k).1)
    ensures TierFold(e1 + e2, o1 + [c] + o2, k) ==
      (TierFold(e1, o1, k).0 + TierFold(e2, o2, k).0,
       TierFold(e1, o1, k).1 + [c] + TierFold(e2, o2, k).1)
  {
    var e, o := e1 + e2, o1 + [c] + o2;
    var a, b := TierFold(e1[1..], o1[1..], k), TierFold(e2, o2, k);
    ConsSplit(e1, e2);
    OpsSplit(o1, c, o2);
    UnfoldKeep(e, o, k);
    assert TierFold(e, o, k) == ([e1[0]] + (a.0 + b.0), [o1[0]] + (a.1 + [c] + b.1));
    UnfoldKeep(e1, o1, k);
    assert TierFold(e1, o1, k) == ([e1[0]] + a.0, [o1[0]] + a.1);
    KeepAssoc(e1[0], a.0, b.0, o1[0], a.1, c, b.1);
  }

  /** Regrouping the two concatenations, kept apart from the caller so that
      its context stays small. */
  lemma KeepAssoc(x: Formula, a0: seq<Formula>, b0: seq<Formula>, y: Kind, a1: seq<Kind>, c: Kind, b1: seq<Kind>)
    ensures [x] + (a0 + b0) == ([x] + a0) + b0
    ensures [y] + (a1 + [c] + b1) == ([y] + a1) + [c] + b1
  {
  }

  /** One more operand joined by the tier's own kind is folded into the
      last operand. */
  lemma {:induction false} TierFoldSnoc(exprs: seq<Formula>, ops: seq<Kind>, x: Formula, k: Kind)
    requires |exprs| == |ops| + 1
    ensures var y := TierFold(exprs, ops, k);
      TierFold(exprs + [x], ops + [k], k) ==
        (y.0[..|y.0| - 1] + [Binary(k, y.0[|y.0| - 1], x)], y.1)
    decreases |ops|
  {
    if ops == [] {
      TierFoldSnocFirst(exprs, x, k);
      assert ops + [k] == [] + [k];
      assert TierFold(exprs, ops, k) == (exprs, ops);
      assert exprs[..0] + [Binary(k, exprs[0], x)] == [Binary(k, exprs[0], x)];
    } else if ops[0] == k {
      var e' := [Binary(k, exprs[0], exprs[1])] + exprs[2..];
      TierFoldSnoc(e', ops[1..], x, k);
      UnfoldJoin(exprs + [x], ops + [k], k);
      UnfoldJoin(exprs, ops, k);
      PairSplit(k, exprs, [x]);
      ConsSplit(ops, [k]);
    } else {
      TierFoldSnoc(exprs[1..], ops[1..], x, k);
      TierFoldSnocKeep(exprs, ops, x, k);
    }
  }

  lemma TierFoldSnocFirst(exprs: seq<Formula>, x: Formula, k: Kind)
    requires |exprs| == 1
    ensures TierFold(exprs + [x], [] + [k], k) == ([Binary(k, exprs[0], x)], [])
  {
    var e := exprs + [x];
    assert [] + [k] == [k];
    UnfoldJoin(e, [k], k);
    assert e[0] == exprs[0] && e[1] == x && e[2..] == [];
    assert [Binary(k, e[0], e[1])] + e[2..] == [Binary(k, exprs[0], x)];
  }

  lemma TierFoldSnocKeep(exprs: seq<Formula>, ops: seq<Kind>, x: Formula, k: Kind)
    requires |exprs| == |ops| + 1 && ops != [] && ops[0] != k
    requires var t := TierFold(exprs[1..], ops[1..], k);
      TierFold(exprs[1..] + [x], ops[1..] + [k], k) ==
        (t.0[..|t.0| - 1] + [Binary(k, t.0[|t.0| - 1], x)], t.1)
    ensures var y := TierFold(exprs, ops, k);
      TierFold(exprs + [x], ops + [k], k) ==
        (y.0[..|y.0| - 1] + [Binary(k, y.0[|y.0| - 1], x)], y.1)
  {
    ConsSplit(exprs, [x]);
    ConsSplit(ops, [k]);
    UnfoldKeep(exprs + [x], ops + [k], k);
    UnfoldKeep(exprs, ops, k);
    var t := TierFold(exprs[1..], ops[1..], k);
    ConsLast(exprs[0], t.0);
    ConsAppend(exprs[0], t.0[..|t.0| - 1], [Binary(k, t.0[|t.0| - 1], x)]);
  }

  // ---------------------------------------------------------------------
  // All tiers

  /** Tiers whose kinds do not occur change nothing. */
  lemma {:induction false} FoldTiersAbsent(exprs: seq<Formula>, ops: seq<Kind>, tiers: seq<Kind>)
    requires |exprs| == |ops| + 1
    requires forall t :: t in tiers ==> t !in ops
    ensures FoldTiers(exprs, ops, tiers) == (exprs, ops)
    decreases |tiers|
  {
    if tiers != [] {
      FoldTierIsTierFold(exprs, ops, tiers[0]);
      TierFoldAbsent(exprs, ops, tiers[0]);
      FoldTiersAbsent(exprs, ops, tiers[1..]);
    }
  }

  lemma {:induction false} FoldTiersAppend(exprs: seq<Formula>, ops: seq<Kind>, t1: seq<Kind>, t2: seq<Kind>)
    requires |exprs| == |ops| + 1
    ensures var a := FoldTiers(exprs, ops, t1);
      FoldTiers(exprs, ops, t1 + t2) == FoldTiers(a.0, a.1, t2)
    decreases |t1|
  {
    if t1 == [] {
      assert t1 + t2 == t2;
    } else {
      var t := FoldTier(exprs, ops, t1[0], 0);
      assert (t1 + t2)[0] == t1[0];
      assert (t1 + t2)[1..] == t1[1..] + t2;
      FoldTiersAppend(t.0, t.1, t1[1..], t2);
    }
  }

  /** Tiers that do not include `c` act separately on its two sides. */
  lemma {:induction false} FoldTiersSplit(e1: seq<Formula>, o1: seq<Kind>, c: Kind,
                                          e2: seq<Formula>, o2: seq<Kind>, tiers: seq<Kind>)
    requires |e1| == |o1| + 1 && |e2| == |o2| + 1 && c !in tiers
    ensures FoldTiers(e1 + e2, o1 + [c] + o2, tiers) ==
      (FoldTiers(e1, o1, tiers).0 + FoldTiers(e2, o2, tiers).0,
       FoldTiers(e1, o1, tiers).1 + [c] + FoldTiers(e2, o2, tiers).1)
    decreases |tiers|
  {
    if tiers != [] {
      var k := tiers[0];
      FoldTierIsTierFold(e1 + e2, o1 + [c] + o2, k);
      FoldTierIsTierFold(e1, o1, k);
      FoldTierIsTierFold(e2, o2, k);
      TierFoldSplit(e1, o1, c, e2, o2, k);
      var a, b := TierFold(e1, o1, k), TierFold(e2, o2, k);
      FoldTiersSplit(a.0, a.1, c, b.0, b.1, tiers[1..]);
    }
  }

  // ---------------------------------------------------------------------
  // The fold reads the chain by precedence

  /** `Resolve` as the tiers tighter than level `n`, then the rest. */
  lemma ResolveByLevel(exprs: seq<Formula>, ops: seq<Kind>, n: nat)
    requires |exprs| == |ops| + 1 && n <= |OperatorOrder|
    ensures var a := FoldTiers(exprs, ops, OperatorOrder[..n]);
      Resolve(exprs, ops) == FoldTiers(a.0, a.1, OperatorOrder[n..]).0[0]
  {
    assert OperatorOrder == OperatorOrder[..n] + OperatorOrder[n..];
    FoldTiersAppend(exprs, ops, OperatorOrder[..n], OperatorOrder[n..]);
  }

  /** The tiers tighter than level `n` fold away every operator tighter
      than `n`, and leave only level-`n` operators of a chain with none
      looser. */
  lemma TighterTiers(exprs: seq<Formula>, ops: seq<Kind>, n: nat)
    requires |exprs| == |ops| + 1 && n < |OperatorOrder|
    requires forall q | 0 <= q < |ops| :: Prec(ops[q]) <= n
    ensures var a := FoldTiers(exprs, ops, OperatorOrder[..n]);
      forall o :: o in a.1 ==> o == OperatorOrder[n]
  {
    var a := FoldTiers(exprs, ops, OperatorOrder[..n]);
    forall o | o in a.1
      ensures o == OperatorOrder[n]
    {
      OrderByPrec(o, n);
      var q :| 0 <= q < |ops| && ops[q] == o;
    }
  }

  lemma TightestTiers(exprs: seq<Formula>, ops: seq<Kind>, n: nat)
    requires |exprs| == |ops| + 1 && n < |OperatorOrder|
    requires forall q | 0 <= q < |ops| :: Prec(ops[q]) < n
    ensures FoldTiers(exprs, ops, OperatorOrder[..n]).1 == []
  {
    var a := FoldTiers(exprs, ops, OperatorOrder[..n]);
    if a.1 != [] {
      var o := a.1[0];
      assert o in a.1;
      var q :| 0 <= q < |ops| && ops[q] == o;
      assert Prec(o) < n;
      OrderByPrec(o, n);
    }
  }

  lemma {:induction false} WithoutAll(ops: seq<Kind>, k: Kind)
    requires forall o :: o in ops ==> o == k
    ensures Without(ops, k) == []
  {
    if ops != [] {
      assert ops[0] in ops;
      assert forall o :: o in ops[1..] ==> o in ops;
      WithoutAll(ops[1..], k);
    }
  }

  /** A chain whose operators are all of level `n`: tier `n` folds it to one
      operand and the looser tiers change nothing more. */
  lemma LastTiers(exprs: seq<Formula>, ops: seq<Kind>, n: nat)
    requires |exprs| == |ops| + 1 && n < |OperatorOrder|
    requires forall o :: o in ops ==> o == OperatorOrder[n]
    ensures var y := TierFold(exprs, ops, OperatorOrder[n]);
      |y.0| == 1 && y.1 == [] && FoldTiers(exprs, ops, OperatorOrder[n..]) == y
  {
    var m := OperatorOrder[n];
    var y := TierFold(exprs, ops, m);
    WithoutAll(ops, m);
    assert OperatorOrder[n..][0] == m;
    FoldTierIsTierFold(exprs, ops, m);
    FoldTiersAbsent(y.0, y.1, OperatorOrder[n..][1..]);
  }

  /** Tier `n` and the looser ones on a chain of level-`n` operators
      followed by one more level-`n` operator and a last operand. */
  lemma JoinLast(a0: seq<Formula>, a1: seq<Kind>, x: Formula, n: nat)
    requires |a0| == |a1| + 1 && n < |OperatorOrder|
    requires forall o :: o in a1 ==> o == OperatorOrder[n]
    ensures FoldTiers(a0 + [x], a1 + [OperatorOrder[n]], OperatorOrder[n..]).0[0] ==
      Binary(OperatorOrder[n], FoldTiers(a0, a1, OperatorOrder[n..]).0[0], x)
  {
    var m := OperatorOrder[n];
    LastTiers(a0, a1, n);
    var y := TierFold(a0, a1, m);
    TierFoldSnoc(a0, a1, x, m);
    LastTiers(a0 + [x], a1 + [m], n);
    assert y.0[..0] + [Binary(m, y.0[0], x)] == [Binary(m, y.0[0], x)];
  }

  /** A level-`n` operator with no looser operator on its left and only
      tighter ones on its right is the root of the folded chain. */
  lemma RootOperator(e1: seq<Formula>, o1: seq<Kind>, e2: seq<Formula>, o2: seq<Kind>, n: nat)
    requires |e1| == |o1| + 1 && |e2| == |o2| + 1 && n < |OperatorOrder|
    requires forall q | 0 <= q < |o1| :: Prec(o1[q]) <= n
    requires forall q | 0 <= q < |o2| :: Prec(o2[q]) < n
    ensures Resolve(e1 + e2, o1 + [OperatorOrder[n]] + o2) ==
      Binary(OperatorOrder[n], Resolve(e1, o1), Resolve(e2, o2))
  {
    var m := OperatorOrder[n];
    var t1 := OperatorOrder[..n];
    OrderByPrec(m, n);
    FoldTiersSplit(e1, o1, m, e2, o2, t1);
    var a, b := FoldTiers(e1, o1, t1), FoldTiers(e2, o2, t1);
    TighterTiers(e1, o1, n);
    TightestTiers(e2, o2, n);
    assert b.0 == [b.0[0]];
    assert a.1 + [m] + b.1 == a.1 + [m];
    JoinLast(a.0, a.1, b.0[0], n);
    ResolveByLevel(e1 + e2, o1 + [m] + o2, n);
    ResolveByLevel(e1, o1, n);
    ResolveByLevel(e2, o2, n);
    FoldTiersAbsent(b.0, b.1, OperatorOrder[n..]);
  }

  /** The last loosest operator is the root of the folded formula, with the
      two sides folded on their own. */
  lemma ResolveAtLoosest(exprs: seq<Formula>, ops: seq<Kind>)
    requires |exprs| == |ops| + 1 && ops != []
    ensures var p := LastLoosest(ops);
      Resolve(exprs, ops) ==
        Binary(ops[p], Resolve(exprs[..p + 1], ops[..p]), Resolve(exprs[p + 1..], ops[p + 1..]))
  {
    var p := LastLoosest(ops);
    LoosestSplit(exprs, ops, p, ops[..p], ops[p + 1..]);
    hide LastLoosest, Resolve, FoldTiers, FoldTier, Prec;
    RootOperator(exprs[..p + 1], ops[..p], exprs[p + 1..], ops[p + 1..], Prec(ops[p]));
  }

  /** The two sides of the last loosest operator: no looser operator on the
      left, only tighter ones on the right. */
  lemma LoosestSplit(exprs: seq<Formula>, ops: seq<Kind>, p: nat, o1: seq<Kind>, o2: seq<Kind>)
    requires |exprs| == |ops| + 1 && p < |ops| && o1 == ops[..p] && o2 == ops[p + 1..]
    requires forall q | 0 <= q < |ops| :: Prec(ops[q]) <= Prec(ops[p])
    requires forall q | p < q < |ops| :: Prec(ops[q]) < Prec(ops[p])
    ensures exprs[..p + 1] + exprs[p + 1..] == exprs
    ensures o1 + [OperatorOrder[Prec(ops[p])]] + o2 == ops
    ensures Prec(ops[p]) < |OperatorOrder|
    ensures forall q | 0 <= q < |o1| :: Prec(o1[q]) <= Prec(ops[p])
    ensures forall q | 0 <= q < |o2| :: Prec(o2[q]) < Prec(ops[p])
  {
    OrderByPrec(ops[p], Prec(ops[p]));
    SliceAt(exprs, p + 1);
    SliceAround(ops, p);
    forall q | 0 <= q < |o1|
      ensures Prec(o1[q]) <= Prec(ops[p])
    {
      assert o1[q] == ops[q];
    }
    forall q | 0 <= q < |o2|
      ensures Prec(o2[q]) < Prec(ops[p])
    {
      assert o2[q] == ops[p + 1 + q];
    }
  }

  /** The fold computes the reference reading. */
  lemma {:induction false} ResolveIsGrouped(exprs: seq<Formula>, ops: seq<Kind>)
    requires |exprs| == |ops| + 1
    ensures Resolve(exprs, ops) == Grouped(exprs, ops)
    decreases |ops|
  {
    if ops == [] {
      FoldTiersAbsent(exprs, ops, OperatorOrder);
    } else {
      var p := LastLoosest(ops);
      ResolveAtLoosest(exprs, ops);
      assert Grouped(exprs, ops) == Binary(ops[p], Grouped(exprs[..p + 1], ops[..p]), Grouped(exprs[p + 1..], ops[p + 1..]));
      hide Resolve, FoldTiers, FoldTier, LastLoosest, Prec, Grouped;
      ResolveIsGrouped(exprs[..p + 1], ops[..p]);
      ResolveIsGrouped(exprs[p + 1..], ops[p + 1..]);
    }
  }

  // ---------------------------------------------------------------------
  // Consequences for three operands

  /** Operators of one kind group to the left. */
  lemma LeftAssociative(k: Kind, a: Formula, b: Formula, c: Formula)
    ensures Resolve([a, b, c], [k, k]) == Binary(k, Binary(k, a, b), c)
  {
    hide Resolve;
    ResolveIsGrouped([a, b, c], [k, k]);
    GroupedPair(k, a, b);
    assert LastLoosest([k, k]) == 1;
    assert [a, b, c][..2] == [a, b] && [a, b, c][2..] == [c] && [k, k][..1] == [k] && [k, k][2..] == [];
  }

  /** A tighter operator takes its operands first, on either side of a
      looser one. */
  lemma TighterFirst(k1: Kind, k2: Kind, a: Formula, b: Formula, c: Formula)
    requires Prec(k1) < Prec(k2)
    ensures Resolve([a, b, c], [k1, k2]) == Binary(k2, Binary(k1, a, b), c)
    ensures Resolve([a, b, c], [k2, k1]) == Binary(k2, a, Binary(k1, b, c))
  {
    hide Resolve;
    ResolveIsGrouped([a, b, c], [k1, k2]);
    ResolveIsGrouped([a, b, c], [k2, k1]);
    GroupedPair(k1, a, b);
    GroupedPair(k1, b, c);
    assert LastLoosest([k1, k2]) == 1 && LastLoosest([k2, k1]) == 0;
    assert [a, b, c][..2] == [a, b] && [a, b, c][2..] == [c] && [k1, k2][..1] == [k1] && [k1, k2][2..] == [];
    assert [a, b, c][..1] == [a] && [a, b, c][1..] == [b, c] && [k2, k1][..0] == [] && [k2, k1][1..] == [k1];
  }

  lemma GroupedPair(k: Kind, a: Formula, b: Formula)
    ensures Grouped([a, b], [k]) == Binary(k, a, b)
  {
    assert [a, b][..1] == [a] && [a, b][1..] == [b];
  }
}
