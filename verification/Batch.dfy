/**
 Operations on an ordered column that is not reference counted, and their meaning: first on a
 plain map, applied in the order the user gave them, then on the sorted sequence of pairs that
 a tree stores. A stable sort by key does not change what a batch means.
 */
module Batch {
  import opened Keys

  datatype Operation =
    | Set(key: Bytes, val: Bytes)
    | Dereference(key: Bytes)
    | Reference(key: Bytes)

  datatype Pair = Pair(key: Bytes, val: Bytes)

  // ----- Meaning on maps

  function ApplyToMap(m: map<Bytes, Bytes>, op: Operation): map<Bytes, Bytes> {
    match op
    case Set(k, v) => m[k := v]
    case Dereference(k) => m - {k}
    case Reference(_) => m
  }

  function ApplyAllToMap(m: map<Bytes, Bytes>, ops: seq<Operation>): map<Bytes, Bytes>
    decreases |ops|
  {
    if ops == [] then m else ApplyAllToMap(ApplyToMap(m, ops[0]), ops[1..])
  }

  /** A history of batches, in order. */
  function ApplyBatches(m: map<Bytes, Bytes>, batches: seq<seq<Operation>>): map<Bytes, Bytes>
    decreases |batches|
  {
    if batches == [] then m else ApplyBatches(ApplyAllToMap(m, batches[0]), batches[1..])
  }

  ghost function At(m: map<Bytes, Bytes>, k: Bytes): Option<Bytes> {
    if k in m then Some(m[k]) else None
  }

  // ----- Meaning on sorted sequences of pairs

  ghost predicate Sorted(s: seq<Pair>) {
    forall i, j :: 0 <= i < j < |s| ==> Rank(s[i].key) < Rank(s[j].key)
  }

  /** First position from `i` on whose key does not rank below `r`. */
  ghost function Lo(s: seq<Pair>, r: real, i: nat): (n: nat)
    requires i <= |s|
    ensures i <= n <= |s|
    ensures forall j :: i <= j < n ==> Rank(s[j].key) < r
    ensures n < |s| ==> r <= Rank(s[n].key)
    decreases |s| - i
  {
    if i == |s| || r <= Rank(s[i].key) then i else Lo(s, r, i + 1)
  }

  ghost function Apply(s: seq<Pair>, op: Operation): seq<Pair> {
    var i := Lo(s, Rank(op.key), 0);
    var hit := i < |s| && s[i].key == op.key;
    match op
    case Set(k, v) => s[..i] + [Pair(k, v)] + s[if hit then i + 1 else i..]
    case Dereference(_) => if hit then s[..i] + s[i + 1..] else s
    case Reference(_) => s
  }

  ghost function ApplyAll(s: seq<Pair>, ops: seq<Operation>): seq<Pair>
    decreases |ops|
  {
    if ops == [] then s else ApplyAll(Apply(s, ops[0]), ops[1..])
  }

  /** Key `k` falls between positions `i` and `j`, which enclose its own pair when there is one. */
  ghost predicate Cut(s: seq<Pair>, k: Bytes, i: nat, j: nat) {
    && i <= j <= |s| && j <= i + 1
    && (forall x :: 0 <= x < i ==> Rank(s[x].key) < Rank(k))
    && (forall x :: j <= x < |s| ==> Rank(k) < Rank(s[x].key))
    && (i < j ==> s[i].key == k)
  }

  /** What goes between the two halves of the sequence. */
  function Middle(op: Operation): seq<Pair> {
    if op.Set? then [Pair(op.key, op.val)] else []
  }

  lemma {:induction false} LoIs(s: seq<Pair>, k: Bytes, i: nat, j: nat)
    requires Cut(s, k, i, j)
    ensures Lo(s, Rank(k), 0) == i
    ensures i < j <==> i < |s| && s[i].key == k
  {
    assert i < |s| ==> Rank(k) <= Rank(s[i].key);
  }

  /** `Apply` acts exactly where the key falls. */
  lemma {:induction false} CutIs(s: seq<Pair>, op: Operation, i: nat, j: nat)
    requires Cut(s, op.key, i, j)
    ensures !op.Reference? ==> Apply(s, op) == s[..i] + Middle(op) + s[j..]
  {
    hide Lo, Rank;
    LoIs(s, op.key, i, j);
    hide Lo, Cut, Rank;
    match op
    case Set(k, v) =>
    case Dereference(_) =>
      if i == j {
        assert s == s[..i] + [] + s[i..];
      } else {
        assert s[..i] + s[j..] == s[..i] + [] + s[j..];
      }
    case Reference(_) =>
  }

  lemma {:induction false} FindCut(s: seq<Pair>, k: Bytes) returns (i: nat, j: nat)
    requires Sorted(s)
    ensures Cut(s, k, i, j)
  {
    i := Lo(s, Rank(k), 0);
    j := if i < |s| && s[i].key == k then i + 1 else i;
    if i < |s| {
      CompareIsRank(s[i].key, k);
    }
  }

  lemma {:induction false} ApplySorted(s: seq<Pair>, op: Operation)
    requires Sorted(s)
    ensures Sorted(Apply(s, op))
  {
    var i, j := FindCut(s, op.key);
    CutIs(s, op, i, j);
    if !op.Reference? {
      SortedReplace(s, op.key, i, j, Middle(op));
    }
  }

  lemma {:induction false} SortedReplace(s: seq<Pair>, k: Bytes, i: nat, j: nat, m: seq<Pair>)
    requires Sorted(s) && Cut(s, k, i, j)
    requires |m| <= 1 && (|m| == 1 ==> m[0].key == k)
    ensures Sorted(s[..i] + m + s[j..])
  {
    hide Rank;
    SortedJoin(s[..i], m, k);
    SortedPart(s, j);
    var l := s[..i] + m;
    forall x, y | 0 <= x < |l| && j <= y < |s|
      ensures Rank(l[x].key) < Rank(s[y].key)
    {
      assert x < i ==> l[x] == s[x];
    }
    SortedConcat(l, s[j..]);
  }

  lemma SortedPart(s: seq<Pair>, j: nat)
    requires Sorted(s) && j <= |s|
    ensures Sorted(s[j..])
  {
    hide Rank;
  }

  lemma SortedJoin(s: seq<Pair>, m: seq<Pair>, k: Bytes)
    requires Sorted(s) && |m| <= 1 && (|m| == 1 ==> m[0].key == k) && forall x :: 0 <= x < |s| ==>
      Rank(s[x].key) < Rank(k)
    ensures Sorted(s + m)
  {
    hide Rank;
  }

  lemma SortedConcat(a: seq<Pair>, b: seq<Pair>)
    requires Sorted(a) && Sorted(b)
    requires forall x, y :: 0 <= x < |a| && 0 <= y < |b| ==> Rank(a[x].key) < Rank(b[y].key)
    ensures Sorted(a + b)
  {
    hide Rank;
  }

  lemma {:induction false} Reassociate<T>(l: seq<T>, s: seq<T>, r: seq<T>, i: nat, j: nat, m: seq<T>)
    requires i <= j <= |s|
    ensures var t := l + s + r; t[..|l| + i] + m + t[|l| + j..] == l + (s[..i] + m + s[j..]) + r
  {
    var t := l + s + r;
    assert t[..|l| + i] == l + s[..i];
    assert t[|l| + j..] == s[j..] + r;
  }

  lemma {:induction false} CutInside(l: seq<Pair>, s: seq<Pair>, r: seq<Pair>, k: Bytes, i: nat, j: nat)
    requires Cut(s, k, i, j)
    requires forall x :: 0 <= x < |l| ==> Rank(l[x].key) < Rank(k)
    requires forall x :: 0 <= x < |r| ==> Rank(k) < Rank(r[x].key)
    ensures Cut(l + s + r, k, |l| + i, |l| + j)
  {
    var t := l + s + r;
    forall x | 0 <= x < |t|
      ensures x < |l| ==> t[x] == l[x]
      ensures |l| <= x < |l| + |s| ==> t[x] == s[x - |l|]
      ensures |l| + |s| <= x ==> t[x] == r[x - |l| - |s|]
    {
    }
  }

  /** An operation whose key falls strictly between `l` and `r` leaves both alone. */
  lemma {:induction false} Frame(l: seq<Pair>, s: seq<Pair>, r: seq<Pair>, op: Operation)
    requires Sorted(s)
    requires forall x :: 0 <= x < |l| ==> Rank(l[x].key) < Rank(op.key)
    requires forall x :: 0 <= x < |r| ==> Rank(op.key) < Rank(r[x].key)
    ensures Apply(l + s + r, op) == l + Apply(s, op) + r
  {
    var i, j := FindCut(s, op.key);
    if !op.Reference? {
      var t, m := l + s + r, Middle(op);
      calc {
        Apply(t, op);
        { CutInside(l, s, r, op.key, i, j); CutIs(t, op, |l| + i, |l| + j); }
        t[..|l| + i] + m + t[|l| + j..];
        { Reassociate(l, s, r, i, j, m); }
        l + (s[..i] + m + s[j..]) + r;
        { CutIs(s, op, i, j); }
        l + Apply(s, op) + r;
      }
    }
  }

  ghost predicate Between(ops: seq<Operation>, lo: real, hi: real) {
    forall i :: 0 <= i < |ops| ==> lo < Rank(ops[i].key) < hi
  }

  ghost predicate AtMost(s: seq<Pair>, r: real) {
    forall i :: 0 <= i < |s| ==> Rank(s[i].key) <= r
  }

  ghost predicate AtLeast(s: seq<Pair>, r: real) {
    forall i :: 0 <= i < |s| ==> r <= Rank(s[i].key)
  }

  ghost predicate Inside(s: seq<Pair>, lo: real, hi: real) {
    forall i :: 0 <= i < |s| ==> lo < Rank(s[i].key) < hi
  }

  lemma {:induction false} ApplyInside(s: seq<Pair>, op: Operation, lo: real, hi: real)
    requires Sorted(s) && Inside(s, lo, hi) && lo < Rank(op.key) < hi
    ensures Inside(Apply(s, op), lo, hi)
  {
    hide Lo, Cut, Rank, Sorted;
    var i, j := FindCut(s, op.key);
    CutIs(s, op, i, j);
  }

  lemma {:induction false} ApplyAllSorted(s: seq<Pair>, ops: seq<Operation>, lo: real, hi: real)
    requires Sorted(s) && Inside(s, lo, hi) && Between(ops, lo, hi)
    ensures Sorted(ApplyAll(s, ops)) && Inside(ApplyAll(s, ops), lo, hi)
    decreases |ops|
  {
    if ops != [] {
      ApplySorted(s, ops[0]);
      ApplyInside(s, ops[0], lo, hi);
      ApplyAllSorted(Apply(s, ops[0]), ops[1..], lo, hi);
    }
  }

  lemma {:induction false} FrameAll(l: seq<Pair>, s: seq<Pair>, r: seq<Pair>, ops: seq<Operation>, lo: real, hi: real)
    requires Sorted(s) && Between(ops, lo, hi)
    requires AtMost(l, lo) && AtLeast(r, hi)
    ensures ApplyAll(l + s + r, ops) == l + ApplyAll(s, ops) + r
    decreases |ops|
  {
    if ops != [] {
      assert lo < Rank(ops[0].key) < hi;
      Frame(l, s, r, ops[0]);
      ApplySorted(s, ops[0]);
      FrameAll(l, Apply(s, ops[0]), r, ops[1..], lo, hi);
    }
  }

  lemma {:induction false} ApplyAllAppend(s: seq<Pair>, a: seq<Operation>, b: seq<Operation>)
    ensures ApplyAll(s, a + b) == ApplyAll(ApplyAll(s, a), b)
    decreases |a|
  {
    if a == [] {
      assert a + b == b;
    } else {
      assert (a + b)[1..] == a[1..] + b;
      ApplyAllAppend(Apply(s, a[0]), a[1..], b);
    }
  }

  /** A later Set or Dereference of the same key makes the earlier operation irrelevant. */
  lemma {:induction false} LaterWins(s: seq<Pair>, first: Operation, second: Operation)
    requires Sorted(s) && first.key == second.key && !second.Reference?
    ensures Apply(Apply(s, first), second) == Apply(s, second)
  {
    if !first.Reference? {
      var i, j := FindCut(s, first.key);
      CutIs(s, first, i, j);
      CutIs(s, second, i, j);
      var m := Middle(first);
      var t := s[..i] + m + s[j..];
      CutReplaced(s, first.key, i, j, m);
      CutIs(t, second, i, i + |m|);
    }
  }

  lemma {:induction false} CutReplaced(s: seq<Pair>, k: Bytes, i: nat, j: nat, m: seq<Pair>)
    requires Cut(s, k, i, j) && |m| <= 1 && (|m| == 1 ==> m[0].key == k)
    ensures var t := s[..i] + m + s[j..]; Cut(t, k, i, i + |m|) && t[..i] == s[..i] && t[i + |m|..] == s[j..]
  {
    hide Rank;
    var t := s[..i] + m + s[j..];
    forall x | i + |m| <= x < |t|
      ensures t[x] == s[x - i - |m| + j]
    {
    }
  }

  // ----- Sorted sequences stand for maps

  ghost function ToMap(s: seq<Pair>): map<Bytes, Bytes> {
    if s == [] then map[] else ToMap(s[..|s| - 1])[s[|s| - 1].key := s[|s| - 1].val]
  }

  lemma {:induction false} ToMapHas(s: seq<Pair>)
    requires Sorted(s)
    ensures forall i :: 0 <= i < |s| ==> s[i].key in ToMap(s) && ToMap(s)[s[i].key] == s[i].val
    ensures forall k :: k in ToMap(s) ==> exists i :: 0 <= i < |s| && s[i].key == k
  {
    if s != [] {
      ToMapHas(s[..|s| - 1]);
      forall i | 0 <= i < |s|
        ensures s[i].key in ToMap(s) && ToMap(s)[s[i].key] == s[i].val
      {
        if i < |s| - 1 {
          assert s[i] == s[..|s| - 1][i];
          assert Rank(s[i].key) < Rank(s[|s| - 1].key);
        }
      }
      forall k | k in ToMap(s)
        ensures exists i :: 0 <= i < |s| && s[i].key == k
      {
        if k == s[|s| - 1].key {
        } else {
          assert k in ToMap(s[..|s| - 1]);
          var i :| 0 <= i < |s| - 1 && s[..|s| - 1][i].key == k;
          assert s[i].key == k;
        }
      }
    }
  }

  lemma {:induction false} AtIs(s: seq<Pair>, k: Bytes)
    requires Sorted(s)
    ensures forall v :: Pair(k, v) in s <==> At(ToMap(s), k) == Some(v)
  {
    ToMapHas(s);
    if k in ToMap(s) {
      var i :| 0 <= i < |s| && s[i].key == k;
      assert s[i] == Pair(k, ToMap(s)[k]);
    }
  }

  /** Every other key keeps its pair, and the operation decides about its own. */
  lemma {:induction false} ReplaceHolds(s: seq<Pair>, op: Operation, i: nat, j: nat, x: Pair)
    requires Cut(s, op.key, i, j)
    ensures x in s[..i] + Middle(op) + s[j..] <==> x in Middle(op) || (x in s && x.key != op.key)
  {
    assert s == s[..i] + s[i..j] + s[j..];
    assert x in s[..i] ==> Rank(x.key) < Rank(op.key);
    assert x in s[j..] ==> Rank(op.key) < Rank(x.key);
    assert x in s[i..j] ==> x.key == op.key;
  }

  lemma {:induction false} ReplaceIsMapUpdate(s: seq<Pair>, op: Operation, i: nat, j: nat, k: Bytes)
    requires Sorted(s) && Cut(s, op.key, i, j) && !op.Reference?
    ensures At(ToMap(s[..i] + Middle(op) + s[j..]), k) == At(ApplyToMap(ToMap(s), op), k)
  {
    var t := s[..i] + Middle(op) + s[j..];
    SortedReplace(s, op.key, i, j, Middle(op));
    AtIs(s, k);
    AtIs(t, k);
    forall v
      ensures Pair(k, v) in t <==> Pair(k, v) in Middle(op) || (Pair(k, v) in s && k != op.key)
    {
      ReplaceHolds(s, op, i, j, Pair(k, v));
    }
  }

  lemma {:induction false} SameAt(x: map<Bytes, Bytes>, y: map<Bytes, Bytes>)
    requires forall k :: At(x, k) == At(y, k)
    ensures x == y
  {
    assert forall k :: k in x ==> At(y, k) == Some(x[k]);
    assert forall k :: k in y ==> At(x, k) == Some(y[k]);
  }

  lemma {:induction false} ApplyIsMapUpdate(s: seq<Pair>, op: Operation)
    requires Sorted(s)
    ensures ToMap(Apply(s, op)) == ApplyToMap(ToMap(s), op)
  {
    var i, j := FindCut(s, op.key);
    CutIs(s, op, i, j);
    if !op.Reference? {
      forall k
        ensures At(ToMap(Apply(s, op)), k) == At(ApplyToMap(ToMap(s), op), k)
      {
        ReplaceIsMapUpdate(s, op, i, j, k);
      }
      SameAt(ToMap(Apply(s, op)), ApplyToMap(ToMap(s), op));
    }
  }

  lemma {:induction false} ApplyAllIsMapUpdate(s: seq<Pair>, ops: seq<Operation>)
    requires Sorted(s)
    ensures Sorted(ApplyAll(s, ops)) && ToMap(ApplyAll(s, ops)) == ApplyAllToMap(ToMap(s), ops)
    decreases |ops|
  {
    if ops != [] {
      ApplySorted(s, ops[0]);
      ApplyIsMapUpdate(s, ops[0]);
      ApplyAllIsMapUpdate(Apply(s, ops[0]), ops[1..]);
    }
  }

  // ----- The stable sort of a batch

  function ForKey(ops: seq<Operation>, k: Bytes): seq<Operation> {
    if ops == [] then [] else (if ops[0].key == k then [ops[0]] else []) + ForKey(ops[1..], k)
  }

  ghost predicate SortedOps(ops: seq<Operation>) {
    forall i, j :: 0 <= i < j < |ops| ==> Rank(ops[i].key) <= Rank(ops[j].key)
  }

  /** Insert in front of the first operation whose key is not smaller. */
  function InsertStable(op: Operation, ops: seq<Operation>): seq<Operation> {
    if ops == [] || Compare(op.key, ops[0].key) != Greater then [op] + ops
    else [ops[0]] + InsertStable(op, ops[1..])
  }

  function StableSort(ops: seq<Operation>): seq<Operation> {
    if ops == [] then [] else InsertStable(ops[0], StableSort(ops[1..]))
  }

  lemma {:induction false} InsertSorted(op: Operation, ops: seq<Operation>)
    requires SortedOps(ops)
    ensures SortedOps(InsertStable(op, ops)) && |InsertStable(op, ops)| == |ops| + 1
    ensures forall x :: x in InsertStable(op, ops) <==> x == op || x in ops
    decreases |ops|
  {
    if ops != [] {
      CompareIsRank(op.key, ops[0].key);
      if Compare(op.key, ops[0].key) == Greater {
        InsertSorted(op, ops[1..]);
        var t := InsertStable(op, ops[1..]);
        hide InsertStable;
        assert forall x :: x in ops <==> x == ops[0] || x in ops[1..];
        assert forall i :: 0 <= i < |t| ==> t[i] in t;
      }
    }
  }

  lemma {:induction false} InsertKeepsKeys(op: Operation, ops: seq<Operation>, k: Bytes)
    requires SortedOps(ops)
    ensures ForKey(InsertStable(op, ops), k) == ForKey([op] + ops, k)
    decreases |ops|
  {
    if ops != [] {
      CompareIsRank(op.key, ops[0].key);
      assert ([op] + ops)[1..] == ops;
      if Compare(op.key, ops[0].key) == Greater {
        var rest := ops[1..];
        InsertKeepsKeys(op, rest, k);
        var t := InsertStable(op, rest);
        assert ([ops[0]] + t)[1..] == t && ([op] + rest)[1..] == rest;
      }
    }
  }

  lemma {:induction false} StableSortOk(ops: seq<Operation>, k: Bytes)
    ensures SortedOps(StableSort(ops)) && |StableSort(ops)| == |ops|
    ensures ForKey(StableSort(ops), k) == ForKey(ops, k)
  {
    if ops != [] {
      StableSortOk(ops[1..], k);
      InsertSorted(ops[0], StableSort(ops[1..]));
      InsertKeepsKeys(ops[0], StableSort(ops[1..]), k);
      var t := StableSort(ops[1..]);
      assert ([ops[0]] + t)[1..] == t;
    }
  }

  /** What a batch leaves at a key depends only on the batch's own operations on that key. */
  lemma {:induction false} OnlyOwnOps(m: map<Bytes, Bytes>, n: map<Bytes, Bytes>, s: seq<Operation>, k: Bytes)
    requires At(m, k) == At(n, k)
    ensures At(ApplyAllToMap(m, s), k) == At(ApplyAllToMap(n, ForKey(s, k)), k)
    decreases |s|
  {
    if s != [] {
      if s[0].key == k {
        var f := ForKey(s[1..], k);
        assert ForKey(s, k) == [s[0]] + f && ([s[0]] + f)[1..] == f;
        OnlyOwnOps(ApplyToMap(m, s[0]), ApplyToMap(n, s[0]), s[1..], k);
      } else {
        assert ForKey(s, k) == ForKey(s[1..], k);
        OnlyOwnOps(ApplyToMap(m, s[0]), n, s[1..], k);
      }
    }
  }

  /** Sorting a batch stably by key does not change its effect. */
  lemma {:induction false} SortKeepsMeaning(m: map<Bytes, Bytes>, ops: seq<Operation>)
    ensures SortedOps(StableSort(ops)) && |StableSort(ops)| == |ops|
    ensures ApplyAllToMap(m, StableSort(ops)) == ApplyAllToMap(m, ops)
  {
    StableSortOk(ops, []);
    var x, y := ApplyAllToMap(m, StableSort(ops)), ApplyAllToMap(m, ops);
    forall k
      ensures At(x, k) == At(y, k)
    {
      StableSortOk(ops, k);
      OnlyOwnOps(m, m, StableSort(ops), k);
      OnlyOwnOps(m, m, ops, k);
    }
    SameAt(x, y);
  }
}
