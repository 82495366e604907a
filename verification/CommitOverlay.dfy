/**
 The commit overlay: the newest value of every key that some queued commit changes, with the
 commit that changed it last.
 */
module CommitOverlay {
  import opened Keys
  import opened Batch

  datatype Commit = Commit(id: nat, ops: seq<Operation>)

  datatype Pending = Pending(id: nat, value: Option<Bytes>)

  type Overlay = map<Bytes, Pending>

  function Entry(id: nat, op: Operation): Overlay {
    match op
    case Set(k, v) => map[k := Pending(id, Some(v))]
    case Dereference(k) => map[k := Pending(id, None)]
    case Reference(_) => map[]
  }

  function CopyOf(id: nat, ops: seq<Operation>): Overlay {
    if ops == [] then map[] else CopyOf(id, ops[..|ops| - 1]) + Entry(id, ops[|ops| - 1])
  }

  /** What the overlay holds while these commits are queued. */
  function CoverOf(commits: seq<Commit>): Overlay {
    if commits == [] then map[] else
      var c := commits[|commits| - 1];
      CoverOf(commits[..|commits| - 1]) + CopyOf(c.id, c.ops)
  }

  predicate Supported(ops: seq<Operation>) {
    forall i :: 0 <= i < |ops| ==> !ops[i].Reference?
  }

  /** Commits in the order of their ids, none above `last`. */
  ghost predicate Ascending(commits: seq<Commit>, last: nat) {
    && (forall i, j :: 0 <= i < j < |commits| ==> commits[i].id < commits[j].id)
    && (forall i :: 0 <= i < |commits| ==> commits[i].id <= last && Supported(commits[i].ops))
  }

  function Ops(commits: seq<Commit>): seq<seq<Operation>> {
    seq(|commits|, i requires 0 <= i < |commits| => commits[i].ops)
  }

  // ----- Laws

  lemma MergeOverlays(a: Overlay, b: Overlay, c: Overlay)
    ensures a + (b + c) == (a + b) + c
  {
  }

  lemma {:induction false} CopyIds(id: nat, ops: seq<Operation>, k: Bytes)
    requires k in CopyOf(id, ops)
    ensures CopyOf(id, ops)[k].id == id
  {
    var n := |ops| - 1;
    if k !in Entry(id, ops[n]) {
      CopyIds(id, ops[..n], k);
    }
  }

  ghost predicate Names(ops: seq<Operation>, k: Bytes) {
    exists i :: 0 <= i < |ops| && ops[i].key == k
  }

  lemma {:induction false} CopyKeys(id: nat, ops: seq<Operation>, k: Bytes)
    requires Supported(ops)
    ensures k in CopyOf(id, ops) <==> Names(ops, k)
  {
    if ops != [] {
      var n := |ops| - 1;
      CopyKeys(id, ops[..n], k);
      if k in CopyOf(id, ops[..n]) {
        var i :| 0 <= i < n && ops[..n][i].key == k;
        assert ops[i].key == k;
      }
      if i :| 0 <= i < |ops| && ops[i].key == k {
        assert i < n ==> ops[..n][i].key == k;
      }
    }
  }

  lemma {:induction false} CoverAdd(a: seq<Commit>, b: seq<Commit>)
    ensures CoverOf(a + b) == CoverOf(a) + CoverOf(b)
  {
    if b == [] {
      assert a + b == a;
      assert CoverOf(a) + map[] == CoverOf(a);
    } else {
      var n := |b| - 1;
      CoverAdd(a, b[..n]);
      MergeOverlays(CoverOf(a), CoverOf(b[..n]), CopyOf(b[n].id, b[n].ops));
      assert (a + b)[..|a + b| - 1] == a + b[..n];
    }
  }

  lemma {:induction false} CoverOne(c: Commit)
    ensures CoverOf([c]) == CopyOf(c.id, c.ops)
  {
    assert [c][..0] == [];
    assert map[] + CopyOf(c.id, c.ops) == CopyOf(c.id, c.ops);
  }

  lemma {:induction false} CoverIds(commits: seq<Commit>, k: Bytes)
    requires k in CoverOf(commits)
    ensures exists i :: 0 <= i < |commits| && commits[i].id == CoverOf(commits)[k].id
  {
    var n := |commits| - 1;
    var c := commits[n];
    if k in CopyOf(c.id, c.ops) {
      CopyIds(c.id, c.ops, k);
      assert commits[n].id == CoverOf(commits)[k].id;
    } else {
      CoverIds(commits[..n], k);
      var i :| 0 <= i < n && commits[..n][i].id == CoverOf(commits[..n])[k].id;
      assert commits[i].id == CoverOf(commits)[k].id;
    }
  }

  /** What is left of an overlay when the keys of `ops` that commit `id` changed last are removed. */
  ghost function Cleaned(o: Overlay, id: nat, ops: seq<Operation>): Overlay {
    map k | k in o && !(o[k].id == id && Names(ops, k)) :: o[k]
  }

  /** Removing the entries of the first commit leaves the overlay of the others. */
  lemma {:induction false} CleanedIsCover(c: Commit, rest: seq<Commit>, last: nat)
    requires Ascending([c] + rest, last)
    ensures Cleaned(CoverOf([c] + rest), c.id, c.ops) == CoverOf(rest)
  {
    hide CopyOf, CoverOf, Supported;
    CoverAdd([c], rest);
    CoverOne(c);
    var a, b, all := CopyOf(c.id, c.ops), CoverOf(rest), [c] + rest;
    assert all[0] == c;
    forall k | k in b
      ensures b[k].id != c.id
    {
      CoverIds(rest, k);
      var i :| 0 <= i < |rest| && rest[i].id == b[k].id;
      assert all[i + 1] == rest[i];
    }
    forall k | k in a
      ensures a[k].id == c.id && Names(c.ops, k)
    {
      CopyIds(c.id, c.ops, k);
      CopyKeys(c.id, c.ops, k);
    }
  }

  lemma {:induction false} BatchEnd(m: map<Bytes, Bytes>, ops: seq<Operation>)
    requires ops != []
    ensures var n := |ops| - 1; ApplyAllToMap(m, ops) == ApplyToMap(ApplyAllToMap(m, ops[..n]), ops[n])
    decreases |ops|
  {
    var n := |ops| - 1;
    if n > 0 {
      BatchEnd(ApplyToMap(m, ops[0]), ops[1..]);
      assert ops[1..][..n - 1] == ops[..n][1..];
    }
  }

  lemma {:induction false} CopyMeans(m: map<Bytes, Bytes>, id: nat, ops: seq<Operation>, k: Bytes)
    ensures At(ApplyAllToMap(m, ops), k) == if k in CopyOf(id, ops) then CopyOf(id, ops)[k].value else At(m, k)
  {
    if ops != [] {
      var n := |ops| - 1;
      CopyMeans(m, id, ops[..n], k);
      BatchEnd(m, ops);
    }
  }

  lemma {:induction false} HistoryEnd(m: map<Bytes, Bytes>, batches: seq<seq<Operation>>, ops: seq<Operation>)
    ensures ApplyBatches(m, batches + [ops]) == ApplyAllToMap(ApplyBatches(m, batches), ops)
    decreases |batches|
  {
    if batches == [] {
      assert batches + [ops] == [ops] && [ops][1..] == [];
    } else {
      HistoryEnd(ApplyAllToMap(m, batches[0]), batches[1..], ops);
      assert (batches + [ops])[1..] == batches[1..] + [ops];
    }
  }

  lemma {:induction false} HistoryAdd(m: map<Bytes, Bytes>, a: seq<seq<Operation>>, b: seq<seq<Operation>>)
    ensures ApplyBatches(m, a + b) == ApplyBatches(ApplyBatches(m, a), b)
    decreases |a|
  {
    if a == [] {
      assert a + b == b;
    } else {
      HistoryAdd(ApplyAllToMap(m, a[0]), a[1..], b);
      assert (a + b)[1..] == a[1..] + b;
    }
  }

  /** The overlay answers for exactly the keys that queued commits change, and answers what they leave behind. */
  lemma {:induction false} CoverMeans(m: map<Bytes, Bytes>, commits: seq<Commit>, k: Bytes)
    ensures At(ApplyBatches(m, Ops(commits)), k)
      == if k in CoverOf(commits) then CoverOf(commits)[k].value else At(m, k)
  {
    if commits != [] {
      var n := |commits| - 1;
      CoverMeans(m, commits[..n], k);
      var c := commits[n];
      assert Ops(commits) == Ops(commits[..n]) + [c.ops];
      HistoryEnd(m, Ops(commits[..n]), c.ops);
      CopyMeans(ApplyBatches(m, Ops(commits[..n])), c.id, c.ops, k);
    }
  }
}
