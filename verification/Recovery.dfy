/**
 Replaying the log files that a crash left behind. A record is applied only when it is whole and
 follows the one before it, so recovery ends in the state after some whole record; the tables may
 hold any mixture of the pages those records write, because replay writes them all again.
 */
module Recovery {
  import opened Keys
  import opened LogPages

  /** What can be read at some place of a log file: a whole record, or one that fails its checksum. */
  datatype Item = Whole(record: Record) | Torn(id: nat)

  function IdOf(x: Item): nat {
    match x
    case Whole(r) => r.id
    case Torn(id) => id
  }

  /** The next record id, moved past one that was read (`Log::end_read`). */
  function Past(id: nat, next: nat): nat {
    if id >= next then id + 1 else next
  }

  function Items(records: seq<Record>): (s: seq<Item>)
    ensures |s| == |records|
  {
    seq(|records|, i requires 0 <= i < |records| => Whole(records[i]))
  }

  function Joined(files: seq<seq<Item>>): seq<Item> {
    if files == [] then [] else Joined(files[..|files| - 1]) + files[|files| - 1]
  }

  /** The files hold these records one after the other, with at most one torn record at the very end. */
  ghost predicate Survives(files: seq<seq<Item>>, records: seq<Record>) {
    && (forall i, j :: 0 <= i < j < |records| ==> records[j].id == records[i].id + j - i)
    && (forall i :: 0 <= i < |files| ==> files[i] != [])
    && (Joined(files) == Items(records) || (exists id :: Joined(files) == Items(records) + [Torn(id)]))
  }

  lemma {:induction false} JoinedPrefix(files: seq<seq<Item>>, f: nat)
    requires f < |files|
    ensures |Joined(files[..f])| + |files[f]| <= |Joined(files)|
    ensures Joined(files)[..|Joined(files[..f])|] == Joined(files[..f])
    ensures Joined(files)[|Joined(files[..f])|..|Joined(files[..f])| + |files[f]|] == files[f]
    decreases |files|
  {
    var n := |files| - 1;
    if f < n {
      JoinedPrefix(files[..n], f);
      assert files[..n][..f] == files[..f];
    } else {
      assert files[..f] == files[..n];
    }
  }

  ghost predicate Run(applied: seq<Record>, first: nat) {
    forall i :: 0 <= i < |applied| ==> applied[i].id == first + i
  }

  /** Where item `i` of file `f` lies in the whole log. */
  lemma {:induction false} ItemAt(files: seq<seq<Item>>, f: nat, i: nat)
    requires f < |files| && i < |files[f]|
    ensures var k := |Joined(files[..f])| + i;
      k < |Joined(files)| && Joined(files)[k] == files[f][i]
      && (i + 1 == |files[f]| ==> k + 1 == |Joined(files[..f + 1])|)
  {
    JoinedPrefix(files, f);
    var a := |Joined(files[..f])|;
    assert Joined(files)[a..a + |files[f]|][i] == files[f][i];
    assert files[..f + 1][..f] == files[..f];
  }

  // ----- What is replayed

  function Total(taken: seq<nat>): nat {
    if taken == [] then 0 else Total(taken[..|taken| - 1]) + taken[|taken| - 1]
  }

  /** So many items from the front of each file. */
  ghost predicate Fits(files: seq<seq<Item>>, taken: seq<nat>) {
    |taken| <= |files| && forall f :: 0 <= f < |taken| ==> taken[f] <= |files[f]|
  }

  function Fronts(files: seq<seq<Item>>, taken: seq<nat>): (s: seq<seq<Item>>)
    requires Fits(files, taken)
    ensures |s| == |taken|
  {
    seq(|taken|, f requires 0 <= f < |taken| => files[f][..taken[f]])
  }

  /** The id that the next record needs after the first files. */
  function Expected(first: nat, taken: seq<nat>): nat {
    first + Total(taken)
  }

  /** File `f` was left at a record out of sequence. */
  ghost predicate OutOfSequence(files: seq<seq<Item>>, first: nat, taken: seq<nat>, f: int)
    requires Fits(files, taken)
  {
    0 <= f < |taken| && taken[f] < |files[f]| && IdOf(files[f][taken[f]]) != Expected(first, taken[..f + 1])
  }

  /** File `f` was read to its end or left at a torn or out-of-sequence record. */
  ghost predicate Exhausted(files: seq<seq<Item>>, first: nat, taken: seq<nat>, f: int)
    requires Fits(files, taken) && 0 <= f < |taken|
  {
    taken[f] < |files[f]| ==> files[f][taken[f]].Torn? || OutOfSequence(files, first, taken, f)
  }

  ghost predicate Stopped(files: seq<seq<Item>>, first: nat, taken: seq<nat>, f: int)
    requires Fits(files, taken)
  {
    exists g :: 0 <= g < f && OutOfSequence(files, first, taken, g)
  }

  /**
   What a replay applies, of any files: from the front of each file as many whole records as follow
   in sequence, and after a record out of sequence nothing more.
   */
  ghost predicate Replays(files: seq<seq<Item>>, first: nat, taken: seq<nat>, applied: seq<Record>) {
    && |taken| == |files| && Fits(files, taken)
    && Items(applied) == Joined(Fronts(files, taken)) && Run(applied, first)
    && forall f :: 0 <= f < |files| ==>
      if Stopped(files, first, taken, f) then taken[f] == 0 else Exhausted(files, first, taken, f)
  }

  /** The same while the first files are read. */
  ghost predicate Replaying(files: seq<seq<Item>>, first: nat, taken: seq<nat>, stop: bool) {
    && Fits(files, taken)
    && (forall f :: 0 <= f < |taken| ==>
      if Stopped(files, first, taken, f) then taken[f] == 0 else Exhausted(files, first, taken, f))
    && (stop <==> Stopped(files, first, taken, |taken|))
  }

  lemma {:induction false} FrontsMore(files: seq<seq<Item>>, taken: seq<nat>, n: nat)
    requires Fits(files, taken) && |taken| < |files| && n <= |files[|taken|]|
    ensures Fits(files, taken + [n])
    ensures Joined(Fronts(files, taken + [n])) == Joined(Fronts(files, taken)) + files[|taken|][..n]
    ensures Total(taken + [n]) == Total(taken) + n
  {
    var f := Fronts(files, taken + [n]);
    assert f[..|taken|] == Fronts(files, taken);
    assert (taken + [n])[..|taken|] == taken;
  }

  /** One more file does not change what is known of those before it. */
  lemma {:induction false} SameBefore(files: seq<seq<Item>>, first: nat, taken: seq<nat>, n: nat, f: int)
    requires Fits(files, taken + [n]) && 0 <= f < |taken|
    ensures Fits(files, taken)
    ensures OutOfSequence(files, first, taken + [n], f) <==> OutOfSequence(files, first, taken, f)
    ensures Exhausted(files, first, taken + [n], f) <==> Exhausted(files, first, taken, f)
  {
    var t := taken + [n];
    assert forall g :: 0 <= g < |taken| ==> t[g] == taken[g];
    assert t[..f + 1] == taken[..f + 1];
  }

  lemma {:induction false} SameStopped(files: seq<seq<Item>>, first: nat, taken: seq<nat>, n: nat, f: int)
    requires Fits(files, taken + [n]) && f <= |taken|
    ensures Fits(files, taken) && (Stopped(files, first, taken + [n], f) <==> Stopped(files, first, taken, f))
  {
    hide OutOfSequence;
    assert Fits(files, taken) by {
      FitsLess(files, taken, n);
    }
    forall g | 0 <= g < f
      ensures OutOfSequence(files, first, taken + [n], g) <==> OutOfSequence(files, first, taken, g)
    {
      SameBefore(files, first, taken, n, g);
    }
  }

  lemma FitsLess(files: seq<seq<Item>>, taken: seq<nat>, n: nat)
    requires Fits(files, taken + [n])
    ensures Fits(files, taken)
  {
    assert forall g :: 0 <= g < |taken| ==> (taken + [n])[g] == taken[g];
  }

  /** A file is done with: read as far as it goes, or passed over after a stop. */
  lemma {:induction false} FileDone(files: seq<seq<Item>>, first: nat, taken: seq<nat>, stop: bool, n: nat, wrong: bool)
    requires Replaying(files, first, taken, stop) && |taken| < |files| && n <= |files[|taken|]|
    requires var next := first + Total(taken) + n;
      && (stop ==> n == 0)
      && (!stop && n < |files[|taken|]| ==>
        files[|taken|][n].Torn? || IdOf(files[|taken|][n]) != next)
      && (!stop ==> (wrong <==> n < |files[|taken|]| && IdOf(files[|taken|][n]) != next))
    ensures Replaying(files, first, taken + [n], stop || wrong)
  {
    hide OutOfSequence, Exhausted, Stopped;
    var m, t := |taken|, taken + [n];
    FrontsMore(files, taken, n);
    LastFile(files, first, taken, n);
    forall f | 0 <= f < |t|
      ensures if Stopped(files, first, t, f) then t[f] == 0 else Exhausted(files, first, t, f)
    {
      SameStopped(files, first, taken, n, f);
      if f < m {
        SameBefore(files, first, taken, n, f);
      }
    }
    SameStopped(files, first, taken, n, m);
    StoppedMore(files, first, t, m);
  }

  lemma StoppedMore(files: seq<seq<Item>>, first: nat, t: seq<nat>, m: int)
    requires Fits(files, t) && 0 <= m
    ensures Stopped(files, first, t, m + 1) <==> Stopped(files, first, t, m) || OutOfSequence(files, first, t, m)
  {
    hide OutOfSequence;
  }

  lemma {:induction false} LastFile(files: seq<seq<Item>>, first: nat, taken: seq<nat>, n: nat)
    requires Fits(files, taken + [n]) && Total(taken + [n]) == Total(taken) + n && |taken| < |files|
    ensures var m, t, next := |taken|, taken + [n], first + Total(taken) + n;
      && (OutOfSequence(files, first, t, m) <==> n < |files[m]| && IdOf(files[m][n]) != next)
      && (Exhausted(files, first, t, m) <==> (n < |files[m]| ==> files[m][n].Torn? || IdOf(files[m][n]) != next))
  {
    var t := taken + [n];
    assert t[..|taken| + 1] == t && t[|taken|] == n;
  }

  /**
   `replay_all_logs` with `enact_logs` in validation mode: file by file, record by record. A record
   that cannot be read ends its file; one out of sequence ends the replay.
   */
  method ReplayAllLogs(files: seq<seq<Item>>, tables: Pages, ghost records: seq<Record>)
      returns (result: Pages, lastEnacted: nat, nextRecordId: nat, ghost applied: seq<Record>, ghost taken: seq<nat>)
    requires forall i :: 0 <= i < |files| ==> files[i] != []
    requires files != [] ==> IdOf(files[0][0]) > 0
    ensures result == Fold(tables, applied)
    ensures Replays(files, if files != [] then IdOf(files[0][0]) else 2, taken, applied)
    ensures lastEnacted + 1 == (if files != [] then IdOf(files[0][0]) else 2) + |applied|
    ensures nextRecordId == if applied == [] then 1 else lastEnacted + 1
    ensures Survives(files, records) ==> applied == records && result == Fold(tables, records)
  {
    hide Survives, Fold, Replaying, Joined, Fronts, Items, Total;
    var first := if files != [] then IdOf(files[0][0]) else 2;
    NothingApplied(tables);
    NothingTaken(files, first);
    result, lastEnacted, nextRecordId, applied, taken := tables, first - 1, 1, [], [];
    var f, stop := 0, false;
    ghost var over := false;
    while f < |files| && !stop
      invariant f <= |files| && result == Fold(tables, applied) && Run(applied, first)
      invariant lastEnacted + 1 == first + |applied|
      invariant nextRecordId == if applied == [] then 1 else lastEnacted + 1
      invariant |taken| == f && Replaying(files, first, taken, stop) && Fits(files, taken)
      invariant Items(applied) == Joined(Fronts(files, taken)) && |applied| == Total(taken)
      invariant Survives(files, records) ==>
        Caught(records, applied, |Joined(files[..f])|, over) && (over ==> f == |files|) && (stop ==> over)
    {
      var i, open := 0, true;
      NoFront(files[f], applied);
      while i < |files[f]| && open
        invariant i <= |files[f]| && result == Fold(tables, applied) && Run(applied, first)
        invariant lastEnacted + 1 == first + |applied|
        invariant nextRecordId == if applied == [] then 1 else lastEnacted + 1
        invariant Items(applied) == Joined(Fronts(files, taken)) + files[f][..i] && |applied| == Total(taken) + i
        invariant !open ==> i < |files[f]| && (files[f][i].Torn? || IdOf(files[f][i]) != lastEnacted + 1)
        invariant !open ==> (stop <==> IdOf(files[f][i]) != lastEnacted + 1)
        invariant Survives(files, records) ==>
          Caught(records, applied, |Joined(files[..f])| + i, over) && (over ==> f + 1 == |files|)
        invariant Survives(files, records) ==> (open <==> !over)
        invariant stop ==> !open
        decreases open, |files[f]| - i
      {
        var item := files[f][i];
        if Survives(files, records) {
          NextItem(files, records, f, i, first);
        }
        if IdOf(item) != lastEnacted + 1 {
          stop, open, over := true, false, true;
        } else if item.Torn? {
          open, over := false, true;
        } else {
          result := result + item.record.writes;
          OneApplied(tables, applied, item.record);
          OneTaken(files[f], i, applied, Joined(Fronts(files, taken)));
          applied := applied + [item.record];
          lastEnacted := item.record.id;
          nextRecordId := Past(item.record.id, nextRecordId);
          i := i + 1;
        }
      }
      FileEnds(files, f);
      FrontsMore(files, taken, i);
      FileDone(files, first, taken, false, i, stop);
      taken := taken + [i];
      f := f + 1;
    }
    if Survives(files, records) {
      LogEnds(files, records);
    }
    taken := PassedOver(files, first, taken, stop, applied);
    AllRead(files, first, taken, stop, applied);
  }

  lemma NothingTaken(files: seq<seq<Item>>, first: nat)
    ensures Fits(files, []) && Replaying(files, first, [], false) && Total([]) == 0
    ensures Items([]) == Joined(Fronts(files, []))
  {
  }

  lemma NoFront(file: seq<Item>, applied: seq<Record>)
    ensures Items(applied) + file[..0] == Items(applied)
  {
  }

  lemma OneTaken(file: seq<Item>, i: nat, applied: seq<Record>, before: seq<Item>)
    requires i < |file| && file[i].Whole? && Items(applied) == before + file[..i]
    ensures Items(applied + [file[i].record]) == before + file[..i + 1]
  {
    assert Items(applied + [file[i].record]) == Items(applied) + [file[i]];
    assert file[..i + 1] == file[..i] + [file[i]];
  }

  /** The files after a stop are not read. */
  lemma {:induction false} PassedOver(
      files: seq<seq<Item>>, first: nat, taken: seq<nat>, stop: bool, applied: seq<Record>) returns (all: seq<nat>)
    requires Replaying(files, first, taken, stop) && Fits(files, taken) && (stop || |taken| == |files|)
    requires Items(applied) == Joined(Fronts(files, taken))
    ensures |all| == |files| && Fits(files, all) && Replaying(files, first, all, stop)
    ensures Items(applied) == Joined(Fronts(files, all))
    decreases |files| - |taken|
  {
    hide Replaying, Joined, Fronts, Items, Total;
    all := taken;
    if |taken| < |files| {
      FrontsMore(files, taken, 0);
      FileDone(files, first, taken, stop, 0, false);
      assert files[|taken|][..0] == [];
      all := PassedOver(files, first, taken + [0], stop, applied);
    }
  }

  lemma AllRead(files: seq<seq<Item>>, first: nat, taken: seq<nat>, stop: bool, applied: seq<Record>)
    requires |taken| == |files| && Replaying(files, first, taken, stop) && Run(applied, first)
    requires Fits(files, taken) && Items(applied) == Joined(Fronts(files, taken))
    ensures Replays(files, first, taken, applied)
  {
    hide Stopped, Exhausted, Joined, Items;
  }

  lemma {:induction false} FrontsSize(files: seq<seq<Item>>, taken: seq<nat>, f: nat)
    requires Fits(files, taken) && f <= |taken|
    ensures |Joined(Fronts(files, taken)[..f])| == Total(taken[..f])
  {
    if f > 0 {
      FrontsSize(files, taken, f - 1);
      assert Fronts(files, taken)[..f][..f - 1] == Fronts(files, taken)[..f - 1];
      assert taken[..f][..f - 1] == taken[..f - 1];
    }
  }

  /** Every item in front of where a file was left is a whole record in sequence. */
  lemma {:induction false} FrontItem(
      files: seq<seq<Item>>, first: nat, taken: seq<nat>, applied: seq<Record>, f: nat, i: nat)
    requires Replays(files, first, taken, applied) && f < |files| && i < taken[f]
    ensures files[f][i].Whole? && IdOf(files[f][i]) == first + Total(taken[..f]) + i
  {
    hide Total, Joined, Stopped, Exhausted;
    ItemAt(Fronts(files, taken), f, i);
    FrontsSize(files, taken, f);
    assert Fronts(files, taken)[f][i] == files[f][i];
  }

  lemma {:induction false} TotalMore(taken: seq<nat>, f: nat)
    requires f < |taken|
    ensures Total(taken[..f + 1]) == Total(taken[..f]) + taken[f]
  {
    assert taken[..f + 1][..f] == taken[..f];
  }

  lemma {:induction false} StoppedAlike(files: seq<seq<Item>>, first: nat, t: seq<nat>, u: seq<nat>, f: nat)
    requires Fits(files, t) && Fits(files, u) && f <= |t| && f <= |u| && t[..f] == u[..f]
    ensures Stopped(files, first, t, f) <==> Stopped(files, first, u, f)
  {
    forall g | 0 <= g < f
      ensures OutOfSequence(files, first, t, g) <==> OutOfSequence(files, first, u, g)
    {
      assert t[g] == t[..f][g] == u[..f][g] == u[g];
      assert t[..g + 1] == t[..f][..g + 1] == u[..f][..g + 1] == u[..g + 1];
    }
    hide OutOfSequence;
  }

  /** No replay can stop a file short of another one that agrees on the files before. */
  lemma {:induction false} NotShort(
      files: seq<seq<Item>>, first: nat, t: seq<nat>, a: seq<Record>, u: seq<nat>, b: seq<Record>, f: nat)
    requires Replays(files, first, t, a) && Replays(files, first, u, b) && f < |files| && t[..f] == u[..f]
    ensures t[f] >= u[f]
  {
    hide Total, Joined, Run;
    StoppedAlike(files, first, t, u, f);
    if t[f] < u[f] {
      FrontItem(files, first, u, b, f, t[f]);
      TotalMore(t, f);
    }
  }

  /** The files decide what a replay applies. */
  lemma {:induction false} ReplayIsDetermined(
      files: seq<seq<Item>>, first: nat, t: seq<nat>, a: seq<Record>, u: seq<nat>, b: seq<Record>)
    requires Replays(files, first, t, a) && Replays(files, first, u, b)
    ensures t == u && a == b
  {
    hide Stopped, Exhausted, Joined, Run, Items;
    var f := 0;
    while f < |files|
      invariant f <= |files| && t[..f] == u[..f]
    {
      NotShort(files, first, t, a, u, b, f);
      NotShort(files, first, u, b, t, a, f);
      assert t[..f + 1] == t[..f] + [t[f]] && u[..f + 1] == u[..f] + [u[f]];
      f := f + 1;
    }
    assert t[..f] == t && u[..f] == u;
    ItemsDiffer(a, b);
  }

  lemma ItemsDiffer(a: seq<Record>, b: seq<Record>)
    ensures Items(a) == Items(b) ==> a == b
  {
    if Items(a) == Items(b) {
      assert |a| == |b|;
      assert forall i :: 0 <= i < |a| ==> Items(a)[i] == Whole(a[i]) && Items(b)[i] == Whole(b[i]);
    }
  }

  lemma NothingApplied(tables: Pages)
    ensures tables == Fold(tables, [])
  {
  }

  lemma OneApplied(tables: Pages, applied: seq<Record>, r: Record)
    ensures Fold(tables, applied + [r]) == Fold(tables, applied) + r.writes
  {
    assert (applied + [r])[..|applied|] == applied;
  }

  lemma FileEnds(files: seq<seq<Item>>, f: nat)
    requires f < |files|
    ensures |Joined(files[..f + 1])| == |Joined(files[..f])| + |files[f]|
  {
    assert files[..f + 1][..f] == files[..f];
  }

  lemma LogEnds(files: seq<seq<Item>>, records: seq<Record>)
    requires Survives(files, records)
    ensures |records| <= |Joined(files)| && files[..|files|] == files
  {
  }

  /** The records before place `k` of the log are applied, or the log is at its end and all are. */
  ghost predicate Caught(records: seq<Record>, applied: seq<Record>, k: nat, over: bool) {
    |applied| <= |records| && applied == records[..|applied|] && |applied| == if over then |records| else k
  }

  /** The next item is the next record, or a torn one that ends the log. */
  lemma {:induction false} NextItem(files: seq<seq<Item>>, records: seq<Record>, f: nat, i: nat, first: nat)
    requires Survives(files, records) && f < |files| && i < |files[f]| && first == IdOf(files[0][0])
    ensures var k := |Joined(files[..f])| + i;
      && (k < |records| ==> files[f][i] == Whole(records[k]) && records[k].id == first + k)
      && (k >= |records| ==> k == |records| && files[f][i].Torn? && f + 1 == |files|)
  {
    var k, all := |Joined(files[..f])| + i, Joined(files);
    ItemAt(files, f, i);
    ItemAt(files, 0, 0);
    assert files[..0] == [];
    assert all[k] == files[f][i] && all[0] == files[0][0];
    if f + 1 < |files| {
      assert files[..f + 1][..f] == files[..f];
      JoinedPrefix(files[..f + 1], f);
      ItemAt(files, f + 1, 0);
    }
    if k < |records| {
      assert all[k] == Items(records)[k] && all[0] == Items(records)[0];
    }
  }

  // ----- Crashes

  /**
   What the tables may hold after a crash: pages that surviving records write can be anything,
   all others are as the truncated records left them.
   */
  ghost predicate Mixed(survived: Pages, floor: Pages, records: seq<Record>) {
    SameOutside(survived, floor, Touched(records))
  }

  /** Replay over any mixture gives exactly the state after the last surviving record. */
  lemma {:induction false} ReplayIsExact(survived: Pages, floor: Pages, records: seq<Record>)
    requires Mixed(survived, floor, records)
    ensures Fold(survived, records) == Fold(floor, records)
  {
    FoldAgrees(survived, floor, records, Touched(records));
    assert Touched(records) - Touched(records) == {};
    var x, y := Fold(survived, records), Fold(floor, records);
    assert x - {} == x && y - {} == y;
  }
}
