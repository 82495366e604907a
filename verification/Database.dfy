/**
 The commit pipeline. Commits enter a queue and an overlay, are planned into log records, are
 enacted into the tables page by page, and their logs are truncated after a table flush. The
 workers interleave freely; a crash may come between any two steps.
 */
module Database {
  import opened Keys
  import opened Batch
  import opened LogPages
  import opened Recovery
  import opened LogView
  import opened CommitOverlay
  import opened Engines

  type File = seq<Record>

  function Flat(files: seq<File>): seq<Record> {
    if files == [] then [] else Flat(files[..|files| - 1]) + files[|files| - 1]
  }

  lemma {:induction false} FlatAdd(a: seq<File>, b: seq<File>)
    ensures Flat(a + b) == Flat(a) + Flat(b)
  {
    if b == [] {
      assert a + b == a;
    } else {
      FlatAdd(a, b[..|b| - 1]);
      assert (a + b)[..|a + b| - 1] == a + b[..|b| - 1];
    }
  }

  lemma {:induction false} FlatFirst(files: seq<File>)
    requires files != []
    ensures Flat(files) == files[0] + Flat(files[1..])
  {
    assert files == [files[0]] + files[1..];
    FlatAdd([files[0]], files[1..]);
    assert [files[0]][..0] == [];
  }

  lemma NoFiles()
    ensures NoneEmpty([]) && Touched([]) == {}
  {
  }

  lemma NoRecords()
    ensures Flat([]) == []
  {
  }

  lemma FlatLast(files: seq<File>, f: File)
    ensures Flat(files + [f]) == Flat(files) + f
  {
    assert (files + [f])[..|files|] == files;
  }

  ghost predicate NoneEmpty(files: seq<File>) {
    forall i :: 0 <= i < |files| ==> files[i] != []
  }

  lemma NoneEmptyRest(a: seq<File>, b: seq<File>, c: seq<File>)
    requires a != [] && NoneEmpty(a + b + c)
    ensures NoneEmpty(a[1..] + b + c)
  {
    assert a[1..] + b + c == (a + b + c)[1..];
  }

  function Listed(c: Option<Commit>): seq<Commit> {
    if c.Some? then [c.value] else []
  }

  // ----- Commits under way

  /** Entries that rejected commits left in the overlay; no commit under way owns them. */
  ghost predicate StraysOk(strays: Overlay, commits: seq<Commit>, last: nat) {
    forall k :: k in strays ==>
      strays[k].id <= last && forall i :: 0 <= i < |commits| ==> commits[i].id != strays[k].id
  }

  /**
   The queue and the overlay tell of the same commits: those not logged yet are the end of the
   history, and the overlay also still covers the one whose record was just written. In front of
   them it has what rejected commits left.
   */
  ghost predicate CommitsOk(
    hand: Option<Commit>,
    logged: bool,
    queue: seq<Commit>,
    overlay: Overlay,
    strays: Overlay,
    last: nat,
    history: seq<seq<Operation>>,
    mark: nat)
  {
    && Ascending(Listed(hand) + queue, last) && StraysOk(strays, Listed(hand) + queue, last)
    && overlay == CoverOf(Listed(hand) + queue) + strays
    && mark <= |history| && history[mark..] == Ops((if logged then [] else Listed(hand)) + queue)
    && (logged ==> hand.Some? && mark > 0 && history[mark - 1] == hand.value.ops)
  }

  /** What a read returns: what a rejected commit left, else what the last commit of the key did. */
  ghost function Shown(strays: Overlay, history: seq<seq<Operation>>, key: Bytes): Option<Bytes> {
    if key in strays then strays[key].value else At(ApplyBatches(map[], history), key)
  }

  /** The overlay in front of what is logged shows every commit, except where a stray entry hides it. */
  lemma {:induction false} ReadsAreCurrent(
    hand: Option<Commit>,
    logged: bool,
    queue: seq<Commit>,
    overlay: Overlay,
    strays: Overlay,
    last: nat,
    history: seq<seq<Operation>>,
    mark: nat,
    key: Bytes)
    requires CommitsOk(hand, logged, queue, overlay, strays, last, history, mark)
    ensures Shown(strays, history, key) ==
      if key in overlay then overlay[key].value else At(ApplyBatches(map[], history[..mark]), key)
  {
    hide Ascending, ApplyBatches, StraysOk;
    var n := if logged then mark - 1 else mark;
    var all := Listed(hand) + queue;
    Covered(hand, logged, queue, history, mark);
    HistoryAdd(map[], history[..n], Ops(all));
    CoverMeans(ApplyBatches(map[], history[..n]), all, key);
    if logged {
      var c := hand.value;
      assert history[..mark] == history[..n] + [c.ops];
      HistoryEnd(map[], history[..n], c.ops);
      CopyMeans(ApplyBatches(map[], history[..n]), c.id, c.ops, key);
      CoverAdd([c], queue);
      CoverOne(c);
    }
  }

  /** The commits that the overlay covers are the end of the history. */
  lemma {:induction false} Covered(
    hand: Option<Commit>, logged: bool, queue: seq<Commit>, history: seq<seq<Operation>>, mark: nat)
    requires mark <= |history| && history[mark..] == Ops((if logged then [] else Listed(hand)) + queue)
    requires logged ==> hand.Some? && mark > 0 && history[mark - 1] == hand.value.ops
    ensures history == history[..if logged then mark - 1 else mark] + Ops(Listed(hand) + queue)
  {
    assert history == history[..mark] + history[mark..];
    if logged {
      assert [] + queue == queue;
      assert history[..mark] == history[..mark - 1] + [history[mark - 1]];
      assert Ops([hand.value] + queue) == [hand.value.ops] + Ops(queue);
    }
  }

  // ----- Rejected commits

  /** The place of the first operation that the column does not support. */
  function FirstReference(ops: seq<Operation>): (n: nat)
    ensures n <= |ops| && Supported(ops[..n]) && (n < |ops| ==> ops[n].Reference?)
    ensures n == |ops| <==> Supported(ops)
  {
    if ops == [] || ops[0].Reference? then 0 else
      var n := 1 + FirstReference(ops[1..]);
      assert forall i :: 0 < i < |ops| ==> ops[i] == ops[1..][i - 1];
      n
  }

  lemma FirstReferenceIs(ops: seq<Operation>, n: nat)
    requires n <= |ops| && Supported(ops[..n]) && (n < |ops| ==> ops[n].Reference?)
    ensures n == FirstReference(ops)
  {
    var m := FirstReference(ops);
    assert forall i :: 0 <= i < n ==> !ops[..n][i].Reference? && ops[i] == ops[..n][i];
    assert forall i :: 0 <= i < m ==> !ops[..m][i].Reference? && ops[i] == ops[..m][i];
  }

  /** Keys whose overlay entries a commit replaces. */
  function KeysOf(ops: seq<Operation>): set<Bytes> {
    set i | 0 <= i < |ops| :: ops[i].key
  }

  /** What an overlay says, without the commits that said it. */
  function Values(o: Overlay): map<Bytes, Option<Bytes>> {
    map k | k in o :: o[k].value
  }

  /** What a rejected commit leaves: its operations before the first unsupported one. */
  function LeftBehind(ops: seq<Operation>): map<Bytes, Option<Bytes>> {
    Values(CopyOf(0, ops[..FirstReference(ops)]))
  }

  lemma {:induction false} CopyValues(id: nat, ops: seq<Operation>)
    ensures Values(CopyOf(id, ops)) == Values(CopyOf(0, ops))
  {
    if ops != [] {
      var n := |ops| - 1;
      CopyValues(id, ops[..n]);
      ValuesAdd(CopyOf(id, ops[..n]), Entry(id, ops[n]));
      ValuesAdd(CopyOf(0, ops[..n]), Entry(0, ops[n]));
      EntryValues(id, ops[n]);
      hide Values, Entry;
    }
  }

  lemma ValuesAdd(a: Overlay, b: Overlay)
    ensures Values(a + b) == Values(a) + Values(b)
  {
  }

  lemma EntryValues(id: nat, op: Operation)
    ensures Values(Entry(id, op)) == Values(Entry(0, op))
  {
  }

  class Db {
    const engine: Engine
    // Commit queue, its overlay, and the commit in the hands of the log worker.
    var recordId: nat
    var queue: seq<Commit>
    var overlay: Overlay
    var hand: Option<Commit>
    var logged: bool
    // Log files from the one being written to those waiting for cleanup, and the log overlay.
    var nextRecordId: nat
    var logOverlay: map<Page, Logged>
    var appending: File
    var readQueue: seq<File>
    var reading: Option<File>
    var position: nat
    var part: set<Page>
    var cleanup: seq<File>
    var cleanTarget: nat
    var flushed: bool
    // Tables, the pages that are perhaps not on disk yet, and those of them that the last flush missed.
    var tables: Pages
    var unsynced: set<Page>
    var missed: set<Page>
    // All commits there ever were, what the log means after each record, and what rejected commits left.
    ghost var history: seq<seq<Operation>>
    ghost var marks: seq<nat>
    ghost var strays: Overlay
    ghost var view: View

    function Reading(): File
      reads `reading
    {
      if reading.Some? then reading.value else []
    }

    /** Log files that were flushed, oldest first. */
    function FlushedFiles(): seq<File>
      reads `cleanup, `reading, `readQueue
    {
      cleanup + (if reading.Some? then [reading.value] else []) + readQueue
    }

    /** The records of the log are those of the files, in order, and so far they are enacted and flushed. */
    ghost predicate Laid(records: seq<Record>, enacted: nat, settled: nat)
      reads `cleanup, `reading, `readQueue, `appending, `position, `cleanTarget, `flushed
    {
      && records == Flat(cleanup) + Reading() + Flat(readQueue) + appending
      && enacted == |Flat(cleanup)| + position && position <= |Reading()| && cleanTarget <= |cleanup|
      && settled == (if flushed then |Flat(cleanup[..cleanTarget])| else 0)
      && NoneEmpty(FlushedFiles())
    }

    ghost predicate FilesOk()
      reads `view, `cleanup, `reading, `readQueue, `appending, `position, `part, `cleanTarget, `flushed, `nextRecordId
      reads `unsynced, `missed
    {
      && Laid(view.records, view.enacted, view.settled) && (position == |Reading()| ==> part == {})
      && view.part == part && view.unsynced == unsynced && view.missed == missed && |view.records| < nextRecordId
    }

    ghost predicate Valid()
      reads this
    {
      && Lawful(engine) && FilesOk() && LogOk(view, tables, logOverlay, nextRecordId)
      && |marks| == |view.records| + 1 && HistoryOk(engine, view.floor, view.records, marks, history)
      && CommitsOk(hand, logged, queue, overlay, strays, recordId + 1, history, marks[|view.records|])
    }

    lemma ValidIs()
      ensures Valid() <==>
        && Lawful(engine) && FilesOk() && LogOk(view, tables, logOverlay, nextRecordId)
        && |marks| == |view.records| + 1 && HistoryOk(engine, view.floor, view.records, marks, history)
        && CommitsOk(hand, logged, queue, overlay, strays, recordId + 1, history, Recorded())
    {
    }

    /** How many commits have a record in the log. */
    ghost function Recorded(): nat
      reads `marks
    {
      if marks != [] then marks[|marks| - 1] else 0
    }

    /** How many commits have a record in a log file that was flushed, or in the tables. */
    ghost function Safe(): nat
      reads `marks, `appending
    {
      if |appending| < |marks| then marks[|marks| - 1 - |appending|] else 0
    }

    /** The records that are in flushed files. */
    ghost function FlushedRecords(): seq<Record>
      reads `view, `appending
    {
      if |appending| <= |view.records| then view.records[..|view.records| - |appending|] else []
    }

    /** The flushed logs write every page that is perhaps not on disk. */
    ghost predicate Recoverable()
      reads `view, `appending
    {
      view.unsynced <= Touched(FlushedRecords())
    }

    constructor (engine: Engine)
      requires Lawful(engine)
      ensures Valid() && Recoverable() && history == [] && strays == map[] && queue == [] && this.engine == engine
      ensures NothingStored()
    {
      hide *;
      this.engine := engine;
      recordId, queue, overlay, hand, logged := 0, [], map[], None, false;
      nextRecordId, logOverlay, appending, readQueue, reading, position, part := 1, map[], [], [], None, 0, {};
      cleanup, cleanTarget, flushed, tables, unsynced, missed := [], 0, false, map[], {}, {};
      history, marks, strays, view := [], [0], map[], View(map[], [], 0, {}, 0, {}, {});
      new;
      NoRecords();
      NoFiles();
      NothingYet(engine);
      NothingLogged(map[], 1);
      NothingQueued([]);
      FreshFiles();
      ValidIs();
      NothingStoredIs();
      LastIs();
    }

    lemma NothingStoredIs()
      requires hand == None && !logged && logOverlay == map[] && tables == map[] && unsynced == {}
      requires appending == [] && reading == None && readQueue == [] && cleanup == []
      ensures NothingStored()
    {
    }

    /** No log, no table, no commit with the log worker. */
    ghost predicate NothingStored()
      reads `hand, `logged, `logOverlay, `appending, `reading, `readQueue, `cleanup, `tables, `unsynced
    {
      && hand == None && !logged && logOverlay == map[] && tables == map[] && unsynced == {}
      && appending == [] && reading == None && readQueue == [] && cleanup == []
    }

    /** `DbInner::get`: the commit overlay, then the log overlay in front of the tables. */
    method Get(key: Bytes) returns (r: Option<Bytes>)
      ensures Valid() ==> r == Shown(strays, history, key)
      ensures r == if key in overlay then overlay[key].value else engine.lookup(Through(logOverlay, tables), key)
    {
      hide LogOk, CommitsOk, Lawful, FilesOk;
      if Valid() {
        ghost var n := |view.records|;
        ReadsAreCurrent(hand, logged, queue, overlay, strays, recordId + 1, history, marks[n], key);
        ReadersSeeLogged(view, tables, logOverlay, nextRecordId);
        assert view.records[..n] == view.records;
        LookupMeans(engine, Through(logOverlay, tables), history[..marks[n]], key);
      }
      if key in overlay {
        return overlay[key].value;
      }
      r := engine.lookup(Through(logOverlay, tables), key);
    }

    // ----- Commits

    /** `copy_to_overlay`: stops at the first operation the column does not support. */
    method CopyToOverlay(id: nat, ops: seq<Operation>) returns (ok: bool)
      modifies this`overlay
      ensures overlay == old(overlay) + CopyOf(id, ops[..FirstReference(ops)])
      ensures ok <==> Supported(ops)
    {
      var i := 0;
      assert old(overlay) + map[] == old(overlay);
      while i < |ops|
        invariant i <= |ops| && overlay == old(overlay) + CopyOf(id, ops[..i]) && Supported(ops[..i])
      {
        match ops[i] {
          case Set(k, v) =>
            overlay := overlay[k := Pending(id, Some(v))];
          case Dereference(k) =>
            overlay := overlay[k := Pending(id, None)];
          case Reference(_) =>
            FirstReferenceIs(ops, i);
            return false;
        }
        OneCopied(old(overlay), id, ops, i);
        i := i + 1;
      }
      FirstReferenceIs(ops, |ops|);
      ok := true;
    }

    /**
     `commit_raw`. A rejected commit has already put the operations before the unsupported one into
     the overlay, and they stay there until the next commit of their keys.
     */
    method CommitRaw(ops: seq<Operation>) returns (ok: bool)
      requires Valid()
      modifies this`recordId, this`overlay, this`queue, this`history, this`strays
      ensures Valid() && (ok <==> Supported(ops))
      ensures history == old(history) + if ok then [ops] else []
      ensures queue == old(queue) + if ok then [Commit(old(recordId) + 2, ops)] else []
      ensures Values(strays) == if ok then old(Values(strays)) - KeysOf(ops) else old(Values(strays)) + LeftBehind(ops)
    {
      hide Lawful, LogOk, CommitsOk, HistoryOk, FilesOk, Values, Supported, CopyOf, KeysOf, FirstReference;
      hide LeftBehind, FlushedRecords;
      recordId := recordId + 1;
      var id := recordId + 1;
      ok := CopyToOverlay(id, ops);
      ghost var n := FirstReference(ops);
      if !ok {
        Rejected(hand, logged, queue, old(overlay), strays, id - 1, history, Recorded(), ops[..n]);
        LeftValues(strays, id, ops);
        strays := strays + CopyOf(id, ops[..n]);
      } else {
        AllCopied(ops);
        Committed(hand, logged, queue, old(overlay), strays, id - 1, history, Recorded(), ops);
        Enqueue(id, ops);
      }
    }

    method Enqueue(id: nat, ops: seq<Operation>)
      requires Lawful(engine) && FilesOk() && LogOk(view, tables, logOverlay, nextRecordId)
      requires |marks| == |view.records| + 1 && HistoryOk(engine, view.floor, view.records, marks, history)
      requires CommitsOk(hand, logged, queue + [Commit(id, ops)], overlay, strays - KeysOf(ops), recordId + 1,
        history + [ops], Recorded())
      modifies this`queue, this`history, this`strays
      ensures Valid() && queue == old(queue) + [Commit(id, ops)] && history == old(history) + [ops]
      ensures Values(strays) == old(Values(strays)) - KeysOf(ops)
    {
      hide Lawful, LogOk, CommitsOk, HistoryOk, FilesOk, Values, KeysOf;
      HistoryGrows(engine, view.floor, view.records, marks, history, [ops]);
      ValuesWithout(strays, KeysOf(ops));
      queue := queue + [Commit(id, ops)];
      history := history + [ops];
      strays := strays - KeysOf(ops);
    }

    // ----- Log worker

    /** `process_commits`, first: take a commit from the queue. */
    method PopCommit()
      requires Valid()
      modifies this`queue, this`hand
      ensures Valid()
      ensures if old(hand.None? && queue != []) then hand == Some(old(queue)[0]) && queue == old(queue)[1..]
        else hand == old(hand) && queue == old(queue)
    {
      hide Lawful, LogOk, CommitsOk, HistoryOk, FilesOk;
      if hand.None? && queue != [] {
        Popped(hand, logged, queue, overlay, strays, recordId + 1, history, marks[|view.records|]);
        hand, queue := Some(queue[0]), queue[1..];
      }
    }

    /** `Log::end_record`: append a record and put its pages into the log overlay. */
    method EndRecord(writes: Pages, ghost mark: nat)
      requires Valid() && Recorded() <= mark <= |history|
      requires Means(engine, AllLogged(view) + writes, history[..mark])
      modifies this`nextRecordId, this`logOverlay, this`appending, this`view, this`marks
      ensures Lawful(engine) && FilesOk() && LogOk(view, tables, logOverlay, nextRecordId)
      ensures |marks| == |view.records| + 1 && HistoryOk(engine, view.floor, view.records, marks, history)
      ensures marks == old(marks) + [mark] && appending == old(appending) + [Record(old(nextRecordId), writes)]
      ensures FlushedRecords() == old(FlushedRecords()) && view.unsynced == old(view.unsynced)
    {
      hide Valid, Lawful, LogOk, CommitsOk, HistoryOk, FilesOk, Means, Tagged, Flat;
      ValidIs();
      AppendingFits();
      var r := Record(nextRecordId, writes);
      AppendOk(view, tables, logOverlay, nextRecordId, writes);
      RecordLogged(engine, view.floor, view.records, marks, history, r, mark);
      AppendFile(r);
      logOverlay := logOverlay + Tagged(r);
      marks := marks + [mark];
    }

    method AppendFile(r: Record)
      requires FilesOk()
      modifies this`nextRecordId, this`appending, this`view
      ensures FilesOk() && appending == old(appending) + [r] && view == old(view.(records := view.records + [r]))
      ensures nextRecordId == old(nextRecordId) + 1
    {
      hide Flat, NoneEmpty;
      appending := appending + [r];
      view := view.(records := view.records + [r]);
      nextRecordId := nextRecordId + 1;
    }

    /** The page writes for the commit in hand, computed from what readers see. */
    function Plan(): Pages
      reads `logOverlay, `tables, `hand
    {
      if hand.Some? then engine.plan(Through(logOverlay, tables), hand.value.ops) else map[]
    }

    /** `process_commits`, second: plan the commit and log it. */
    method LogCommit()
      requires Valid()
      modifies this`nextRecordId, this`logOverlay, this`appending, this`view, this`marks, this`logged
      ensures Valid() && logged == hand.Some? && Safe() == old(Safe())
      ensures Recorded() == old(Recorded()) + if old(hand.Some? && !logged) then 1 else 0
      ensures appending
        == old(appending) + if old(hand.Some? && !logged) then [old(Record(nextRecordId, Plan()))] else []
      ensures FlushedRecords() == old(FlushedRecords()) && view.unsynced == old(view.unsynced)
    {
      hide Valid, Lawful, LogOk, CommitsOk, HistoryOk, FilesOk, Means, Plan, Through;
      ValidIs();
      LoggedIsHeld();
      AppendingFits();
      if hand.Some? && !logged {
        PlanIs();
        ReadersSeeLogged(view, tables, logOverlay, nextRecordId);
        Planned(engine, view, marks, history, hand.value, queue, overlay, strays, recordId + 1);
        EndRecord(Plan(), Recorded() + 1);
        logged := true;
        ValidIs();
      }
    }

    lemma PlanIs()
      ensures hand.Some? ==> Plan() == engine.plan(Through(logOverlay, tables), hand.value.ops)
    {
    }

    /** `clean_overlay`, and the commit is done with. */
    method CleanOverlay()
      requires Valid()
      modifies this`overlay, this`hand, this`logged
      ensures Valid() && !logged && hand == if old(logged) then None else old(hand)
      ensures overlay == if old(logged) then old(Cleaned(overlay, hand.value.id, hand.value.ops)) else old(overlay)
    {
      hide Lawful, LogOk, CommitsOk, HistoryOk, FilesOk, Cleaned;
      LoggedIsHeld();
      if logged {
        HandLogged(hand, queue, overlay, strays, recordId + 1, history, marks[|view.records|]);
        CleanKeys(hand.value.id, hand.value.ops);
        hand, logged := None, false;
      }
    }

    method CleanKeys(id: nat, ops: seq<Operation>)
      modifies this`overlay
      ensures overlay == Cleaned(old(overlay), id, ops)
    {
      var i := 0;
      while i < |ops|
        invariant i <= |ops| && overlay == Cleaned(old(overlay), id, ops[..i])
      {
        var k := ops[i].key;
        OneCleaned(old(overlay), id, ops, i);
        if k in overlay && overlay[k].id == id {
          overlay := overlay - {k};
        }
        i := i + 1;
      }
      assert ops[..|ops|] == ops;
    }

    /** The page writes that move index entries. */
    function TidyPlan(): Pages
      reads `logOverlay, `tables
    {
      engine.tidy(Through(logOverlay, tables))
    }

    /** `process_reindex`: a record that moves entries without changing what the pages mean. */
    method Reindex()
      requires Valid()
      modifies this`nextRecordId, this`logOverlay, this`appending, this`view, this`marks
      ensures Valid() && Recorded() == old(Recorded()) && Safe() == old(Safe())
      ensures appending == old(appending) + if hand.None? then [old(Record(nextRecordId, TidyPlan()))] else []
      ensures FlushedRecords() == old(FlushedRecords()) && view.unsynced == old(view.unsynced)
    {
      hide Valid, Lawful, LogOk, CommitsOk, HistoryOk, FilesOk, Means, Through;
      ValidIs();
      AppendingFits();
      if hand.None? {
        ReadersSeeLogged(view, tables, logOverlay, nextRecordId);
        Tidied(engine, view, marks, history);
        EndRecord(TidyPlan(), Recorded());
        ValidIs();
      }
    }

    lemma LoggedIsHeld()
      requires Valid()
      ensures logged ==> hand.Some?
    {
    }

    lemma AppendingFits()
      requires FilesOk()
      ensures |appending| <= |view.records|
    {
    }

    // ----- Flush worker

    /** `Log::flush_one`: the log file is on disk and may be enacted from now on. */
    method FlushOne()
      requires Valid()
      modifies this`appending, this`readQueue
      ensures Valid() && appending == [] && Safe() == Recorded()
      ensures readQueue == old(readQueue) + if old(appending) != [] then [old(appending)] else []
      ensures old(Recoverable()) ==> Recoverable()
    {
      hide Lawful, LogOk, CommitsOk, HistoryOk, Flat, Touched;
      if appending != [] {
        FlatLast(readQueue, appending);
        AppendingFits();
        MoreFlushed(view.records, |view.records| - |appending|, |view.records|);
        assert FlushedFiles() + [appending]
          == cleanup + (if reading.Some? then [reading.value] else []) + (readQueue + [appending]);
        readQueue, appending := readQueue + [appending], [];
      }
    }

    // ----- Commit worker

    /** `Log::read_next`: open the next log file, or put the one that is read through aside. */
    method ReadNext()
      requires Valid()
      modifies this`reading, this`readQueue, this`position, this`cleanup
      ensures Valid()
      ensures old(reading.None? && readQueue != []) ==>
        reading == Some(old(readQueue)[0]) && readQueue == old(readQueue)[1..] && position == 0
        && cleanup == old(cleanup)
      ensures old(reading.None? && readQueue == []) ==> reading == None && readQueue == [] && cleanup == old(cleanup)
      ensures old(reading.Some? && position == |reading.value|) ==>
        reading == None && readQueue == old(readQueue) && cleanup == old(cleanup + [reading.value])
      ensures old(reading.Some? && position < |reading.value|) ==>
        reading == old(reading) && readQueue == old(readQueue) && position == old(position) && cleanup == old(cleanup)
    {
      hide Valid, Lawful, LogOk, CommitsOk, HistoryOk, Flat;
      ValidIs();
      if reading.None? {
        if readQueue != [] {
          FlatFirst(readQueue);
          assert cleanup + [] + readQueue == cleanup + [readQueue[0]] + readQueue[1..];
          reading, readQueue, position := Some(readQueue[0]), readQueue[1..], 0;
        }
      } else if position == |reading.value| {
        FlatLast(cleanup, reading.value);
        assert (cleanup + [reading.value])[..cleanTarget] == cleanup[..cleanTarget];
        assert cleanup + [reading.value] + readQueue == (cleanup + [reading.value]) + [] + readQueue;
        cleanup, reading, position := cleanup + [reading.value], None, 0;
      }
      ValidIs();
    }

    /** The page belongs to the record that is being enacted. */
    predicate Enacting(p: Page)
      reads `reading, `position
    {
      reading.Some? && position < |reading.value| && p in reading.value[position].writes
    }

    /** `enact_plan`: one page of the record being enacted. */
    method EnactPage(p: Page)
      requires Valid()
      modifies this`tables, this`part, this`unsynced, this`view
      ensures Valid() && view.records == old(view.records) && (old(Recoverable()) ==> Recoverable())
      ensures part == old(part) + Enacted(p) && unsynced == old(unsynced) + Enacted(p)
      ensures tables == if Enacting(p) then old(tables)[p := reading.value[position].writes[p]] else old(tables)
    {
      hide Valid, Lawful, LogOk, CommitsOk, HistoryOk, FilesOk, Laid, Touched;
      ValidIs();
      if Enacting(p) {
        ReadingTouched(p);
        EnactOk(view, tables, logOverlay, nextRecordId, p);
        WritePage(p, reading.value[position].writes[p]);
        FilesStill();
        ValidIs();
        assert FlushedRecords() == old(FlushedRecords());
      }
    }

    method WritePage(p: Page, content: Bytes)
      modifies this`tables, this`part, this`unsynced, this`view
      ensures tables == old(tables)[p := content] && part == old(part) + {p} && unsynced == old(unsynced) + {p}
      ensures view == old(view).(part := part, unsynced := unsynced)
    {
      tables := tables[p := content];
      part, unsynced := part + {p}, unsynced + {p};
      view := view.(part := part, unsynced := unsynced);
    }

    ghost function Enacted(p: Page): set<Page>
      reads `reading, `position
    {
      if Enacting(p) then {p} else {}
    }

    /** The pages enacted so far are no matter of the files. */
    lemma FilesStill()
      requires Laid(view.records, view.enacted, view.settled) && reading.Some? && position < |reading.value|
      requires view.part == part && view.unsynced == unsynced && view.missed == missed && |view.records| < nextRecordId
      ensures FilesOk()
    {
    }

    /** All pages of the record being enacted are in the tables. */
    predicate RecordDone()
      reads `reading, `position, `part
    {
      reading.Some? && position < |reading.value| && part == reading.value[position].writes.Keys
    }

    /** `Log::end_read`: the record is in the tables, so the overlay drops what it wrote last. */
    method EndRead()
      requires Valid()
      modifies this`logOverlay, this`position, this`part, this`view, this`nextRecordId
      ensures Valid() && view.records == old(view.records) && nextRecordId == old(nextRecordId)
      ensures Recoverable() <==> old(Recoverable())
      ensures position == old(position) + if old(RecordDone()) then 1 else 0
      ensures logOverlay == if old(RecordDone()) then
        Unless(old(logOverlay), old(part), old(reading.value[position].id)) else old(logOverlay)
    {
      hide Lawful, LogOk, CommitsOk, HistoryOk, Flat, Unless;
      if RecordDone() {
        var r := reading.value[position];
        assert view.records[view.enacted] == r;
        NextIs(view, tables, logOverlay, nextRecordId);
        EndOk(view, tables, logOverlay, nextRecordId);
        nextRecordId := Past(r.id, nextRecordId);
        logOverlay := Unless(logOverlay, r.writes.Keys, r.id);
        position, part := position + 1, {};
        view := view.(enacted := view.enacted + 1, part := {});
      }
    }

    // ----- Cleanup worker

    /** `clean_logs`, first: how many logs there are to clean. */
    method BeginClean()
      requires Valid()
      modifies this`cleanTarget, this`flushed, this`view
      ensures Valid() && cleanTarget == |cleanup| && !flushed && view.records == old(view.records)
      ensures Recoverable() <==> old(Recoverable())
    {
      hide Lawful, LogOk, CommitsOk, HistoryOk, Flat;
      UnsettleOk(view, tables, logOverlay, nextRecordId);
      cleanTarget, flushed := |cleanup|, false;
      view := view.(settled := 0);
    }

    /**
     `clean_logs`, second: flush the tables. `left` are pages that the flush leaves out, those of
     the indexes that wait in the reindex queue (`HashColumn::flush`).
     */
    method FlushTables(left: set<Page>)
      requires Valid()
      modifies this`flushed, this`unsynced, this`missed, this`view
      ensures Valid() && flushed && view.records == old(view.records)
      ensures unsynced == missed == old(unsynced) * left
      ensures old(Recoverable()) ==> Recoverable()
    {
      hide Lawful, LogOk, CommitsOk, HistoryOk, Flat, Touched;
      assert cleanup == cleanup[..cleanTarget] + cleanup[cleanTarget..];
      FlatAdd(cleanup[..cleanTarget], cleanup[cleanTarget..]);
      ghost var settled := |Flat(cleanup[..cleanTarget])|;
      FlushOk(view, tables, logOverlay, nextRecordId, settled, left);
      flushed, unsynced := true, unsynced * left;
      missed := unsynced;
      view := Synced(view, settled, left);
    }

    /**
     `clean_logs`, third: truncate the oldest log that the flush covers. What a crash leaves can be
     mended afterwards exactly when the logs that stay write again every page that the flush missed.
     */
    method CleanOne()
      requires Valid()
      modifies this`cleanup, this`cleanTarget, this`view, this`marks
      ensures Valid() && Recorded() == old(Recorded()) && Safe() == old(Safe())
      ensures cleanup == if flushed && old(cleanTarget) > 0 then old(cleanup)[1..] else old(cleanup)
      ensures Recoverable() <==> missed <= Touched(FlushedRecords())
    {
      hide Valid, Lawful, LogOk, CommitsOk, HistoryOk, Flat, Touched, FilesOk, Fold;
      ValidIs();
      AppendingFits();
      if flushed && cleanTarget > 0 {
        OldestIsSettled();
        ghost var n := |cleanup[0]|;
        TruncateOk(view, tables, logOverlay, nextRecordId, n);
        HistoryCut(engine, view.floor, view.records, marks, history, n);
        DropOldest();
        marks := marks[n..];
        ValidIs();
      }
      MissedMatter();
    }

    method DropOldest()
      requires FilesOk() && flushed && cleanTarget > 0 && |cleanup| > 0 && |cleanup[0]| <= view.settled
      requires view.settled <= view.enacted <= |view.records|
      modifies this`cleanup, this`cleanTarget, this`view
      ensures FilesOk() && cleanup == old(cleanup)[1..] && view == old(Truncated(view, |cleanup[0]|))
    {
      hide Flat, Fold, NoneEmpty;
      FlatFirst(cleanup);
      FlatFirst(cleanup[..cleanTarget]);
      assert cleanup[..cleanTarget][1..] == cleanup[1..][..cleanTarget - 1];
      NoneEmptyRest(cleanup, if reading.Some? then [reading.value] else [], readQueue);
      view := Truncated(view, |cleanup[0]|);
      cleanup, cleanTarget := cleanup[1..], cleanTarget - 1;
    }

    lemma OldestIsSettled()
      requires FilesOk() && flushed && cleanTarget > 0
      ensures |cleanup| > 0 && |cleanup[0]| <= view.settled && |cleanup[0]| <= |view.records| - |appending|
    {
      hide NoneEmpty;
      FlatFirst(cleanup);
      FlatFirst(cleanup[..cleanTarget]);
    }

    /** The flushed logs can mend a crash exactly when they write the pages that the last flush missed. */
    lemma MissedMatter()
      requires FilesOk() && LogOk(view, tables, logOverlay, nextRecordId)
      ensures Recoverable() <==> missed <= Touched(FlushedRecords())
    {
      hide LogOk, Flat, Touched;
      FlushedAre();
      EnactedIsFlushed();
      OnlyMissedMatter(view, tables, logOverlay, nextRecordId, |view.records| - |appending|);
    }

    // ----- Crashes

    /** No commit is under way and nothing waits to be enacted. */
    ghost predicate Restarted()
      reads `queue, `overlay, `strays, `hand, `logged, `logOverlay, `appending, `readQueue, `reading
    {
      && queue == [] && overlay == map[] && strays == map[] && hand == None && !logged
      && logOverlay == map[] && appending == [] && readQueue == [] && reading == None
    }

    /** Whether a crash now would be mended, computed from the files. */
    method IsRecoverable() returns (b: bool)
      requires Valid()
      ensures b == Recoverable()
    {
      hide Lawful, LogOk, CommitsOk, HistoryOk, Flat, Touched;
      FlushedAre();
      b := unsynced <= Touched(Flat(FlushedFiles()));
    }

    /**
     A crash, and the replay of the logs by `Db::open`. The flushed logs survive, and of the last
     file some first part does; pages that were perhaps not on disk hold `noise`. What is replayed
     is in the tables but not flushed, and the logs are still there: the cleanup steps finish the
     opening, and a crash before or during them, or during the replay, is another one of these.
     */
    method CrashAndReplay(noise: Pages, keep: nat, torn: Option<nat>)
      requires Valid()
      modifies this
      ensures tables == Fold(old(Disk(tables, unsynced, noise)), old(Kept(keep))) && view.records == old(Kept(keep))
      ensures Restarted() && missed == {}
      ensures old(Recoverable()) ==> Valid() && Recoverable()
      ensures old(Recoverable()) ==> old(Safe()) <= |history| <= old(Recorded()) && history <= old(history)
      ensures old(Recoverable()) ==> Safe() == Recorded() == |history|
    {
      hide *;
      ValidIs();
      var survived, result, next := Replay(noise, keep, torn);
      ghost var kept, safe := Kept(keep), Recoverable();
      ghost var g := View(view.floor, kept, |kept|, {}, 0, Touched(kept), {});
      ghost var h, ms := history, marks;
      if safe {
        Mended(noise, keep, result, next);
        h, ms := history[..marks[|kept|]], marks[..|kept| + 1];
        NothingQueued(h);
      }
      Reset(result, next, survived, g, h, ms);
      RestartedMarks();
    }

    lemma RestartedMarks()
      requires Restarted() && marks != []
      ensures Safe() == Recorded() == marks[|marks| - 1]
    {
    }

    /** What `replay_all_logs` makes of the files and of what is on disk. */
    method Replay(noise: Pages, keep: nat, torn: Option<nat>) returns (files: seq<File>, result: Pages, next: nat)
      requires Valid()
      ensures Flat(files) == Kept(keep) && NoneEmpty(files) && result == Fold(Disk(tables, unsynced, noise), Kept(keep))
      ensures next == if Kept(keep) == [] then 1 else Kept(keep)[0].id + |Kept(keep)|
      ensures marks != []
    {
      hide Valid, Lawful, LogOk, CommitsOk, HistoryOk, Survives, Fold, Flat, KeptFiles, FoundFiles, FilesOk, NoneEmpty;
      hide Disk, Kept;
      ValidIs();
      FlushedAre();
      AppendingIs();
      KeptIs(keep);
      LogIds(view, tables, logOverlay, nextRecordId);
      KeptAre(FlushedFiles(), appending, keep, view.records);
      FoundSurvive(FlushedFiles(), appending, keep, torn, Kept(keep));
      FirstId(FlushedFiles(), appending, keep, torn, Kept(keep));
      files := KeptFiles(FlushedFiles(), appending, keep);
      var found := FoundFiles(FlushedFiles(), appending, keep, torn);
      var last;
      ghost var applied, taken;
      result, last, next, applied, taken := ReplayAllLogs(found, Disk(tables, unsynced, noise), Kept(keep));
    }

    /** The records that a crash leaves: the flushed ones and `keep` of the file being written. */
    ghost function Kept(keep: nat): seq<Record>
      reads `view, `appending
    {
      FlushedRecords() + appending[..Least(keep, |appending|)]
    }

    lemma KeptIs(keep: nat)
      requires FilesOk()
      ensures |appending| <= |view.records|
      ensures Kept(keep) == view.records[..|view.records| - |appending| + Least(keep, |appending|)]
    {
      AppendingIs();
    }

    /** A crash that can be mended leaves a database in order. */
    lemma Mended(noise: Pages, keep: nat, result: Pages, next: nat)
      requires Valid() && Recoverable()
      requires result == Fold(Disk(tables, unsynced, noise), Kept(keep))
      requires next == if Kept(keep) == [] then 1 else Kept(keep)[0].id + |Kept(keep)|
      ensures var kept, m := Kept(keep), |Kept(keep)|;
        && LogOk(View(view.floor, kept, m, {}, 0, Touched(kept), {}), result, map[], next) && m < next
        && m < |marks| && Safe() <= marks[m] <= Recorded() <= |history|
        && HistoryOk(engine, view.floor, kept, marks[..m + 1], history[..marks[m]])
    {
      hide Lawful, LogOk, CommitsOk, Fold, Touched, Flat, Valid, FilesOk, Laid, CrashMended, Disk, Means;
      ValidIs();
      AppendingIs();
      KeptIs(keep);
      var n, m := |view.records| - |appending|, |Kept(keep)|;
      EnactedIsFlushed();
      UnsyncedIs();
      MoreFlushed(view.records, n, m);
      CrashIsMended(view, tables, logOverlay, nextRecordId, m);
      DiskIs(tables, unsynced, noise);
      MendedIs(view, tables, m, Disk(tables, unsynced, noise));
      HistorySurvives(engine, view.floor, view.records, marks, history, m);
      LogIds(view, tables, logOverlay, nextRecordId);
      ReplayedIds(view.records, nextRecordId, m, next);
      Replayed(view.floor, view.records[..m], result, next);
    }

    lemma UnsyncedIs()
      requires FilesOk()
      ensures view.unsynced == unsynced
    {
    }

    method Reset(
      result: Pages,
      next: nat,
      files: seq<File>,
      ghost g: View,
      ghost h: seq<seq<Operation>>,
      ghost ms: seq<nat>)
      requires g.records == Flat(files) && g.enacted == |g.records| && g.settled == 0 && g.part == {}
      requires g.unsynced == Touched(g.records) && g.missed == {} && NoneEmpty(files)
      modifies this
      ensures Restarted() && tables == result && missed == {} && history == h && marks == ms && view == g
      ensures Recoverable()
      ensures Lawful(engine) && LogOk(g, result, map[], next) && |g.records| < next && |ms| == |g.records| + 1
        && HistoryOk(engine, g.floor, g.records, ms, h) && CommitsOk(None, false, [], map[], map[], 1, h, ms[|ms| - 1])
        ==> Valid()
    {
      hide *;
      ResetCommits(h, ms);
      ResetReader(files);
      ResetLog(next);
      ResetTables(result, Touched(Flat(files)), g);
      FreshFiles();
      ValidIs();
      RestartedIs();
      LastIs();
    }

    method ResetCommits(ghost h: seq<seq<Operation>>, ghost ms: seq<nat>)
      modifies this`recordId, this`queue, this`overlay, this`hand, this`logged, this`strays, this`history, this`marks
      ensures recordId == 0 && queue == [] && overlay == map[] && hand == None && !logged
      ensures strays == map[] && history == h && marks == ms
    {
      recordId, queue, overlay, hand, logged := 0, [], map[], None, false;
      strays, history, marks := map[], h, ms;
    }

    method ResetReader(files: seq<File>)
      modifies this`reading, this`position, this`part, this`cleanup, this`cleanTarget, this`flushed
      ensures reading == None && position == 0 && part == {} && cleanup == files && cleanTarget == 0 && !flushed
    {
      reading, position, part := None, 0, {};
      cleanup, cleanTarget, flushed := files, 0, false;
    }

    method ResetLog(next: nat)
      modifies this`nextRecordId, this`logOverlay, this`appending, this`readQueue
      ensures nextRecordId == next && logOverlay == map[] && appending == [] && readQueue == []
    {
      nextRecordId, logOverlay, appending, readQueue := next, map[], [], [];
    }

    method ResetTables(result: Pages, written: set<Page>, ghost g: View)
      modifies this`tables, this`unsynced, this`missed, this`view
      ensures tables == result && unsynced == written && missed == {} && view == g
    {
      tables, unsynced, missed, view := result, written, {}, g;
    }

    lemma RestartedIs()
      requires queue == [] && overlay == map[] && strays == map[] && hand == None && !logged
      requires logOverlay == map[] && appending == [] && readQueue == [] && reading == None
      ensures Restarted()
    {
    }

    lemma LastIs()
      ensures marks != [] ==> Recorded() == marks[|marks| - 1]
    {
    }

    lemma FreshFiles()
      requires appending == [] && readQueue == [] && reading == None && position == 0 && part == {} && cleanTarget == 0
      requires !flushed && view.records == Flat(cleanup) && view.enacted == |view.records| && view.settled == 0
      requires view.part == {} && view.unsynced == unsynced && view.missed == missed && NoneEmpty(cleanup)
      ensures FlushedFiles() == cleanup && (|view.records| < nextRecordId ==> FilesOk())
      ensures Recoverable() <==> unsynced <= Touched(view.records)
    {
      hide Flat, Touched, NoneEmpty;
      NoRecords();
      assert cleanup + [] + [] == cleanup;
      assert view.records[..|view.records|] == view.records;
    }

    /** Only flushed logs are enacted. */
    lemma EnactedIsFlushed()
      requires FilesOk()
      ensures |appending| <= |view.records| && view.enacted <= |view.records| - |appending|
      ensures view.part != {} ==> view.enacted < |view.records| - |appending|
    {
    }

    /** The records of the flushed files are those before the file being written. */
    lemma FlushedAre()
      requires FilesOk()
      ensures |appending| <= |view.records| && Flat(FlushedFiles()) == view.records[..|view.records| - |appending|]
    {
      var r := if reading.Some? then [reading.value] else [];
      FlatAdd(cleanup + r, readQueue);
      FlatAdd(cleanup, r);
      assert Flat(r) == Reading() by {
        assert r != [] ==> r[..0] == [] && Flat([]) == [];
      }
      assert view.records == Flat(FlushedFiles()) + appending;
    }

    /** The record being enacted is the next one of the log, and it is in a flushed file. */
    lemma ReadingTouched(p: Page)
      requires FilesOk() && Enacting(p)
      ensures view.enacted < |view.records| && view.records[view.enacted] == reading.value[position]
      ensures p in Touched(FlushedRecords()) && Laid(view.records, view.enacted, view.settled)
      ensures view.part == part && view.unsynced == unsynced && view.missed == missed && |view.records| < nextRecordId
    {
      hide Touched, NoneEmpty, Flat;
      AppendingFits();
      assert FlushedRecords()[view.enacted] == reading.value[position];
      InTouched(FlushedRecords(), view.enacted, p);
    }

    lemma AppendingIs()
      requires FilesOk()
      ensures |appending| <= |view.records| < nextRecordId && NoneEmpty(FlushedFiles())
      ensures appending == view.records[|view.records| - |appending|..]
    {
    }

    // ----- Whole passes of the workers

    /** The log worker until no commit waits: all of them are recorded, and reads are unchanged. */
    method Drain()
      requires Valid()
      modifies this`queue, this`hand, this`logged, this`overlay
      modifies this`nextRecordId, this`logOverlay, this`appending, this`view, this`marks
      ensures Valid() && queue == [] && hand == None && overlay == strays
      ensures Recorded() == |history| && (Recoverable() <==> old(Recoverable()))
    {
      hide Valid, Lawful, LogOk, HistoryOk, FilesOk, CommitsOk, FlushedRecords, Touched, Plan, Safe, Recorded, Cleaned;
      LogCommit();
      CleanOverlay();
      while queue != []
        invariant Valid() && hand == None && !logged && (Recoverable() <==> old(Recoverable()))
        decreases |queue|
      {
        PopCommit();
        LogCommit();
        CleanOverlay();
      }
      ValidIs();
      AllRecorded(logged, overlay, strays, recordId + 1, history, Recorded());
    }

    /** The commit worker on one record. */
    method EnactRecord()
      requires Valid() && reading.Some? && position < |reading.value|
      modifies this`tables, this`part, this`unsynced, this`view, this`logOverlay, this`position, this`nextRecordId
      ensures Valid() && position == old(position) + 1 && view.records == old(view.records)
      ensures old(Recoverable()) ==> Recoverable()
    {
      hide Lawful, LogOk, HistoryOk, CommitsOk, Touched, Flat, FilesOk, FlushedRecords, Laid, Recoverable;
      hide Unless;
      var r := reading.value[position];
      PartFits();
      while part != r.writes.Keys
        invariant Valid() && part <= r.writes.Keys && view.records == old(view.records) && position == old(position)
        invariant old(Recoverable()) ==> Recoverable()
        decreases r.writes.Keys - part
      {
        assert r.writes.Keys == part + (r.writes.Keys - part);
        var p :| p in r.writes.Keys - part;
        EnactPage(p);
      }
      EndRead();
    }

    lemma PartFits()
      requires FilesOk() && LogOk(view, tables, logOverlay, nextRecordId) && reading.Some? && position < |reading.value|
      ensures part <= reading.value[position].writes.Keys
    {
      hide Flat, Fold, Touched, OverlayOf, NoneEmpty;
      assert view.records[view.enacted] == reading.value[position];
    }

    /** The commit worker until no flushed record waits. */
    method EnactAll()
      requires Valid()
      modifies this`tables, this`part, this`unsynced, this`view, this`logOverlay, this`position, this`nextRecordId
      modifies this`reading, this`readQueue, this`cleanup
      ensures Valid() && reading == None && readQueue == [] && view.records == old(view.records)
      ensures old(Recoverable()) ==> Recoverable()
    {
      hide Lawful, LogOk, HistoryOk, CommitsOk, FilesOk, Touched, Flat;
      while reading.Some? || readQueue != []
        invariant Valid() && view.records == old(view.records)
        invariant old(Recoverable()) ==> Recoverable()
        decreases |readQueue|, reading.Some?, Left()
      {
        PositionFits();
        if reading.Some? && position < |reading.value| {
          EnactRecord();
        } else {
          ReadNext();
        }
      }
    }

    ghost function Left(): int
      reads `reading, `position
    {
      if reading.Some? then |reading.value| - position else 0
    }

    lemma PositionFits()
      requires FilesOk()
      ensures 0 <= Left() && (reading.Some? ==> position <= |reading.value|)
    {
    }

    /** With everything logged, flushed and enacted, the tables alone mean the whole history. */
    method Settle()
      requires Valid()
      modifies this`queue, this`hand, this`logged, this`overlay, this`readQueue, this`reading, this`cleanup
      modifies this`nextRecordId, this`logOverlay, this`appending, this`view, this`marks
      modifies this`tables, this`part, this`unsynced, this`position
      ensures Valid() && overlay == strays && logOverlay == map[] && Means(engine, tables, history)
    {
      hide Lawful, LogOk, HistoryOk, CommitsOk, FilesOk, Means, Flat, Touched;
      Drain();
      FlushOne();
      EnactAll();
      assert view.enacted == |view.records| by {
        AllEnacted();
      }
      NoneLeft(view, tables, logOverlay, nextRecordId);
      ReadersSeeLogged(view, tables, logOverlay, nextRecordId);
      WholeHistory(engine, view, marks, history);
    }

    lemma AllEnacted()
      requires FilesOk() && reading == None && readQueue == [] && appending == []
      ensures view.enacted == |view.records|
    {
      assert Flat([]) == [];
    }
  }

  function Least(a: nat, b: nat): nat {
    if a < b then a else b
  }

  /** The tables after a crash: what is on disk, and anything on the other pages. */
  function Disk(tables: Pages, unsynced: set<Page>, noise: Pages): Pages {
    (tables - unsynced) + map p | p in noise && p in unsynced :: noise[p]
  }

  lemma DiskIs(tables: Pages, unsynced: set<Page>, noise: Pages)
    ensures SameOutside(Disk(tables, unsynced, noise), tables, unsynced)
    ensures SameOutside(noise, tables, unsynced) ==> Disk(tables, unsynced, noise) == noise
  {
    if SameOutside(noise, tables, unsynced) {
      forall p
        ensures p in Disk(tables, unsynced, noise) <==> p in noise
        ensures p in noise ==> Disk(tables, unsynced, noise)[p] == noise[p]
      {
        assert p in noise - unsynced <==> p in tables - unsynced;
        assert p in noise - unsynced ==> (noise - unsynced)[p] == (tables - unsynced)[p];
      }
    }
  }

  // ----- Files after a crash

  /** The first part of the log that a crash leaves: the flushed files and some records of the last one. */
  function KeptFiles(files: seq<File>, appending: File, keep: nat): seq<File> {
    var tail := appending[..Least(keep, |appending|)];
    files + if tail != [] then [tail] else []
  }

  /** What `Db::open` finds in them: the records, and perhaps one more that is torn. */
  function FoundFiles(files: seq<File>, appending: File, keep: nat, torn: Option<nat>): seq<seq<Item>> {
    var tail := Items(appending[..Least(keep, |appending|)]) + if torn.Some? then [Torn(torn.value + 1)] else [];
    ItemFiles(files) + if tail != [] then [tail] else []
  }

  function ItemFiles(files: seq<File>): (s: seq<seq<Item>>)
    ensures |s| == |files|
  {
    seq(|files|, i requires 0 <= i < |files| => Items(files[i]))
  }

  lemma ItemsAdd(a: seq<Record>, b: seq<Record>)
    ensures Items(a + b) == Items(a) + Items(b)
  {
  }

  lemma {:induction false} JoinedItems(files: seq<File>)
    ensures Joined(ItemFiles(files)) == Items(Flat(files))
  {
    if files != [] {
      var n := |files| - 1;
      JoinedItems(files[..n]);
      assert ItemFiles(files)[..n] == ItemFiles(files[..n]);
      ItemsAdd(Flat(files[..n]), files[n]);
    }
  }

  lemma JoinedLast(files: seq<seq<Item>>, f: seq<Item>)
    ensures Joined(files + [f]) == Joined(files) + f
  {
    assert (files + [f])[..|files|] == files;
  }

  /** All that the files hold: the records, and the torn one if there is one. */
  lemma {:induction false} TornTail(files: seq<File>, tail: File, torn: Option<nat>)
    ensures var last := Items(tail) + if torn.Some? then [Torn(torn.value + 1)] else [];
      Joined(ItemFiles(files) + if last != [] then [last] else []) ==
        Items(Flat(files) + tail) + if torn.Some? then [Torn(torn.value + 1)] else []
  {
    var last := Items(tail) + if torn.Some? then [Torn(torn.value + 1)] else [];
    JoinedItems(files);
    ItemsAdd(Flat(files), tail);
    if last != [] {
      JoinedLast(ItemFiles(files), last);
    } else {
      assert tail == [] && ItemFiles(files) + [] == ItemFiles(files);
    }
  }

  /** The files that a crash leaves hold the first records of the log. */
  lemma {:induction false} KeptAre(files: seq<File>, appending: File, keep: nat, records: seq<Record>)
    requires NoneEmpty(files) && |appending| <= |records|
    requires Flat(files) == records[..|records| - |appending|] && appending == records[|records| - |appending|..]
    ensures var kept := KeptFiles(files, appending, keep);
      && Flat(kept) == records[..|records| - |appending| + Least(keep, |appending|)] && NoneEmpty(kept)
      && Flat(kept) == Flat(files) + appending[..Least(keep, |appending|)]
  {
    hide Flat;
    var n, tail := |records| - |appending|, appending[..Least(keep, |appending|)];
    if tail != [] {
      FlatLast(files, tail);
    } else {
      assert files + [] == files;
    }
    assert records[..n + |tail|] == records[..n] + tail;
  }

  lemma {:induction false} FoundSurvive(
    files: seq<File>, appending: File, keep: nat, torn: Option<nat>, kept: seq<Record>)
    requires NoneEmpty(files) && kept == Flat(files) + appending[..Least(keep, |appending|)]
    requires forall i, j :: 0 <= i < j < |kept| ==> kept[j].id == kept[i].id + j - i
    ensures Survives(FoundFiles(files, appending, keep, torn), kept)
  {
    hide Flat, Items, Joined, ItemFiles, NoneEmpty;
    TornTail(files, appending[..Least(keep, |appending|)], torn);
    FilesNotEmpty(files);
    assert Items(kept) + [] == Items(kept);
  }

  lemma FilesNotEmpty(files: seq<File>)
    requires NoneEmpty(files)
    ensures forall i :: 0 <= i < |files| ==> ItemFiles(files)[i] != []
  {
  }

  lemma {:induction false} FirstId(
    files: seq<File>, appending: File, keep: nat, torn: Option<nat>, kept: seq<Record>)
    requires NoneEmpty(files) && kept == Flat(files) + appending[..Least(keep, |appending|)]
    requires forall i :: 0 <= i < |kept| ==> kept[i].id > 0
    ensures var all := FoundFiles(files, appending, keep, torn);
      (forall i :: 0 <= i < |all| ==> all[i] != []) && (all != [] ==> IdOf(all[0][0]) > 0)
  {
    if files != [] {
      FlatFirst(files);
      assert kept[0] == files[0][0];
    } else if kept != [] {
      assert kept[0] == appending[0];
    }
    hide Flat;
  }

  // ----- What a crash leaves

  lemma InTouched(records: seq<Record>, n: nat, p: Page)
    requires n < |records| && p in records[n].writes
    ensures p in Touched(records)
  {
    if n < |records| - 1 {
      InTouched(records[..|records| - 1], n, p);
    }
  }

  lemma MoreFlushed(records: seq<Record>, n: nat, m: nat)
    requires n <= m <= |records|
    ensures Touched(records[..n]) <= Touched(records[..m])
  {
    FoldSplit(map[], records[..m], n);
    assert records[..m][..n] == records[..n];
  }

  lemma MendedIs(g: View, tables: Pages, m: nat, survived: Pages)
    requires m <= |g.records| && CrashMended(g, tables, m) && SameOutside(survived, tables, g.unsynced)
    ensures Fold(survived, g.records[..m]) == Fold(g.floor, g.records[..m])
  {
  }

  /** The ids that replay hands out go on where the surviving records end. */
  lemma ReplayedIds(records: seq<Record>, next: nat, m: nat, next': nat)
    requires Consecutive(records, next) && |records| < next && m <= |records|
    requires next' == if m == 0 then 1 else records[0].id + m
    ensures Consecutive(records[..m], next') && m < next'
  {
  }

  /** The log after a replay: all its records are in the tables, and none of their pages is flushed. */
  lemma {:induction false} Replayed(floor: Pages, kept: seq<Record>, tables: Pages, next: nat)
    requires Consecutive(kept, next) && tables == Fold(floor, kept)
    ensures LogOk(View(floor, kept, |kept|, {}, 0, Touched(kept), {}), tables, map[], next)
  {
    hide Touched;
    var g := View(floor, kept, |kept|, {}, 0, Touched(kept), {});
    assert kept[..|kept|] == kept && kept[0..|kept|] == kept && kept[|kept|..] == [];
    assert PartOf(g) == map[] && tables + map[] == tables;
    assert OverlayOf([]) == map[];
  }

  lemma {:induction false} NothingLogged(tables: Pages, next: nat)
    ensures LogOk(View(tables, [], 0, {}, 0, {}, {}), tables, map[], next)
  {
    var g := View(tables, [], 0, {}, 0, {}, {});
    assert PartOf(g) == map[] && tables + map[] == tables;
  }

  lemma NothingQueued(history: seq<seq<Operation>>)
    ensures CommitsOk(None, false, [], map[], map[], 1, history, |history|)
  {
    assert Listed(None) + [] == [];
    assert CoverOf([]) + map[] == map[];
  }

  lemma NothingYet(e: Engine)
    requires Lawful(e)
    ensures HistoryOk(e, map[], [], [0], [])
  {
  }

  lemma LookupMeans(e: Engine, pages: Pages, history: seq<seq<Operation>>, key: Bytes)
    requires Lawful(e) && Means(e, pages, history)
    ensures e.lookup(pages, key) == At(ApplyBatches(map[], history), key)
  {
    assert LookupOk(e, pages, key);
  }

  // ----- What the steps keep

  lemma OneCopied(o: Overlay, id: nat, ops: seq<Operation>, i: nat)
    requires i < |ops| && !ops[i].Reference?
    ensures var a := o + CopyOf(id, ops[..i]);
      && o + CopyOf(id, ops[..i + 1]) == a + Entry(id, ops[i])
      && a + Entry(id, ops[i]) == a[ops[i].key := Pending(id, if ops[i].Set? then Some(ops[i].val) else None)]
    ensures Supported(ops[..i]) ==> Supported(ops[..i + 1])
  {
    assert ops[..i + 1][..i] == ops[..i];
    MergeOverlays(o, CopyOf(id, ops[..i]), Entry(id, ops[i]));
  }

  lemma {:induction false} OneMore(all: seq<Commit>, c: Commit, last: nat)
    requires Ascending(all, last) && c.id == last + 1 && Supported(c.ops)
    ensures Ascending(all + [c], last + 1) && CoverOf(all + [c]) == CoverOf(all) + CopyOf(c.id, c.ops)
  {
    hide Supported;
    assert (all + [c])[..|all|] == all;
  }

  lemma LeftValues(strays: Overlay, id: nat, ops: seq<Operation>)
    ensures Values(strays + CopyOf(id, ops[..FirstReference(ops)])) == Values(strays) + LeftBehind(ops)
  {
    CopyValues(id, ops[..FirstReference(ops)]);
    ValuesAdd(strays, CopyOf(id, ops[..FirstReference(ops)]));
    hide CopyOf, Values;
  }

  lemma AllCopied(ops: seq<Operation>)
    requires Supported(ops)
    ensures ops[..FirstReference(ops)] == ops
  {
  }

  lemma ValuesWithout(o: Overlay, keys: set<Bytes>)
    ensures Values(o - keys) == Values(o) - keys
  {
  }

  /** A new commit takes the place of what rejected ones left on its keys. */
  lemma {:induction false} StraysReplaced(cover: Overlay, strays: Overlay, id: nat, ops: seq<Operation>)
    requires Supported(ops)
    ensures (cover + strays) + CopyOf(id, ops) == (cover + CopyOf(id, ops)) + (strays - KeysOf(ops))
  {
    forall k
      ensures k in CopyOf(id, ops) <==> k in KeysOf(ops)
    {
      CopyKeys(id, ops, k);
    }
    hide CopyOf, KeysOf, Supported;
  }

  lemma {:induction false} Committed(
    hand: Option<Commit>,
    logged: bool,
    queue: seq<Commit>,
    overlay: Overlay,
    strays: Overlay,
    last: nat,
    history: seq<seq<Operation>>,
    mark: nat,
    ops: seq<Operation>)
    requires CommitsOk(hand, logged, queue, overlay, strays, last, history, mark) && Supported(ops)
    ensures var c := Commit(last + 1, ops);
      CommitsOk(
        hand, logged, queue + [c], overlay + CopyOf(c.id, ops), strays - KeysOf(ops), last + 1, history + [ops], mark)
  {
    hide Supported, CoverOf, CopyOf, KeysOf;
    var c, all := Commit(last + 1, ops), Listed(hand) + queue;
    assert Listed(hand) + (queue + [c]) == all + [c];
    OneMore(all, c, last);
    StraysReplaced(CoverOf(all), strays, last + 1, ops);
    hide Ascending;
    var rest := (if logged then [] else Listed(hand)) + queue;
    assert (if logged then [] else Listed(hand)) + (queue + [c]) == rest + [c];
    assert Ops(rest + [c]) == Ops(rest) + [ops];
    assert (history + [ops])[mark..] == history[mark..] + [ops];
  }

  lemma CopyAllIds(id: nat, ops: seq<Operation>)
    ensures forall k :: k in CopyOf(id, ops) ==> CopyOf(id, ops)[k].id == id
  {
    forall k | k in CopyOf(id, ops)
      ensures CopyOf(id, ops)[k].id == id
    {
      CopyIds(id, ops, k);
    }
  }

  /** The overlay entries of a rejected commit belong to no queued one. */
  lemma {:induction false} Rejected(
    hand: Option<Commit>,
    logged: bool,
    queue: seq<Commit>,
    overlay: Overlay,
    strays: Overlay,
    last: nat,
    history: seq<seq<Operation>>,
    mark: nat,
    ops: seq<Operation>)
    requires CommitsOk(hand, logged, queue, overlay, strays, last, history, mark)
    ensures var more := CopyOf(last + 1, ops);
      CommitsOk(hand, logged, queue, overlay + more, strays + more, last + 1, history, mark)
  {
    hide CopyOf, CoverOf, Supported;
    var all, more := Listed(hand) + queue, CopyOf(last + 1, ops);
    CopyAllIds(last + 1, ops);
    MergeOverlays(CoverOf(all), strays, more);
  }

  lemma {:induction false} Popped(
    hand: Option<Commit>,
    logged: bool,
    queue: seq<Commit>,
    overlay: Overlay,
    strays: Overlay,
    last: nat,
    history: seq<seq<Operation>>,
    mark: nat)
    requires CommitsOk(hand, logged, queue, overlay, strays, last, history, mark) && hand.None? && queue != []
    ensures CommitsOk(Some(queue[0]), logged, queue[1..], overlay, strays, last, history, mark)
  {
    assert Listed(hand) + queue == queue == [queue[0]] + queue[1..];
  }

  lemma {:induction false} Planned(
    e: Engine,
    g: View,
    marks: seq<nat>,
    history: seq<seq<Operation>>,
    c: Commit,
    queue: seq<Commit>,
    overlay: Overlay,
    strays: Overlay,
    last: nat)
    requires Lawful(e) && HistoryOk(e, g.floor, g.records, marks, history)
    requires CommitsOk(Some(c), false, queue, overlay, strays, last, history, marks[|g.records|])
    ensures marks[|g.records|] + 1 <= |history|
    ensures Means(e, AllLogged(g) + e.plan(AllLogged(g), c.ops), history[..marks[|g.records|] + 1])
    ensures CommitsOk(Some(c), true, queue, overlay, strays, last, history, marks[|g.records|] + 1)
  {
    hide Ascending, StraysOk, CoverOf;
    var m, all := marks[|g.records|], [c] + queue;
    assert history[m..] == Ops(all) && Ops(all)[0] == c.ops;
    assert history[m] == history[m..][0];
    assert history[..m + 1] == history[..m] + [c.ops];
    HistoryEnd(map[], history[..m], c.ops);
    assert g.records[..|g.records|] == g.records;
    assert Means(e, Fold(g.floor, g.records[..|g.records|]), history[..m]);
    assert PlanOk(e, AllLogged(g), c.ops);
    assert history[m + 1..] == history[m..][1..] == Ops(queue);
    assert [] + queue == queue;
  }

  lemma {:induction false} Tidied(e: Engine, g: View, marks: seq<nat>, history: seq<seq<Operation>>)
    requires Lawful(e) && HistoryOk(e, g.floor, g.records, marks, history)
    ensures marks[|g.records|] <= |history|
    ensures Means(e, AllLogged(g) + e.tidy(AllLogged(g)), history[..marks[|g.records|]])
  {
    assert g.records[..|g.records|] == g.records;
    assert TidyOk(e, AllLogged(g));
    assert Means(e, Fold(g.floor, g.records[..|g.records|]), history[..marks[|g.records|]]);
  }

  /** Cleaning does not touch what rejected commits left. */
  lemma CleanedStrays(cover: Overlay, strays: Overlay, id: nat, ops: seq<Operation>)
    requires forall k :: k in strays ==> strays[k].id != id
    ensures Cleaned(cover + strays, id, ops) == Cleaned(cover, id, ops) + strays
  {
    hide Names;
  }

  lemma {:induction false} WithoutFirst(c: Commit, queue: seq<Commit>, strays: Overlay, last: nat)
    requires Ascending([c] + queue, last) && StraysOk(strays, [c] + queue, last)
    ensures Ascending(queue, last) && StraysOk(strays, queue, last) && forall k :: k in strays ==> strays[k].id != c.id
  {
    hide Supported;
    var all := [c] + queue;
    assert all[0] == c && forall i :: 0 <= i < |queue| ==> queue[i] == all[i + 1];
  }

  lemma {:induction false} HandLogged(
    hand: Option<Commit>,
    queue: seq<Commit>,
    overlay: Overlay,
    strays: Overlay,
    last: nat,
    history: seq<seq<Operation>>,
    mark: nat)
    requires CommitsOk(hand, true, queue, overlay, strays, last, history, mark)
    ensures hand.Some?
    ensures CommitsOk(None, false, queue, Cleaned(overlay, hand.value.id, hand.value.ops), strays, last, history, mark)
  {
    hide Cleaned, CoverOf, Supported, Ascending, StraysOk;
    var c, all := hand.value, Listed(hand) + queue;
    assert all == [c] + queue;
    CleanedIsCover(c, queue, last);
    WithoutFirst(c, queue, strays, last);
    CleanedStrays(CoverOf(all), strays, c.id, c.ops);
    assert Listed(None) + queue == queue;
    assert [] + queue == queue;
  }

  /** When no commit waits, the log tells of the whole history. */
  lemma AllRecorded(
    logged: bool, overlay: Overlay, strays: Overlay, last: nat, history: seq<seq<Operation>>, mark: nat)
    requires CommitsOk(None, logged, [], overlay, strays, last, history, mark)
    ensures mark == |history| && overlay == strays
  {
    assert Listed(None) + [] == [];
    assert |history[mark..]| == 0;
    assert CoverOf([]) == map[];
    assert map[] + strays == strays;
  }

  lemma NoneLeft(g: View, tables: Pages, overlay: map<Page, Logged>, next: nat)
    requires LogOk(g, tables, overlay, next) && g.enacted == |g.records|
    ensures overlay == map[] && Through(overlay, tables) == tables
  {
    assert g.records[g.enacted..] == [];
  }

  lemma WholeHistory(e: Engine, g: View, marks: seq<nat>, history: seq<seq<Operation>>)
    requires HistoryOk(e, g.floor, g.records, marks, history) && marks[|g.records|] == |history|
    ensures Means(e, AllLogged(g), history)
  {
    assert g.records[..|g.records|] == g.records && history[..|history|] == history;
  }

  lemma {:induction false} OneCleaned(o: Overlay, id: nat, ops: seq<Operation>, i: nat)
    requires i < |ops|
    ensures var a, k := Cleaned(o, id, ops[..i]), ops[i].key;
      Cleaned(o, id, ops[..i + 1]) == if k in a && a[k].id == id then a - {k} else a
  {
    forall k
      ensures Names(ops[..i + 1], k) <==> Names(ops[..i], k) || ops[i].key == k
    {
      OneNamed(ops, i, k);
    }
  }

  lemma OneNamed(ops: seq<Operation>, i: nat, k: Bytes)
    requires i < |ops|
    ensures Names(ops[..i + 1], k) <==> Names(ops[..i], k) || ops[i].key == k
  {
    var a, b := ops[..i], ops[..i + 1];
    assert b[i] == ops[i];
    if Names(a, k) {
      var j :| 0 <= j < |a| && a[j].key == k;
      assert b[j].key == k;
    }
    if Names(b, k) {
      var j :| 0 <= j < |b| && b[j].key == k;
      assert j < i ==> a[j].key == k;
    }
  }

  lemma LogIds(g: View, tables: Pages, overlay: map<Page, Logged>, next: nat)
    requires LogOk(g, tables, overlay, next)
    ensures Consecutive(g.records, next)
  {
  }

  lemma NextIs(g: View, tables: Pages, overlay: map<Page, Logged>, next: nat)
    requires LogOk(g, tables, overlay, next) && g.enacted < |g.records|
    ensures g.records[g.enacted].id < next
  {
  }

  // ----- Runs

  datatype Step =
    | Submit(ops: seq<Operation>)
    | Pop
    | Log
    | Clean
    | Tidy
    | Flush
    | Read
    | Enact(page: Page)
    | End
    | Begin
    | Sync(left: set<Page>)
    | Truncate
    | Crash(noise: Pages, keep: nat, torn: Option<nat>)

  /**
   What a run is to look like from outside: the commits so far, how many of them are recorded, how
   many are safe from a crash, and what rejected commits left for readers to see.
   */
  datatype Account = Account(
    history: seq<seq<Operation>>, recorded: nat, safe: nat, strays: map<Bytes, Option<Bytes>>)

  /** What a step may do: only `Crash` loses commits, and none that are safe. */
  ghost predicate Follows(a: Account, step: Step, b: Account) {
    match step
    case Submit(ops) =>
      if Supported(ops) then b == a.(history := a.history + [ops], strays := a.strays - KeysOf(ops))
      else b == a.(strays := a.strays + LeftBehind(ops))
    case Log => b == a || b == a.(recorded := a.recorded + 1)
    case Flush => b == a.(safe := a.recorded)
    case Crash(_, _, _) =>
      && a.safe <= |b.history| <= a.recorded && b.history <= a.history
      && b == Account(b.history, |b.history|, |b.history|, map[])
    case _ => b == a
  }

  ghost function AccountOf(db: Db): Account
    requires db.Valid()
    reads db
  {
    Account(db.history, db.Recorded(), db.Safe(), Values(db.strays))
  }

  /** A step of the log worker or the flush worker. */
  method LogStep(db: Db, step: Step)
    requires db.Valid() && (step.Pop? || step.Log? || step.Clean? || step.Tidy? || step.Flush?)
    modifies db
    ensures db.Valid() && Follows(old(AccountOf(db)), step, AccountOf(db))
    ensures db.missed == old(db.missed) && (old(db.Recoverable()) ==> db.Recoverable())
  {
    hide Lawful, LogOk, HistoryOk, CommitsOk, Flat, Touched, Values, NoneEmpty, Through, Cleaned, Db.Valid, Db.FilesOk;
    match step {
      case Pop => db.PopCommit();
      case Log => db.LogCommit();
      case Clean => db.CleanOverlay();
      case Tidy => db.Reindex();
      case Flush => db.FlushOne();
    }
  }

  /** A step of the commit worker or the cleanup worker. */
  method TableStep(db: Db, step: Step)
    requires db.Valid() && (step.Read? || step.Enact? || step.End? || step.Begin? || step.Sync? || step.Truncate?)
    modifies db
    ensures db.Valid() && Follows(old(AccountOf(db)), step, AccountOf(db))
    ensures old(db.Recoverable()) && !step.Truncate? ==> db.Recoverable()
    ensures step.Truncate? ==> (db.Recoverable() <==> db.missed <= Touched(db.FlushedRecords()))
    ensures db.missed == if step.Sync? then old(db.unsynced) * step.left else old(db.missed)
  {
    hide Lawful, LogOk, HistoryOk, CommitsOk, Flat, Touched, Values, NoneEmpty, Unless, Db.Valid, Db.FilesOk;
    match step {
      case Read => db.ReadNext();
      case Enact(p) => db.EnactPage(p);
      case End => db.EndRead();
      case Begin => db.BeginClean();
      case Sync(left) => db.FlushTables(left);
      case Truncate => db.CleanOne();
    }
  }

  method SubmitStep(db: Db, ops: seq<Operation>)
    requires db.Valid()
    modifies db
    ensures db.Valid() && Follows(old(AccountOf(db)), Submit(ops), AccountOf(db))
    ensures db.missed == old(db.missed) && (old(db.Recoverable()) ==> db.Recoverable())
  {
    hide Lawful, LogOk, HistoryOk, CommitsOk, Flat, Touched, Values, KeysOf, LeftBehind, Supported, Db.Valid;
    var ok := db.CommitRaw(ops);
    assert db.history == old(db.history) + if ok then [ops] else [];
  }

  method CrashStep(db: Db, noise: Pages, keep: nat, torn: Option<nat>) returns (ok: bool)
    requires db.Valid()
    modifies db
    ensures ok == old(db.Recoverable()) && db.missed == {}
    ensures ok ==>
      db.Valid() && db.Recoverable() && Follows(old(AccountOf(db)), Crash(noise, keep, torn), AccountOf(db))
  {
    hide *;
    ok := db.IsRecoverable();
    ghost var a := AccountOf(db);
    AccountIs(db);
    db.CrashAndReplay(noise, keep, torn);
    if ok {
      AccountIs(db);
      FollowsCrash(a, noise, keep, torn, AccountOf(db));
    }
  }

  lemma AccountIs(db: Db)
    requires db.Valid()
    ensures AccountOf(db).history == db.history && AccountOf(db).recorded == db.Recorded()
    ensures AccountOf(db).safe == db.Safe() && (db.Restarted() ==> AccountOf(db).strays == map[])
  {
  }

  lemma FollowsCrash(a: Account, noise: Pages, keep: nat, torn: Option<nat>, b: Account)
    requires a.safe <= |b.history| <= a.recorded && b.history <= a.history
    requires b.recorded == b.safe == |b.history| && b.strays == map[]
    ensures Follows(a, Crash(noise, keep, torn), b)
  {
  }

  /**
   One step. A crash in a state that the flushed logs cannot mend may lose anything; then the
   result is false and no more is promised.
   */
  method TakeStep(db: Db, step: Step) returns (ok: bool)
    requires db.Valid()
    modifies db
    ensures ok <==> (step.Crash? ==> old(db.Recoverable()))
    ensures ok ==> db.Valid() && Follows(old(AccountOf(db)), step, AccountOf(db))
    ensures ok && old(db.Recoverable()) && !step.Truncate? ==> db.Recoverable()
    ensures step.Truncate? ==> (db.Recoverable() <==> db.missed <= Touched(db.FlushedRecords()))
    ensures step.Sync? ==> db.missed == old(db.unsynced) * step.left
    ensures step.Crash? ==> db.missed == {}
    ensures !step.Sync? && !step.Crash? ==> db.missed == old(db.missed)
  {
    hide *;
    ok := true;
    match step {
      case Submit(ops) =>
        SubmitStep(db, ops);
      case Crash(noise, keep, torn) =>
        ok := CrashStep(db, noise, keep, torn);
      case Pop | Log | Clean | Tidy | Flush =>
        LogStep(db, step);
      case _ =>
        TableStep(db, step);
    }
  }

  /** What a read returns. */
  ghost function Read(a: Account, key: Bytes): Option<Bytes> {
    if key in a.strays then a.strays[key] else At(ApplyBatches(map[], a.history), key)
  }

  /** The account after each of the steps. */
  ghost predicate Traces(trace: seq<Account>, steps: seq<Step>) {
    |trace| == |steps| + 1 && forall i :: 0 <= i < |steps| ==> Follows(trace[i], steps[i], trace[i + 1])
  }

  /**
   Any run: commits and worker steps in any order, crashes at any point. Every step does what the
   account allows, and at the end a read returns what the account says. The run ends early only
   at a crash that the flushed logs could not mend, which cannot happen while every table flush
   is a full one.
   */
  method Run(db: Db, steps: seq<Step>, key: Bytes) returns (ok: bool, r: Option<Bytes>, ghost trace: seq<Account>)
    requires db.Valid()
    modifies db
    ensures ok ==> db.Valid() && Traces(trace, steps) && r == Read(trace[|steps|], key)
    ensures trace != [] && trace[0] == old(AccountOf(db))
    ensures !ok ==> |trace| <= |steps| && Traces(trace, steps[..|trace| - 1]) && steps[|trace| - 1].Crash?
    ensures old(db.Recoverable() && db.missed == {}) && FullFlushes(steps) ==> ok
  {
    hide *;
    var i := 0;
    ok, r, trace := true, None, [AccountOf(db)];
    NoSteps(trace, steps);
    while i < |steps|
      invariant i <= |steps| && db.Valid() && |trace| == i + 1 && Traces(trace, steps[..i]) && trace[i] == AccountOf(db)
      invariant trace[0] == old(AccountOf(db))
      invariant old(db.Recoverable() && db.missed == {}) && FullFlushes(steps) ==> db.Recoverable() && db.missed == {}
    {
      ghost var before := db.unsynced;
      ok := TakeStep(db, steps[i]);
      NoneMissed(steps, i, before);
      if !ok {
        return;
      }
      OneMoreStep(trace, steps, i, AccountOf(db));
      trace := trace + [AccountOf(db)];
      i := i + 1;
    }
    assert steps[..i] == steps;
    r := db.Get(key);
    ReadIs(db, key);
  }

  ghost predicate FullFlushes(steps: seq<Step>) {
    forall i :: 0 <= i < |steps| && steps[i].Sync? ==> steps[i].left == {}
  }

  lemma NoneMissed(steps: seq<Step>, i: nat, unsynced: set<Page>)
    requires i < |steps|
    ensures FullFlushes(steps) && steps[i].Sync? ==> unsynced * steps[i].left == {}
  {
  }

  lemma NoSteps(trace: seq<Account>, steps: seq<Step>)
    requires |trace| == 1
    ensures Traces(trace, steps[..0])
  {
  }

  lemma OneMoreStep(trace: seq<Account>, steps: seq<Step>, i: nat, a: Account)
    requires i < |steps| && |trace| == i + 1 && Traces(trace, steps[..i]) && Follows(trace[i], steps[i], a)
    ensures Traces(trace + [a], steps[..i + 1])
  {
    hide Follows;
    var t, s := trace + [a], steps[..i + 1];
    forall j | 0 <= j < |s|
      ensures Follows(t[j], s[j], t[j + 1])
    {
      assert j < i ==> s[j] == steps[..i][j];
    }
  }

  lemma ReadIs(db: Db, key: Bytes)
    requires db.Valid()
    ensures Shown(db.strays, db.history, key) == Read(AccountOf(db), key)
  {
  }

  // ----- When a read is not the last committed value

  /** The step decides what readers see of the key, whatever was left before. */
  ghost predicate Decides(step: Step, key: Bytes) {
    step.Crash? || (step.Submit? && key in if Supported(step.ops) then KeysOf(step.ops) else LeftBehind(step.ops).Keys)
  }

  /** Step `i` is a rejected commit that left a value for the key, and nothing after it decides the key. */
  ghost predicate Leaves(steps: seq<Step>, i: int, key: Bytes) {
    && 0 <= i < |steps| && steps[i].Submit? && !Supported(steps[i].ops) && key in LeftBehind(steps[i].ops)
    && forall j :: i < j < |steps| ==> !Decides(steps[j], key)
  }

  /** What is left in the overlay is what the last deciding commit left, if that one was rejected. */
  lemma {:induction false} StraysAre(trace: seq<Account>, steps: seq<Step>, key: Bytes)
    requires Traces(trace, steps) && trace[0].strays == map[]
    ensures key in trace[|steps|].strays <==> exists i :: Leaves(steps, i, key)
    ensures forall i :: Leaves(steps, i, key) ==>
      key in trace[|steps|].strays && trace[|steps|].strays[key] == LeftBehind(steps[i].ops)[key]
  {
    hide Supported, KeysOf, LeftBehind;
    if steps != [] {
      var n := |steps| - 1;
      assert Traces(trace[..n + 1], steps[..n]) by {
        hide Follows;
      }
      StraysAre(trace[..n + 1], steps[..n], key);
      assert Follows(trace[n], steps[n], trace[n + 1]);
      forall i
        ensures Leaves(steps, i, key) <==>
          (i == n && steps[n].Submit? && !Supported(steps[n].ops) && key in LeftBehind(steps[n].ops))
          || (Leaves(steps[..n], i, key) && !Decides(steps[n], key))
      {
        LeavesStep(steps, i, key);
      }
      hide Leaves;
      if Decides(steps[n], key) && key in trace[|steps|].strays {
        assert Leaves(steps, n, key);
      }
      if !Decides(steps[n], key) {
        assert key in trace[n].strays <==> key in trace[n + 1].strays;
        if key in trace[n].strays {
          var i :| Leaves(steps[..n], i, key);
          assert Leaves(steps, i, key);
        }
      }
    }
  }

  lemma LeavesStep(steps: seq<Step>, i: int, key: Bytes)
    requires steps != []
    ensures var n := |steps| - 1;
      Leaves(steps, i, key) <==>
        (i == n && steps[n].Submit? && !Supported(steps[n].ops) && key in LeftBehind(steps[n].ops))
        || (Leaves(steps[..n], i, key) && !Decides(steps[n], key))
  {
    hide Supported, KeysOf, LeftBehind, Decides;
    var n := |steps| - 1;
    assert forall j :: 0 <= j < n ==> steps[..n][j] == steps[j];
  }

  /**
   A read returns the last committed value exactly when no rejected commit since the last decision
   on the key left another one.
   */
  lemma {:induction false} CommittedUnlessLeft(trace: seq<Account>, steps: seq<Step>, key: Bytes)
    requires Traces(trace, steps) && trace[0].strays == map[]
    ensures var committed := At(ApplyBatches(map[], trace[|steps|].history), key);
      Read(trace[|steps|], key) == committed <==>
        forall i :: Leaves(steps, i, key) ==> LeftBehind(steps[i].ops)[key] == committed
  {
    StraysAre(trace, steps, key);
    hide Traces, Leaves, LeftBehind, ApplyBatches;
  }

  lemma OneRejected(k: Bytes, v: Bytes, x: Bytes)
    ensures var ops := [Set(k, v), Reference(x)]; !Supported(ops) && LeftBehind(ops) == map[k := Some(v)]
  {
    var ops := [Set(k, v), Reference(x)];
    assert ops[1].Reference? && Supported(ops[..1]);
    FirstReferenceIs(ops, 1);
    assert ops[..1] == [Set(k, v)] && ops[..1][..0] == [];
    assert CopyOf(0, ops[..1]) == map[k := Pending(0, Some(v))];
  }

  lemma OneAccepted(m: map<Bytes, Bytes>, k: Bytes, v: Bytes)
    ensures var ops := [Set(k, v)]; Supported(ops) && KeysOf(ops) == {k} && ApplyBatches(m, [ops]) == m[k := v]
    ensures At(m[k := v], k) == Some(v)
  {
    var ops := [Set(k, v)];
    assert ops[0].key == k && ops[1..] == [] && [ops][1..] == [];
    assert ApplyAllToMap(m, ops) == ApplyAllToMap(m[k := v], []) == m[k := v];
    assert ApplyBatches(m, [ops]) == ApplyBatches(m[k := v], []);
  }

  lemma NoValues(k: Bytes, v: Bytes)
    ensures var none, one := Values(map[]), map[k := Some(v)];
      none == map[] && none + one == one && none - {k} == none && one - {k} == none
  {
  }

  lemma StrayIsShown(strays: Overlay, history: seq<seq<Operation>>, k: Bytes, v: Option<Bytes>)
    ensures Values(strays) == map[k := v] ==> Shown(strays, history, k) == v
    ensures Values(strays) == map[] ==> Shown(strays, history, k) == At(ApplyBatches(map[], history), k)
  {
    assert k in strays ==> k in Values(strays);
    assert k in Values(strays) ==> k in strays && Values(strays)[k] == strays[k].value;
  }

  /** A rejected commit is read back, until an accepted one replaces it. */
  method RejectedIsRead(k: Bytes, v: Bytes, x: Bytes, w: Bytes) returns (db: Db, r: Option<Bytes>, s: Option<Bytes>)
    ensures fresh(db) && db.Valid() && db.history == [[Set(k, w)]]
    ensures r == Some(v) && s == Some(w)
  {
    hide *;
    OnePageEachIsLawful();
    OneRejected(k, v, x);
    OneAccepted(map[], k, w);
    NoValues(k, v);
    db := new Db(OnePageEach());
    var ok := db.CommitRaw([Set(k, v), Reference(x)]);
    r := db.Get(k);
    StrayIsShown(db.strays, db.history, k, Some(v));
    ok := db.CommitRaw([Set(k, w)]);
    s := db.Get(k);
    StrayIsShown(db.strays, db.history, k, Some(w));
  }

  /** Once a commit is logged and its log flushed, no crash loses it or any before it. */
  method CommitIsDurable(db: Db, ops: seq<Operation>, noise: Pages, keep: nat, torn: Option<nat>)
    requires db.Valid() && db.Recoverable() && Supported(ops)
    modifies db
    ensures db.Valid() && db.history == old(db.history) + [ops] && db.strays == map[]
  {
    hide *;
    var _ := db.CommitRaw(ops);
    db.Drain();
    db.FlushOne();
    db.CrashAndReplay(noise, keep, torn);
    NothingLeft(db);
  }

  lemma NothingLeft(db: Db)
    requires db.Restarted()
    ensures db.strays == map[]
  {
  }

  /** A new database with one commit, not logged yet. */
  method OneCommit(k: Bytes, v: Bytes) returns (db: Db, before: Option<Bytes>)
    ensures fresh(db) && db.Valid() && before == Some(v) && db.engine == OnePageEach()
    ensures db.NothingStored() && |db.queue| == 1 && db.queue[0].ops == [Set(k, v)]
  {
    hide *;
    OnePageEachIsLawful();
    OneAccepted(map[], k, v);
    NoValues(k, v);
    db := new Db(OnePageEach());
    var _ := db.CommitRaw([Set(k, v)]);
    assert db.history == [[Set(k, v)]] && |db.queue| == 1;
    before := db.Get(k);
    StrayIsShown(db.strays, db.history, k, None);
  }

  /** Its record, logged and flushed. */
  method FlushCommit(db: Db, k: Bytes, v: Bytes)
    requires db.Valid() && db.engine == OnePageEach() && db.NothingStored()
    requires |db.queue| == 1 && db.queue[0].ops == [Set(k, v)]
    modifies db
    ensures db.Valid() && db.reading == None && db.cleanup == [] && db.appending == [] && db.Safe() == db.Recorded()
    ensures db.readQueue == [[Record(old(db.nextRecordId), map[k := [1] + v])]]
    ensures db.tables == map[] && db.unsynced == {} && db.readQueue[0][0].id == old(db.nextRecordId)
  {
    hide Db.Valid, Db.FlushedRecords, Db.Recoverable, Db.Safe, Db.Recorded, Cleaned, OnePageEach, Through, Fold;
    hide Touched, Flat, Db.Kept, Writes, Db.FilesOk, Db.Laid;
    OneWritten(k, v);
    db.PopCommit();
    db.LogCommit();
    assert db.appending == [Record(old(db.nextRecordId), map[k := [1] + v])];
    db.CleanOverlay();
    db.FlushOne();
    assert db.readQueue == [[Record(old(db.nextRecordId), map[k := [1] + v])]];
  }

  /** The one flushed file is enacted and waits for cleanup. */
  method EnactOneFile(db: Db, id: nat, k: Bytes, c: Bytes)
    requires db.Valid() && db.readQueue == [[Record(id, map[k := c])]] && db.reading == None && db.cleanup == []
    modifies db
    ensures db.Valid() && db.reading == None && db.readQueue == [] && db.appending == old(db.appending)
    ensures db.cleanup == old(db.readQueue) && db.tables == old(db.tables)[k := c]
    ensures db.unsynced == old(db.unsynced) + {k}
  {
    hide Db.Valid, Db.FilesOk, Db.Recoverable, Db.FlushedFiles, Unless;
    NothingEnacted(db);
    var file := [Record(id, map[k := c])];
    db.ReadNext();
    assert db.reading == Some(file) && db.position == 0 && db.readQueue == [];
    db.EnactPage(k);
    assert db.part == {k} && db.RecordDone();
    db.EndRead();
    assert db.position == 1;
    db.ReadNext();
    assert db.cleanup == [file];
  }

  lemma NothingEnacted(db: Db)
    requires db.Valid() && db.reading == None
    ensures db.part == {}
  {
  }

  /**
   The page of a commit is enacted, left out by the table flush, and its log truncated: a crash
   that finds the page as it was before loses a commit that was read back, logged and flushed.
   */
  method MissedPageIsLost(k: Bytes, v: Bytes) returns (before: Option<Bytes>, after: Option<Bytes>)
    ensures before == Some(v) && after == None
  {
    hide *;
    OneWritten(k, v);
    var db;
    db, before := OneCommit(k, v);
    FlushCommit(db, k, v);
    EnactOneFile(db, db.readQueue[0][0].id, k, [1] + v);
    CleanMissing(db, k);
    db.CrashAndReplay(map[], 0, None);
    after := ReadEmpty(db, k);
  }

  /** Its log is truncated after a table flush that misses the page. */
  method CleanMissing(db: Db, k: Bytes)
    requires db.Valid() && |db.cleanup| == 1 && db.reading == None && db.readQueue == [] && db.appending == []
    requires db.unsynced == {k}
    modifies db
    ensures db.Valid() && db.Kept(0) == [] && db.tables == old(db.tables) && db.unsynced == {k}
  {
    hide Db.Valid, Db.FilesOk, Db.Recoverable, Touched, Db.Kept, Db.FlushedRecords;
    db.BeginClean();
    db.FlushTables({k});
    db.CleanOne();
    OldFilesGone(db);
  }

  method ReadEmpty(db: Db, k: Bytes) returns (r: Option<Bytes>)
    requires db.Restarted() && db.tables == map[] && db.engine == OnePageEach()
    ensures r == None
  {
    hide Db.Valid;
    r := db.Get(k);
    assert Through(map[], map[]) == map[];
  }

  lemma OldFilesGone(db: Db)
    requires db.Valid() && db.cleanup == [] && db.reading == None && db.readQueue == [] && db.appending == []
    ensures db.Kept(0) == []
  {
    NoRecords();
  }

  lemma OneWritten(k: Bytes, v: Bytes)
    ensures OnePageEach().plan(Through(map[], map[]), [Set(k, v)]) == map[k := [1] + v]
    ensures Disk(map[k := [1] + v], {k}, map[]) == map[] && Through(map[], map[]) == map[] && Fold(map[], []) == map[]
    ensures Flat([]) == []
  {
    var ops := [Set(k, v)];
    assert ops[..0] == [];
    assert Writes(ops) == map[k := [1] + v];
  }
}
