/**
 A column as the commit pipeline uses it: pages that mean a map, a lookup that reads them, and
 plans that turn a batch into page writes computed from what the pages hold.
 */
module Engines {
  import opened Keys
  import opened Batch
  import opened LogPages
  import opened CommitOverlay

  datatype Engine = Engine(
    ok: Pages -> bool,
    means: Pages -> map<Bytes, Bytes>,
    lookup: (Pages, Bytes) -> Option<Bytes>,
    plan: (Pages, seq<Operation>) -> Pages,
    tidy: Pages -> Pages)

  /** A lookup reads what the pages mean. */
  ghost predicate LookupOk(e: Engine, pages: Pages, key: Bytes) {
    e.ok(pages) ==> e.lookup(pages, key) == At(e.means(pages), key)
  }

  /** A plan does what its batch means. */
  ghost predicate PlanOk(e: Engine, pages: Pages, ops: seq<Operation>) {
    e.ok(pages) ==>
      var after := pages + e.plan(pages, ops);
      e.ok(after) && e.means(after) == ApplyAllToMap(e.means(pages), ops)
  }

  /** Reindexing means nothing. */
  ghost predicate TidyOk(e: Engine, pages: Pages) {
    e.ok(pages) ==>
      var after := pages + e.tidy(pages);
      e.ok(after) && e.means(after) == e.means(pages)
  }

  ghost predicate Lawful(e: Engine) {
    && e.ok(map[]) && e.means(map[]) == map[]
    && (forall pages, key :: LookupOk(e, pages, key))
    && (forall pages, ops :: PlanOk(e, pages, ops))
    && (forall pages :: TidyOk(e, pages))
  }

  // ----- The simplest column: one page for each key

  function Meaning(pages: Pages): map<Bytes, Bytes> {
    map k | k in pages && pages[k] != [] :: pages[k][1..]
  }

  function Lookup(pages: Pages, key: Bytes): Option<Bytes> {
    if key in pages && pages[key] != [] then Some(pages[key][1..]) else None
  }

  function Written(op: Operation): Pages {
    match op
    case Set(k, v) => map[k := [1] + v]
    case Dereference(k) => map[k := []]
    case Reference(_) => map[]
  }

  function Writes(ops: seq<Operation>): Pages {
    if ops == [] then map[] else Writes(ops[..|ops| - 1]) + Written(ops[|ops| - 1])
  }

  function OnePageEach(): Engine {
    Engine(_ => true, Meaning, Lookup, (_, ops) => Writes(ops), _ => map[])
  }

  lemma {:induction false} WritesMean(pages: Pages, ops: seq<Operation>)
    ensures Meaning(pages + Writes(ops)) == ApplyAllToMap(Meaning(pages), ops)
  {
    hide Meaning, Written, ApplyToMap;
    if ops == [] {
      assert pages + map[] == pages;
    } else {
      var n := |ops| - 1;
      WritesMean(pages, ops[..n]);
      BatchEnd(Meaning(pages), ops);
      WrittenMeans(pages + Writes(ops[..n]), ops[n]);
      PagesTwice(pages, Writes(ops[..n]), Written(ops[n]));
    }
  }

  lemma WrittenMeans(pages: Pages, op: Operation)
    ensures Meaning(pages + Written(op)) == ApplyToMap(Meaning(pages), op)
  {
    match op
    case Set(k, v) => assert ([1] + v)[1..] == v;
    case Dereference(k) =>
    case Reference(_) => assert pages + map[] == pages;
  }

  lemma OnePageEachIsLawful()
    ensures Lawful(OnePageEach())
  {
    forall pages, ops
      ensures PlanOk(OnePageEach(), pages, ops)
    {
      WritesMean(pages, ops);
    }
    forall pages
      ensures TidyOk(OnePageEach(), pages)
    {
      assert pages + map[] == pages;
    }
  }

  // ----- Meaning of a log

  /** After its first `i` records, the log means the first `marks[i]` batches of the history. */
  ghost predicate HistoryOk(
      e: Engine, floor: Pages, records: seq<Record>, marks: seq<nat>, history: seq<seq<Operation>>) {
    && |marks| == |records| + 1
    && (forall i, j :: 0 <= i <= j < |marks| ==> marks[i] <= marks[j] <= |history|)
    && (forall i :: 0 <= i < |marks| ==> Means(e, Fold(floor, records[..i]), history[..marks[i]]))
  }

  ghost predicate Means(e: Engine, pages: Pages, history: seq<seq<Operation>>) {
    e.ok(pages) && e.means(pages) == ApplyBatches(map[], history)
  }

  lemma {:induction false} HistoryGrows(
      e: Engine, floor: Pages, records: seq<Record>, marks: seq<nat>, history: seq<seq<Operation>>,
      more: seq<seq<Operation>>)
    requires HistoryOk(e, floor, records, marks, history)
    ensures HistoryOk(e, floor, records, marks, history + more)
  {
    forall i | 0 <= i < |marks|
      ensures (history + more)[..marks[i]] == history[..marks[i]]
    {
    }
  }

  lemma {:induction false} RecordLogged(
      e: Engine, floor: Pages, records: seq<Record>, marks: seq<nat>, history: seq<seq<Operation>>, r: Record,
      mark: nat)
    requires HistoryOk(e, floor, records, marks, history) && marks[|records|] <= mark <= |history|
    requires Means(e, Fold(floor, records) + r.writes, history[..mark])
    ensures HistoryOk(e, floor, records + [r], marks + [mark], history)
  {
    hide Means;
    var a, m := records + [r], marks + [mark];
    forall i | 0 <= i < |m|
      ensures Means(e, Fold(floor, a[..i]), history[..m[i]])
    {
      if i <= |records| {
        assert a[..i] == records[..i];
      } else {
        assert a[..i] == a && a[..|records|] == records;
      }
    }
  }

  lemma {:induction false} HistoryCut(
      e: Engine, floor: Pages, records: seq<Record>, marks: seq<nat>, history: seq<seq<Operation>>, n: nat)
    requires HistoryOk(e, floor, records, marks, history) && n <= |records|
    ensures HistoryOk(e, Fold(floor, records[..n]), records[n..], marks[n..], history)
  {
    hide Means, ApplyBatches, Touched;
    forall i | 0 <= i < |marks| - n
      ensures Means(e, Fold(Fold(floor, records[..n]), records[n..][..i]), history[..marks[n..][i]])
    {
      FoldSplit(floor, records[..n + i], n);
      assert records[..n + i][..n] == records[..n] && records[..n + i][n..] == records[n..][..i];
    }
  }

  /** What is left of the history when only the first `m` records survive. */
  lemma {:induction false} HistorySurvives(
    e: Engine, floor: Pages, records: seq<Record>, marks: seq<nat>, history: seq<seq<Operation>>, m: nat)
    requires HistoryOk(e, floor, records, marks, history) && m <= |records|
    ensures HistoryOk(e, floor, records[..m], marks[..m + 1], history[..marks[m]])
  {
    hide Means;
    var h := history[..marks[m]];
    forall i | 0 <= i <= m
      ensures Means(e, Fold(floor, records[..m][..i]), h[..marks[..m + 1][i]])
    {
      assert records[..m][..i] == records[..i] && h[..marks[i]] == history[..marks[i]];
    }
  }
}
