/**
 Log records as page writes. A page is whatever the log replaces as a whole: a slot of a value
 table or one entry of an index chunk. Applying records in order is the reference that the log
 overlay, the enactment of records and crash recovery are all measured against.
 */
module LogPages {
  import opened Keys

  /** The name of a page: a table and a place in it. */
  type Page = Bytes
  type Pages = map<Page, Bytes>

  datatype Record = Record(id: nat, writes: Pages)

  /** An overlay entry: the record that wrote it last, and what it wrote. */
  datatype Logged = Logged(id: nat, content: Bytes)

  function Fold(pages: Pages, records: seq<Record>): Pages {
    if records == [] then pages else Fold(pages, records[..|records| - 1]) + records[|records| - 1].writes
  }

  /** Pages that some record writes. */
  function Touched(records: seq<Record>): set<Page> {
    if records == [] then {} else Touched(records[..|records| - 1]) + records[|records| - 1].writes.Keys
  }

  function Tagged(r: Record): map<Page, Logged> {
    map p | p in r.writes :: Logged(r.id, r.writes[p])
  }

  /** What the overlay holds while these records are logged and not yet enacted. */
  function OverlayOf(records: seq<Record>): map<Page, Logged> {
    if records == [] then map[] else OverlayOf(records[..|records| - 1]) + Tagged(records[|records| - 1])
  }

  /** What a reader sees: the overlay in front of the tables. */
  function Through(overlay: map<Page, Logged>, tables: Pages): Pages {
    tables + Contents(overlay)
  }

  function Contents(overlay: map<Page, Logged>): Pages {
    map p | p in overlay :: overlay[p].content
  }

  /** Equal outside `s`, missing pages included. */
  ghost predicate SameOutside(a: Pages, b: Pages, s: set<Page>) {
    a - s == b - s
  }

  ghost predicate Consecutive(records: seq<Record>, next: nat) {
    forall i :: 0 <= i < |records| ==> records[i].id + |records| == next + i
  }

  // ----- Laws

  lemma {:induction false} FoldAdd(pages: Pages, a: seq<Record>, b: seq<Record>)
    ensures Fold(pages, a + b) == Fold(Fold(pages, a), b) && Touched(a + b) == Touched(a) + Touched(b)
  {
    if b == [] {
      assert a + b == a;
    } else {
      var n := |b| - 1;
      FoldAdd(pages, a, b[..n]);
      assert (a + b)[..|a + b| - 1] == a + b[..n];
    }
  }

  lemma {:induction false} FoldSplit(pages: Pages, records: seq<Record>, n: nat)
    requires n <= |records|
    ensures Fold(pages, records) == Fold(Fold(pages, records[..n]), records[n..])
    ensures Touched(records) == Touched(records[..n]) + Touched(records[n..])
  {
    assert records == records[..n] + records[n..];
    FoldAdd(pages, records[..n], records[n..]);
  }

  /** Records decide the pages they write; the others stay. */
  lemma {:induction false} FoldAgrees(a: Pages, b: Pages, records: seq<Record>, s: set<Page>)
    requires SameOutside(a, b, s)
    ensures SameOutside(Fold(a, records), Fold(b, records), s - Touched(records))
  {
    if records == [] {
      assert s - {} == s;
    } else {
      var n := |records| - 1;
      FoldAgrees(a, b, records[..n], s);
      var x, y, w, t := Fold(a, records[..n]), Fold(b, records[..n]), records[n].writes, s - Touched(records[..n]);
      assert (x + w) - (t - w.Keys) == (y + w) - (t - w.Keys) by {
        forall p
          ensures p in (x + w) - (t - w.Keys) <==> p in (y + w) - (t - w.Keys)
          ensures p in (x + w) - (t - w.Keys) ==> ((x + w) - (t - w.Keys))[p] == ((y + w) - (t - w.Keys))[p]
        {
          assert p in x - t <==> p in y - t;
          assert p in x - t ==> (x - t)[p] == (y - t)[p];
        }
      }
      assert s - Touched(records) == t - w.Keys;
    }
  }

  lemma {:induction false} FoldOutside(pages: Pages, records: seq<Record>)
    ensures SameOutside(Fold(pages, records), pages, Touched(records))
  {
    if records != [] {
      var n := |records| - 1;
      FoldOutside(pages, records[..n]);
      var x, w, t := Fold(pages, records[..n]), records[n].writes, Touched(records[..n]);
      forall p
        ensures p in (x + w) - (t + w.Keys) <==> p in pages - (t + w.Keys)
        ensures p in (x + w) - (t + w.Keys) ==> ((x + w) - (t + w.Keys))[p] == (pages - (t + w.Keys))[p]
      {
        assert p in x - t <==> p in pages - t;
        assert p in x - t ==> (x - t)[p] == (pages - t)[p];
      }
    }
  }

  lemma ContentsAdd(a: map<Page, Logged>, b: map<Page, Logged>)
    ensures Contents(a + b) == Contents(a) + Contents(b)
  {
  }

  lemma ContentsTagged(r: Record)
    ensures Contents(Tagged(r)) == r.writes
  {
  }

  lemma PagesTwice(a: Pages, b: Pages, c: Pages)
    ensures a + (b + c) == (a + b) + c
  {
  }

  lemma ThroughStep(overlay: map<Page, Logged>, tables: Pages, r: Record)
    ensures Through(overlay + Tagged(r), tables) == Through(overlay, tables) + r.writes
  {
    hide Contents, Tagged;
    ContentsAdd(overlay, Tagged(r));
    ContentsTagged(r);
    PagesTwice(tables, Contents(overlay), r.writes);
  }

  /** Seen through the overlay of pending records, the tables look as if all were applied. */
  lemma {:induction false} ThroughIsFold(tables: Pages, records: seq<Record>)
    ensures Through(OverlayOf(records), tables) == Fold(tables, records) && OverlayOf(records).Keys == Touched(records)
  {
    if records == [] {
      assert Through(map[], tables) == tables;
    } else {
      var n := |records| - 1;
      ThroughIsFold(tables, records[..n]);
      ThroughStep(OverlayOf(records[..n]), tables, records[n]);
      assert Tagged(records[n]).Keys == records[n].writes.Keys;
    }
  }

  lemma MergeTwice(a: map<Page, Logged>, b: map<Page, Logged>, c: map<Page, Logged>)
    ensures a + (b + c) == (a + b) + c
  {
  }

  lemma {:induction false} OverlayAdd(a: seq<Record>, b: seq<Record>)
    ensures OverlayOf(a + b) == OverlayOf(a) + OverlayOf(b)
  {
    if b == [] {
      assert a + b == a;
      assert OverlayOf(a) + map[] == OverlayOf(a);
    } else {
      var n := |b| - 1;
      OverlayAdd(a, b[..n]);
      MergeTwice(OverlayOf(a), OverlayOf(b[..n]), Tagged(b[n]));
      assert (a + b)[..|a + b| - 1] == a + b[..n];
    }
  }

  lemma {:induction false} OverlayIds(records: seq<Record>, p: Page)
    requires p in OverlayOf(records)
    ensures exists i :: 0 <= i < |records| && records[i].id == OverlayOf(records)[p].id && p in records[i].writes
  {
    var n := |records| - 1;
    if p !in Tagged(records[n]) {
      OverlayIds(records[..n], p);
      var i :| 0 <= i < n && records[..n][i].id == OverlayOf(records[..n])[p].id && p in records[..n][i].writes;
      assert records[i] == records[..n][i];
    } else {
      assert records[n].id == OverlayOf(records)[p].id;
    }
  }

  /** Entries of the overlay that `end_read` leaves when record `id` has been enacted. */
  function Unless(overlay: map<Page, Logged>, pages: set<Page>, id: nat): map<Page, Logged> {
    map p | p in overlay && !(p in pages && overlay[p].id == id) :: overlay[p]
  }

  lemma UnlessLeft(a: map<Page, Logged>, b: map<Page, Logged>, id: nat)
    requires forall p :: p in a ==> a[p].id == id
    requires forall p :: p in b ==> b[p].id != id
    ensures Unless(a + b, a.Keys, id) == b
  {
  }

  /** Dropping what the first pending record wrote last leaves the overlay of the others. */
  lemma {:induction false} OverlayEnd(records: seq<Record>, next: nat)
    requires records != [] && Consecutive(records, next)
    ensures Unless(OverlayOf(records), records[0].writes.Keys, records[0].id) == OverlayOf(records[1..])
  {
    hide Unless, OverlayOf, Tagged;
    var r, rest := records[0], records[1..];
    assert records == [r] + rest;
    OverlayAdd([r], rest);
    OverlaySingle(r);
    forall p | p in OverlayOf(rest)
      ensures OverlayOf(rest)[p].id != r.id
    {
      OverlayIds(rest, p);
      var i :| 0 <= i < |rest| && rest[i].id == OverlayOf(rest)[p].id && p in rest[i].writes;
      assert records[i + 1] == rest[i];
    }
    UnlessLeft(Tagged(r), OverlayOf(rest), r.id);
  }

  lemma OverlaySingle(r: Record)
    ensures OverlayOf([r]) == Tagged(r) && Tagged(r).Keys == r.writes.Keys && forall p :: p in Tagged(r) ==>
      Tagged(r)[p].id == r.id
  {
    assert [r][..0] == [];
    assert map[] + Tagged(r) == Tagged(r);
  }
}
