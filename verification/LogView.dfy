/**
 The state of the write-ahead log and the tables behind it, and what every step of the log, flush
 and cleanup workers keeps.
 */
module LogView {
  import opened Keys
  import opened LogPages
  import opened Recovery

  /**
   `records` are the logged records that are not truncated yet, on top of `floor`. The first
   `enacted` of them are in the tables, and of the next one the pages in `part`. A table flush has
   covered the first `settled`, but for the pages in `missed`; a crash may leave anything on the
   pages in `unsynced`, which no flush has covered since they were written.
   */
  datatype View = View(
    floor: Pages,
    records: seq<Record>,
    enacted: nat,
    part: set<Page>,
    settled: nat,
    unsynced: set<Page>,
    missed: set<Page>)

  function NextWrites(g: View): Pages {
    if g.enacted < |g.records| then g.records[g.enacted].writes else map[]
  }

  function PartOf(g: View): Pages {
    map p | p in g.part && p in NextWrites(g) :: NextWrites(g)[p]
  }

  ghost predicate LogOk(g: View, tables: Pages, overlay: map<Page, Logged>, next: nat) {
    && g.settled <= g.enacted <= |g.records| && Consecutive(g.records, next)
    && overlay == OverlayOf(g.records[g.enacted..])
    && g.part <= NextWrites(g).Keys
    && tables == Fold(g.floor, g.records[..g.enacted]) + PartOf(g)
    && g.missed <= g.unsynced <= Touched(g.records[g.settled..g.enacted]) + g.part + g.missed
  }

  /** What everything logged so far amounts to. */
  function AllLogged(g: View): Pages {
    Fold(g.floor, g.records)
  }

  lemma {:induction false} PendingCoversPart(g: View)
    requires g.enacted <= |g.records| && g.part <= NextWrites(g).Keys
    ensures g.part <= Touched(g.records[g.enacted..])
  {
    if g.enacted < |g.records| {
      var rest := g.records[g.enacted..];
      FoldSplit(map[], rest, 1);
      assert rest[..1][..0] == [] && Touched(rest[..1]) == rest[0].writes.Keys;
    }
  }

  lemma PartIsInside(base: Pages, g: View)
    ensures SameOutside(base + PartOf(g), base, g.part)
  {
  }

  lemma OverlayOne(records: seq<Record>, r: Record)
    ensures OverlayOf(records + [r]) == OverlayOf(records) + Tagged(r)
  {
    assert (records + [r])[..|records|] == records;
  }

  /** Readers see every logged record, however far the enactment has come. */
  lemma {:induction false} ReadersSeeLogged(g: View, tables: Pages, overlay: map<Page, Logged>, next: nat)
    requires LogOk(g, tables, overlay, next)
    ensures Through(overlay, tables) == AllLogged(g)
  {
    hide Fold, Touched, OverlayOf, Consecutive, Through;
    var rest, base := g.records[g.enacted..], Fold(g.floor, g.records[..g.enacted]);
    PendingCoversPart(g);
    ThroughIsFold(tables, rest);
    hide Fold, OverlayOf, Touched;
    PartIsInside(base, g);
    FoldAgrees(tables, base, rest, g.part);
    assert g.part - Touched(rest) == {};
    var x, y := Fold(tables, rest), Fold(base, rest);
    assert x - {} == x && y - {} == y;
    FoldSplit(g.floor, g.records, g.enacted);
  }

  // ----- Steps

  lemma {:induction false} AppendOk(g: View, tables: Pages, overlay: map<Page, Logged>, next: nat, writes: Pages)
    requires LogOk(g, tables, overlay, next)
    ensures var r := Record(next, writes);
      LogOk(g.(records := g.records + [r]), tables, overlay + Tagged(r), next + 1)
      && Fold(g.floor, g.records + [r]) == AllLogged(g) + writes
  {
    hide Fold, OverlayOf, Touched, Tagged;
    var r := Record(next, writes);
    var h := g.(records := g.records + [r]);
    OverlayOne(g.records[g.enacted..], r);
    OneApplied(g.floor, g.records, r);
    assert h.records[..g.enacted] == g.records[..g.enacted]
      && h.records[g.settled..g.enacted] == g.records[g.settled..g.enacted];
    assert h.records[g.enacted..] == g.records[g.enacted..] + [r];
    assert g.enacted < |g.records| ==> NextWrites(h) == NextWrites(g);
    assert PartOf(h) == PartOf(g);
    assert Consecutive(h.records, next + 1);
  }

  lemma {:induction false} EnactOk(g: View, tables: Pages, overlay: map<Page, Logged>, next: nat, p: Page)
    requires LogOk(g, tables, overlay, next) && p in NextWrites(g)
    ensures LogOk(g.(part := g.part + {p}, unsynced := g.unsynced + {p}), tables[p := NextWrites(g)[p]], overlay, next)
  {
    hide OverlayOf, Fold, Touched;
    var h, base := g.(part := g.part + {p}, unsynced := g.unsynced + {p}), Fold(g.floor, g.records[..g.enacted]);
    assert base + PartOf(h) == (base + PartOf(g))[p := NextWrites(g)[p]];
  }

  lemma {:induction false} EndOk(g: View, tables: Pages, overlay: map<Page, Logged>, next: nat)
    requires LogOk(g, tables, overlay, next) && g.enacted < |g.records| && g.part == NextWrites(g).Keys
    ensures LogOk(g.(enacted := g.enacted + 1, part := {}), tables, Unless(overlay, g.part, g.records[g.enacted].id),
      next)
  {
    hide Fold, OverlayOf, Touched, Unless;
    var h, rest, r := g.(enacted := g.enacted + 1, part := {}), g.records[g.enacted..], g.records[g.enacted];
    assert Consecutive(rest, next);
    assert rest[0] == r && rest[1..] == g.records[g.enacted + 1..];
    OverlayEnd(rest, next);
    OneApplied(g.floor, g.records[..g.enacted], r);
    TouchedOne(g.records[g.settled..g.enacted], r);
    assert g.records[..g.enacted + 1] == g.records[..g.enacted] + [r];
    assert g.records[g.settled..g.enacted + 1] == g.records[g.settled..g.enacted] + [r];
    assert PartOf(g) == r.writes && PartOf(h) == map[];
    var base := Fold(g.floor, g.records[..g.enacted + 1]);
    assert base + map[] == base;
  }

  lemma TouchedOne(records: seq<Record>, r: Record)
    ensures Touched(records + [r]) == Touched(records) + r.writes.Keys
  {
    assert (records + [r])[..|records|] == records;
  }

  /**
   A table flush covers what was enacted before it, except on the pages it misses:
   `HashColumn::flush` leaves out the indexes that wait in the reindex queue.
   */
  lemma {:induction false} FlushOk(
    g: View, tables: Pages, overlay: map<Page, Logged>, next: nat, settled: nat, missed: set<Page>)
    requires LogOk(g, tables, overlay, next) && settled <= g.enacted
    ensures LogOk(Synced(g, settled, missed), tables, overlay, next)
  {
    hide OverlayOf, Fold, Touched;
    assert PartOf(Synced(g, settled, missed)) == PartOf(g);
  }

  function Synced(g: View, settled: nat, missed: set<Page>): View {
    g.(settled := settled, unsynced := g.unsynced * missed, missed := g.unsynced * missed)
  }

  /** A new cleanup starts without a flush to rely on. */
  lemma {:induction false} UnsettleOk(g: View, tables: Pages, overlay: map<Page, Logged>, next: nat)
    requires LogOk(g, tables, overlay, next)
    ensures LogOk(g.(settled := 0), tables, overlay, next)
  {
    hide OverlayOf, Fold;
    assert PartOf(g.(settled := 0)) == PartOf(g);
    var e := g.records[0..g.enacted];
    FoldSplit(map[], e, g.settled);
    assert e[g.settled..] == g.records[g.settled..g.enacted];
  }

  /** The view without its first `n` records. */
  ghost function Truncated(g: View, n: nat): View
    requires n <= g.settled <= g.enacted <= |g.records|
  {
    g.(floor := Fold(g.floor, g.records[..n]), records := g.records[n..], enacted := g.enacted - n,
    settled := g.settled - n)
  }

  lemma {:induction false} Slices(s: seq<Record>, n: nat, i: nat, j: nat)
    requires n <= i <= j <= |s|
    ensures s[n..][..j - n] == s[..j][n..] && s[n..][j - n..] == s[j..] && s[n..][i - n..j - n] == s[i..j]
    ensures s[..j][..n] == s[..n]
  {
  }

  /** Logs whose records are settled may go. */
  lemma {:induction false} TruncateOk(g: View, tables: Pages, overlay: map<Page, Logged>, next: nat, n: nat)
    requires LogOk(g, tables, overlay, next) && n <= g.settled
    ensures n <= g.settled <= g.enacted <= |g.records|
    ensures LogOk(Truncated(g, n), tables, overlay, next) && AllLogged(Truncated(g, n)) == AllLogged(g)
  {
    hide Fold, OverlayOf, Touched;
    var h := Truncated(g, n);
    FoldSplit(g.floor, g.records, n);
    FoldSplit(g.floor, g.records[..g.enacted], n);
    Slices(g.records, n, g.settled, g.enacted);
    assert NextWrites(h) == NextWrites(g);
    assert PartOf(h) == PartOf(g);
  }

  // ----- Crashes

  /** What replay is to restore, from the tables and from the records alike. */
  lemma {:induction false} ReplayTarget(
    g: View, tables: Pages, overlay: map<Page, Logged>, next: nat, m: nat)
    requires LogOk(g, tables, overlay, next)
    requires g.enacted <= m <= |g.records| && (g.part != {} ==> g.enacted < m)
    ensures Fold(tables, g.records[..m]) == Fold(g.floor, g.records[..m])
    ensures Touched(g.records[g.settled..g.enacted]) + g.part <= Touched(g.records[..m])
  {
    var kept, e, base := g.records[..m], g.records[..g.enacted], Fold(g.floor, g.records[..g.enacted]);
    PendingCoversPart(g.(records := kept));
    FoldSplit(map[], kept, g.enacted);
    FoldSplit(map[], e, g.settled);
    assert kept[..g.enacted] == e && e[g.settled..] == g.records[g.settled..g.enacted];
    hide OverlayOf, Touched;
    FoldOutside(g.floor, e);
    PartIsInside(base, g);
    InsideTwice(tables, base, g.floor, g.part, Touched(e), Touched(kept));
    ReplayIsExact(tables, g.floor, kept);
  }

  lemma {:induction false} InsideTwice(
    a: Pages, b: Pages, c: Pages, s: set<Page>, t: set<Page>, all: set<Page>)
    requires SameOutside(a, b, s) && SameOutside(b, c, t) && s <= all && t <= all
    ensures SameOutside(a, c, all)
  {
    assert a - all == (a - s) - all && b - all == (b - s) - all == (b - t) - all && c - all == (c - t) - all;
  }

  /** Pages that differ and that no record writes still differ after the records are replayed. */
  lemma {:induction false} FoldKeepsDifference(a: Pages, b: Pages, records: seq<Record>, p: Page)
    requires p !in Touched(records) && p in b && (p !in a || a[p] != b[p])
    ensures Fold(a, records) != Fold(b, records)
  {
    FoldOutside(a, records);
    FoldOutside(b, records);
    hide Fold;
    var t, x, y := Touched(records), Fold(a, records), Fold(b, records);
    assert p in y - t && (y - t)[p] == (b - t)[p];
    assert p in x - t <==> p in a - t;
    assert p in x - t ==> (x - t)[p] == (a - t)[p];
  }

  /** Whatever a crash leaves on the pages that were not flushed, replaying the first `m` records mends it. */
  ghost predicate CrashMended(g: View, tables: Pages, m: nat)
    requires m <= |g.records|
  {
    forall survived :: SameOutside(survived, tables, g.unsynced) ==>
      Fold(survived, g.records[..m]) == Fold(g.floor, g.records[..m])
  }

  /** A crash is mended exactly when the surviving records write every page that was not flushed. */
  lemma {:induction false} CrashIsMended(
    g: View, tables: Pages, overlay: map<Page, Logged>, next: nat, m: nat)
    requires LogOk(g, tables, overlay, next)
    requires g.enacted <= m <= |g.records| && (g.part != {} ==> g.enacted < m)
    ensures CrashMended(g, tables, m) <==> g.unsynced <= Touched(g.records[..m])
  {
    hide Fold, Touched, OverlayOf;
    var kept := g.records[..m];
    ReplayTarget(g, tables, overlay, next, m);
    if g.unsynced <= Touched(kept) {
      forall survived | SameOutside(survived, tables, g.unsynced)
        ensures Fold(survived, kept) == Fold(g.floor, kept)
      {
        InsideTwice(survived, tables, tables, g.unsynced, {}, Touched(kept));
        ReplayIsExact(survived, tables, kept);
      }
    } else {
      var p :| p in g.unsynced && p !in Touched(kept);
      var survived := tables[p := if p in tables then tables[p] + [0] else []];
      assert SameOutside(survived, tables, g.unsynced);
      FoldKeepsDifference(tables, survived, kept, p);
      assert !CrashMended(g, tables, m);
    }
  }

  /** Only pages that a flush missed can be beyond repair. */
  lemma {:induction false} OnlyMissedMatter(
    g: View, tables: Pages, overlay: map<Page, Logged>, next: nat, m: nat)
    requires LogOk(g, tables, overlay, next)
    requires g.enacted <= m <= |g.records| && (g.part != {} ==> g.enacted < m)
    ensures g.unsynced <= Touched(g.records[..m]) <==> g.missed <= Touched(g.records[..m])
  {
    ReplayTarget(g, tables, overlay, next, m);
  }

  /**
   A flush that misses pages, and the truncation of `n` records it covers: a crash after that is
   mended exactly when the records that stay write again every missed page that was not yet on disk.
   */
  lemma {:induction false} PartialFlush(
    g: View, tables: Pages, overlay: map<Page, Logged>, next: nat, settled: nat, missed: set<Page>, n: nat, m: nat)
    requires LogOk(g, tables, overlay, next) && n <= settled <= g.enacted
    requires g.enacted <= m <= |g.records| && (g.part != {} ==> g.enacted < m)
    ensures var h := Truncated(Synced(g, settled, missed), n);
      && LogOk(h, tables, overlay, next)
      && (CrashMended(h, tables, m - n) <==> g.unsynced * missed <= Touched(g.records[n..m]))
  {
    hide Fold, Touched, OverlayOf, LogOk, CrashMended;
    var g1 := Synced(g, settled, missed);
    FlushOk(g, tables, overlay, next, settled, missed);
    TruncateOk(g1, tables, overlay, next, n);
    var h := Truncated(g1, n);
    CrashIsMended(h, tables, overlay, next, m - n);
    OnlyMissedMatter(h, tables, overlay, next, m - n);
    assert h.records[..m - n] == g.records[n..m];
  }
}
