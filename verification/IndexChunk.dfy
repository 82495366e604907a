/**
 A chunk of index entries: the plain scan, the search four entries at a time, the lookup loop on
 top of either, and the changes to a chunk as the log records them.
 */
module IndexChunk {
  import opened Keys
  import opened IndexEntry

  type Chunk = seq<nat>

  ghost predicate GoodChunk(c: Chunk) {
    |c| == CHUNK_ENTRIES && forall i :: 0 <= i < |c| ==> c[i] < WORD
  }

  function EmptyChunk(): (c: Chunk)
    ensures GoodChunk(c) && forall i :: 0 <= i < |c| ==> c[i] == 0
  {
    seq(CHUNK_ENTRIES, _ => 0)
  }

  // ----- Search

  predicate Matches(e: nat, prefix: nat, bits: nat) {
    PartialKey(e, bits) == ExtractKey(prefix, bits) && e != 0
  }

  /** `(entry, at)` is the first entry from `from` on that a search sees, or `(0, 0)` when there is none. */
  ghost predicate FirstFrom(c: Chunk, fast: bool, prefix: nat, bits: nat, from: nat, entry: nat, at: nat) {
    if entry == 0 then at == 0 && forall i :: from <= i < |c| ==> !Sees(fast, prefix, bits, c[i])
    else from <= at < |c| && c[at] == entry && Sees(fast, prefix, bits, entry) && forall i :: from <= i < at ==>
      !Sees(fast, prefix, bits, c[i])
  }

  /** `find_entry_base`. */
  method FindEntryBase(prefix: nat, from: nat, c: Chunk, bits: nat) returns (entry: nat, at: nat)
    requires GoodChunk(c) && from <= CHUNK_ENTRIES
    ensures FirstFrom(c, false, prefix, bits, from, entry, at)
  {
    hide PartialKey, ExtractKey;
    var i := from;
    while i < CHUNK_ENTRIES
      invariant from <= i <= CHUNK_ENTRIES && forall j :: from <= j < i ==> !Matches(c[j], prefix, bits)
    {
      if Matches(c[i], prefix, bits) {
        return c[i], i;
      }
      i := i + 1;
    }
    entry, at := 0, 0;
  }

  /** Bits of an entry, or of a prefix, that the four-lane search compares. */
  function LaneShift(bits: nat): nat {
    if AddressBits(bits) > 32 then AddressBits(bits) else 32
  }

  function LaneKey(prefix: nat, bits: nat): nat {
    Shr(Shl(prefix, bits), LaneShift(bits))
  }

  function Lane(e: nat, bits: nat): nat {
    Shr(e, LaneShift(bits)) % 0x1_0000_0000
  }

  /** What a search sees: the plain scan a match, the fast one an equal lane unless the lane key is zero. */
  predicate Sees(fast: bool, prefix: nat, bits: nat, e: nat) {
    if !fast || LaneKey(prefix, bits) == 0 then Matches(e, prefix, bits)
    else Lane(e, bits) == LaneKey(prefix, bits) % 0x1_0000_0000
  }

  /** Place of the first set lane. */
  function FirstLane(s: seq<bool>): (n: nat)
    ensures n <= |s| && (forall i :: 0 <= i < n ==> !s[i]) && (n < |s| ==> s[n])
  {
    if s == [] || s[0] then 0 else 1 + FirstLane(s[1..])
  }

  ghost predicate LaneFirst(c: Chunk, bits: nat, target: nat, from: nat, entry: nat, at: nat) {
    if entry == 0 then at == 0 && forall i :: from <= i < |c| ==> Lane(c[i], bits) != target
    else from <= at < |c| && c[at] == entry && Lane(entry, bits) == target && forall i :: from <= i < at ==>
      Lane(c[i], bits) != target
  }

  /** Groups of four entries, from the group that holds `from`; lanes before `from` are skipped. */
  method ScanLanes(target: nat, from: nat, c: Chunk, bits: nat) returns (entry: nat, at: nat)
    requires |c| == CHUNK_ENTRIES && from <= CHUNK_ENTRIES && target != 0
    ensures LaneFirst(c, bits, target, from, entry, at)
  {
    hide Lane, FirstLane;
    var i, skip := from / 4 * 4, from % 4;
    Aligned(from);
    while i + 4 <= CHUNK_ENTRIES
      invariant Aligns(i, skip) && from <= i + skip
      invariant forall j :: from <= j < i + skip ==> Lane(c[j], bits) != target
    {
      var hit := FirstOfFour(target, c, bits, i, skip);
      if hit < 4 - skip {
        NonZeroLane(c[i + skip + hit], bits);
        return c[i + skip + hit], i + skip + hit;
      }
      AlignsNext(i, skip);
      i, skip := i + 4, 0;
    }
    entry, at := 0, 0;
  }

  lemma AlignsNext(i: nat, skip: nat)
    requires Aligns(i, skip) && i + 4 <= CHUNK_ENTRIES
    ensures Aligns(i + 4, 0)
  {
    var n: nat :| i == 4 * n;
    assert i + 4 == 4 * (n + 1);
  }

  /** `i` starts a group of four, or is the end. */
  ghost predicate Aligns(i: int, skip: int) {
    exists n: nat :: i == 4 * n && i <= CHUNK_ENTRIES && 0 <= skip < 4 && (skip > 0 ==> i + 4 <= CHUNK_ENTRIES)
  }

  lemma Aligned(from: nat)
    requires from <= CHUNK_ENTRIES
    ensures from / 4 * 4 + from % 4 == from && Aligns(from / 4 * 4, from % 4)
  {
    var n := from / 4;
    assert from / 4 * 4 == 4 * n;
  }

  /** How far the first equal lane of a group is from `skip`. */
  method FirstOfFour(target: nat, c: Chunk, bits: nat, i: nat, skip: nat) returns (hit: nat)
    requires |c| == CHUNK_ENTRIES && i + 4 <= CHUNK_ENTRIES && skip < 4
    ensures hit <= 4 - skip && forall j :: i + skip <= j < i + skip + hit ==> Lane(c[j], bits) != target
    ensures hit < 4 - skip ==> Lane(c[i + skip + hit], bits) == target
  {
    hide Lane, FirstLane;
    var lanes := seq(4, j requires 0 <= j < 4 => Lane(c[i + j], bits) == target);
    hit := FirstLane(lanes[skip..]);
    LanesFrom(c, bits, target, i, skip, lanes, hit);
  }

  /** `find_entry_sse2`. */
  method FindEntryFast(prefix: nat, from: nat, c: Chunk, bits: nat) returns (entry: nat, at: nat)
    requires GoodBits(bits) && GoodChunk(c) && from <= CHUNK_ENTRIES && prefix < WORD
    ensures FirstFrom(c, true, prefix, bits, from, entry, at)
  {
    hide Lane, LaneKey, Matches;
    var key := LaneKey(prefix, bits);
    if key == 0 {
      entry, at := FindEntryBase(prefix, from, c, bits);
    } else {
      LaneKeyFits(prefix, bits);
      entry, at := ScanLanes(key % 0x1_0000_0000, from, c, bits);
    }
  }

  lemma LanesFrom(c: Chunk, bits: nat, target: nat, i: nat, skip: nat, lanes: seq<bool>, hit: nat)
    requires |c| == CHUNK_ENTRIES && i + 4 <= CHUNK_ENTRIES && skip < 4 && |lanes| == 4
    requires hit == FirstLane(lanes[skip..])
    requires forall j :: 0 <= j < 4 ==> lanes[j] == (Lane(c[i + j], bits) == target)
    ensures hit <= 4 - skip && forall j :: i + skip <= j < i + skip + hit ==> Lane(c[j], bits) != target
    ensures hit < 4 - skip ==> Lane(c[i + skip + hit], bits) == target
  {
    hide Lane;
    var rest := lanes[skip..];
    forall j | i + skip <= j < i + skip + hit
      ensures Lane(c[j], bits) != target
    {
      assert !rest[j - i - skip] && rest[j - i - skip] == lanes[j - i] == (Lane(c[i + (j - i)], bits) == target);
    }
    if hit < 4 - skip {
      assert rest[hit] && rest[hit] == lanes[skip + hit] == (Lane(c[i + (skip + hit)], bits) == target);
    }
  }

  lemma NonZeroLane(e: nat, bits: nat)
    ensures e == 0 ==> Lane(e, bits) == 0
  {
    if e == 0 {
      DivIs(0, Pow2(LaneShift(bits)), 0, 0);
    }
  }

  /** The lane key fits 32 bits. */
  lemma {:induction false} LaneKeyFits(prefix: nat, bits: nat)
    requires GoodBits(bits) && prefix < WORD
    ensures LaneKey(prefix, bits) < 0x1_0000_0000
  {
    LaneFits(Shl(prefix, bits), bits);
  }

  lemma {:induction false} LaneFits(x: nat, bits: nat)
    requires GoodBits(bits) && x < WORD
    ensures Shr(x, LaneShift(bits)) < 0x1_0000_0000
  {
    var s := LaneShift(bits);
    Pow2Values();
    Pow2Add(s - 32, 32);
    Pow2Add(32, 64 - s);
    Pow2Add(s, 64 - s);
    Pow2Add(s - 32, 64 - s);
    assert Pow2(s) * Pow2(64 - s) == WORD;
    Quotient(x, Pow2(s), Pow2(64 - s));
    assert Pow2(64 - s) <= 0x1_0000_0000 by {
      assert Pow2(s - 32) * Pow2(64 - s) == 0x1_0000_0000;
      MulMore(Pow2(s - 32), Pow2(64 - s));
    }
  }

  /** At 18 or more index bits the lanes hold the whole partial key. */
  lemma {:induction false} FastIsBase(e: nat, prefix: nat, bits: nat)
    requires GoodBits(bits) && bits >= 18 && e < WORD && prefix < WORD
    ensures Sees(true, prefix, bits, e) == Matches(e, prefix, bits)
  {
    assert LaneShift(bits) == AddressBits(bits);
    LaneKeyFits(prefix, bits);
    LaneFits(e, bits);
    NonZeroLane(e, bits);
    hide Shr, Shl;
  }

  /** At every size the search sees each entry that the plain scan sees. */
  lemma {:induction false} FastCovers(e: nat, prefix: nat, bits: nat)
    requires GoodBits(bits) && e < WORD && prefix < WORD && Matches(e, prefix, bits)
    ensures Sees(true, prefix, bits, e)
  {
    if bits >= 18 {
      FastIsBase(e, prefix, bits);
    } else {
      LaneKeyFits(prefix, bits);
      Coarser(e, Shl(prefix, bits), AddressBits(bits), 32);
      hide Shr, Shl;
    }
  }

  lemma {:induction false} Coarser(x: nat, y: nat, m: nat, n: nat)
    requires m <= n && Shr(x, m) == Shr(y, m)
    ensures Shr(x, n) == Shr(y, n)
  {
    Pow2Add(m, n - m);
    DivTwice(x, Pow2(m), Pow2(n - m));
    DivTwice(y, Pow2(m), Pow2(n - m));
    assert m + (n - m) == n;
  }

  /** The four-lane search and the plain scan find the same entry, at 18 or more index bits. */
  lemma {:induction false} SameSearch(c: Chunk, prefix: nat, bits: nat, from: nat, e: nat, at: nat, f: nat, to: nat)
    requires GoodBits(bits) && bits >= 18 && GoodChunk(c) && prefix < WORD
    requires FirstFrom(c, true, prefix, bits, from, e, at) && FirstFrom(c, false, prefix, bits, from, f, to)
    ensures e == f && at == to
  {
    hide Sees, Matches;
    forall i | 0 <= i < |c|
      ensures Sees(true, prefix, bits, c[i]) == Sees(false, prefix, bits, c[i])
    {
      FastIsBase(c[i], prefix, bits);
      BaseIs(c[i], prefix, bits);
    }
  }

  /** At 16 index bits the lanes leave out the two lowest bits of the partial key. */
  lemma DifferAt16()
    ensures var p, e := 0x0000_8000_0000_0000, 0x8000_0000_4000_0001; Sees(true, p, 16, e) && !Sees(false, p, 16, e)
  {
    hide Pow2;
    Pow2Values();
    Pow2Add(16, 14);
    var p, e := 0x0000_8000_0000_0000, 0x8000_0000_4000_0001;
    assert AddressBits(16) == 30 && LaneShift(16) == 32 && Pow2(30) == 0x4000_0000;
    assert Shl(p, 16) == 0x8000_0000_0000_0000;
    assert ExtractKey(p, 16) == 0x2_0000_0000 && PartialKey(e, 16) == 0x2_0000_0001;
    assert LaneKey(p, 16) == 0x8000_0000 && Lane(e, 16) == 0x8000_0000;
  }

  lemma Pow2Of17()
    ensures Pow2(17) == 0x2_0000 && Pow2(31) == 0x8000_0000
  {
    hide Pow2;
    Pow2Values();
    Pow2Of1();
    Pow2Add(16, 1);
    Pow2Add(17, 14);
  }

  /** At 17 index bits they leave out the lowest one. */
  lemma DifferAt17()
    ensures var p, e := 0x0000_4000_0000_0000, 0x8000_0000_8000_0001; Sees(true, p, 17, e) && !Sees(false, p, 17, e)
  {
    hide Pow2;
    Pow2Values();
    Pow2Of17();
    var p, e := 0x0000_4000_0000_0000, 0x8000_0000_8000_0001;
    assert AddressBits(17) == 31 && LaneShift(17) == 32;
    assert Shl(p, 17) == 0x8000_0000_0000_0000;
    assert ExtractKey(p, 17) == 0x1_0000_0000 && PartialKey(e, 17) == 0x1_0000_0001;
    assert LaneKey(p, 17) == 0x8000_0000 && Lane(e, 17) == 0x8000_0000;
  }

  lemma BaseIs(e: nat, prefix: nat, bits: nat)
    ensures Sees(false, prefix, bits, e) == Matches(e, prefix, bits)
  {
  }

  /** The two searches see the same entries exactly from 18 index bits on. */
  lemma {:induction false} SearchesAgree(bits: nat)
    requires GoodBits(bits)
    ensures (forall e: nat, prefix: nat :: e < WORD && prefix < WORD ==>
        Sees(true, prefix, bits, e) == Sees(false, prefix, bits, e)) <==> bits >= 18
  {
    hide Sees;
    if bits >= 18 {
      forall e: nat, prefix: nat | e < WORD && prefix < WORD
        ensures Sees(true, prefix, bits, e) == Sees(false, prefix, bits, e)
      {
        FastIsBase(e, prefix, bits);
        BaseIs(e, prefix, bits);
      }
    } else if bits == 16 {
      DifferAt16();
    } else {
      DifferAt17();
    }
  }

  // ----- Lookup

  /** Entry `i` matches, and its slot is one of those that hold the key. */
  ghost predicate Hit(c: Chunk, prefix: nat, bits: nat, holders: set<nat>, i: nat) {
    i < |c| && Matches(c[i], prefix, bits) && AddressOf(c[i], bits) in holders
  }

  ghost predicate LookupIs(c: Chunk, prefix: nat, bits: nat, holders: set<nat>, r: Option<(nat, nat)>) {
    && (r.None? ==> forall i :: 0 <= i < |c| ==> !Hit(c, prefix, bits, holders, i))
    && (r.Some? ==>
      && Hit(c, prefix, bits, holders, r.value.0) && r.value.1 == AddressOf(c[r.value.0], bits)
      && forall i :: 0 <= i < r.value.0 ==> !Hit(c, prefix, bits, holders, i))
  }

  /** Each entry's slot holds the key that the entry was made for, so the key check settles the match. */
  ghost predicate CheckDecides(c: Chunk, prefix: nat, bits: nat, holders: set<nat>) {
    forall i :: 0 <= i < |c| && c[i] != 0 && AddressOf(c[i], bits) in holders ==> Matches(c[i], prefix, bits)
  }

  method FindEntry(fast: bool, prefix: nat, from: nat, c: Chunk, bits: nat) returns (entry: nat, at: nat)
    requires GoodBits(bits) && GoodChunk(c) && from <= CHUNK_ENTRIES && prefix < WORD
    ensures FirstFrom(c, fast, prefix, bits, from, entry, at)
  {
    if fast {
      entry, at := FindEntryFast(prefix, from, c, bits);
    } else {
      entry, at := FindEntryBase(prefix, from, c, bits);
    }
  }

  /**
   The loop of `get_in_index` and `search_index`: entry after entry until one's slot has the key.
   Whichever search is used, a hit is not missed and what is returned is a slot that has the key;
   when the key check settles the match, both return the first hit.
   */
  method Lookup(fast: bool, prefix: nat, c: Chunk, bits: nat, holders: set<nat>) returns (r: Option<(nat, nat)>)
    requires GoodBits(bits) && GoodChunk(c) && prefix < WORD
    ensures r.None? ==> forall i :: 0 <= i < |c| ==> !Hit(c, prefix, bits, holders, i)
    ensures r.Some? ==> r.value.0 < |c| && r.value.1 == AddressOf(c[r.value.0], bits) && r.value.1 in holders
    ensures !fast || CheckDecides(c, prefix, bits, holders) ==> LookupIs(c, prefix, bits, holders, r)
  {
    hide Sees, Matches, GoodChunk;
    EveryMatchSeen(c, prefix, bits, fast);
    ChunkSize(c);
    ghost var n := 0;
    var entry, at := FindEntry(fast, prefix, 0, c, bits);
    while entry != 0
      invariant n <= |c| && FirstFrom(c, fast, prefix, bits, n, entry, at)
      invariant forall i :: 0 <= i < n ==> !Hit(c, prefix, bits, holders, i)
      decreases |c| - n
    {
      NoHits(c, prefix, bits, holders, fast, n, at);
      var address := AddressOf(entry, bits);
      if address in holders {
        MatchedBase(c, prefix, bits, fast, at);
        return Some((at, address));
      }
      n := at + 1;
      entry, at := FindEntry(fast, prefix, at + 1, c, bits);
    }
    NoHits(c, prefix, bits, holders, fast, n, |c|);
    r := None;
  }

  lemma NoHits(c: Chunk, prefix: nat, bits: nat, holders: set<nat>, fast: bool, n: nat, m: nat)
    requires n <= m <= |c| && (forall i :: n <= i < m ==> !Sees(fast, prefix, bits, c[i]))
      && forall i :: 0 <= i < |c| && Matches(c[i], prefix, bits) ==> Sees(fast, prefix, bits, c[i])
    ensures forall i :: n <= i < m ==> !Hit(c, prefix, bits, holders, i)
  {
    hide Matches, Sees;
  }

  lemma ChunkSize(c: Chunk)
    requires GoodChunk(c)
    ensures |c| == CHUNK_ENTRIES
  {
  }

  lemma {:induction false} EveryMatchSeen(c: Chunk, prefix: nat, bits: nat, fast: bool)
    requires GoodBits(bits) && GoodChunk(c) && prefix < WORD
    ensures forall i :: 0 <= i < |c| && Matches(c[i], prefix, bits) ==> Sees(fast, prefix, bits, c[i])
  {
    forall i | 0 <= i < |c| && Matches(c[i], prefix, bits)
      ensures Sees(true, prefix, bits, c[i])
    {
      FastCovers(c[i], prefix, bits);
    }
  }

  lemma MatchedBase(c: Chunk, prefix: nat, bits: nat, fast: bool, at: nat)
    requires at < |c| && (!fast ==> Sees(fast, prefix, bits, c[at]))
    ensures !fast ==> Matches(c[at], prefix, bits)
  {
  }
}
