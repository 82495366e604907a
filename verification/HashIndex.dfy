/**
 The index of a hash column while it grows: a main index, older ones whose entries are moved over
 chunk by chunk, and lookups through all of them.
 */
module HashIndex {
  import opened Keys
  import opened IndexEntry
  import opened IndexChunk
  import opened IndexLog

  datatype IndexTable = IndexTable(bits: nat, chunks: map<nat, Chunk>)

  /** A chunk that was never written is empty. */
  function ChunkAt(t: IndexTable, i: nat): Chunk {
    if i in t.chunks then t.chunks[i] else EmptyChunk()
  }

  ghost predicate TableOk(t: IndexTable) {
    GoodBits(t.bits) && forall i :: i in t.chunks ==> GoodChunk(t.chunks[i]) && Addressed(t.chunks[i], t.bits)
  }

  /** No entry in use has address zero. */
  ghost predicate Addressed(c: Chunk, bits: nat) {
    forall i :: 0 <= i < |c| && c[i] != 0 ==> AddressOf(c[i], bits) > 0
  }

  lemma ChunkIsGood(t: IndexTable, i: nat)
    requires TableOk(t)
    ensures GoodChunk(ChunkAt(t, i)) && Addressed(ChunkAt(t, i), t.bits)
  {
  }

  /** The table has an entry for this prefix at this address. */
  ghost predicate Has(t: IndexTable, prefix: nat, address: nat) {
    GoodBits(t.bits) && address < AddressLimit(t.bits)
    && EntryFor(prefix, address, t.bits) in ChunkAt(t, ChunkIndex(prefix, t.bits))
  }

  function WithChunk(t: IndexTable, i: nat, c: Chunk): IndexTable {
    t.(chunks := t.chunks[i := c])
  }

  /** A changed entry hides nothing but what it stood for. */
  lemma {:induction false} HasStill(t: IndexTable, i: nat, at: nat, e: nat, prefix: nat, address: nat)
    requires TableOk(t) && at < CHUNK_ENTRIES && Has(t, prefix, address)
    requires i == ChunkIndex(prefix, t.bits) ==> ChunkAt(t, i)[at] != EntryFor(prefix, address, t.bits)
    ensures Has(WithChunk(t, i, ChunkAt(t, i)[at := e]), prefix, address)
  {
    hide EntryFor, ChunkIndex, AddressLimit;
    var j := ChunkIndex(prefix, t.bits);
    var c := ChunkAt(t, j);
    var n :| 0 <= n < |c| && c[n] == EntryFor(prefix, address, t.bits);
    if i == j {
      assert c[at := e][n] == EntryFor(prefix, address, t.bits);
    }
  }

  lemma {:induction false} WithChunkOk(t: IndexTable, i: nat, c: Chunk)
    requires TableOk(t) && GoodChunk(c) && Addressed(c, t.bits)
    ensures TableOk(WithChunk(t, i, c))
  {
    hide GoodChunk, Addressed;
  }

  lemma ChunkChanged(c: Chunk, bits: nat, at: nat, e: nat)
    requires GoodChunk(c) && Addressed(c, bits) && at < CHUNK_ENTRIES && e < WORD && (e != 0 ==> AddressOf(e, bits) > 0)
    ensures GoodChunk(c[at := e]) && Addressed(c[at := e], bits)
  {
    hide AddressOf;
  }

  /** Entries at different addresses differ, and none is the empty entry. */
  lemma {:induction false} EntriesDiffer(p: nat, a: nat, q: nat, b: nat, bits: nat)
    requires GoodBits(bits) && p < WORD && q < WORD && a < AddressLimit(bits) && b < AddressLimit(bits)
    ensures a != b ==> EntryFor(p, a, bits) != EntryFor(q, b, bits)
    ensures a != 0 ==> EntryFor(p, a, bits) != 0
  {
    EntryReads(p, a, bits);
    EntryReads(q, b, bits);
    hide EntryFor, ExtractKey;
    ZeroAddress(bits);
  }

  lemma ZeroAddress(bits: nat)
    ensures AddressOf(0, bits) == 0
  {
    DivIs(0, AddressLimit(bits), 0, 0);
  }

  /** An entry matches a prefix and has an address exactly when it is the entry for both. */
  lemma {:induction false} MatchIsEntry(e: nat, prefix: nat, address: nat, bits: nat)
    requires GoodBits(bits) && prefix < WORD && 0 < address < AddressLimit(bits)
    ensures e == EntryFor(prefix, address, bits) <==> Matches(e, prefix, bits) && AddressOf(e, bits) == address
  {
    EntryReads(prefix, address, bits);
    EntriesDiffer(prefix, address, prefix, address, bits);
    if Matches(e, prefix, bits) && AddressOf(e, bits) == address {
      assert e == PartialKey(e, bits) * AddressLimit(bits) + address;
    }
    hide EntryFor, ExtractKey;
  }

  /**
   `search_index` and `get_in_index`: `holders` are the slots whose stored key bytes agree with the
   key, so none or the one where the key lives. With either search the entry of a live key is not
   missed, and what is found is where the key lives; the plain scan finds it exactly when the table
   has its entry, and finds that entry.
   */
  method SearchIndex(fast: bool, t: IndexTable, prefix: nat, holders: set<nat>, ghost address: nat)
    returns (r: Option<(nat, nat)>)
    requires TableOk(t) && prefix < WORD && address > 0 && (holders == {} || holders == {address})
    ensures holders != {} && Has(t, prefix, address) ==> r.Some?
    ensures r.Some? ==> holders != {} && r.value.1 == address < AddressLimit(t.bits)
    ensures !fast && r.Some? ==> Has(t, prefix, address) && EntryAt(t, prefix, address, r.value.0)
  {
    hide EntryFor, ChunkIndex, AddressLimit, Matches, AddressOf, LookupIs, EntryAt, Has, Hit;
    var i := ChunkIndex(prefix, t.bits);
    ChunkIsGood(t, i);
    r := Lookup(fast, prefix, ChunkAt(t, i), t.bits, holders);
    SearchIs(t, prefix, holders, address, r);
    if r.Some? {
      AddressFits(ChunkAt(t, i)[r.value.0], t.bits);
    }
  }

  /** Entry `n` of the key's chunk is the entry of this prefix at this address. */
  ghost predicate EntryAt(t: IndexTable, prefix: nat, address: nat, n: nat) {
    && GoodBits(t.bits) && address < AddressLimit(t.bits)
    && n < |ChunkAt(t, ChunkIndex(prefix, t.bits))| == CHUNK_ENTRIES
    && ChunkAt(t, ChunkIndex(prefix, t.bits))[n] == EntryFor(prefix, address, t.bits)
  }

  lemma {:induction false} SearchIs(t: IndexTable, prefix: nat, holders: set<nat>, address: nat, l: Option<(nat, nat)>)
    requires TableOk(t) && prefix < WORD && address > 0 && (holders == {} || holders == {address})
    ensures var c := ChunkAt(t, ChunkIndex(prefix, t.bits));
      && (l.None? && (forall i :: 0 <= i < |c| ==> !Hit(c, prefix, t.bits, holders, i)) ==>
        holders == {} || !Has(t, prefix, address))
      && (LookupIs(c, prefix, t.bits, holders, l) && l.Some? ==>
        Has(t, prefix, address) && EntryAt(t, prefix, address, l.value.0))
  {
    hide EntryFor, ChunkIndex, Matches;
    var i := ChunkIndex(prefix, t.bits);
    var c := ChunkAt(t, i);
    ChunkIsGood(t, i);
    if Has(t, prefix, address) {
      var n :| 0 <= n < |c| && c[n] == EntryFor(prefix, address, t.bits);
      MatchIsEntry(c[n], prefix, address, t.bits);
      assert holders != {} ==> Hit(c, prefix, t.bits, holders, n);
    }
    if LookupIs(c, prefix, t.bits, holders, l) && l.Some? {
      assert Hit(c, prefix, t.bits, holders, l.value.0);
      AddressFits(c[l.value.0], t.bits);
      MatchIsEntry(c[l.value.0], prefix, address, t.bits);
    }
  }

  lemma AddressFits(e: nat, bits: nat)
    ensures AddressOf(e, bits) < AddressLimit(bits)
  {
  }

  // ----- All indexes of a column

  /** Some index other than an already moved chunk of the oldest one has the entry. */
  ghost predicate Reached(index: IndexTable, queue: seq<IndexTable>, progress: nat, prefix: nat, address: nat) {
    Has(index, prefix, address) || exists j :: Waiting(queue, progress, prefix, address, j)
  }

  ghost predicate Waiting(queue: seq<IndexTable>, progress: nat, prefix: nat, address: nat, j: nat) {
    j < |queue| && Has(queue[j], prefix, address) && (j == 0 ==> ChunkIndex(prefix, queue[j].bits) >= progress)
  }

  /** The keys of the value slots: whole keys, no two with the same stored bytes. */
  ghost predicate SlotsOk(slots: map<nat, Bytes>) {
    && (forall a :: a in slots ==> a > 0 && IsKey(slots[a]))
    && (forall a, b :: a in slots && b in slots && slots[a][6..] == slots[b][6..] ==> a == b)
  }

  /** No live key but the key itself has its last 26 bytes. */
  ghost predicate Distinct(slots: map<nat, Bytes>, key: Bytes)
    requires SlotsOk(slots) && IsKey(key)
  {
    forall a :: a in slots && slots[a][6..] == key[6..] ==> slots[a] == key
  }

  /** All tables are in order, and the older ones are smaller. */
  ghost predicate TablesOk(index: IndexTable, queue: seq<IndexTable>) {
    TableOk(index) && forall j :: 0 <= j < |queue| ==> TableOk(queue[j]) && queue[j].bits < index.bits
  }

  /** Every live key can be found. */
  ghost predicate AllReached(index: IndexTable, queue: seq<IndexTable>, progress: nat, slots: map<nat, Bytes>)
    requires SlotsOk(slots)
  {
    forall a :: a in slots ==> Reached(index, queue, progress, PrefixOf(slots[a]), a)
  }

  lemma {:induction false} ReachedBy(
      index: IndexTable, queue: seq<IndexTable>, progress: nat, prefix: nat, address: nat, j: nat)
    requires TablesOk(index, queue) && Waiting(queue, progress, prefix, address, j)
    ensures Reached(index, queue, progress, prefix, address)
  {
  }

  /** The main index moves to the end of the queue and an empty one of twice the size takes its place. */
  lemma {:induction false} Grown(index: IndexTable, queue: seq<IndexTable>, progress: nat, prefix: nat, address: nat)
    requires TablesOk(index, queue) && index.bits < MAX_INDEX_BITS && (queue == [] ==> progress == 0)
    ensures TablesOk(IndexTable(index.bits + 1, map[]), queue + [index])
    ensures Reached(index, queue, progress, prefix, address) ==>
      Reached(IndexTable(index.bits + 1, map[]), queue + [index], progress, prefix, address)
  {
    hide Has, ChunkIndex, GoodChunk;
    var n, q := IndexTable(index.bits + 1, map[]), queue + [index];
    if Has(index, prefix, address) {
      assert q[|queue|] == index;
      assert Waiting(q, progress, prefix, address, |queue|);
    } else if Reached(index, queue, progress, prefix, address) {
      var j: nat :| Waiting(queue, progress, prefix, address, j);
      assert Waiting(q, progress, prefix, address, j);
    }
  }

  /** Whatever could be found before still can be, however far the move of the oldest index has come. */
  ghost predicate Keeps(index: IndexTable, queue: seq<IndexTable>, index': IndexTable, queue': seq<IndexTable>) {
    && queue <= queue'
    && forall g: nat, p: nat, b: nat ::
      p < WORD && b > 0 && (queue != [] || g == 0) && Reached(index, queue, g, p, b) ==>
        Reached(index', queue', g, p, b)
  }

  lemma {:induction false} KeepsTrans(
      i: IndexTable, q: seq<IndexTable>, i': IndexTable, q': seq<IndexTable>, i'': IndexTable, q'': seq<IndexTable>)
    requires Keeps(i, q, i', q') && Keeps(i', q', i'', q'')
    ensures Keeps(i, q, i'', q'') && q <= q''
  {
    hide Reached;
  }

  lemma KeepsSame(i: IndexTable, q: seq<IndexTable>)
    ensures Keeps(i, q, i, q)
  {
  }

  lemma {:induction false} GrownKeeps(index: IndexTable, queue: seq<IndexTable>)
    requires TablesOk(index, queue) && index.bits < MAX_INDEX_BITS
    ensures TablesOk(IndexTable(index.bits + 1, map[]), queue + [index])
    ensures Keeps(index, queue, IndexTable(index.bits + 1, map[]), queue + [index])
  {
    Grown(index, queue, 0, 0, 0);
    forall g: nat, p: nat, b: nat | p < WORD && b > 0 && (queue != [] || g == 0) && Reached(index, queue, g, p, b)
      ensures Reached(IndexTable(index.bits + 1, map[]), queue + [index], g, p, b)
    {
      Grown(index, queue, g, p, b);
    }
  }

  /** A new entry in an empty place hides nothing, and is there. */
  lemma {:induction false} InsertedKeeps(index: IndexTable, queue: seq<IndexTable>, prefix: nat, address: nat, at: nat)
    requires TablesOk(index, queue) && prefix < WORD && 0 < address < AddressLimit(index.bits) && at < CHUNK_ENTRIES
    requires ChunkAt(index, ChunkIndex(prefix, index.bits))[at] == 0
    ensures var i := ChunkIndex(prefix, index.bits);
      var t := WithChunk(index, i, ChunkAt(index, i)[at := EntryFor(prefix, address, index.bits)]);
      TableOk(t) && Has(t, prefix, address) && Keeps(index, queue, t, queue)
  {
    hide EntryFor, ChunkIndex, AddressLimit, Waiting;
    var i, e := ChunkIndex(prefix, index.bits), EntryFor(prefix, address, index.bits);
    var t := WithChunk(index, i, ChunkAt(index, i)[at := e]);
    EntryWritten(index, i, at, prefix, address);
    forall g: nat, p: nat, b: nat | p < WORD && b > 0 && Reached(index, queue, g, p, b)
      ensures Reached(t, queue, g, p, b)
    {
      if Has(index, p, b) {
        EntriesDiffer(p, b, p, b, index.bits);
        HasStill(index, i, at, e, p, b);
      }
    }
  }

  lemma {:induction false} EntryWritten(t: IndexTable, i: nat, at: nat, prefix: nat, address: nat)
    requires TableOk(t) && prefix < WORD && 0 < address < AddressLimit(t.bits) && at < CHUNK_ENTRIES
    requires i == ChunkIndex(prefix, t.bits)
    ensures var u := WithChunk(t, i, ChunkAt(t, i)[at := EntryFor(prefix, address, t.bits)]);
      TableOk(u) && Has(u, prefix, address)
  {
    var c, e := ChunkAt(t, i), EntryFor(prefix, address, t.bits);
    ChunkIsGood(t, i);
    EntryReads(prefix, address, t.bits);
    hide EntryFor, ChunkIndex, AddressLimit;
    ChunkChanged(c, t.bits, at, e);
    WithChunkOk(t, i, c[at := e]);
    assert c[at := e][at] == e;
  }

  ghost predicate ColumnOk(index: IndexTable, queue: seq<IndexTable>, progress: nat, slots: map<nat, Bytes>) {
    && TablesOk(index, queue) && SlotsOk(slots) && AllReached(index, queue, progress, slots)
    && (queue == [] ==> progress == 0)
  }

  lemma {:induction false} KeptColumn(
      index: IndexTable, queue: seq<IndexTable>, index': IndexTable, queue': seq<IndexTable>, progress: nat,
      slots: map<nat, Bytes>)
    requires ColumnOk(index, queue, progress, slots) && Keeps(index, queue, index', queue')
    ensures AllReached(index', queue', progress, slots)
  {
    hide Reached, PrefixOf;
    forall a | a in slots
      ensures Reached(index', queue', progress, PrefixOf(slots[a]), a)
    {
      assert Reached(index, queue, progress, PrefixOf(slots[a]), a);
    }
  }

  /** The address fits the largest index, and the index can grow or the chunk has an empty entry. */
  ghost predicate HasRoom(index: IndexTable, prefix: nat, address: nat)
    requires GoodBits(index.bits)
  {
    && address < AddressLimit(MAX_INDEX_BITS)
    && (index.bits < MAX_INDEX_BITS || !Full(ChunkAt(index, ChunkIndex(prefix, index.bits))))
  }

  /** How many entries of a chunk are in use. */
  function Used(c: Chunk): nat {
    if c == [] then 0 else Used(c[1..]) + if c[0] != 0 then 1 else 0
  }

  lemma {:induction false} UsedMore(c: Chunk, at: nat, e: nat)
    requires at < |c|
    ensures Used(c[at := e]) <= Used(c) + 1
  {
    if at > 0 {
      UsedMore(c[1..], at - 1, e);
      assert c[at := e][1..] == c[1..][at - 1 := e];
    } else {
      assert c[at := e][1..] == c[1..];
    }
  }

  lemma {:induction false} UsedFull(c: Chunk)
    ensures Full(c) ==> Used(c) == |c|
    ensures (forall i :: 0 <= i < |c| ==> c[i] == 0) ==> Used(c) == 0
  {
    if c != [] {
      UsedFull(c[1..]);
      assert Full(c) ==> Full(c[1..]) && c[0] != 0;
    }
  }

  /** No chunk has more than `n` entries in use. */
  ghost predicate Sparse(t: IndexTable, n: nat) {
    forall i :: Used(ChunkAt(t, i)) <= n
  }

  lemma {:induction false} SparseMore(t: IndexTable, n: nat, i: nat, at: nat, e: nat)
    requires Sparse(t, n) && at < |ChunkAt(t, i)|
    ensures Sparse(WithChunk(t, i, ChunkAt(t, i)[at := e]), n + 1)
  {
    hide Used;
    UsedMore(ChunkAt(t, i), at, e);
    var u := WithChunk(t, i, ChunkAt(t, i)[at := e]);
    forall j: nat
      ensures Used(ChunkAt(u, j)) <= n + 1
    {
      assert j != i ==> ChunkAt(u, j) == ChunkAt(t, j);
    }
  }

  lemma SparseEmpty(bits: nat)
    ensures Sparse(IndexTable(bits, map[]), 0)
  {
    UsedFull(EmptyChunk());
  }

  /** An insertion adds one entry to the index it ends up in, and a new index was empty. */
  ghost predicate AddsOne(index: IndexTable, index': IndexTable) {
    && index.bits <= index'.bits
    && (index.bits < index'.bits ==> Sparse(index', 1))
    && (index.bits == index'.bits ==> forall n: nat :: Sparse(index, n) ==> Sparse(index', n + 1))
  }

  lemma {:induction false} AddsNothing(t: IndexTable)
    ensures AddsOne(t, t)
  {
    forall n: nat | Sparse(t, n)
      ensures Sparse(t, n + 1)
    {
      forall i: nat
        ensures Used(ChunkAt(t, i)) <= n + 1
      {
      }
    }
  }

  lemma {:induction false} AddsEntry(index: IndexTable, t: IndexTable, i: nat, at: nat, e: nat)
    requires at < |ChunkAt(t, i)| && (t == index || (t.bits > index.bits && t.chunks == map[]))
    ensures AddsOne(index, WithChunk(t, i, ChunkAt(t, i)[at := e]))
  {
    hide Sparse;
    if t == index {
      forall n: nat | Sparse(t, n)
        ensures Sparse(WithChunk(t, i, ChunkAt(t, i)[at := e]), n + 1)
      {
        SparseMore(t, n, i, at, e);
      }
    } else {
      SparseEmpty(t.bits);
      assert t == IndexTable(t.bits, map[]);
      SparseMore(t, 0, i, at, e);
    }
  }

  /** A sparse index has room for one more. */
  lemma {:induction false} SparseHasPlace(t: IndexTable, n: nat, i: nat)
    requires Sparse(t, n) && n < CHUNK_ENTRIES && |ChunkAt(t, i)| == CHUNK_ENTRIES
    ensures !Full(ChunkAt(t, i))
  {
    hide Used;
    UsedFull(ChunkAt(t, i));
    assert Used(ChunkAt(t, i)) <= n;
  }

  /** The index as it is takes the entry. */
  ghost predicate HasPlace(index: IndexTable, prefix: nat, address: nat)
    requires GoodBits(index.bits)
  {
    address < AddressLimit(index.bits) && !Full(ChunkAt(index, ChunkIndex(prefix, index.bits)))
  }

  lemma {:induction false} RoomIs(index: IndexTable, prefix: nat, address: nat)
    requires GoodBits(index.bits)
    ensures HasPlace(index, prefix, address) <==>
      (address < AddressLimit(index.bits) && !Full(ChunkAt(index, ChunkIndex(prefix, index.bits))))
    ensures HasPlace(index, prefix, address) ==> HasRoom(index, prefix, address)
    ensures index.bits == MAX_INDEX_BITS ==> (HasRoom(index, prefix, address) <==> HasPlace(index, prefix, address))
    ensures index.bits < MAX_INDEX_BITS ==>
      (HasRoom(index, prefix, address) <==> HasRoom(IndexTable(index.bits + 1, map[]), prefix, address))
  {
    hide Pow2, ChunkIndex;
    LimitGrows(index.bits, MAX_INDEX_BITS);
    assert EmptyChunk()[0] == 0;
  }

  lemma {:induction false} LimitGrows(a: nat, b: nat)
    requires a <= b
    ensures AddressLimit(a) <= AddressLimit(b) && (a < b ==> AddressLimit(a) < AddressLimit(b))
    decreases b - a
  {
    if a < b {
      LimitGrows(a + 1, b);
    }
  }

  /** `write_plan_existing` cannot index the new address of a value that lived at `from`. */
  ghost predicate Refuses(index: IndexTable, prefix: nat, from: nat, to: nat)
    requires GoodBits(index.bits)
  {
    || to >= AddressLimit(index.bits)
    || (!Has(index, prefix, from) && Full(ChunkAt(index, ChunkIndex(prefix, index.bits))))
  }

  class HashColumn {
    var index: IndexTable
    var queue: seq<IndexTable>
    var progress: nat
    /** The value slots in use, and the key of each. */
    var slots: map<nat, Bytes>

    ghost predicate Valid()
      reads this
    {
      ColumnOk(index, queue, progress, slots)
    }

    constructor ()
      ensures Valid() && slots == map[] && index == IndexTable(MIN_INDEX_BITS, map[])
    {
      index, queue, progress, slots := IndexTable(MIN_INDEX_BITS, map[]), [], 0, map[];
    }

    /** Slots whose stored key bytes agree with the key. */
    function Holders(key: Bytes): set<nat>
      requires IsKey(key)
      reads this
    {
      set a | a in slots && |slots[a]| == 32 && slots[a][6..] == key[6..]
    }

    /** `search_all_indexes`: the main index, then the older ones, oldest first. */
    method SearchAll(fast: bool, key: Bytes) returns (r: Option<(nat, nat, nat)>)
      requires TablesOk(index, queue) && SlotsOk(slots) && IsKey(key) && Distinct(slots, key)
      ensures r.Some? ==> r.value.2 in slots && slots[r.value.2] == key
      ensures !fast && r.Some? ==> FoundAt(index, queue, key, r.value)
      ensures r.None? ==> forall a :: a in slots && slots[a] == key ==> !Indexed(index, queue, PrefixOf(key), a)
      ensures r.Some? && !fast ==> Indexed(index, queue, PrefixOf(key), r.value.2)
      ensures r.Some? && !fast ==> (r.value.0 == 0 <==> Has(index, PrefixOf(key), r.value.2))
      ensures Valid() ==> (r.Some? <==> key in slots.Values)
    {
      hide AllReached, Reached, Has, EntryFor, EntryAt, ChunkIndex, PrefixOf, Indexed, SlotsOk, TablesOk, ColumnOk;
      var holders := Holders(key);
      ghost var a := Holder(index, queue, slots, key, holders);
      var prefix := PrefixOf(key);
      var f := SearchIndex(fast, index, prefix, holders, a);
      if f.Some? {
        InMain(index, queue, prefix, a);
        return Some((0, f.value.0, f.value.1));
      }
      var j := 0;
      while j < |queue|
        invariant j <= |queue|
        invariant holders != {} ==> !Has(index, prefix, a) && forall i :: 0 <= i < j ==> !Has(queue[i], prefix, a)
      {
        f := SearchIndex(fast, queue[j], prefix, holders, a);
        if f.Some? {
          InQueue(index, queue, prefix, a, j);
          return Some((j + 1, f.value.0, f.value.1));
        }
        j := j + 1;
      }
      NowhereFound(index, queue, slots, key, holders, a);
      NotLive(index, queue, progress, slots, key);
      r := None;
    }

    /** Where a live key has its value, by either search. */
    method Get(fast: bool, key: Bytes) returns (r: Option<nat>)
      requires TablesOk(index, queue) && SlotsOk(slots) && IsKey(key) && Distinct(slots, key)
      ensures r.Some? ==> r.value in slots && slots[r.value] == key
      ensures r.None? ==> forall a :: a in slots && slots[a] == key ==> !Indexed(index, queue, PrefixOf(key), a)
      ensures r.Some? && !fast ==> Indexed(index, queue, PrefixOf(key), r.value)
      ensures Valid() ==> (r.Some? <==> key in slots.Values)
    {
      hide *;
      var f := SearchAll(fast, key);
      r := if f.Some? then Some(f.value.2) else None;
    }

    /** `trigger_reindex`. */
    method TriggerReindex()
      requires TablesOk(index, queue) && index.bits < MAX_INDEX_BITS
      modifies this`index, this`queue
      ensures TablesOk(index, queue) && Keeps(old(index), old(queue), index, queue)
      ensures index == IndexTable(old(index).bits + 1, map[]) && queue == old(queue) + [old(index)]
    {
      GrownKeeps(index, queue);
      queue := queue + [index];
      index := IndexTable(index.bits + 1, map[]);
    }

    /**
     Insert into the main index, starting a larger one as often as the answer is that a reindex is
     needed. The index cannot grow beyond 49 bits; that is the only way to fail.
     */
    method InsertGrowing(prefix: nat, address: nat) returns (ok: bool)
      requires TablesOk(index, queue) && prefix < WORD && address > 0
      modifies this`index, this`queue
      ensures TablesOk(index, queue) && Keeps(old(index), old(queue), index, queue)
      ensures ok <==> HasRoom(old(index), prefix, address)
      ensures ok ==> Has(index, prefix, address)
      ensures HasPlace(old(index), prefix, address) ==> index.bits == old(index).bits
      ensures ok ==> AddsOne(old(index), index)
      ensures !ok && old(index).bits == MAX_INDEX_BITS ==> index == old(index) && queue == old(queue)
    {
      hide Keeps, Has, EntryFor, ChunkIndex, AddressLimit, TableOk, HasRoom, HasPlace, Full, AddsOne;
      KeepsSame(index, queue);
      BitsAre(index, queue);
      while true
        invariant TablesOk(index, queue) && Keeps(old(index), old(queue), index, queue)
        invariant GoodBits(index.bits) && GoodBits(old(index).bits)
        invariant HasRoom(index, prefix, address) <==> HasRoom(old(index), prefix, address)
        invariant HasPlace(old(index), prefix, address) ==> index == old(index)
        invariant index.bits >= old(index).bits && (index.bits > old(index).bits ==> index.chunks == map[])
        invariant index.bits == old(index).bits ==> index == old(index) && queue == old(queue)
        decreases MAX_INDEX_BITS - index.bits
      {
        ghost var i0, q0 := index, queue;
        var i := PlaceOf(index, prefix);
        var outcome, d, at := PlanInsertChunk(prefix, address, ChunkAt(index, i), None, index.bits);
        RoomIs(index, prefix, address);
        if outcome == Written {
          InsertedKeeps(index, queue, prefix, address, at);
          AddsEntry(old(index), index, i, at, EntryFor(prefix, address, index.bits));
          index := WithChunk(index, i, d);
          KeepsTrans(old(index), old(queue), i0, q0, index, queue);
          return true;
        }
        if index.bits >= MAX_INDEX_BITS {
          return false;
        }
        TriggerReindex();
        KeepsTrans(old(index), old(queue), i0, q0, index, queue);
      }
    }

    /** `write_plan_new`: a value at a free address, and its entry. */
    method SetNew(key: Bytes, address: nat) returns (ok: bool)
      requires Valid() && IsKey(key) && Distinct(slots, key) && key !in slots.Values && address > 0 && address !in slots
      modifies this
      ensures slots == old(slots)[address := key] && progress == old(progress) && (ok ==> Valid())
      ensures ok <==> HasRoom(old(index), PrefixOf(key), address)
      ensures HasPlace(old(index), PrefixOf(key), address) ==> index.bits == old(index).bits
    {
      hide Keeps, Has, PrefixOf, TableOk, Reached;
      ok := InsertGrowing(PrefixOf(key), address);
      if ok {
        NewReached(old(index), old(queue), index, queue, progress, slots, key, address);
      }
      slots := slots[address := key];
    }

    /** `write_plan_existing`, the value deleted: its entry goes from the index it was found in. */
    method Remove(key: Bytes) returns (found: bool, ghost place: (nat, nat, nat))
      requires Valid() && IsKey(key) && Distinct(slots, key)
      modifies this
      ensures progress == old(progress) && (!found ==> index == old(index) && queue == old(queue))
      ensures found ==> FoundAt(old(index), old(queue), key, place)
      ensures found ==> place.2 in old(slots) && old(slots)[place.2] == key
      ensures found ==> Cleared(old(index), old(queue), key, place, index, queue)
      ensures Valid() && found == (key in old(slots).Values)
      ensures forall a :: a in slots <==> a in old(slots) && old(slots)[a] != key
      ensures forall a :: a in slots ==> slots[a] == old(slots)[a]
    {
      hide Has, PrefixOf, TableOk, Reached, EntryFor, ChunkIndex, Matches, SlotsOk, AllReached, EntryAt;
      place := (0, 0, 0);
      var f := SearchAll(false, key);
      if f.None? {
        return false, place;
      }
      place := f.value;
      PlaceIsGood(index, queue, key, place);
      var (k, sub, a) := f.value;
      var t := if k == 0 then index else queue[k - 1];
      RemovedReached(index, queue, progress, slots, key, f.value);
      var i := ChunkIndex(PrefixOf(key), t.bits);
      var outcome, d := PlanRemoveChunk(PrefixOf(key), ChunkAt(t, i), sub, t.bits);
      if k == 0 {
        index := WithChunk(t, i, d);
      } else {
        queue := queue[k - 1 := WithChunk(t, i, d)];
      }
      slots := slots - {a};
      found := true;
    }

    /**
     `write_plan_existing`, the value moved to another table: one attempt to index the new address,
     in place of the old entry if that is in the main index. Unlike for a new key the attempt is not
     repeated. It is refused when the address is too large for the main index, or when the key is
     only in older ones and its chunk of the main one is full; the key then stays reachable exactly
     when some index had an entry for it at the new address already.
     */
    method MoveValue(key: Bytes, to: nat, ghost from: nat) returns (outcome: PlanOutcome)
      requires Valid() && IsKey(key) && Distinct(slots, key) && to > 0 && to !in slots
      requires from in slots && slots[from] == key
      modifies this
      ensures slots == Moved(old(slots), key, from, to) && queue == old(queue) && progress == old(progress)
      ensures outcome == if Refuses(old(index), PrefixOf(key), from, to) then NeedReindex else Written
      ensures outcome == NeedReindex ==> index == old(index)
      ensures outcome == Written ==> exists at :: Renamed(old(index), PrefixOf(key), from, to, at, index)
      ensures Valid() <==>
        (Refuses(old(index), PrefixOf(key), from, to) ==>
          Reached(old(index), old(queue), old(progress), PrefixOf(key), to))
      ensures TablesOk(index, queue) && SlotsOk(slots) && Distinct(slots, key)
    {
      hide Has, PrefixOf, TableOk, Reached, EntryFor, ChunkIndex, Matches, AllReached, AddressLimit, PartialKey;
      hide ExtractKey, Refuses, Moved, EntryAt, FoundAt, Indexed, Full, TablesOk, SlotsOk, ColumnOk, Distinct;
      ColumnIs(index, queue, progress, slots);
      var f := SearchAll(false, key);
      LiveIsFound(slots, key, from, f);
      var (k, sub, a) := f.value;
      MainPlace(index, queue, progress, slots, key, f.value);
      MovedSlots(slots, key, from, to);
      var i := ChunkIndex(PrefixOf(key), index.bits);
      var d, at;
      var place := if k == 0 then Some(sub) else None;
      outcome, d, at := PlanInsertChunk(PrefixOf(key), to, ChunkAt(index, i), place, index.bits);
      RefusesIs(index, PrefixOf(key), from, to);
      if outcome == Written {
        MovedReached(index, queue, progress, slots, key, f.value, to, at);
        RenamedAt(index, queue, key, f.value, to, at, WithChunk(index, i, d));
        index := WithChunk(index, i, d);
      } else {
        MovedUnindexed(index, queue, progress, slots, key, a, to);
      }
      slots := (slots - {a})[to := key];
      MovedIs(old(slots), key, from, to);
      ColumnIs(index, queue, progress, slots);
    }

    /** `write_reindex_plan`: an entry of the oldest index goes to the main one, unless it is there. */
    method ReindexEntry(prefix: nat, address: nat) returns (ok: bool)
      requires TablesOk(index, queue) && prefix < WORD && address > 0
      modifies this`index, this`queue
      ensures TablesOk(index, queue) && Keeps(old(index), old(queue), index, queue)
      ensures GoodBits(old(index).bits)
      ensures ok <==> Has(old(index), prefix, address) || HasRoom(old(index), prefix, address)
      ensures ok ==> Has(index, prefix, address) && AddsOne(old(index), index)
      ensures !ok && old(index).bits == MAX_INDEX_BITS ==> index == old(index) && queue == old(queue)
    {
      hide Keeps, Has, TableOk, AddsOne, HasRoom, HasPlace;
      BitsAre(index, queue);
      KeepsSame(index, queue);
      AddsNothing(index);
      var f := SearchIndex(false, index, prefix, {address}, address);
      if f.Some? {
        return true;
      }
      ok := InsertGrowing(prefix, address);
    }

    /** `reindex`, for the next chunk of the oldest index: all its entries are moved, then the chunk counts as done. */
    method ReindexChunk() returns (ok: bool)
      requires Valid() && queue != [] && progress < Pow2(queue[0].bits)
      modifies this`index, this`queue, this`progress
      ensures Valid() && slots == old(slots) && old(queue) <= queue
      ensures progress == old(progress) + if ok then 1 else 0
      ensures ok ==> ChunkIsMoved(old(queue)[0], old(progress), index, queue)
      ensures !ok ==> old(index).bits == index.bits == MAX_INDEX_BITS && Blocked(old(queue)[0], old(progress), index)
    {
      hide Keeps, Has, TableOk, ColumnOk, Reached, RecoverKeyPrefix, AddressOf, Pow2, Moving, HasRoom, AddsOne, Sparse;
      hide ChunkIsMoved, Blocked;
      ghost var i0, q0, g := index, queue, progress;
      var source := queue[0];
      FrontOk(index, queue, progress, slots);
      var c := ChunkAt(source, progress);
      KeepsSame(index, queue);
      NoneMoved(source, g, c, index, queue);
      var n := 0;
      while n < CHUNK_ENTRIES
        invariant index.bits == i0.bits || (index.bits > i0.bits && Sparse(index, n))
        invariant n <= CHUNK_ENTRIES && progress == g && TablesOk(index, queue) && Keeps(i0, q0, index, queue)
        invariant q0 <= queue
        invariant Moving(source, g, c, n, index, queue)
      {
        ghost var i1, q1 := index, queue;
        if c[n] != 0 {
          RecoverFits(g, c[n], source.bits);
          ok := ReindexEntry(RecoverKeyPrefix(progress, c[n], source.bits), AddressOf(c[n], source.bits));
          KeepsTrans(i0, q0, i1, q1, index, queue);
          if !ok {
            NoRoomLeft(i0, q0, i1, q1, source, g, c, n);
            ColumnKept(i0, q0, index, queue, progress, slots);
            return;
          }
          MovedOne(source, g, c, n, i1, q1, index, queue);
          StillSparse(i0, i1, index, n);
        } else {
          MovedNone(source, g, c, n, index, queue);
          SparseWider(index, n);
        }
        n := n + 1;
      }
      ChunkMoved(i0, q0, source, g, c, index, queue, slots);
      MovedIsMoved(source, g, c, index, queue);
      progress := progress + 1;
      ok := true;
    }

    /** `drop_index`: once all its chunks are moved, the oldest index is not needed any more. */
    method DropIndex()
      requires Valid() && queue != [] && progress == Pow2(queue[0].bits)
      modifies this`queue, this`progress
      ensures Valid() && slots == old(slots) && queue == old(queue)[1..] && progress == 0
    {
      OldestNotNeeded(index, queue, progress, slots);
      queue, progress := queue[1..], 0;
    }
  }

  /** The place of an entry: index table, entry of its chunk, address. */
  ghost predicate FoundAt(index: IndexTable, queue: seq<IndexTable>, key: Bytes, r: (nat, nat, nat))
    requires IsKey(key)
  {
    r.0 <= |queue| && EntryAt(TableAt(index, queue, r.0), PrefixOf(key), r.2, r.1)
  }

  lemma PlaceIsGood(index: IndexTable, queue: seq<IndexTable>, key: Bytes, place: (nat, nat, nat))
    requires IsKey(key) && FoundAt(index, queue, key, place)
    ensures place.0 <= |queue| && GoodBits(TableAt(index, queue, place.0).bits)
    ensures var t := TableAt(index, queue, place.0);
      place.1 < |ChunkAt(t, ChunkIndex(PrefixOf(key), t.bits))| == CHUNK_ENTRIES
  {
  }

  /** The entry at a place is emptied, and all else is as before. */
  ghost predicate Cleared(
      index: IndexTable, queue: seq<IndexTable>, key: Bytes, place: (nat, nat, nat), index': IndexTable,
      queue': seq<IndexTable>)
    requires IsKey(key) && FoundAt(index, queue, key, place)
  {
    PlaceIsGood(index, queue, key, place);
    var t := TableAt(index, queue, place.0);
    var i := ChunkIndex(PrefixOf(key), t.bits);
    var u := WithChunk(t, i, ChunkAt(t, i)[place.1 := 0]);
    if place.0 == 0 then index' == u && queue' == queue
    else index' == index && queue' == queue[place.0 - 1 := u]
  }

  /** Some index has the entry, whether or not its chunk is moved already. */
  ghost predicate Indexed(index: IndexTable, queue: seq<IndexTable>, prefix: nat, address: nat) {
    Has(index, prefix, address) || exists j :: 0 <= j < |queue| && Has(queue[j], prefix, address)
  }

  lemma ReachedIndexed(index: IndexTable, queue: seq<IndexTable>, progress: nat, prefix: nat, address: nat)
    requires Reached(index, queue, progress, prefix, address)
    ensures Indexed(index, queue, prefix, address)
  {
    hide Has;
  }

  lemma {:induction false} Holder(
    index: IndexTable, queue: seq<IndexTable>, slots: map<nat, Bytes>, key: Bytes, holders: set<nat>) returns (a: nat)
    requires TablesOk(index, queue) && SlotsOk(slots) && IsKey(key) && Distinct(slots, key)
    requires holders == set a | a in slots && |slots[a]| == 32 && slots[a][6..] == key[6..]
    ensures a > 0 && (holders == {} || holders == {a}) && (holders != {} ==> a in slots && slots[a] == key)
    ensures forall b :: b in slots && slots[b] == key ==> holders != {} && b == a
    ensures TableOk(index) && forall j :: 0 <= j < |queue| ==> TableOk(queue[j])
  {
    hide TableOk;
    if holders == {} {
      a := 1;
      forall b | b in slots
        ensures slots[b] != key
      {
        assert b !in holders;
      }
    } else {
      a :| a in holders;
      forall b | b in holders
        ensures b == a
      {
      }
      assert holders == {a};
      assert forall b :: b in slots && slots[b] == key ==> b in holders;
    }
  }

  lemma InMain(index: IndexTable, queue: seq<IndexTable>, prefix: nat, a: nat)
    ensures Has(index, prefix, a) ==> Indexed(index, queue, prefix, a)
  {
  }

  lemma InQueue(index: IndexTable, queue: seq<IndexTable>, prefix: nat, a: nat, j: nat)
    requires j < |queue|
    ensures Has(queue[j], prefix, a) ==> Indexed(index, queue, prefix, a)
  {
  }

  lemma {:induction false} NowhereFound(
    index: IndexTable, queue: seq<IndexTable>, slots: map<nat, Bytes>, key: Bytes, holders: set<nat>, a: nat)
    requires IsKey(key) && forall b :: b in slots && slots[b] == key ==> holders != {} && b == a
    requires holders != {} ==>
      !Has(index, PrefixOf(key), a) && forall i :: 0 <= i < |queue| ==> !Has(queue[i], PrefixOf(key), a)
    ensures forall b :: b in slots && slots[b] == key ==> !Indexed(index, queue, PrefixOf(key), b)
  {
    hide Has, PrefixOf;
  }

  /** In a column that is in order, a live key is in some index. */
  lemma {:induction false} NotLive(
    index: IndexTable, queue: seq<IndexTable>, progress: nat, slots: map<nat, Bytes>, key: Bytes)
    requires IsKey(key) && forall b :: b in slots && slots[b] == key ==> !Indexed(index, queue, PrefixOf(key), b)
    ensures ColumnOk(index, queue, progress, slots) ==> key !in slots.Values
  {
    hide Has, PrefixOf, Indexed, TablesOk, Reached;
    if ColumnOk(index, queue, progress, slots) && key in slots.Values {
      var a :| a in slots && slots[a] == key;
      assert Reached(index, queue, progress, PrefixOf(slots[a]), a);
      ReachedIndexed(index, queue, progress, PrefixOf(key), a);
    }
  }

  lemma {:induction false} PlaceOfOk(t: IndexTable, prefix: nat)
    requires TableOk(t)
    ensures GoodBits(t.bits) && GoodChunk(ChunkAt(t, ChunkIndex(prefix, t.bits)))
  {
  }

  method PlaceOf(t: IndexTable, prefix: nat) returns (i: nat)
    requires TableOk(t)
    ensures GoodBits(t.bits) && i == ChunkIndex(prefix, t.bits) && GoodChunk(ChunkAt(t, i))
  {
    i := ChunkIndex(prefix, t.bits);
    PlaceOfOk(t, prefix);
  }

  lemma {:induction false} NewReached(
      index: IndexTable, queue: seq<IndexTable>, index': IndexTable, queue': seq<IndexTable>, progress: nat,
      slots: map<nat, Bytes>, key: Bytes, address: nat)
    requires ColumnOk(index, queue, progress, slots) && Keeps(index, queue, index', queue') && TablesOk(index', queue')
    requires IsKey(key) && Distinct(slots, key) && key !in slots.Values && address > 0 && address !in slots
    requires Has(index', PrefixOf(key), address)
    ensures ColumnOk(index', queue', progress, slots[address := key])
  {
    hide Pow2, TableOk;
    KeptColumn(index, queue, index', queue', progress, slots);
    hide Has, PrefixOf, TablesOk, Keeps;
    var u := slots[address := key];
    forall a, b | a in u && b in u && u[a][6..] == u[b][6..]
      ensures a == b
    {
      assert forall x :: x in slots ==> slots[x] in slots.Values;
    }
    assert SlotsOk(u);
  }

  ghost function TableAt(index: IndexTable, queue: seq<IndexTable>, k: nat): IndexTable
    requires k <= |queue|
  {
    if k == 0 then index else queue[k - 1]
  }

  /** Replacing one table by one that still has an entry does not lose it. */
  lemma {:induction false} TableReplaced(
      index: IndexTable, queue: seq<IndexTable>, progress: nat, k: nat, t: IndexTable, p: nat, b: nat)
    requires k <= |queue| && Reached(index, queue, progress, p, b) && t.bits == TableAt(index, queue, k).bits
    requires Has(TableAt(index, queue, k), p, b) ==> Has(t, p, b)
    ensures Reached(if k == 0 then t else index, if k == 0 then queue else queue[k - 1 := t], progress, p, b)
  {
    hide Has, ChunkIndex;
    var i', q' := if k == 0 then t else index, if k == 0 then queue else queue[k - 1 := t];
    if !Has(index, p, b) {
      var j: nat :| Waiting(queue, progress, p, b, j);
      assert Waiting(q', progress, p, b, j);
    }
  }

  /** The entry of a removed key stood for no other one. */
  lemma {:induction false} RemovedReached(
      index: IndexTable, queue: seq<IndexTable>, progress: nat, slots: map<nat, Bytes>, key: Bytes,
      f: (nat, nat, nat))
    requires ColumnOk(index, queue, progress, slots) && IsKey(key) && f.2 in slots && slots[f.2] == key
    requires FoundAt(index, queue, key, f)
    ensures var t := TableAt(index, queue, f.0);
      var i := ChunkIndex(PrefixOf(key), t.bits); var u := WithChunk(t, i, ChunkAt(t, i)[f.1 := 0]);
      && GoodChunk(ChunkAt(t, i)) && Matches(ChunkAt(t, i)[f.1], PrefixOf(key), t.bits)
      && ColumnOk(if f.0 == 0 then u else index, if f.0 == 0 then queue else queue[f.0 - 1 := u], progress,
        slots - {f.2})
    ensures forall a :: a in slots && slots[a] == key ==> a == f.2
  {
    hide Has, PrefixOf, EntryFor, ChunkIndex, AddressLimit, Reached;
    var t := TableAt(index, queue, f.0);
    var i := ChunkIndex(PrefixOf(key), t.bits);
    var c := ChunkAt(t, i);
    var u := WithChunk(t, i, c[f.1 := 0]);
    ChunkIsGood(t, i);
    MatchIsEntry(c[f.1], PrefixOf(key), f.2, t.bits);
    ChunkChanged(c, t.bits, f.1, 0);
    WithChunkOk(t, i, c[f.1 := 0]);
    forall b | b in slots - {f.2}
      ensures Reached(if f.0 == 0 then u else index, if f.0 == 0 then queue else queue[f.0 - 1 := u], progress,
        PrefixOf(slots[b]), b)
    {
      OtherStill(t, i, f.1, key, f.2, slots[b], b, 0);
      TableReplaced(index, queue, progress, f.0, u, PrefixOf(slots[b]), b);
    }
  }

  lemma {:induction false} OtherStill(t: IndexTable, i: nat, at: nat, key: Bytes, a: nat, other: Bytes, b: nat, e: nat)
    requires TableOk(t) && at < CHUNK_ENTRIES && IsKey(key) && IsKey(other) && a < AddressLimit(t.bits) && a != b
    requires at < |ChunkAt(t, i)| && ChunkAt(t, i)[at] == EntryFor(PrefixOf(key), a, t.bits)
    ensures Has(t, PrefixOf(other), b) ==> Has(WithChunk(t, i, ChunkAt(t, i)[at := e]), PrefixOf(other), b)
  {
    hide PrefixOf, EntryFor, ChunkIndex, AddressLimit;
    if Has(t, PrefixOf(other), b) {
      EntriesDiffer(PrefixOf(other), b, PrefixOf(key), a, t.bits);
      HasStill(t, i, at, e, PrefixOf(other), b);
    }
  }

  // ----- Moving a value

  ghost function Moved(slots: map<nat, Bytes>, key: Bytes, from: nat, to: nat): map<nat, Bytes> {
    (slots - {from})[to := key]
  }

  lemma {:induction false} MovedSlots(slots: map<nat, Bytes>, key: Bytes, from: nat, to: nat)
    requires SlotsOk(slots) && from in slots && slots[from] == key && to > 0 && to !in slots
    ensures var u := Moved(slots, key, from, to);
      SlotsOk(u) && (IsKey(key) && Distinct(slots, key) ==> Distinct(u, key))
  {
    var u := Moved(slots, key, from, to);
    forall a, b | a in u && b in u && u[a][6..] == u[b][6..]
      ensures a == b
    {
      assert a != to ==> a in slots && u[a] == slots[a];
      assert b != to ==> b in slots && u[b] == slots[b];
    }
  }

  /** The moved key is found through its new entry; every other one as before. */
  lemma {:induction false} MovedReached(
      index: IndexTable, queue: seq<IndexTable>, progress: nat, slots: map<nat, Bytes>, key: Bytes,
      f: (nat, nat, nat), to: nat, at: nat)
    requires ColumnOk(index, queue, progress, slots) && IsKey(key) && f.2 in slots && slots[f.2] == key
    requires FoundAt(index, queue, key, f)
    requires 0 < to < AddressLimit(index.bits) && to !in slots && at < CHUNK_ENTRIES
    requires if f.0 == 0 then at == f.1 else ChunkAt(index, ChunkIndex(PrefixOf(key), index.bits))[at] == 0
    ensures var i := ChunkIndex(PrefixOf(key), index.bits);
      ColumnOk(WithChunk(index, i, ChunkAt(index, i)[at := EntryFor(PrefixOf(key), to, index.bits)]), queue,
      progress, Moved(slots, key, f.2, to))
  {
    hide Has, PrefixOf, EntryFor, ChunkIndex, AddressLimit, Reached, SlotsOk;
    var i := ChunkIndex(PrefixOf(key), index.bits);
    var e := EntryFor(PrefixOf(key), to, index.bits);
    var t, u := WithChunk(index, i, ChunkAt(index, i)[at := e]), Moved(slots, key, f.2, to);
    MovedSlots(slots, key, f.2, to);
    EntryWritten(index, i, at, PrefixOf(key), to);
    KeysAre(slots);
    forall b | b in u
      ensures Reached(t, queue, progress, PrefixOf(u[b]), b)
    {
      if b == to {
        HasReached(t, queue, progress, PrefixOf(key), to);
      } else {
        StillAfterMove(index, i, at, key, f, slots[b], b, e);
        TableReplaced(index, queue, progress, 0, t, PrefixOf(slots[b]), b);
      }
    }
  }

  lemma KeysAre(slots: map<nat, Bytes>)
    requires SlotsOk(slots)
    ensures forall a :: a in slots ==> a > 0 && IsKey(slots[a])
  {
  }

  lemma HasReached(t: IndexTable, queue: seq<IndexTable>, progress: nat, p: nat, a: nat)
    requires Has(t, p, a)
    ensures Reached(t, queue, progress, p, a)
  {
  }

  lemma {:induction false} StillAfterMove(
      t: IndexTable, i: nat, at: nat, key: Bytes, f: (nat, nat, nat), other: Bytes, b: nat, e: nat)
    requires TableOk(t) && at < CHUNK_ENTRIES && IsKey(key) && IsKey(other) && 0 < b != f.2
    requires at < |ChunkAt(t, i)|
    requires (if f.0 == 0 then f.2 < AddressLimit(t.bits)
      && ChunkAt(t, i)[at] == EntryFor(PrefixOf(key), f.2, t.bits) else ChunkAt(t, i)[at] == 0)
    ensures Has(t, PrefixOf(other), b) ==> Has(WithChunk(t, i, ChunkAt(t, i)[at := e]), PrefixOf(other), b)
  {
    hide PrefixOf, EntryFor, ChunkIndex, AddressLimit;
    if f.0 == 0 {
      OtherStill(t, i, at, key, f.2, other, b, e);
    } else if Has(t, PrefixOf(other), b) {
      EntriesDiffer(PrefixOf(other), b, PrefixOf(other), b, t.bits);
      HasStill(t, i, at, e, PrefixOf(other), b);
    }
  }

  lemma ColumnIs(index: IndexTable, queue: seq<IndexTable>, progress: nat, slots: map<nat, Bytes>)
    ensures ColumnOk(index, queue, progress, slots) ==>
      TablesOk(index, queue) && SlotsOk(slots) && GoodBits(index.bits)
  {
  }

  lemma BitsAre(index: IndexTable, queue: seq<IndexTable>)
    requires TablesOk(index, queue)
    ensures GoodBits(index.bits)
  {
  }

  /** A live key is found at its only address. */
  lemma LiveIsFound(slots: map<nat, Bytes>, key: Bytes, from: nat, f: Option<(nat, nat, nat)>)
    requires SlotsOk(slots) && from in slots && slots[from] == key
    ensures key in slots.Values && (f.Some? && f.value.2 in slots && slots[f.value.2] == key ==> f.value.2 == from)
  {
  }

  lemma MovedIs(slots: map<nat, Bytes>, key: Bytes, from: nat, to: nat)
    ensures (slots - {from})[to := key] == Moved(slots, key, from, to)
  {
  }

  lemma RefusesIs(index: IndexTable, prefix: nat, from: nat, to: nat)
    requires GoodBits(index.bits)
    ensures Refuses(index, prefix, from, to) <==>
      (to >= AddressLimit(index.bits)
        || (!Has(index, prefix, from) && Full(ChunkAt(index, ChunkIndex(prefix, index.bits)))))
  {
  }

  /** The new entry takes the place of the old one, or else the first empty one; nothing else changes. */
  ghost predicate Renamed(t: IndexTable, prefix: nat, from: nat, to: nat, at: nat, t': IndexTable) {
    && GoodBits(t.bits) && to < AddressLimit(t.bits)
    && var i := ChunkIndex(prefix, t.bits);
      && at < |ChunkAt(t, i)| == CHUNK_ENTRIES
      && t' == WithChunk(t, i, ChunkAt(t, i)[at := EntryFor(prefix, to, t.bits)])
      && if Has(t, prefix, from) then ChunkAt(t, i)[at] == EntryFor(prefix, from, t.bits)
         else ChunkAt(t, i)[at] == 0 && forall n :: 0 <= n < at ==> ChunkAt(t, i)[n] != 0
  }

  lemma RenamedAt(
      index: IndexTable, queue: seq<IndexTable>, key: Bytes, f: (nat, nat, nat), to: nat, at: nat, index': IndexTable)
    requires IsKey(key) && FoundAt(index, queue, key, f) && GoodBits(index.bits) && to < AddressLimit(index.bits)
    requires f.0 == 0 <==> Has(index, PrefixOf(key), f.2)
    requires var i := ChunkIndex(PrefixOf(key), index.bits);
      && at < |ChunkAt(index, i)| == CHUNK_ENTRIES
      && index' == WithChunk(index, i, ChunkAt(index, i)[at := EntryFor(PrefixOf(key), to, index.bits)])
      && if f.0 == 0 then at == f.1
         else ChunkAt(index, i)[at] == 0 && forall n :: 0 <= n < at ==> ChunkAt(index, i)[n] != 0
    ensures Renamed(index, PrefixOf(key), f.2, to, at, index')
  {
    hide Has, PrefixOf, EntryFor, ChunkIndex, AddressLimit;
  }

  /** When the new entry is not written, the moved key is lost unless an old entry happens to name its new address. */
  lemma {:induction false} MovedUnindexed(
      index: IndexTable, queue: seq<IndexTable>, progress: nat, slots: map<nat, Bytes>, key: Bytes, from: nat,
      to: nat)
    requires ColumnOk(index, queue, progress, slots) && IsKey(key) && from in slots && slots[from] == key && to > 0
    requires to !in slots
    ensures ColumnOk(index, queue, progress, Moved(slots, key, from, to)) <==>
      Reached(index, queue, progress, PrefixOf(key), to)
  {
    hide PrefixOf, Reached;
    var u := Moved(slots, key, from, to);
    MovedSlots(slots, key, from, to);
    assert to in u && u[to] == key;
    assert forall b :: b in u && b != to ==> b in slots && u[b] == slots[b];
  }

  lemma {:induction false} MainPlace(
      index: IndexTable, queue: seq<IndexTable>, progress: nat, slots: map<nat, Bytes>, key: Bytes,
      f: (nat, nat, nat))
    requires ColumnOk(index, queue, progress, slots) && IsKey(key) && FoundAt(index, queue, key, f) && f.2 in slots
    ensures GoodBits(index.bits) && GoodChunk(ChunkAt(index, ChunkIndex(PrefixOf(key), index.bits)))
    ensures f.1 < CHUNK_ENTRIES
    ensures f.0 == 0 ==>
      PartialKey(ChunkAt(index, ChunkIndex(PrefixOf(key), index.bits))[f.1], index.bits)
      == ExtractKey(PrefixOf(key), index.bits)
  {
    PlaceOfOk(index, PrefixOf(key));
    if f.0 == 0 {
      EntryReads(PrefixOf(key), f.2, index.bits);
    }
    hide EntryFor, ChunkIndex, ExtractKey, PartialKey, PrefixOf;
  }

  // ----- Moving the oldest index

  lemma {:induction false} FrontOk(index: IndexTable, queue: seq<IndexTable>, progress: nat, slots: map<nat, Bytes>)
    requires ColumnOk(index, queue, progress, slots) && queue != []
    ensures TablesOk(index, queue) && GoodBits(queue[0].bits) && TableOk(queue[0])
    ensures GoodChunk(ChunkAt(queue[0], progress)) && Addressed(ChunkAt(queue[0], progress), queue[0].bits)
  {
    ChunkIsGood(queue[0], progress);
  }

  lemma {:induction false} ColumnKept(
      index: IndexTable, queue: seq<IndexTable>, index': IndexTable, queue': seq<IndexTable>, progress: nat,
      slots: map<nat, Bytes>)
    requires ColumnOk(index, queue, progress, slots) && Keeps(index, queue, index', queue') && TablesOk(index', queue')
    ensures ColumnOk(index', queue', progress, slots)
  {
    KeptColumn(index, queue, index', queue', progress, slots);
  }

  /** A recovered prefix is a prefix. */
  lemma {:induction false} RecoverFits(chunk: nat, e: nat, bits: nat)
    requires GoodBits(bits) && chunk < Pow2(bits) && e < WORD
    ensures RecoverKeyPrefix(chunk, e, bits) < WORD
  {
    hide Pow2;
    Sizes(bits);
    Pow2Values();
    var up, low, n, pk := Pow2(bits), Pow2(64 - bits), Pow2(50 - bits), PartialKey(e, bits);
    Quotient(e, AddressLimit(bits), n);
    hide PartialKey, AddressLimit;
    PutFits(chunk, up, low, pk, n);
    assert RecoverKeyPrefix(chunk, e, bits) == Shl(chunk, 64 - bits) + Shl(pk, 14);
  }

  lemma {:induction false} PutFits(chunk: nat, up: nat, low: nat, pk: nat, n: nat)
    requires chunk < up && low * up == WORD && low == n * LOST && pk < n
    ensures chunk * low % WORD + pk * LOST % WORD < WORD
  {
    MulStep(chunk, up, low);
    assert up * low == low * up;
    MulStep(pk, n, LOST);
    SmallMod(chunk * low);
    SmallMod(pk * LOST);
  }

  lemma SmallMod(x: nat)
    requires x < WORD
    ensures x % WORD == x
  {
  }

  /** The first `n` entries of chunk `g` of the oldest index are in some other index. */
  ghost predicate Moving(source: IndexTable, g: nat, c: Chunk, n: nat, index: IndexTable, queue: seq<IndexTable>)
    requires GoodBits(source.bits) && n <= |c|
  {
    forall j :: 0 <= j < n && c[j] != 0 ==> EntryMoved(source, g, c[j], index, queue)
  }

  /** Reached with no help from the oldest index. */
  ghost predicate EntryMoved(source: IndexTable, g: nat, e: nat, index: IndexTable, queue: seq<IndexTable>)
    requires GoodBits(source.bits)
  {
    Reached(index, queue, Pow2(source.bits), RecoverKeyPrefix(g, e, source.bits), AddressOf(e, source.bits))
  }

  lemma NoneMoved(source: IndexTable, g: nat, c: Chunk, index: IndexTable, queue: seq<IndexTable>)
    requires GoodBits(source.bits)
    ensures Moving(source, g, c, 0, index, queue)
  {
  }

  lemma MovedNone(source: IndexTable, g: nat, c: Chunk, n: nat, index: IndexTable, queue: seq<IndexTable>)
    requires GoodBits(source.bits) && n < |c| && Moving(source, g, c, n, index, queue) && c[n] == 0
    ensures Moving(source, g, c, n + 1, index, queue)
  {
    hide EntryMoved;
  }

  lemma {:induction false} MovedOne(
      source: IndexTable, g: nat, c: Chunk, n: nat, index: IndexTable, queue: seq<IndexTable>, index': IndexTable,
      queue': seq<IndexTable>)
    requires GoodBits(source.bits) && n < |c| && GoodChunk(c) && Addressed(c, source.bits) && g < Pow2(source.bits)
    requires queue != []
    requires Moving(source, g, c, n, index, queue) && Keeps(index, queue, index', queue') && c[n] != 0
    requires Has(index', RecoverKeyPrefix(g, c[n], source.bits), AddressOf(c[n], source.bits))
    ensures Moving(source, g, c, n + 1, index', queue')
  {
    hide RecoverKeyPrefix, AddressOf, Pow2, Has, Reached;
    HasReached(index', queue', Pow2(source.bits), RecoverKeyPrefix(g, c[n], source.bits), AddressOf(c[n], source.bits));
    forall j | 0 <= j < n && c[j] != 0
      ensures EntryMoved(source, g, c[j], index', queue')
    {
      RecoverFits(g, c[j], source.bits);
      assert EntryMoved(source, g, c[j], index, queue);
    }
  }

  /** Every entry of a chunk of the oldest index can be found without that index. */
  ghost predicate ChunkIsMoved(source: IndexTable, g: nat, index: IndexTable, queue: seq<IndexTable>) {
    GoodBits(source.bits) && |ChunkAt(source, g)| == CHUNK_ENTRIES
      && Moving(source, g, ChunkAt(source, g), CHUNK_ENTRIES, index, queue)
  }

  lemma MovedIsMoved(source: IndexTable, g: nat, c: Chunk, index: IndexTable, queue: seq<IndexTable>)
    requires GoodBits(source.bits) && c == ChunkAt(source, g) && |c| == CHUNK_ENTRIES
    requires Moving(source, g, c, CHUNK_ENTRIES, index, queue)
    ensures ChunkIsMoved(source, g, index, queue)
  {
  }

  /** Some entry of the chunk is not in the main index and its chunk there is full. */
  ghost predicate Blocked(source: IndexTable, g: nat, index: IndexTable) {
    && GoodBits(source.bits) && GoodBits(index.bits)
    && exists n :: 0 <= n < |ChunkAt(source, g)| && BlockedAt(source, g, index, n)
  }

  ghost predicate BlockedAt(source: IndexTable, g: nat, index: IndexTable, n: nat)
    requires GoodBits(source.bits) && GoodBits(index.bits) && n < |ChunkAt(source, g)|
  {
    var e := ChunkAt(source, g)[n];
    var p := RecoverKeyPrefix(g, e, source.bits);
    e != 0 && !Has(index, p, AddressOf(e, source.bits)) && Full(ChunkAt(index, ChunkIndex(p, index.bits)))
  }

  /** An entry is refused only by an index of the largest size that was there before the chunk was begun. */
  lemma {:induction false} NoRoomLeft(
      i0: IndexTable, q0: seq<IndexTable>, index: IndexTable, queue: seq<IndexTable>, source: IndexTable, g: nat,
      c: Chunk, n: nat)
    requires TablesOk(index, queue) && queue != [] && source == queue[0] && c == ChunkAt(source, g) && n < |c|
    requires |c| == CHUNK_ENTRIES && GoodBits(source.bits) && GoodBits(index.bits) && c[n] != 0
    requires index.bits == i0.bits || (index.bits > i0.bits && Sparse(index, n))
    requires var p, a := RecoverKeyPrefix(g, c[n], source.bits), AddressOf(c[n], source.bits);
      !Has(index, p, a) && !HasRoom(index, p, a)
    ensures i0.bits == index.bits == MAX_INDEX_BITS && Blocked(source, g, index)
  {
    hide RecoverKeyPrefix, AddressOf, Has, Pow2, ChunkIndex, Sparse;
    var p, a := RecoverKeyPrefix(g, c[n], source.bits), AddressOf(c[n], source.bits);
    AddressFits(c[n], source.bits);
    LimitGrows(source.bits, MAX_INDEX_BITS);
    var i := ChunkIndex(p, index.bits);
    ChunkIsGood(index, i);
    if index.bits > i0.bits {
      SparseHasPlace(index, n, i);
    }
    assert BlockedAt(source, g, index, n);
  }

  lemma {:induction false} StillSparse(i0: IndexTable, index: IndexTable, index': IndexTable, n: nat)
    requires index.bits == i0.bits || (index.bits > i0.bits && Sparse(index, n))
    requires AddsOne(index, index')
    ensures index'.bits == i0.bits || (index'.bits > i0.bits && Sparse(index', n + 1))
  {
    hide Used, ChunkAt;
  }

  lemma SparseWider(t: IndexTable, n: nat)
    ensures Sparse(t, n) ==> Sparse(t, n + 1)
  {
    hide Used, ChunkAt;
  }

  /** Tables do not tell a prefix from its first 50 bits. */
  lemma {:induction false} HasFirst50(t: IndexTable, prefix: nat, address: nat)
    requires prefix < WORD
    ensures Has(t, First50(prefix), address) <==> Has(t, prefix, address)
  {
    if GoodBits(t.bits) {
      Reinserted(prefix, t.bits);
    }
  }

  lemma {:induction false} ReachedFirst50(index: IndexTable, queue: seq<IndexTable>, g: nat, prefix: nat, address: nat)
    requires prefix < WORD && TablesOk(index, queue) && queue != []
    requires Reached(index, queue, Pow2(queue[0].bits), First50(prefix), address)
    ensures Reached(index, queue, g, prefix, address)
  {
    HasFirst50(index, prefix, address);
    if !Has(index, prefix, address) {
      var j: nat :| Waiting(queue, Pow2(queue[0].bits), First50(prefix), address, j);
      HasFirst50(queue[j], prefix, address);
      NotInFront(queue, First50(prefix), address, j);
      hide Has;
      assert Waiting(queue, g, prefix, address, j);
    }
  }

  lemma {:induction false} NotInFront(queue: seq<IndexTable>, prefix: nat, address: nat, j: nat)
    requires prefix < WORD && queue != [] && Waiting(queue, Pow2(queue[0].bits), prefix, address, j)
    ensures j > 0
  {
    if GoodBits(queue[0].bits) {
      Parts(prefix, queue[0].bits);
    }
    hide Pow2, ChunkIndex;
  }

  /** When every entry of a chunk is moved, nothing is found only there. */
  lemma {:induction false} ChunkMoved(
      index: IndexTable, queue: seq<IndexTable>, source: IndexTable, g: nat, c: Chunk, index': IndexTable,
      queue': seq<IndexTable>, slots: map<nat, Bytes>)
    requires ColumnOk(index, queue, g, slots) && Keeps(index, queue, index', queue') && TablesOk(index', queue')
    requires queue != [] && source == queue[0] && c == ChunkAt(source, g) && |c| == CHUNK_ENTRIES
    requires GoodBits(source.bits)
    requires Moving(source, g, c, CHUNK_ENTRIES, index', queue')
    ensures ColumnOk(index', queue', g + 1, slots)
  {
    ColumnKept(index, queue, index', queue', g, slots);
    assert queue'[0] == source;
    hide Moving, Reached, Has, PrefixOf, Pow2, Keeps;
    forall a | a in slots
      ensures Reached(index', queue', g + 1, PrefixOf(slots[a]), a)
    {
      assert Reached(index', queue', g, PrefixOf(slots[a]), a);
      KeyMoved(index', queue', source, g, c, PrefixOf(slots[a]), a);
    }
  }

  lemma {:induction false} KeyMoved(
      index: IndexTable, queue: seq<IndexTable>, source: IndexTable, g: nat, c: Chunk, prefix: nat, address: nat)
    requires prefix < WORD && address > 0 && TablesOk(index, queue) && queue != [] && source == queue[0]
    requires c == ChunkAt(source, g) && |c| == CHUNK_ENTRIES && GoodBits(source.bits)
    requires Moving(source, g, c, CHUNK_ENTRIES, index, queue) && Reached(index, queue, g, prefix, address)
    ensures Reached(index, queue, g + 1, prefix, address)
  {
    hide Moving, Has, Pow2, ChunkIndex;
    if !Has(index, prefix, address) {
      var j: nat :| Waiting(queue, g, prefix, address, j);
      if j > 0 || ChunkIndex(prefix, queue[j].bits) > g {
        ReachedBy(index, queue, g + 1, prefix, address, j);
      } else {
        EntryOfChunk(source, g, c, index, queue, prefix, address);
        ReachedFirst50(index, queue, g + 1, prefix, address);
      }
    }
  }

  lemma {:induction false} EntryOfChunk(
      source: IndexTable, g: nat, c: Chunk, index: IndexTable, queue: seq<IndexTable>, prefix: nat, address: nat)
    requires prefix < WORD && address > 0 && c == ChunkAt(source, g) && |c| == CHUNK_ENTRIES && GoodBits(source.bits)
    requires Moving(source, g, c, CHUNK_ENTRIES, index, queue) && Has(source, prefix, address)
    requires ChunkIndex(prefix, source.bits) == g
    ensures Reached(index, queue, Pow2(source.bits), First50(prefix), address)
  {
    var e := EntryFor(prefix, address, source.bits);
    PrefixRecovered(prefix, address, source.bits);
    EntryReads(prefix, address, source.bits);
    EntriesDiffer(prefix, address, prefix, address, source.bits);
    hide EntryFor, ChunkIndex, Reached, RecoverKeyPrefix, AddressOf, First50, Pow2;
    var n :| 0 <= n < |c| && c[n] == e;
    assert EntryMoved(source, g, c[n], index, queue);
  }

  lemma {:induction false} OldestNotNeeded(
      index: IndexTable, queue: seq<IndexTable>, progress: nat, slots: map<nat, Bytes>)
    requires ColumnOk(index, queue, progress, slots) && queue != [] && progress == Pow2(queue[0].bits)
    ensures ColumnOk(index, queue[1..], 0, slots)
  {
    hide Has, PrefixOf, Pow2, ChunkIndex;
    forall a | a in slots
      ensures Reached(index, queue[1..], 0, PrefixOf(slots[a]), a)
    {
      assert Reached(index, queue, progress, PrefixOf(slots[a]), a);
      if !Has(index, PrefixOf(slots[a]), a) {
        var j: nat :| Waiting(queue, progress, PrefixOf(slots[a]), a, j);
        NotInFront(queue, PrefixOf(slots[a]), a, j);
        assert Waiting(queue[1..], 0, PrefixOf(slots[a]), a, j - 1);
      }
    }
  }

  // ----- Runs

  datatype Step = Add(key: Bytes, address: nat) | Delete(key: Bytes) | Relocate(key: Bytes, to: nat) | MoveChunk | Drop

  /** Every stored key is whole, and only the key itself has its last 26 bytes. */
  predicate OnlyKey(slots: map<nat, Bytes>, key: Bytes) {
    IsKey(key) && forall a :: a in slots ==> |slots[a]| == 32 && (slots[a][6..] == key[6..] ==> slots[a] == key)
  }

  /** The step is one that the column may be asked for. */
  predicate Allowed(slots: map<nat, Bytes>, step: Step) {
    match step
    case Add(key, address) => OnlyKey(slots, key) && key !in slots.Values && address > 0 && address !in slots
    case Delete(key) => OnlyKey(slots, key)
    case Relocate(key, to) => OnlyKey(slots, key) && key in slots.Values && to > 0 && to !in slots
    case _ => true
  }

  /** What is stored after a step. */
  function SlotsStep(slots: map<nat, Bytes>, step: Step): map<nat, Bytes> {
    if !Allowed(slots, step) then slots else
      match step
      case Add(key, address) => slots[address := key]
      case Delete(key) => Without(slots, key)
      case Relocate(key, to) => Without(slots, key)[to := key]
      case _ => slots
  }

  function Without(slots: map<nat, Bytes>, key: Bytes): map<nat, Bytes> {
    map a | a in slots && slots[a] != key :: slots[a]
  }

  function SlotsAfter(slots: map<nat, Bytes>, steps: seq<Step>): map<nat, Bytes> {
    if steps == [] then slots else SlotsStep(SlotsAfter(slots, steps[..|steps| - 1]), steps[|steps| - 1])
  }

  /** The step asks for an index entry that the column does not write. */
  ghost predicate Fails(index: IndexTable, slots: map<nat, Bytes>, step: Step) {
    Allowed(slots, step) && GoodBits(index.bits) && match step
      case Add(key, address) => !HasRoom(index, PrefixOf(key), address)
      case Relocate(key, to) => exists a :: a in slots && slots[a] == key && Refuses(index, PrefixOf(key), a, to)
      case _ => false
  }

  method TakeStep(h: HashColumn, step: Step) returns (ok: bool)
    requires h.Valid()
    modifies h
    ensures h.slots == SlotsStep(old(h.slots), step) && (ok ==> h.Valid())
    ensures ok <==> !Fails(old(h.index), old(h.slots), step)
    ensures step.MoveChunk? ==> ChunkTaken(old(h.index), old(h.queue), old(h.progress), h.queue, h.progress)
    ensures step.Drop? ==> h.index == old(h.index) && Dropped(old(h.queue), old(h.progress), h.queue, h.progress)
  {
    hide *;
    ok := true;
    match step {
      case Add(key, address) => ok := AddStep(h, key, address);
      case Delete(key) => DeleteStep(h, key);
      case Relocate(key, to) => ok := RelocateStep(h, key, to);
      case MoveChunk => ChunkStep(h);
      case Drop => DropStep(h);
    }
  }

  method AddStep(h: HashColumn, key: Bytes, address: nat) returns (ok: bool)
    requires h.Valid()
    modifies h
    ensures h.slots == SlotsStep(old(h.slots), Add(key, address)) && (ok ==> h.Valid())
    ensures ok <==> !Fails(old(h.index), old(h.slots), Add(key, address))
  {
    hide TablesOk, AllReached, HasRoom, HasPlace, PrefixOf;
    ok := true;
    BitsAre(h.index, h.queue);
    if Allowed(h.slots, Add(key, address)) {
      ok := h.SetNew(key, address);
    }
  }

  method DeleteStep(h: HashColumn, key: Bytes)
    requires h.Valid()
    modifies h
    ensures h.slots == SlotsStep(old(h.slots), Delete(key)) && h.Valid()
    ensures !Fails(old(h.index), old(h.slots), Delete(key))
  {
    hide TablesOk, AllReached;
    if Allowed(h.slots, Delete(key)) {
      ghost var place;
      var found;
      found, place := h.Remove(key);
      assert h.slots == Without(old(h.slots), key);
    }
  }

  method RelocateStep(h: HashColumn, key: Bytes, to: nat) returns (ok: bool)
    requires h.Valid()
    modifies h
    ensures h.slots == SlotsStep(old(h.slots), Relocate(key, to)) && (ok ==> h.Valid())
    ensures ok <==> !Fails(old(h.index), old(h.slots), Relocate(key, to))
  {
    hide TablesOk, AllReached, PrefixOf, Refuses, Reached, Moved;
    ok := true;
    BitsAre(h.index, h.queue);
    if Allowed(h.slots, Relocate(key, to)) {
      ghost var from :| from in h.slots && h.slots[from] == key;
      OnlyOne(h.slots, key, from, to);
      var outcome := h.MoveValue(key, to, from);
      ok := outcome == Written;
    }
  }

  lemma OnlyOne(slots: map<nat, Bytes>, key: Bytes, from: nat, to: nat)
    requires SlotsOk(slots) && from in slots && slots[from] == key
    ensures forall a :: a in slots && slots[a] == key ==> a == from
    ensures Moved(slots, key, from, to) == Without(slots, key)[to := key]
  {
    assert forall a :: a in slots && slots[a] == key ==> slots[a][6..] == slots[from][6..];
  }

  /** One more chunk of the oldest index is done, if one waits; only an index of the largest size may refuse. */
  ghost predicate ChunkTaken(
      index: IndexTable, queue: seq<IndexTable>, progress: nat, queue': seq<IndexTable>, progress': nat)
  {
    && queue <= queue'
    && if queue == [] || progress >= Pow2(queue[0].bits) then queue' == queue && progress' == progress
       else progress' == progress + 1 || (index.bits == MAX_INDEX_BITS && progress' == progress)
  }

  /** The oldest index is gone, if all its chunks were moved. */
  ghost predicate Dropped(queue: seq<IndexTable>, progress: nat, queue': seq<IndexTable>, progress': nat) {
    if queue != [] && progress == Pow2(queue[0].bits) then queue' == queue[1..] && progress' == 0
    else queue' == queue && progress' == progress
  }

  /** The next chunk of the oldest index, if one waits to be moved. */
  method ChunkStep(h: HashColumn)
    requires h.Valid()
    modifies h
    ensures h.Valid() && h.slots == SlotsStep(old(h.slots), MoveChunk) && !Fails(old(h.index), old(h.slots), MoveChunk)
    ensures ChunkTaken(old(h.index), old(h.queue), old(h.progress), h.queue, h.progress)
  {
    hide Pow2, ColumnOk;
    if h.queue != [] && h.progress < Pow2(h.queue[0].bits) {
      var _ := h.ReindexChunk();
    }
  }

  /** The oldest index is dropped, if all its chunks are moved. */
  method DropStep(h: HashColumn)
    requires h.Valid()
    modifies h
    ensures h.Valid() && h.slots == SlotsStep(old(h.slots), Drop) && !Fails(old(h.index), old(h.slots), Drop)
    ensures h.index == old(h.index) && Dropped(old(h.queue), old(h.progress), h.queue, h.progress)
  {
    hide Pow2, ColumnOk;
    if h.queue != [] && h.progress == Pow2(h.queue[0].bits) {
      h.DropIndex();
    }
  }

  /**
   Any run of additions, deletions, moved values, moved chunks and dropped indexes, in any order:
   the column holds what the steps say and each live key is found at its address, by either
   search. The run ends early only where the index could not grow or a moved value was refused;
   `at` and `n` say where.
   */
  method Run(h: HashColumn, steps: seq<Step>, key: Bytes, fast: bool)
    returns (ok: bool, r: Option<nat>, ghost n: nat, ghost at: IndexTable)
    requires h.Valid()
    modifies h
    ensures n <= |steps| && h.slots == SlotsAfter(old(h.slots), steps[..n])
    ensures ok ==> n == |steps| && h.Valid()
    ensures !ok ==> n > 0 && Fails(at, SlotsAfter(old(h.slots), steps[..n - 1]), steps[n - 1])
    ensures ok && OnlyKey(h.slots, key) ==>
      (r.Some? <==> key in h.slots.Values) && (r.Some? ==> r.value in h.slots && h.slots[r.value] == key)
  {
    hide *;
    ok, r, n, at := true, None, 0, h.index;
    NoSteps(h.slots, steps);
    var i := 0;
    while i < |steps| && ok
      invariant n == i <= |steps| && h.slots == SlotsAfter(old(h.slots), steps[..n]) && (ok ==> h.Valid())
      invariant !ok ==> n > 0 && Fails(at, SlotsAfter(old(h.slots), steps[..n - 1]), steps[n - 1])
      decreases |steps| - i
    {
      at := h.index;
      OneMoreStep(old(h.slots), steps, i);
      ok := TakeStep(h, steps[i]);
      i, n := i + 1, n + 1;
    }
    if ok && OnlyKey(h.slots, key) {
      KeyIsDistinct(h, key);
      r := h.Get(fast, key);
    }
  }

  lemma NoSteps(slots: map<nat, Bytes>, steps: seq<Step>)
    ensures SlotsAfter(slots, steps[..0]) == slots
  {
  }

  lemma OneMoreStep(slots: map<nat, Bytes>, steps: seq<Step>, i: nat)
    requires i < |steps|
    ensures SlotsAfter(slots, steps[..i + 1]) == SlotsStep(SlotsAfter(slots, steps[..i]), steps[i])
  {
    assert steps[..i + 1][..i] == steps[..i];
  }

  lemma KeyIsDistinct(h: HashColumn, key: Bytes)
    requires h.Valid() && OnlyKey(h.slots, key)
    ensures TablesOk(h.index, h.queue) && SlotsOk(h.slots) && IsKey(key) && Distinct(h.slots, key)
  {
  }

  // ----- A lost key

  lemma {:induction false} TooLarge(index: IndexTable, queue: seq<IndexTable>, prefix: nat, address: nat)
    requires TablesOk(index, queue) && address >= AddressLimit(index.bits)
    ensures !Indexed(index, queue, prefix, address)
    ensures forall progress: nat :: !Reached(index, queue, progress, prefix, address)
  {
    forall j | 0 <= j < |queue|
      ensures AddressLimit(queue[j].bits) < AddressLimit(index.bits)
    {
      LimitGrows(queue[j].bits, index.bits);
    }
    hide AddressLimit;
  }

  /** A value moved to an address that is too large for the main index is never found again. */
  method MovedTooFar(h: HashColumn, key: Bytes, to: nat, ghost from: nat) returns (r: Option<nat>)
    requires h.Valid() && IsKey(key) && Distinct(h.slots, key) && to !in h.slots
    requires from in h.slots && h.slots[from] == key && to >= AddressLimit(h.index.bits) && to > 0
    modifies h
    ensures h.slots == Moved(old(h.slots), key, from, to) && !h.Valid() && r == None
  {
    hide AddressLimit, PrefixOf, Has, Moved, TablesOk, SlotsOk, Distinct, ColumnOk, Indexed, Reached, ChunkIndex, Full;
    ColumnIs(h.index, h.queue, h.progress, h.slots);
    TooLarge(h.index, h.queue, PrefixOf(key), to);
    RefusesIs(h.index, PrefixOf(key), from, to);
    var _ := h.MoveValue(key, to, from);
    MovedHas(old(h.slots), key, from, to);
    r := h.Get(false, key);
    LiveIsAt(h.slots, key, to, r);
  }

  lemma MovedHas(slots: map<nat, Bytes>, key: Bytes, from: nat, to: nat)
    ensures var u := Moved(slots, key, from, to); to in u && u[to] == key
  {
  }

  lemma LiveIsAt(slots: map<nat, Bytes>, key: Bytes, to: nat, r: Option<nat>)
    requires SlotsOk(slots) && to in slots && slots[to] == key
    ensures r.Some? && r.value in slots && slots[r.value] == key ==> r.value == to
  {
  }

  /** The smallest such case: one key, added to a new column and moved. */
  method OneKeyLost(key: Bytes) returns (h: HashColumn, found: Option<nat>, r: Option<nat>)
    requires IsKey(key)
    ensures found == Some(1) && r == None && key in h.slots.Values
  {
    hide AddressLimit, PrefixOf, Has, Moved, TablesOk, SlotsOk, Distinct, ColumnOk, Indexed, Reached, ChunkIndex, Full;
    hide HasPlace, HasRoom;
    var to := AddressLimit(MIN_INDEX_BITS);
    h := new HashColumn();
    NewHasPlace(h.index, PrefixOf(key));
    NoneThere(h, key);
    var _ := h.SetNew(key, 1);
    OneThere(h, key, 1);
    found := h.Get(false, key);
    r := MovedTooFar(h, key, to, 1);
    MovedHas(map[1 := key], key, 1, to);
  }

  lemma NewHasPlace(index: IndexTable, prefix: nat)
    requires index == IndexTable(MIN_INDEX_BITS, map[])
    ensures HasPlace(index, prefix, 1) && HasRoom(index, prefix, 1) && AddressLimit(MIN_INDEX_BITS) > 1
  {
    hide Pow2, ChunkIndex;
    LimitGrows(0, MIN_INDEX_BITS);
    Pow2Values();
    RoomIs(index, prefix, 1);
    assert EmptyChunk()[0] == 0;
  }

  lemma NoneThere(h: HashColumn, key: Bytes)
    requires h.Valid() && h.slots == map[] && IsKey(key)
    ensures SlotsOk(h.slots) && Distinct(h.slots, key) && key !in h.slots.Values
  {
  }

  lemma OneThere(h: HashColumn, key: Bytes, a: nat)
    requires h.Valid() && h.slots == map[a := key] && IsKey(key)
    ensures TablesOk(h.index, h.queue) && SlotsOk(h.slots) && Distinct(h.slots, key) && key in h.slots.Values
  {
    assert h.slots[a] == key;
  }
}
