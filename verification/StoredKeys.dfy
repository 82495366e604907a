/**
 What a slot of a value table keeps of a hashed key, joined to the index: the slot's 26 bytes
 answer the key check of a lookup, and with the index entry they give the whole key back.
 */
module StoredKeys {
  import opened Keys
  import opened LittleEndian
  import opened SlotEntry
  import opened IndexEntry
  import opened TableView
  import opened ValueTables
  import opened HashIndex

  /** After a write under one key a lookup of another one answers exactly when their last 26 bytes agree. */
  method WriteThenQuery(t: ValueTable, k: Bytes, value: Bytes, compressed: bool, other: Bytes)
    returns (index: nat, r: Option<(Bytes, bool, nat)>)
    requires t.Valid() && IsKey(k) && IsKey(other)
    requires var n := |value| + HeadSize(t.refCounted, Partial(k));
      && (if t.multipart then n > MULTIPART_ENTRY_SIZE - SIZE_SIZE else n <= t.entrySize - SIZE_SIZE)
      && t.filled + n < U64_LIMIT
    modifies t
    ensures t.Valid() && r == if k[6..] == other[6..] then Some((value, compressed, 1)) else None
  {
    hide Ok, Answer, Overwritten, Head, KeyBytes;
    index := t.WriteInsertPlan(Partial(k), value, compressed);
    WrittenAnswers(t.refCounted, old(t.view), t.view, index, Partial(k), value, compressed);
    Readable(t.refCounted, old(t.view), t.view, index, k, value, compressed);
    r := t.Query(index, Partial(other));
  }

  lemma {:induction false} Readable(
      refCounted: bool, v0: View, v: View, h: nat, k: Bytes, value: Bytes, compressed: bool)
    requires IsKey(k) && Overwritten(v0, v, h, Head(refCounted, Partial(k)) + value, compressed)
    requires v.multipart ==> |value| + HeadSize(refCounted, Partial(k)) > MULTIPART_ENTRY_SIZE - SIZE_SIZE
    ensures h in v.owner && (v.multipart ==> |v.live[h].chain| > 1)
  {
    hide OkBut;
    SeveralSlots(v, h);
    OkSizes(v, 0);
    var _ := OwnerOf(v, h);
  }

  /** The key bytes of a stored value. */
  ghost function StoredKey(refCounted: bool, s: Stored): Bytes
    requires |s.bytes| >= HeadSize(refCounted, Partial([]))
  {
    var r := if refCounted then REFS_SIZE else 0;
    s.bytes[r..r + PARTIAL_SIZE]
  }

  /** The value was stored under this key. */
  ghost predicate StoredUnder(refCounted: bool, s: Stored, k: Bytes)
    requires IsKey(k)
  {
    exists value :: s.bytes == Head(refCounted, Partial(k)) + value
  }

  lemma {:induction false} StoredKeyIs(refCounted: bool, s: Stored, k: Bytes)
    requires IsKey(k) && StoredUnder(refCounted, s, k)
    ensures |s.bytes| >= HeadSize(refCounted, Partial([])) && StoredKey(refCounted, s) == k[6..]
    ensures Counter(refCounted, s.bytes) == 1
  {
    var value :| s.bytes == Head(refCounted, Partial(k)) + value;
    var r := if refCounted then REFS_SIZE else 0;
    assert s.bytes[r..r + PARTIAL_SIZE] == Head(refCounted, Partial(k))[r..] == k[6..];
    if refCounted {
      assert s.bytes[..REFS_SIZE] == LE(1, REFS_SIZE);
      U32RoundTrip(1);
    }
  }

  /** Chunk number, index entry and the bytes in the slot give the whole key. */
  lemma {:induction false} SlotNamesKey(refCounted: bool, s: Stored, k: Bytes, address: nat, bits: nat)
    requires IsKey(k) && StoredUnder(refCounted, s, k) && GoodBits(bits) && address < AddressLimit(bits)
    ensures |s.bytes| >= HeadSize(refCounted, Partial([])) && |StoredKey(refCounted, s)| == 26
    ensures WholeKey(
      ChunkIndex(PrefixOf(k), bits), EntryFor(PrefixOf(k), address, bits), bits, StoredKey(refCounted, s)) == k
  {
    hide WholeKey, ChunkIndex, EntryFor, PrefixOf, StoredUnder, StoredKey, AddressLimit;
    StoredKeyIs(refCounted, s, k);
    KeyRecovered(k, address, bits);
  }

  /** Every slot of the column holds a value stored under its key. */
  ghost predicate Backed(refCounted: bool, slots: map<nat, Bytes>, live: map<nat, Stored>) {
    forall a :: a in slots ==> IsKey(slots[a]) && a in live && StoredUnder(refCounted, live[a], slots[a])
  }

  /** The slots that the index takes for holders of a key are those whose values answer it. */
  lemma {:induction false} HoldersAnswer(refCounted: bool, h: HashColumn, live: map<nat, Stored>, key: Bytes, a: nat)
    requires IsKey(key) && Backed(refCounted, h.slots, live) && a in h.slots
    ensures |live[a].bytes| >= HeadSize(refCounted, Partial(key))
    ensures a in h.Holders(key) <==> Answer(refCounted, live[a], Partial(key)).Some?
  {
    hide StoredUnder, Head;
    StoredKeyIs(refCounted, live[a], h.slots[a]);
  }
}
