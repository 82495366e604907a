/**
 Changes to index chunks, and how the log keeps them: the overlay serves whole chunks, the log
 file only the entries that a record changed.
 */
module IndexLog {
  import opened Keys
  import opened IndexEntry
  import opened IndexChunk

  datatype PlanOutcome = Written | NeedReindex | Skipped

  // ----- Plans

  ghost predicate Full(c: Chunk) {
    forall i :: 0 <= i < |c| ==> c[i] != 0
  }

  /** `plan_insert_chunk`: in place of entry `sub`, or into the first empty entry. */
  method PlanInsertChunk(
      prefix: nat, address: nat, c: Chunk, sub: Option<nat>, bits: nat)
    returns (outcome: PlanOutcome, d: Chunk, at: nat)
    requires GoodBits(bits) && GoodChunk(c) && prefix < WORD
    requires sub.Some? ==> sub.value < CHUNK_ENTRIES && PartialKey(c[sub.value], bits) == ExtractKey(prefix, bits)
    ensures outcome == NeedReindex <==> address >= AddressLimit(bits) || (sub.None? && Full(c))
    ensures outcome == NeedReindex ==> d == c
    ensures outcome != NeedReindex ==>
      && outcome == Written && GoodChunk(d) && at < CHUNK_ENTRIES && d == c[at := EntryFor(prefix, address, bits)]
      && (if sub.Some? then at == sub.value else c[at] == 0 && forall i :: 0 <= i < at ==> c[i] != 0)
  {
    hide PartialKey, ExtractKey, EntryFor, AddressLimit;
    d, at := c, 0;
    if address >= AddressLimit(bits) {
      return NeedReindex, d, at;
    }
    EntryReads(prefix, address, bits);
    var entry := EntryFor(prefix, address, bits);
    if sub.Some? {
      return Written, c[sub.value := entry], sub.value;
    }
    while at < CHUNK_ENTRIES
      invariant at <= CHUNK_ENTRIES && forall i :: 0 <= i < at ==> c[i] != 0
    {
      if c[at] == 0 {
        return Written, c[at := entry], at;
      }
      at := at + 1;
    }
    outcome := NeedReindex;
  }

  /** `plan_remove_chunk`: afterwards no search for any key stops at the entry; the others are untouched. */
  method PlanRemoveChunk(prefix: nat, c: Chunk, sub: nat, bits: nat) returns (outcome: PlanOutcome, d: Chunk)
    requires GoodChunk(c) && sub < CHUNK_ENTRIES
    ensures outcome == Written <==> Matches(c[sub], prefix, bits)
    ensures outcome == Written ==> d == c[sub := 0] && forall q, n :: !Matches(d[sub], q, n)
    ensures outcome != Written ==> outcome == Skipped && d == c && !Matches(d[sub], prefix, bits)
  {
    if c[sub] != 0 && PartialKey(c[sub], bits) == ExtractKey(prefix, bits) {
      return Written, c[sub := 0];
    }
    outcome, d := Skipped, c;
  }

  /** What a plan inserts at an empty place, the plan that removes it takes back: the chunk is as before. */
  method InsertAndRemove(prefix: nat, address: nat, c: Chunk, bits: nat) returns (inserted: PlanOutcome, d: Chunk)
    requires GoodBits(bits) && GoodChunk(c) && prefix < WORD && address > 0
    ensures d == c && (inserted == Written <==> address < AddressLimit(bits) && !Full(c))
  {
    hide PartialKey, ExtractKey, EntryFor, AddressLimit, AddressOf;
    var at;
    inserted, d, at := PlanInsertChunk(prefix, address, c, None, bits);
    if inserted == Written {
      EntryReads(prefix, address, bits);
      EntryIsNotEmpty(prefix, address, bits);
      var removed;
      removed, d := PlanRemoveChunk(prefix, d, at, bits);
      assert c[at := EntryFor(prefix, address, bits)][at := 0] == c;
    }
  }

  lemma EntryIsNotEmpty(prefix: nat, address: nat, bits: nat)
    requires GoodBits(bits) && prefix < WORD && 0 < address < AddressLimit(bits)
    ensures EntryFor(prefix, address, bits) != 0
  {
    hide EntryFor, ExtractKey;
    EntryReads(prefix, address, bits);
    DivIs(0, AddressLimit(bits), 0, 0);
  }

  // ----- Records of a chunk

  type Mask = seq<bool>

  function NoMask(): (m: Mask)
    ensures |m| == CHUNK_ENTRIES && forall i :: 0 <= i < |m| ==> !m[i]
  {
    seq(CHUNK_ENTRIES, _ => false)
  }

  /** What one record does to one chunk: the whole chunk for readers, and which entries it changed. */
  datatype Change = Change(id: nat, mask: Mask, data: Chunk)

  /** Outside its mask a record leaves the chunk as it found it. */
  ghost predicate Follows(before: Chunk, r: Change) {
    && |before| == |r.mask| == |r.data| == CHUNK_ENTRIES
    && forall i :: 0 <= i < CHUNK_ENTRIES && !r.mask[i] ==> r.data[i] == before[i]
  }

  /** `LogWriter::insert_index`: one more changed entry of a chunk in the record being written. */
  function InsertIndex(local: Option<Change>, id: nat, at: nat, data: Chunk): Change
    requires at < CHUNK_ENTRIES && (local.Some? ==> |local.value.mask| == CHUNK_ENTRIES)
  {
    Change(id, (if local.Some? then local.value.mask else NoMask())[at := true], data)
  }

  /**
   However many entries a record changes: readers are served the chunk with the new entry, under
   the id of the record, and the mask covers what was changed and nothing else.
   */
  lemma InsertFollows(before: Chunk, local: Option<Change>, id: nat, at: nat, e: nat)
    requires |before| == CHUNK_ENTRIES && at < CHUNK_ENTRIES && (local.Some? ==> Follows(before, local.value))
    ensures var seen := if local.Some? then local.value.data else before;
      var r := InsertIndex(local, id, at, seen[at := e]);
      && Follows(before, r) && r.id == id && Served(before, [r]) == seen[at := e] && r.data[at] == e
      && forall i :: 0 <= i < CHUNK_ENTRIES ==> (r.mask[i] <==> i == at || (local.Some? && local.value.mask[i]))
  {
  }

  /** The entries that go to the log file, lowest first. */
  function Listed(mask: Mask, data: Chunk, from: nat): seq<nat>
    requires |mask| == |data| && from <= |mask|
    decreases |mask| - from
  {
    if from == |mask| then [] else (if mask[from] then [data[from]] else []) + Listed(mask, data, from + 1)
  }

  /** `IndexTable::enact_plan`: the listed entries over the chunk in the table. */
  method EnactPlan(
      table: Chunk, mask: Mask, log: seq<nat>, ghost data: Chunk, ghost tail: seq<nat>)
    returns (t: Chunk, rest: seq<nat>)
    requires |table| == |mask| == |data| == CHUNK_ENTRIES && log == Listed(mask, data, 0) + tail
    ensures t == Merged(table, mask, data) && rest == tail
  {
    t, rest := table, log;
    var i := 0;
    while i < CHUNK_ENTRIES
      invariant i <= CHUNK_ENTRIES && |t| == CHUNK_ENTRIES && rest == Listed(mask, data, i) + tail
      invariant forall j :: 0 <= j < CHUNK_ENTRIES ==> t[j] == if j < i && mask[j] then data[j] else table[j]
    {
      if mask[i] {
        assert rest == [data[i]] + (Listed(mask, data, i + 1) + tail);
        t, rest := t[i := rest[0]], rest[1..];
      }
      i := i + 1;
    }
    assert Listed(mask, data, CHUNK_ENTRIES) == [];
  }

  function Merged(table: Chunk, mask: Mask, data: Chunk): (t: Chunk)
    requires |table| == |mask| == |data|
  {
    seq(|table|, i requires 0 <= i < |table| => if mask[i] then data[i] else table[i])
  }

  /** Records of one chunk, each made from what the one before left. */
  ghost predicate Chained(before: Chunk, records: seq<Change>)
    decreases |records|
  {
    records == [] || (Follows(before, records[0]) && Chained(records[0].data, records[1..]))
  }

  /** What readers are served while these records are pending: the chunk of the last one. */
  function Served(table: Chunk, records: seq<Change>): Chunk {
    if records == [] then table else records[|records| - 1].data
  }

  function EnactAll(table: Chunk, records: seq<Change>): Chunk
    decreases |records|
  {
    if records == [] then table
    else if |table| == |records[0].mask| == |records[0].data| then
      EnactAll(Merged(table, records[0].mask, records[0].data), records[1..])
    else table
  }

  /** Enacting only the changed entries, record by record, rebuilds the whole chunk that readers were served. */
  lemma {:induction false} MaskedLogIsLossless(table: Chunk, records: seq<Change>)
    requires Chained(table, records)
    ensures EnactAll(table, records) == Served(table, records)
    decreases |records|
  {
    if records != [] {
      var r := records[0];
      assert Merged(table, r.mask, r.data) == r.data;
      MaskedLogIsLossless(r.data, records[1..]);
    }
  }

  /**
   `end_read` drops the overlay's chunk when its record is the one just enacted. Then the table
   holds the same chunk; while a later record is pending the overlay keeps serving that one.
   */
  lemma {:induction false} DroppedWhenEqual(table: Chunk, records: seq<Change>, n: nat)
    requires Chained(table, records) && 0 < n <= |records| && forall i, j :: 0 <= i < j < |records| ==>
      records[i].id < records[j].id
    ensures records[|records| - 1].id == records[n - 1].id <==> n == |records|
    ensures n == |records| ==> EnactAll(table, records[..n]) == Served(table, records)
  {
    if n == |records| {
      assert records[..n] == records;
      MaskedLogIsLossless(table, records);
    }
  }

  // ----- From plan to table

  /** A change planned to one chunk: an entry put in, in place of another one or not, or one taken out. */
  datatype Plan = Put(prefix: nat, address: nat, sub: Option<nat>) | Take(prefix: nat, place: nat)

  /** The program asserts of an entry to be replaced that it is one of the same partial key. */
  predicate Sound(c: Chunk, p: Plan, bits: nat)
    requires |c| == CHUNK_ENTRIES
  {
    p.prefix < WORD && match p
      case Put(prefix, _, sub) =>
        sub.Some? ==> sub.value < CHUNK_ENTRIES && PartialKey(c[sub.value], bits) == ExtractKey(prefix, bits)
      case Take(_, sub) => sub < CHUNK_ENTRIES
  }

  /** The first empty place. */
  function FirstEmpty(c: Chunk): (n: nat)
    ensures n <= |c| && (forall i :: 0 <= i < n ==> c[i] != 0) && (n < |c| ==> c[n] == 0)
  {
    if c == [] || c[0] == 0 then 0 else 1 + FirstEmpty(c[1..])
  }

  /** What a plan asks of the chunk. */
  function Effect(c: Chunk, p: Plan, bits: nat): (d: Chunk)
    requires |c| == CHUNK_ENTRIES && GoodBits(bits)
    ensures |d| == CHUNK_ENTRIES
  {
    if !Sound(c, p, bits) then c else
      match p
      case Put(prefix, address, sub) =>
        var at := if sub.Some? then sub.value else FirstEmpty(c);
        if address < AddressLimit(bits) && at < |c| then c[at := EntryFor(prefix, address, bits)] else c
      case Take(prefix, sub) => if Matches(c[sub], prefix, bits) then c[sub := 0] else c
  }

  function Effects(c: Chunk, plans: seq<Plan>, bits: nat): (d: Chunk)
    requires |c| == CHUNK_ENTRIES && GoodBits(bits)
    ensures |d| == CHUNK_ENTRIES
  {
    if plans == [] then c else Effect(Effects(c, plans[..|plans| - 1], bits), plans[|plans| - 1], bits)
  }

  /** One plan of a record: the chunk that readers see of it, and its change of the chunk so far. */
  method PlanOne(before: Chunk, local: Option<Change>, id: nat, p: Plan, bits: nat) returns (next: Option<Change>)
    requires GoodBits(bits) && |before| == |Current(before, local)| == CHUNK_ENTRIES && InOrder(before, local)
    ensures InOrder(before, next) && |Current(before, next)| == CHUNK_ENTRIES
    ensures Current(before, next) == Effect(Current(before, local), p, bits)
    ensures next != local ==> next.Some? && next.value.id == id
  {
    hide PartialKey, ExtractKey, EntryFor, AddressLimit, Matches, GoodChunk;
    var c, outcome, d, at := Current(before, local), Skipped, before, 0;
    ChunkSizes(before, local);
    next := local;
    if Sound(c, p, bits) {
      match p {
        case Put(prefix, address, sub) =>
          outcome, d, at := PlanInsertChunk(prefix, address, c, sub, bits);
          PutIs(c, prefix, address, sub, bits, outcome, at);
        case Take(prefix, sub) =>
          outcome, d := PlanRemoveChunk(prefix, c, sub, bits);
          at := sub;
          RemovedGood(c, sub);
      }
      if outcome == Written {
        InsertFollows(before, local, id, at, d[at]);
        next := Some(InsertIndex(local, id, at, d));
        assert d == c[at := d[at]];
      }
    }
  }

  /** What readers see of the chunk while a record is made. */
  function Current(before: Chunk, local: Option<Change>): Chunk {
    if local.Some? then local.value.data else before
  }

  /** The change follows from what was there, and the entries are words. */
  ghost predicate InOrder(before: Chunk, local: Option<Change>) {
    (local.Some? ==> Follows(before, local.value)) && GoodChunk(Current(before, local))
  }

  lemma ChunkSizes(before: Chunk, local: Option<Change>)
    ensures GoodChunk(before) ==> |before| == CHUNK_ENTRIES
    ensures InOrder(before, local) ==> |Current(before, local)| == CHUNK_ENTRIES && GoodChunk(Current(before, local))
  {
  }

  lemma RemovedGood(c: Chunk, sub: nat)
    requires GoodChunk(c) && sub < CHUNK_ENTRIES
    ensures GoodChunk(c[sub := 0])
  {
  }

  /** The insert plan does what is asked. */
  lemma {:induction false} PutIs(
      c: Chunk, prefix: nat, address: nat, sub: Option<nat>, bits: nat, outcome: PlanOutcome, at: nat)
    requires |c| == CHUNK_ENTRIES && GoodBits(bits) && Sound(c, Put(prefix, address, sub), bits)
    requires outcome == NeedReindex <==> address >= AddressLimit(bits) || (sub.None? && Full(c))
    requires outcome != NeedReindex ==> outcome == Written && at < CHUNK_ENTRIES
    requires outcome != NeedReindex ==>
      (if sub.Some? then at == sub.value else c[at] == 0 && forall i :: 0 <= i < at ==> c[i] != 0)
    ensures Effect(c, Put(prefix, address, sub), bits) ==
      if outcome == Written then c[at := EntryFor(prefix, address, bits)] else c
  {
    hide EntryFor, AddressLimit, PartialKey, ExtractKey;
    var n := FirstEmpty(c);
  }

  /**
   Any plans for one chunk in one record, logged as the masked entries and enacted on the table:
   the table's chunk is the planned one, and so is what readers were served meanwhile.
   */
  method PlanLogEnact(table: Chunk, plans: seq<Plan>, id: nat, bits: nat)
    returns (served: Chunk, enacted: Chunk)
    requires GoodBits(bits) && GoodChunk(table)
    ensures served == enacted == Effects(table, plans, bits)
  {
    hide GoodChunk, Effect, Merged, Listed;
    var local: Option<Change> := None;
    var i := 0;
    ChunkSizes(table, None);
    NoPlans(table, plans, bits);
    while i < |plans|
      invariant i <= |plans| && InOrder(table, local) && |Current(table, local)| == CHUNK_ENTRIES
      invariant Current(table, local) == Effects(table, plans[..i], bits)
    {
      OneMorePlan(table, plans, bits, i);
      local := PlanOne(table, local, id, plans[i], bits);
      i := i + 1;
    }
    assert plans[..i] == plans;
    served, enacted := Current(table, local), table;
    if local.Some? {
      var r := local.value;
      var log := Listed(r.mask, r.data, 0);
      assert log == log + [];
      var rest;
      enacted, rest := EnactPlan(table, r.mask, log, r.data, []);
      MergedIs(table, r);
    }
  }

  lemma NoPlans(c: Chunk, plans: seq<Plan>, bits: nat)
    requires |c| == CHUNK_ENTRIES && GoodBits(bits)
    ensures Effects(c, plans[..0], bits) == c
  {
  }

  lemma OneMorePlan(c: Chunk, plans: seq<Plan>, bits: nat, i: nat)
    requires |c| == CHUNK_ENTRIES && GoodBits(bits) && i < |plans|
    ensures Effects(c, plans[..i + 1], bits) == Effect(Effects(c, plans[..i], bits), plans[i], bits)
  {
    assert plans[..i + 1][..i] == plans[..i];
  }

  lemma MergedIs(before: Chunk, r: Change)
    requires Follows(before, r)
    ensures Merged(before, r.mask, r.data) == r.data
  {
  }
}
