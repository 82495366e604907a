/**
 The value tables of one column: which table a value goes to, and what happens to one key of a
 reference-counted column.
 */
module ValueTiers {
  import opened Keys
  import opened Batch
  import opened LittleEndian
  import opened SlotEntry
  import opened TableView
  import opened ValueTables

  /** Entry sizes of the tables of a column; one more table, of linked slots, follows. */
  const SIZES: seq<nat> := [
    32, 33, 34, 35, 36, 37, 38, 39, 40, 41, 42, 43, 44, 46, 47, 48, 50, 51, 52, 54, 55, 57, 58, 60, 62, 63, 65, 67,
    69, 71, 73, 75, 77, 79, 81, 83, 85, 88, 90, 93, 95, 98, 101, 103, 106, 109, 112, 115, 119, 122, 125, 129, 132,
    136, 140, 144, 148, 152, 156, 160, 165, 169, 174, 179, 183, 189, 194, 199, 205, 210, 216, 222, 228, 235, 241, 248,
    255, 262, 269, 276, 284, 292, 300, 308, 317, 325, 334, 344, 353, 363, 373, 383, 394, 405, 416, 428, 439, 452, 464,
    477, 490, 504, 518, 532, 547, 562, 577, 593, 610, 627, 644, 662, 680, 699, 718, 738, 758, 779, 801, 823, 846, 869,
    893, 918, 943, 969, 996, 1024, 1052, 1081, 1111, 1142, 1174, 1206, 1239, 1274, 1309, 1345, 1382, 1421, 1460, 1500,
    1542, 1584, 1628, 1673, 1720, 1767, 1816, 1866, 1918, 1971, 2025, 2082, 2139, 2198, 2259, 2322, 2386, 2452, 2520,
    2589, 2661, 2735, 2810, 2888, 2968, 3050, 3134, 3221, 3310, 3402, 3496, 3593, 3692, 3794, 3899, 4007, 4118, 4232,
    4349, 4469, 4593, 4720, 4850, 4984, 5122, 5264, 5410, 5559, 5713, 5871, 6034, 6200, 6372, 6548, 6729, 6916, 7107,
    7303, 7506, 7713, 7927, 8146, 8371, 8603, 8841, 9085, 9337, 9595, 9860, 10133, 10413, 10702, 10998, 11302, 11614,
    11936, 12266, 12605, 12954, 13312, 13681, 14059, 14448, 14848, 15258, 15681, 16114, 16560, 17018, 17489, 17973,
    18470, 18981, 19506, 20046, 20600, 21170, 21756, 22358, 22976, 23612, 24265, 24936, 25626, 26335, 27064, 27812,
    28582, 29372, 30185, 31020, 31878, 32760
  ]

  const LAST_TIER := 255

  /** Entry size of the table of a tier. */
  function EntrySize(tier: nat): nat
    requires tier <= LAST_TIER
  {
    if tier < LAST_TIER then SIZES[tier] else MULTIPART_ENTRY_SIZE
  }

  predicate Fits(tier: nat, len: nat, refCounted: bool, key: TableKey)
    requires tier <= LAST_TIER
  {
    len + HeadSize(refCounted, key) <= EntrySize(tier) - SIZE_SIZE
  }

  /** The first table whose entries hold a value of `len` bytes, else the last table (`Column::compress`). */
  method TargetTier(len: nat, refCounted: bool, key: TableKey) returns (tier: nat)
    ensures tier <= LAST_TIER && (tier < LAST_TIER ==> Fits(tier, len, refCounted, key))
    ensures forall t :: 0 <= t < tier ==> !Fits(t, len, refCounted, key)
    ensures tier == LAST_TIER ==> len + HeadSize(refCounted, key) > MAX_ENTRY_SIZE - SIZE_SIZE
  {
    tier := 0;
    while tier <= LAST_TIER && !Fits(tier, len, refCounted, key)
      invariant tier <= LAST_TIER + 1
      invariant forall t :: 0 <= t < tier ==> !Fits(t, len, refCounted, key)
    {
      tier := tier + 1;
    }
    assert EntrySize(LAST_TIER - 1) == MAX_ENTRY_SIZE;
    assert tier >= LAST_TIER ==> !Fits(LAST_TIER - 1, len, refCounted, key);
    if tier == LAST_TIER + 1 {
      tier := LAST_TIER;
    }
  }

  /** A value the tier choice sends to the last table takes several slots there, so a lookup sees it. */
  lemma {:induction false} LastTierIsReadable(
      refCounted: bool, v0: View, v: View, h: nat, key: TableKey, value: Bytes, compressed: bool)
    requires KeyOk(key) && v.multipart && Overwritten(v0, v, h, Head(refCounted, key) + value, compressed)
    requires |value| + HeadSize(refCounted, key) > MAX_ENTRY_SIZE - SIZE_SIZE
    ensures |v.live[h].chain| > 1
  {
    SeveralSlots(v, h);
    OkSizes(v, 0);
  }

  /** In the table of linked slots a value that fits one slot is stored but never found again. */
  method ShortValueIsLost(
      t: ValueTable, key: TableKey, value: Bytes) returns (index: nat, r: Option<(Bytes, bool, nat)>)
    requires t.Valid() && t.multipart && KeyOk(key)
    requires |value| + HeadSize(t.refCounted, key) <= MULTIPART_ENTRY_SIZE - SIZE_SIZE
    requires t.filled + |value| + HeadSize(t.refCounted, key) < U64_LIMIT
    modifies t
    ensures t.Valid() && index in t.view.live && r == None
  {
    index := t.WriteInsertPlan(key, value, false);
    SeveralSlots(t.view, index);
    OwnSlot(t.view, index);
    WrittenAnswers(t.refCounted, old(t.view), t.view, index, key, value, false);
    r := t.Query(index, key);
  }

  lemma OwnSlot(v: View, h: nat)
    requires Ok(v) && h in v.live
    ensures h in v.owner
  {
    var _ := OwnerOf(v, h);
  }

  // ----- Reference counts

  /** What the column keeps for one key: nothing, or a value, whether it is compressed, and a counter. */
  type Kept = Option<(Bytes, bool, nat)>

  function Recount(k: (Bytes, bool, nat), delta: int): Kept {
    match Bumped(k.2, delta)
    case Some(n) => Some((k.0, k.1, n))
    case None => None
  }

  /** One operation. A value that is there stays, whatever is set. */
  function StoredStep(k: Kept, op: Operation, compressed: bool): Kept {
    match op
    case Set(_, v) => if k.None? then Some((v, compressed, 1)) else Recount(k.value, 1)
    case Reference(_) => if k.None? then None else Recount(k.value, 1)
    case Dereference(_) => if k.None? then None else Recount(k.value, -1)
  }

  /** Operations on one key, each with the flag that its value would be stored with. */
  function StoredRun(ops: seq<Operation>, flags: seq<bool>): Kept
    requires |ops| == |flags|
  {
    if ops == [] then None else
      var n := |ops| - 1;
      StoredStep(StoredRun(ops[..n], flags[..n]), ops[n], flags[n])
  }

  /** References counted without any limit; 0 when the key is absent. */
  function IdealRun(ops: seq<Operation>): nat {
    if ops == [] then 0 else
      var n, op := IdealRun(ops[..|ops| - 1]), ops[|ops| - 1];
      if op.Set? then n + 1 else if n == 0 then 0 else if op.Reference? then n + 1 else n - 1
  }

  /** The ideal count has reached the largest 32-bit number at some point. */
  ghost predicate Peaked(ops: seq<Operation>) {
    exists i :: 0 <= i <= |ops| && IdealRun(ops[..i]) >= LOCKED_REF
  }

  lemma {:induction false} PeakedStep(ops: seq<Operation>)
    requires ops != []
    ensures Peaked(ops) <==> Peaked(ops[..|ops| - 1]) || IdealRun(ops) >= LOCKED_REF
  {
    var n := |ops| - 1;
    assert ops[..|ops|] == ops;
    assert forall i :: 0 <= i <= n ==> ops[..n][..i] == ops[..i];
    if Peaked(ops[..n]) {
      var i :| 0 <= i <= n && IdealRun(ops[..n][..i]) >= LOCKED_REF;
      assert IdealRun(ops[..i]) >= LOCKED_REF;
    }
    if IdealRun(ops) >= LOCKED_REF {
      assert IdealRun(ops[..|ops|]) >= LOCKED_REF;
    }
    if Peaked(ops) {
      var i :| 0 <= i <= |ops| && IdealRun(ops[..i]) >= LOCKED_REF;
      assert i <= n ==> IdealRun(ops[..n][..i]) >= LOCKED_REF;
    }
  }

  /**
   The stored counter is the number of references as long as that number never reached the
   largest 32-bit one; from then on it is stuck there, whatever is dereferenced. The key is gone
   exactly when no reference is left.
   */
  lemma {:induction false} CountsReferences(ops: seq<Operation>, flags: seq<bool>)
    requires |ops| == |flags|
    ensures var k := StoredRun(ops, flags);
      && (k.None? <==> !Peaked(ops) && IdealRun(ops) == 0)
      && (k.Some? ==> k.value.2 == if Peaked(ops) then LOCKED_REF else IdealRun(ops))
  {
    if ops != [] {
      var n := |ops| - 1;
      CountsReferences(ops[..n], flags[..n]);
      PeakedStep(ops);
    } else {
      assert forall i :: 0 <= i <= |ops| ==> ops[..i] == [];
    }
  }

  /** Operation `i` set this value when the key was absent, and it has been there ever since. */
  ghost predicate SetAt(ops: seq<Operation>, flags: seq<bool>, i: int, val: Bytes, flag: bool)
    requires |ops| == |flags|
  {
    && 0 <= i < |ops| && ops[i].Set? && ops[i].val == val && flags[i] == flag
    && StoredRun(ops[..i], flags[..i]).None?
    && forall j :: i < j <= |ops| ==> StoredRun(ops[..j], flags[..j]).Some?
  }

  lemma {:induction false} StillSet(ops: seq<Operation>, flags: seq<bool>, i: int, val: Bytes, flag: bool)
    requires |ops| == |flags| > 0 && StoredRun(ops, flags).Some?
    requires SetAt(ops[..|ops| - 1], flags[..|ops| - 1], i, val, flag)
    ensures SetAt(ops, flags, i, val, flag)
  {
    hide StoredRun;
    var n := |ops| - 1;
    assert ops[..n][..i] == ops[..i] && flags[..n][..i] == flags[..i];
    forall j | i < j <= |ops|
      ensures StoredRun(ops[..j], flags[..j]).Some?
    {
      if j == |ops| {
        assert ops[..j] == ops && flags[..j] == flags;
      } else {
        assert ops[..n][..j] == ops[..j] && flags[..n][..j] == flags[..j];
      }
    }
  }

  /** The value is the one that was set when the key was last absent. */
  lemma {:induction false} FirstValueStays(ops: seq<Operation>, flags: seq<bool>) returns (i: nat)
    requires |ops| == |flags| && StoredRun(ops, flags).Some?
    ensures var k := StoredRun(ops, flags).value; SetAt(ops, flags, i, k.0, k.1)
  {
    hide SetAt;
    var n := |ops| - 1;
    var before := StoredRun(ops[..n], flags[..n]);
    if before.Some? {
      i := FirstValueStays(ops[..n], flags[..n]);
      StillSet(ops, flags, i, before.value.0, before.value.1);
    } else {
      i := n;
      SetLast(ops, flags);
    }
  }

  lemma SetLast(ops: seq<Operation>, flags: seq<bool>)
    requires |ops| == |flags| > 0 && StoredRun(ops, flags).Some?
    requires StoredRun(ops[..|ops| - 1], flags[..|ops| - 1]).None?
    ensures var k := StoredRun(ops, flags).value; SetAt(ops, flags, |ops| - 1, k.0, k.1)
  {
    assert ops[..|ops|] == ops && flags[..|ops|] == flags;
  }

  // ----- On the table

  /** The slot of a key, if it has one, answers with what is kept for the key. */
  ghost predicate Holds(t: ValueTable, at: Option<nat>, key: TableKey, k: Kept)
    requires KeyOk(key)
    reads t
  {
    && (at.Some? <==> k.Some?)
    && (at.Some? ==>
      && at.value in t.view.live && |t.view.live[at.value].bytes| >= HeadSize(true, key) && 1 <= k.value.2 < U32_LIMIT
      && Answer(true, t.view.live[at.value], key) == k)
  }

  /** All values of the table but the one at `at`. */
  ghost function Others(live: map<nat, Stored>, at: Option<nat>): map<nat, Stored> {
    if at.Some? then live - {at.value} else live
  }

  /** Bytes that an operation may write. */
  function Need(op: Operation, key: TableKey): nat {
    if op.Set? then |op.val| + HeadSize(true, key) + 1 else 0
  }

  function NeedAll(ops: seq<Operation>, key: TableKey): nat {
    if ops == [] then 0 else NeedAll(ops[..|ops| - 1], key) + Need(ops[|ops| - 1], key)
  }

  /** The values that are set belong into this table. */
  ghost predicate Suits(t: ValueTable, op: Operation, key: TableKey)
    reads t
  {
    op.Set? && !t.multipart ==> |op.val| + HeadSize(true, key) <= t.entrySize - SIZE_SIZE
  }

  lemma {:induction false} RecountedAnswers(s: Stored, key: TableKey, k: (Bytes, bool, nat), delta: int)
    requires KeyOk(key) && |s.bytes| >= HeadSize(true, key) && Answer(true, s, key) == Some(k)
    requires Recount(k, delta).Some? && 0 < Recount(k, delta).value.2 < U32_LIMIT
    ensures |Recounted(s, delta).bytes| == |s.bytes|
    ensures Answer(true, Recounted(s, delta), key) == Recount(k, delta)
  {
    var t, d, n := Recounted(s, delta), Bumped(k.2, delta).value, HeadSize(true, key);
    U32RoundTrip(d);
    assert t.bytes[..REFS_SIZE] == LE(d, REFS_SIZE);
    assert t.bytes[REFS_SIZE..] == s.bytes[REFS_SIZE..];
    SameAfter(s.bytes, t.bytes, REFS_SIZE, REFS_SIZE, n);
    SameAfter(s.bytes, t.bytes, REFS_SIZE, n, |s.bytes|);
    assert t.bytes[n..] == t.bytes[n..|s.bytes|] && s.bytes[n..] == s.bytes[n..|s.bytes|];
  }

  /**
   One operation on one key of a reference-counted column (`write_plan` and
   `write_existing_value_plan`): the counter moves as `StoredStep` says, the value goes when the
   counter does, and every other value of the table stays.
   */
  method CountedChange(t: ValueTable, at: Option<nat>, op: Operation, key: TableKey, compressed: bool, ghost k: Kept)
    returns (at': Option<nat>)
    requires t.Valid() && t.refCounted && KeyOk(key) && Holds(t, at, key, k) && Suits(t, op, key)
    requires t.filled + Need(op, key) < U64_LIMIT
    modifies t
    ensures t.Valid() && Holds(t, at', key, StoredStep(k, op, compressed)) && t.filled <= old(t.filled) + Need(op, key)
    ensures Others(t.view.live, at') == old(Others(t.view.live, at))
  {
    hide Ok, Answer, Recounted, Overwritten;
    if at.None? {
      if op.Set? {
        var h := t.WriteInsertPlan(key, op.val, compressed);
        WrittenAnswers(true, old(t.view), t.view, h, key, op.val, compressed);
        InsertedOnly(old(t.view), t.view, h, Head(true, key) + op.val, compressed);
        return Some(h);
      }
      return None;
    }
    AnswerCounts(t.view.live[at.value], key, k.value);
    if op.Dereference? {
      var stays := t.WriteDecRef(at.value);
      if !stays {
        return None;
      }
      RecountedAnswers(old(t.view.live[at.value]), key, k.value, -1);
    } else {
      t.WriteIncRef(at.value);
      RecountedAnswers(old(t.view.live[at.value]), key, k.value, 1);
    }
    at' := at;
  }

  lemma InsertedOnly(v0: View, v: View, h: nat, bytes: Bytes, compressed: bool)
    requires Overwritten(v0, v, h, bytes, compressed) && h !in v0.live
    ensures v.live - {h} == v0.live
  {
    hide Ok;
  }

  lemma AnswerCounts(s: Stored, key: TableKey, k: (Bytes, bool, nat))
    requires KeyOk(key) && |s.bytes| >= HeadSize(true, key) && Answer(true, s, key) == Some(k)
    ensures Counter(true, s.bytes) == k.2
  {
  }

  /**
   Any sequence of operations on a key that is not there at first: the table ends up with what
   `StoredRun` says, its chain is freed exactly when the count is gone, and nothing else changes.
   */
  method CountedRun(t: ValueTable, ops: seq<Operation>, flags: seq<bool>, key: TableKey) returns (at: Option<nat>)
    requires t.Valid() && t.refCounted && KeyOk(key) && |ops| == |flags|
    requires (forall i :: 0 <= i < |ops| ==> Suits(t, ops[i], key)) && t.filled + NeedAll(ops, key) < U64_LIMIT
    modifies t
    ensures t.Valid() && Holds(t, at, key, StoredRun(ops, flags))
    ensures at.None? <==> !Peaked(ops) && IdealRun(ops) == 0
    ensures at.None? ==> t.view.live == old(t.view.live)
    ensures at.Some? ==> at.value !in old(t.view.live) && t.view.live - {at.value} == old(t.view.live)
  {
    hide Ok, Answer, StoredStep, ValueTable.Valid, IdealRun, Peaked;
    at := None;
    var i := 0;
    NoneRun(ops, flags, key);
    while i < |ops|
      invariant i <= |ops| && t.Valid() && Holds(t, at, key, StoredRun(ops[..i], flags[..i]))
      invariant Others(t.view.live, at) == old(t.view.live)
      invariant t.filled <= old(t.filled) + NeedAll(ops[..i], key)
      invariant t.filled + NeedAll(ops, key) - NeedAll(ops[..i], key) < U64_LIMIT
    {
      OneMoreOp(ops, flags, key, i);
      assert Suits(t, ops[i], key);
      at := CountedChange(t, at, ops[i], key, flags[i], StoredRun(ops[..i], flags[..i]));
      i := i + 1;
    }
    assert ops[..i] == ops && flags[..i] == flags;
    CountsReferences(ops, flags);
  }

  lemma NoneRun(ops: seq<Operation>, flags: seq<bool>, key: TableKey)
    requires |ops| == |flags|
    ensures StoredRun(ops[..0], flags[..0]) == None && NeedAll(ops[..0], key) == 0
  {
  }

  lemma {:induction false} OneMoreOp(ops: seq<Operation>, flags: seq<bool>, key: TableKey, i: nat)
    requires i < |ops| == |flags|
    ensures StoredRun(ops[..i + 1], flags[..i + 1]) == StoredStep(StoredRun(ops[..i], flags[..i]), ops[i], flags[i])
    ensures NeedAll(ops[..i + 1], key) == NeedAll(ops[..i], key) + Need(ops[i], key) <= NeedAll(ops, key)
    decreases |ops| - i
  {
    assert ops[..i + 1][..i] == ops[..i] && flags[..i + 1][..i] == flags[..i];
    if i + 1 < |ops| {
      OneMoreOp(ops, flags, key, i + 1);
    } else {
      assert ops[..i + 1] == ops;
    }
  }
}
