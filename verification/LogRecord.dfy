/**
 Log records as bytes. A record carries no length: the reader knows where each part ends from the
 part itself, and for a slot image from its first two bytes.
 */
module LogRecord {
  import opened Keys
  import opened LittleEndian
  import opened Decoding
  import opened SlotEntry
  import TableView
  import opened ValueTables
  import opened ValueTiers

  const BEGIN_RECORD := 1
  const INSERT_INDEX := 2
  const INSERT_VALUE := 3
  const END_RECORD := 4
  const DROP_TABLE := 5

  datatype Action =
    | InsertIndex(table: nat, index: nat, mask: nat, entries: seq<Bytes>)
    | InsertValue(table: nat, index: nat, image: Bytes)
    | DropTable(table: nat)

  /** What `LogReader::next` returns. */
  datatype Head = Begin(id: nat) | IndexHead(table: nat, index: nat) | ValueHead(table: nat,
  index: nat) | End | DropHead(table: nat)

  // ----- Checksum

  function CrcBits(c: bv32, n: nat): bv32
    decreases n
  {
    if n == 0 then c else CrcBits(if c & 1 == 1 then (c >> 1) ^ 0xedb8_8320 else c >> 1, n - 1)
  }

  function CrcUpdate(c: bv32, b: Bytes): bv32
    decreases |b|
  {
    if b == [] then c else CrcUpdate(CrcBits(c ^ (b[0] as bv32), 8), b[1..])
  }

  /** CRC-32 as in IEEE 802.3. */
  function Crc32(b: Bytes): (r: nat)
    ensures r < U32_LIMIT
  {
    (CrcUpdate(0xffff_ffff, b) ^ 0xffff_ffff) as nat
  }

  lemma CrcBit(c: bv32, n: nat)
    ensures CrcBits(c, n + 1) == CrcBits(if c & 1 == 1 then (c >> 1) ^ 0xedb8_8320 else c >> 1, n) && CrcBits(c, 0) == c
  {
  }

  /** The checksum of the letter a, as published for CRC-32. */
  lemma CrcOfOneByte()
    ensures Crc32([0x61]) == 0xe8b7_be43
  {
    hide CrcBits;
    CrcBit(0xffff_ff9e, 7);
    CrcBit(0x7fff_ffcf, 6);
    CrcBit(0xd247_7cc7, 5);
    CrcBit(0x849b_3d43, 4);
    CrcBit(0xaff5_1d81, 3);
    CrcBit(0xba42_0de0, 2);
    CrcBit(0x5d21_06f0, 1);
    CrcBit(0x2e90_8378, 0);
    CrcBit(0x1748_41bc, 0);
    assert CrcBits(0xffff_ff9e, 8) == 0x1748_41bc;
    var b: Bytes := [0x61];
    assert b[1..] == [];
    assert CrcUpdate(0xffff_ffff, b) == CrcUpdate(0x1748_41bc, []);
  }

  // ----- Layout

  /** Number of set bits. */
  function Ones(mask: nat): nat {
    if mask == 0 then 0 else mask % 2 + Ones(mask / 2)
  }

  function Flat(entries: seq<Bytes>): Bytes {
    if entries == [] then [] else entries[0] + Flat(entries[1..])
  }

  function HeadBytes(h: Head): Bytes {
    match h
    case Begin(id) => [BEGIN_RECORD] + LE(id, 8)
    case IndexHead(t, i) => [INSERT_INDEX] + LE(t, 2) + LE(i, 8)
    case ValueHead(t, i) => [INSERT_VALUE] + LE(t, 2) + LE(i, 8)
    case End => [END_RECORD]
    case DropHead(t) => [DROP_TABLE] + LE(t, 2)
  }

  /** What follows the kind of an action. */
  function RestSize(h: Head): nat {
    match h
    case Begin(_) => 8
    case IndexHead(_, _) => 10
    case ValueHead(_, _) => 10
    case End => 0
    case DropHead(_) => 2
  }

  function HeadOf(a: Action): Head {
    match a
    case InsertIndex(t, i, _, _) => IndexHead(t, i)
    case InsertValue(t, i, _) => ValueHead(t, i)
    case DropTable(t) => DropHead(t)
  }

  function Body(a: Action): Bytes {
    match a
    case InsertIndex(_, _, mask, entries) => LE(mask, 8) + Flat(entries)
    case InsertValue(_, _, image) => image
    case DropTable(_) => []
  }

  function ActionsBytes(actions: seq<Action>): Bytes {
    if actions == [] then [] else HeadBytes(HeadOf(actions[0])) + Body(actions[0]) + ActionsBytes(actions[1..])
  }

  /** Everything that the checksum covers. */
  function Covered(id: nat, actions: seq<Action>): Bytes {
    HeadBytes(Begin(id)) + ActionsBytes(actions) + HeadBytes(End)
  }

  function RecordBytes(id: nat, actions: seq<Action>): Bytes {
    Covered(id, actions) + LE(Crc32(Covered(id, actions)), 4)
  }

  predicate HeadOk(h: Head) {
    match h
    case Begin(id) => id < U64_LIMIT
    case IndexHead(t, i) => t < 0x1_0000 && i < U64_LIMIT
    case ValueHead(t, i) => t < 0x1_0000 && i < U64_LIMIT
    case End => true
    case DropHead(t) => t < 0x1_0000
  }

  function Tier(table: nat): nat {
    table % 256
  }

  /** Entries as many as the mask has bits, and a slot image that says how long it is. */
  ghost predicate ActionOk(a: Action) {
    && HeadOk(HeadOf(a))
    && match a
       case InsertIndex(_, _, mask, entries) =>
         && mask < U64_LIMIT && |entries| == Ones(mask)
         && forall i :: 0 <= i < |entries| ==> |entries[i]| == 8
       case InsertValue(table, index, image) =>
         SelfDelimiting(index, image, Tier(table) == LAST_TIER, EntrySize(Tier(table)))
       case DropTable(_) => true
  }

  /** The layout spelled out: the kind, then record id or table and place, lowest byte first. */
  lemma HeadLayout()
    ensures HeadBytes(Begin(0x0102)) == [1, 2, 1, 0, 0, 0, 0, 0, 0] && HeadBytes(End) == [4]
    ensures HeadBytes(IndexHead(0x0304, 5)) == [2, 4, 3, 5, 0, 0, 0, 0, 0, 0, 0]
    ensures HeadBytes(ValueHead(0x0304, 5)) == [3, 4, 3, 5, 0, 0, 0, 0, 0, 0, 0]
    ensures HeadBytes(DropHead(8)) == [5, 8, 0]
  {
    hide LE;
    Small(0x0102);
    Small(5);
    TwoBytes(0x0304);
    TwoBytes(8);
  }

  // ----- Writing

  /** `LogChange::flush_to_file`: what is written, with the running checksum taken at the end. */
  method FlushToFile(id: nat, actions: seq<Action>) returns (file: Bytes)
    ensures file == RecordBytes(id, actions)
  {
    hide Crc32, HeadBytes, Body, ActionsBytes;
    file := HeadBytes(Begin(id));
    var i := 0;
    assert actions[0..] == actions;
    while i < |actions|
      invariant i <= |actions| && file + ActionsBytes(actions[i..]) == HeadBytes(Begin(id)) + ActionsBytes(actions)
    {
      ActionsFirst(file, actions[i..]);
      assert actions[i..][1..] == actions[i + 1..];
      file := file + HeadBytes(HeadOf(actions[i]));
      file := file + Body(actions[i]);
      i := i + 1;
    }
    NoActions(file, actions[i..]);
    file := file + HeadBytes(End);
    file := file + LE(Crc32(file), 4);
  }

  lemma ActionsFirst(b: Bytes, actions: seq<Action>)
    requires actions != []
    ensures b + ActionsBytes(actions)
      == b + HeadBytes(HeadOf(actions[0])) + Body(actions[0]) + ActionsBytes(actions[1..])
  {
    hide HeadBytes, Body;
    var h, y, r := HeadBytes(HeadOf(actions[0])), Body(actions[0]), ActionsBytes(actions[1..]);
    assert b + (h + y + r) == b + h + y + r;
  }

  lemma NoActions(b: Bytes, actions: seq<Action>)
    requires actions == []
    ensures b + ActionsBytes(actions) == b
  {
  }

  // ----- Reading

  /** The bytes `b` lie at `pos` of the file. */
  ghost predicate Lies(file: Bytes, pos: nat, b: Bytes) {
    pos + |b| <= |file| && file[pos..pos + |b|] == b
  }

  lemma LiesSplit(file: Bytes, pos: nat, a: Bytes, b: Bytes)
    ensures Lies(file, pos, a + b) <==> Lies(file, pos, a) && Lies(file, pos + |a|, b)
  {
    if Lies(file, pos, a + b) {
      var c := file[pos..pos + |a + b|];
      assert file[pos..pos + |a|] == c[..|a|] && file[pos + |a|..pos + |a| + |b|] == c[|a|..];
    }
    if Lies(file, pos, a) && Lies(file, pos + |a|, b) {
      assert file[pos..pos + |a + b|] == file[pos..pos + |a|] + file[pos + |a|..pos + |a| + |b|];
    }
  }

  class LogReader {
    const file: Bytes
    var pos: nat

    constructor (file: Bytes)
      ensures this.file == file && pos == 0
    {
      this.file, pos := file, 0;
    }

    /** `read_exact`: all or nothing. */
    method ReadExact(n: nat) returns (r: Option<Bytes>)
      requires pos <= |file|
      modifies this
      ensures old(pos) <= pos <= |file| && (r.Some? <==> old(pos) + n <= |file|)
      ensures r.Some? ==> r.value == file[old(pos)..old(pos) + n] && pos == old(pos) + n
      ensures r.None? ==> pos == old(pos)
    {
      if pos + n > |file| {
        return None;
      }
      r := Some(file[pos..pos + n]);
      pos := pos + n;
    }

    /** `LogReader::next`. */
    method Next(ghost h: Head) returns (r: Result<Head>)
      requires pos <= |file|
      modifies this
      ensures old(pos) <= pos <= |file| && (r.Ok? ==> old(pos) < pos)
      ensures HeadOk(h) && Lies(file, old(pos), HeadBytes(h)) ==> r == Ok(h) && pos == old(pos) + |HeadBytes(h)|
      ensures r.Ok? ==> HeadOk(r.value) && file[old(pos)..pos] == HeadBytes(r.value)
    {
      hide HeadOk, HeadBytes, ParseHead, Lies;
      HeadReads(file, pos, h);
      RestSizes(h);
      var kind := ReadExact(1);
      if kind.None? {
        return Eof;
      }
      var args := ReadExact(ArgsSize(kind.value[0]));
      if args.None? {
        return Eof;
      }
      r := ParseHead(kind.value[0], args.value);
      ParsedIsHead(kind.value[0], args.value);
      assert file[old(pos)..pos] == kind.value + args.value;
    }

    /** `ValueTable::validate_plan`: the first two bytes tell how many more there are. */
    method ReadImage(table: nat, index: nat, ghost image: Bytes) returns (r: Option<Bytes>)
      requires pos <= |file|
      modifies this
      ensures old(pos) <= pos <= |file|
      ensures
        Lies(file, old(pos), image) && SelfDelimiting(index, image, Tier(table) == LAST_TIER, EntrySize(Tier(table)))
        ==> r == Some(image) && pos == old(pos) + |image|
      ensures r.Some? ==> file[old(pos)..pos] == r.value
      ensures r.Some? ==> SelfDelimiting(index, r.value, Tier(table) == LAST_TIER, EntrySize(Tier(table)))
    {
      hide EntrySize, InferredLength;
      var front := ReadExact(SIZE_SIZE);
      if front.None? {
        return None;
      }
      var n := InferredLength(index, front.value, Tier(table) == LAST_TIER, EntrySize(Tier(table)));
      FrontDecides(file, old(pos), index, image, front.value, Tier(table) == LAST_TIER, EntrySize(Tier(table)));
      var rest := ReadExact(if n < SIZE_SIZE then 0 else n - SIZE_SIZE);
      if rest.None? {
        return None;
      }
      r := Some(front.value + rest.value);
      ReadDelimits(index, front.value, rest.value, Tier(table));
      assert file[old(pos)..pos] == front.value + rest.value;
    }

    /** `IndexTable::validate_plan`: the mask, and eight bytes for each of its bits. */
    method ReadEntries(ghost mask: nat, ghost entries: seq<Bytes>) returns (r: Option<(nat, seq<Bytes>)>)
      requires pos <= |file|
      modifies this
      ensures old(pos) <= pos <= |file|
      ensures EntriesLie(file, old(pos), mask, entries) ==>
        r == Some((mask, entries)) && pos == old(pos) + 8 + |Flat(entries)|
      ensures r.Some? ==> EntriesOk(r.value.0, r.value.1) && file[old(pos)..pos] == LE(r.value.0, 8) + Flat(r.value.1)
    {
      hide Flat, EntriesLie, Ones, LE, FromLE;
      EntriesStart(file, pos, mask, entries);
      var b := ReadExact(8);
      if b.None? {
        return None;
      }
      var m := FromLE(b.value);
      var left, got: seq<Bytes> := m, [];
      ghost var start := pos;
      AllLeft(file, old(pos), mask, entries);
      ghost var front := b.value;
      MaskRead(front, m);
      assert file[old(pos)..pos] == front + [];
      while left != 0
        invariant old(pos) <= pos <= |file|
        invariant |got| + Ones(left) == Ones(m) && (forall i :: 0 <= i < |got| ==> |got[i]| == 8)
        invariant file[old(pos)..pos] == front + Flat(got)
        invariant EntriesLie(file, old(pos), mask, entries) ==>
          m == mask && Remaining(file, start, pos, entries, got, left)
        decreases left
      {
        if left % 2 == 1 {
          OneMore(file, start, pos, entries, got, left);
          var e := ReadExact(8);
          if e.None? {
            return None;
          }
          FlatMore(got, e.value);
          OneBit(left);
          assert file[old(pos)..pos] == front + Flat(got) + e.value == front + (Flat(got) + e.value);
          got := got + [e.value];
        } else {
          BitSkipped(left);
        }
        left := left / 2;
      }
      NoneLeft(file, start, pos, entries, got);
      r := Some((m, got));
    }

    /** What follows the head of an action. */
    method ReadBody(h: Head, ghost a: Action) returns (r: Option<Action>)
      requires pos <= |file| && !h.Begin? && !h.End?
      modifies this
      ensures old(pos) <= pos <= |file|
      ensures ActionOk(a) && h == HeadOf(a) && Lies(file, old(pos), Body(a)) ==>
        r == Some(a) && pos == old(pos) + |Body(a)|
      ensures r.Some? && HeadOk(h) ==>
        ActionOk(r.value) && HeadOf(r.value) == h && file[old(pos)..pos] == Body(r.value)
    {
      hide EntrySize, Flat, Lies, Ones, SelfDelimiting, LE;
      match h
      case IndexHead(table, index) =>
        EntriesOf(file, pos, h, a);
        var e := ReadEntries(if a.InsertIndex? then a.mask else 0, if a.InsertIndex? then a.entries else []);
        r := if e.Some? then Some(InsertIndex(table, index, e.value.0, e.value.1)) else None;
      case ValueHead(table, index) =>
        var image := ReadImage(table, index, if a.InsertValue? then a.image else []);
        r := if image.Some? then Some(InsertValue(table, index, image.value)) else None;
      case DropHead(table) =>
        r := Some(DropTable(table));
    }

    /** A record up to its end mark: what the checksum covers. */
    method ReadCovered(ghost id: nat, ghost actions: seq<Action>) returns (r: Result<(nat, seq<Action>)>)
      requires pos <= |file|
      modifies this
      ensures old(pos) <= pos <= |file|
      ensures Storable(id, actions) && Lies(file, old(pos), Covered(id, actions)) ==>
        r == Ok((id, actions)) && pos == old(pos) + |Covered(id, actions)|
      ensures r.Ok? ==> Storable(r.value.0, r.value.1) && file[old(pos)..pos] == Covered(r.value.0, r.value.1)
    {
      hide Lies, HeadBytes, Body, ActionsBytes, ActionOk, Rest, Storable, Covered, Begun;
      ghost var good := Storable(id, actions) && Lies(file, pos, Covered(id, actions));
      var start := pos;
      RecordStarts(file, pos, id, actions);
      var h := Next(Begin(id));
      if !h.Ok? || !h.value.Begin? {
        return Corruption;
      }
      var got: seq<Action> := [];
      BegunWith(file[start..pos], h.value.id);
      while true
        invariant start <= pos <= |file|
        invariant good ==> |got| <= |actions| && got == actions[..|got|] && Rest(file, start, pos, id, actions, |got|)
        invariant h.value.id < U64_LIMIT && Begun(file[start..pos], h.value.id, got)
        invariant good ==> h.value.id == id
        decreases |file| - pos
      {
        ghost var n, p := |got|, pos;
        ghost var next := if n < |actions| then HeadOf(actions[n]) else End;
        if good {
          RestSplits(file, start, pos, id, actions, n);
          NextHead(id, actions, n);
        }
        var head := Next(next);
        ghost var q := pos;
        if !head.Ok? || head.value.Begin? {
          return Corruption;
        }
        if head.value.End? {
          InThree(file, start, p, p, pos);
          EndedWith(file[start..p], h.value.id, got);
          assert good ==> |got| == |actions| && actions[..|got|] == actions;
          return Ok((h.value.id, got));
        }
        var a := ReadBody(head.value, if n < |actions| then actions[n] else DropTable(0));
        if a.None? {
          return Eof;
        }
        InThree(file, start, p, q, pos);
        BegunMore(file[start..p], h.value.id, got, a.value);
        got := got + [a.value];
      }
    }

    /**
     One record, checked against its checksum. What is accepted is exactly what was written: a file
     that starts with the covered bytes of a record is read to their end and refused if the four
     bytes behind them are not the checksum; a file that is accepted starts with a written record.
     */
    method ReadRecord(ghost id: nat, ghost actions: seq<Action>) returns (r: Result<(nat, seq<Action>)>)
      requires pos <= |file|
      modifies this
      ensures old(pos) <= pos <= |file|
      ensures Storable(id, actions) && Lies(file, old(pos), Covered(id, actions)) ==>
        r == Verdict(file, old(pos) + |Covered(id, actions)|, id, actions)
      ensures Storable(id, actions) && Lies(file, old(pos), RecordBytes(id, actions)) ==>
        r == Ok((id, actions)) && pos == old(pos) + |RecordBytes(id, actions)|
      ensures r.Ok? ==> Storable(r.value.0, r.value.1) && file[old(pos)..pos] == RecordBytes(r.value.0, r.value.1)
      ensures r.Ok? ==> old(pos) + 4 <= pos && FromLE(file[pos - 4..pos]) == Crc32(file[old(pos)..pos - 4])
    {
      hide Lies, Crc32, RecordBytes, Storable, Verdict, Covered, FromLE;
      var start := pos;
      RecordIs(file, pos, id, actions);
      var read := ReadCovered(id, actions);
      if !read.Ok? {
        return read;
      }
      var covered, c := file[start..pos], pos;
      var sum := ReadExact(4);
      VerdictIs(file, start, c, read.value.0, read.value.1, sum);
      if sum.None? {
        return Eof;
      }
      if FromLE(sum.value) != Crc32(covered) {
        return Corruption;
      }
      InThree(file, start, c, c, pos);
      r := read;
    }
  }

  lemma InThree(file: Bytes, a: nat, b: nat, c: nat, d: nat)
    requires a <= b <= c <= d <= |file|
    ensures file[a..d] == file[a..b] + (file[b..c] + file[c..d]) == file[a..b] + file[b..d]
  {
    InTwo(file, a, b, d);
    InTwo(file, b, c, d);
  }

  lemma InTwo(file: Bytes, a: nat, b: nat, c: nat)
    requires a <= b <= c <= |file|
    ensures file[a..c] == file[a..b] + file[b..c]
  {
  }

  /** A record that can be written. */
  ghost predicate Storable(id: nat, actions: seq<Action>) {
    id < U64_LIMIT && forall i :: 0 <= i < |actions| ==> ActionOk(actions[i])
  }

  /** What becomes of a record whose covered bytes end at `c`. */
  ghost function Verdict(file: Bytes, c: nat, id: nat, actions: seq<Action>): Result<(nat, seq<Action>)> {
    if c + 4 > |file| then Eof
    else if FromLE(file[c..c + 4]) != Crc32(Covered(id, actions)) then Corruption
    else Ok((id, actions))
  }

  lemma {:induction false} VerdictIs(
      file: Bytes, start: nat, c: nat, id: nat, got: seq<Action>, sum: Option<Bytes>)
    requires start <= c <= |file| && file[start..c] == Covered(id, got)
    requires sum == if c + 4 <= |file| then Some(file[c..c + 4]) else None
    ensures Verdict(file, c, id, got) ==
      if sum.None? then Eof else if FromLE(sum.value) != Crc32(file[start..c]) then Corruption else Ok((id, got))
    ensures sum.Some? && FromLE(sum.value) == Crc32(file[start..c]) ==>
      file[start..c] + sum.value == RecordBytes(id, got)
  {
    hide Crc32, Covered;
    if sum.Some? {
      Widths();
      Encoded(sum.value);
    }
  }

  /** A whole record is one whose checksum agrees. */
  lemma {:induction false} RecordIs(file: Bytes, start: nat, id: nat, actions: seq<Action>)
    ensures Lies(file, start, RecordBytes(id, actions)) ==>
      && Lies(file, start, Covered(id, actions)) && |RecordBytes(id, actions)| == |Covered(id, actions)| + 4
      && Verdict(file, start + |Covered(id, actions)|, id, actions) == Ok((id, actions))
  {
    hide Crc32, Covered, LE, FromLE;
    var b, c := Covered(id, actions), LE(Crc32(Covered(id, actions)), 4);
    U32RoundTrip(Crc32(b));
    if Lies(file, start, RecordBytes(id, actions)) {
      LiesSplit(file, start, b, c);
      assert |c| == 4;
    }
  }

  // ----- What was read so far

  ghost predicate Begun(b: Bytes, id: nat, got: seq<Action>) {
    b == HeadBytes(Begin(id)) + ActionsBytes(got) && forall i :: 0 <= i < |got| ==> ActionOk(got[i])
  }

  lemma BegunWith(b: Bytes, id: nat)
    requires b == HeadBytes(Begin(id))
    ensures Begun(b, id, [])
  {
    assert b + [] == b;
  }

  lemma {:induction false} BegunMore(b: Bytes, id: nat, got: seq<Action>, a: Action)
    requires Begun(b, id, got) && ActionOk(a)
    ensures Begun(b + (HeadBytes(HeadOf(a)) + Body(a)), id, got + [a])
  {
    hide HeadBytes, Body, ActionOk, ActionsBytes;
    ActionsLast(got, a);
    var x, y, z := HeadBytes(Begin(id)), ActionsBytes(got), HeadBytes(HeadOf(a)) + Body(a);
    assert (x + y) + z == x + (y + z);
  }

  lemma {:induction false} ActionsLast(actions: seq<Action>, a: Action)
    ensures ActionsBytes(actions + [a]) == ActionsBytes(actions) + (HeadBytes(HeadOf(a)) + Body(a))
  {
    hide HeadBytes, Body;
    if actions == [] {
      assert [] + [a] == [a] && [a][1..] == [];
      assert ActionsBytes([a]) == HeadBytes(HeadOf(a)) + Body(a) + [];
    } else {
      ActionsLast(actions[1..], a);
      assert (actions + [a])[1..] == actions[1..] + [a];
      var x, y, z := HeadBytes(HeadOf(actions[0])) + Body(actions[0]), ActionsBytes(actions[1..]),
        HeadBytes(HeadOf(a)) + Body(a);
      assert x + (y + z) == (x + y) + z;
    }
  }

  lemma EndedWith(b: Bytes, id: nat, got: seq<Action>)
    requires Begun(b, id, got) && id < U64_LIMIT
    ensures b + HeadBytes(End) == Covered(id, got) && Storable(id, got)
  {
  }

  /** Any head that parses is the head whose bytes were read. */
  lemma {:induction false} ParsedIsHead(kind: Byte, args: Bytes)
    requires |args| == ArgsSize(kind)
    ensures var h := ParseHead(kind, args); h.Ok? ==> HeadOk(h.value) && HeadBytes(h.value) == [kind] + args
  {
    Widths();
    if |args| == 10 {
      Encoded(args[..2]);
      Encoded(args[2..]);
      assert args == args[..2] + args[2..];
      assert [kind] + args[..2] + args[2..] == [kind] + args;
    } else {
      Encoded(args);
      assert kind == END_RECORD ==> [kind] + args == [kind];
    }
  }

  function ArgsSize(kind: Byte): nat {
    if kind == BEGIN_RECORD then 8
    else if kind == INSERT_INDEX || kind == INSERT_VALUE then 10
    else if kind == DROP_TABLE then 2 else 0
  }

  lemma RestSizes(h: Head)
    ensures |HeadBytes(h)| >= 1 && ArgsSize(HeadBytes(h)[0]) == RestSize(h)
  {
  }

  /** An image read by its inferred length says how long it is. */
  lemma {:induction false} ReadDelimits(index: nat, front: Bytes, rest: Bytes, tier: nat)
    requires |front| == 2 && tier <= LAST_TIER
    requires var n := InferredLength(index, front, tier == LAST_TIER, EntrySize(tier));
      |rest| == if n < SIZE_SIZE then 0 else n - SIZE_SIZE
    ensures SelfDelimiting(index, front + rest, tier == LAST_TIER, EntrySize(tier))
  {
    hide EntrySize;
    LastTierSize();
    assert (front + rest)[..2] == front[..2];
  }

  lemma LastTierSize()
    ensures EntrySize(LAST_TIER) >= SIZE_SIZE
  {
  }

  ghost predicate EntriesOk(mask: nat, entries: seq<Bytes>) {
    mask < U64_LIMIT && |entries| == Ones(mask) && forall i :: 0 <= i < |entries| ==> |entries[i]| == 8
  }

  lemma MaskRead(b: Bytes, m: nat)
    requires |b| == 8 && m == FromLE(b)
    ensures m < U64_LIMIT && b == LE(m, 8) && Flat([]) == [] && Ones(0) == 0
  {
    Widths();
    Encoded(b);
  }

  lemma {:induction false} FlatMore(got: seq<Bytes>, e: Bytes)
    ensures Flat(got + [e]) == Flat(got) + e
  {
    if got == [] {
      assert [] + [e] == [e] && [e][1..] == [];
      assert e + [] == e;
    } else {
      FlatMore(got[1..], e);
      assert (got + [e])[1..] == got[1..] + [e];
    }
  }

  lemma OneBit(left: nat)
    requires left % 2 == 1
    ensures Ones(left) == 1 + Ones(left / 2)
  {
  }

  function ParseHead(kind: Byte, args: Bytes): Result<Head> {
    if kind == BEGIN_RECORD then Ok(Begin(FromLE(args)))
    else if kind == INSERT_INDEX && |args| == 10 then Ok(IndexHead(FromLE(args[..2]), FromLE(args[2..])))
    else if kind == INSERT_VALUE && |args| == 10 then Ok(ValueHead(FromLE(args[..2]), FromLE(args[2..])))
    else if kind == END_RECORD then Ok(End)
    else if kind == DROP_TABLE then Ok(DropHead(FromLE(args)))
    else Corruption
  }

  lemma {:induction false} HeadReads(file: Bytes, pos: nat, h: Head)
    requires pos <= |file|
    ensures HeadOk(h) && Lies(file, pos, HeadBytes(h)) ==>
      && |HeadBytes(h)| >= 1 && pos + |HeadBytes(h)| <= |file| && file[pos] == HeadBytes(h)[0]
      && file[pos..pos + 1] == [file[pos]] && file[pos + 1..pos + |HeadBytes(h)|] == HeadBytes(h)[1..]
      && ParseHead(file[pos], HeadBytes(h)[1..]) == Ok(h)
      && |HeadBytes(h)| == 1 + RestSize(h)
  {
    if HeadOk(h) && Lies(file, pos, HeadBytes(h)) {
      var b := HeadBytes(h);
      assert file[pos..pos + |b|] == b;
      assert file[pos..pos + |b|][0] == b[0];
      assert file[pos + 1..pos + |b|] == file[pos..pos + |b|][1..];
      HeadParses(h);
    }
  }

  lemma {:induction false} HeadParses(h: Head)
    requires HeadOk(h)
    ensures |HeadBytes(h)| >= 1 && ParseHead(HeadBytes(h)[0], HeadBytes(h)[1..]) == Ok(h)
    ensures |HeadBytes(h)| == 1 + RestSize(h)
  {
    Widths();
    var b := HeadBytes(h);
    match h
    case Begin(id) =>
      U64RoundTrip(id);
      assert b[1..] == LE(id, 8);
    case IndexHead(t, i) =>
      Decoded(t, 2);
      U64RoundTrip(i);
      assert b[1..][..2] == LE(t, 2) && b[1..][2..] == LE(i, 8);
    case ValueHead(t, i) =>
      Decoded(t, 2);
      U64RoundTrip(i);
      assert b[1..][..2] == LE(t, 2) && b[1..][2..] == LE(i, 8);
    case End =>
    case DropHead(t) =>
      Decoded(t, 2);
      assert b[1..] == LE(t, 2);
  }

  lemma {:induction false} FrontDecides(
      file: Bytes, pos: nat, index: nat, image: Bytes, front: Bytes, multipart: bool, entrySize: nat)
    requires pos + 2 <= |file| && front == file[pos..pos + 2]
    ensures Lies(file, pos, image) && SelfDelimiting(index, image, multipart, entrySize) ==>
      && InferredLength(index, front, multipart, entrySize) == |image| && pos + |image| <= |file|
      && front + file[pos + 2..pos + |image|] == image
  {
    if Lies(file, pos, image) && SelfDelimiting(index, image, multipart, entrySize) {
      assert file[pos..pos + |image|] == image;
      assert front == file[pos..pos + |image|][..2] == image[..2];
      assert file[pos + 2..pos + |image|] == file[pos..pos + |image|][2..];
      assert front[..2] == image[..2];
    }
  }

  ghost predicate EntriesLie(file: Bytes, pos: nat, mask: nat, entries: seq<Bytes>) {
    && mask < U64_LIMIT && |entries| == Ones(mask) && (forall i :: 0 <= i < |entries| ==> |entries[i]| == 8)
    && Lies(file, pos, LE(mask, 8)) && Lies(file, pos + 8, Flat(entries))
  }

  lemma EntriesStart(file: Bytes, pos: nat, mask: nat, entries: seq<Bytes>)
    ensures EntriesLie(file, pos, mask, entries) ==> pos + 8 <= |file| && FromLE(file[pos..pos + 8]) == mask
  {
    if mask < U64_LIMIT {
      U64RoundTrip(mask);
    }
  }

  /** Entries `got` are read; the rest lie ahead, one for each bit of `left`. */
  ghost predicate Remaining(file: Bytes, start: nat, pos: nat, entries: seq<Bytes>, got: seq<Bytes>, left: nat) {
    && |got| <= |entries| && got == entries[..|got|] && |entries| - |got| == Ones(left)
    && (forall i :: 0 <= i < |entries| ==> |entries[i]| == 8)
    && pos == start + 8 * |got| && Lies(file, pos, Flat(entries[|got|..])) && |Flat(entries)| == 8 * |entries|
  }

  lemma {:induction false} AllLeft(file: Bytes, pos: nat, mask: nat, entries: seq<Bytes>)
    ensures EntriesLie(file, pos, mask, entries) ==> Remaining(file, pos + 8, pos + 8, entries, [], mask)
  {
    if EntriesLie(file, pos, mask, entries) {
      assert entries[0..] == entries;
      FlatSize(entries);
    }
  }

  lemma {:induction false} FlatSize(entries: seq<Bytes>)
    requires forall i :: 0 <= i < |entries| ==> |entries[i]| == 8
    ensures |Flat(entries)| == 8 * |entries|
  {
    if entries != [] {
      FlatSize(entries[1..]);
    }
  }

  lemma {:induction false} OneMore(file: Bytes, start: nat, pos: nat, entries: seq<Bytes>, got: seq<Bytes>, left: nat)
    requires left % 2 == 1
    ensures Remaining(file, start, pos, entries, got, left) ==>
      && |got| < |entries| && pos + 8 <= |file| && file[pos..pos + 8] == entries[|got|]
      && Remaining(file, start, pos + 8, entries, got + [entries[|got|]], left / 2)
  {
    if Remaining(file, start, pos, entries, got, left) {
      var n := |got|;
      var rest := entries[n..];
      assert Ones(left) == 1 + Ones(left / 2);
      assert rest[1..] == entries[n + 1..] && Flat(rest) == rest[0] + Flat(rest[1..]);
      LiesSplit(file, pos, rest[0], Flat(rest[1..]));
    }
  }

  lemma BitSkipped(left: nat)
    requires left != 0 && left % 2 == 0
    ensures Ones(left) == Ones(left / 2)
  {
  }

  lemma NoneLeft(file: Bytes, start: nat, pos: nat, entries: seq<Bytes>, got: seq<Bytes>)
    ensures Remaining(file, start, pos, entries, got, 0) ==> got == entries && pos == start + |Flat(entries)|
  {
  }

  lemma {:induction false} EntriesOf(file: Bytes, pos: nat, h: Head, a: Action)
    ensures a.InsertIndex? && ActionOk(a) && Lies(file, pos, Body(a)) ==>
      EntriesLie(file, pos, a.mask, a.entries) && |Body(a)| == 8 + |Flat(a.entries)|
  {
    if a.InsertIndex? {
      LiesSplit(file, pos, LE(a.mask, 8), Flat(a.entries));
    }
  }

  /** Actions from `n` on and the end mark lie ahead. */
  ghost predicate Rest(file: Bytes, start: nat, pos: nat, id: nat, actions: seq<Action>, n: nat)
    requires n <= |actions|
  {
    && Lies(file, pos, ActionsBytes(actions[n..]) + HeadBytes(End))
    && pos + |ActionsBytes(actions[n..])| + 1 == start + |Covered(id, actions)|
    && Lies(file, start, Covered(id, actions))
  }

  lemma {:induction false} RecordStarts(file: Bytes, pos: nat, id: nat, actions: seq<Action>)
    ensures Lies(file, pos, Covered(id, actions)) ==>
      Lies(file, pos, HeadBytes(Begin(id))) && Rest(file, pos, pos + |HeadBytes(Begin(id))|, id, actions, 0)
    ensures HeadOk(Begin(id)) <==> id < U64_LIMIT
    ensures Storable(id, actions) ==> id < U64_LIMIT
  {
    hide ActionsBytes, Lies, LE, ActionOk;
    var b, m, e := HeadBytes(Begin(id)), ActionsBytes(actions), HeadBytes(End);
    assert actions[0..] == actions;
    assert b + m + e == b + (m + e);
    LiesSplit(file, pos, b, m + e);
  }

  lemma {:induction false} RestSplits(file: Bytes, start: nat, pos: nat, id: nat, actions: seq<Action>, n: nat)
    requires n <= |actions| && start <= pos && Rest(file, start, pos, id, actions, n)
    ensures n < |actions| ==>
      var h, y := HeadBytes(HeadOf(actions[n])), Body(actions[n]);
      Lies(file, pos, h) && Lies(file, pos + |h|, y) && Rest(file, start, pos + |h| + |y|, id, actions, n + 1)
    ensures n == |actions| ==>
      Lies(file, pos, HeadBytes(End)) && |HeadBytes(End)| == 1 && pos + 1 == start + |Covered(id, actions)|
  {
    if n < |actions| {
      RestAction(file, start, pos, id, actions, n);
    } else {
      NoActions([], actions[n..]);
      assert [] + ActionsBytes(actions[n..]) == ActionsBytes(actions[n..]);
      assert [] + HeadBytes(End) == HeadBytes(End);
    }
  }

  lemma {:induction false} RestAction(file: Bytes, start: nat, pos: nat, id: nat, actions: seq<Action>, n: nat)
    requires n < |actions| && Rest(file, start, pos, id, actions, n)
    ensures var h, y := HeadBytes(HeadOf(actions[n])), Body(actions[n]);
      Lies(file, pos, h) && Lies(file, pos + |h|, y) && Rest(file, start, pos + |h| + |y|, id, actions, n + 1)
  {
    hide LE, HeadBytes, Body, Covered, Lies, ActionsBytes;
    var h, y, m, e := HeadBytes(HeadOf(actions[n])), Body(actions[n]), ActionsBytes(actions[n + 1..]), HeadBytes(End);
    ActionsFirst([], actions[n..]);
    assert actions[n..][1..] == actions[n + 1..] && actions[n..][0] == actions[n];
    assert ActionsBytes(actions[n..]) == h + y + m by {
      assert [] + ActionsBytes(actions[n..]) == ActionsBytes(actions[n..]);
      assert [] + h + y + m == h + y + m;
    }
    assert h + y + m + e == h + (y + (m + e));
    LiesSplit(file, pos, h, y + (m + e));
    LiesSplit(file, pos + |h|, y, m + e);
  }

  lemma NextHead(id: nat, actions: seq<Action>, n: nat)
    requires n <= |actions| && Storable(id, actions)
    ensures HeadOk(if n < |actions| then HeadOf(actions[n]) else End)
    ensures n < |actions| ==> ActionOk(actions[n]) && !HeadOf(actions[n]).Begin? && !HeadOf(actions[n]).End?
  {
  }

  /** A written record reads back, whatever follows it, and the reader stops right behind it. */
  method RoundTrip(id: nat, actions: seq<Action>, tail: Bytes) returns (r: Result<(nat, seq<Action>)>, rest: Bytes)
    requires id < U64_LIMIT && forall i :: 0 <= i < |actions| ==> ActionOk(actions[i])
    ensures r == Ok((id, actions)) && rest == tail
  {
    hide ActionOk, RecordBytes, Covered, Verdict;
    var file := FlushToFile(id, actions);
    var reader := new LogReader(file + tail);
    assert (file + tail)[0..|file|] == file;
    r := reader.ReadRecord(id, actions);
    rest := reader.file[reader.pos..];
  }

  /** A written record with other bytes in place of its checksum is refused, whatever follows it. */
  method TamperedSum(id: nat, actions: seq<Action>, sum: Bytes, tail: Bytes) returns (r: Result<(nat, seq<Action>)>)
    requires id < U64_LIMIT && (forall i :: 0 <= i < |actions| ==> ActionOk(actions[i])) && |sum| == 4
    ensures r == if sum == LE(Crc32(Covered(id, actions)), 4) then Ok((id, actions)) else Corruption
  {
    hide ActionOk, RecordBytes, Covered, LE, FromLE, Crc32;
    var file := FlushToFile(id, actions);
    CoveredFirst(id, actions);
    var covered := file[..|file| - 4];
    var reader := new LogReader(covered + sum + tail);
    assert reader.file[0..|covered|] == covered;
    assert reader.file[|covered|..|covered| + 4] == sum;
    SumIs(sum, Crc32(covered));
    r := reader.ReadRecord(id, actions);
  }

  lemma CoveredFirst(id: nat, actions: seq<Action>)
    ensures var b := RecordBytes(id, actions); |b| == |Covered(id, actions)| + 4 && b[..|b| - 4] == Covered(id, actions)
  {
    hide Crc32, Covered, LE;
    assert |LE(Crc32(Covered(id, actions)), 4)| == 4;
  }

  lemma SumIs(sum: Bytes, n: nat)
    requires |sum| == 4 && n < U32_LIMIT
    ensures FromLE(sum) == n <==> sum == LE(n, 4)
  {
    hide LE, FromLE;
    Encoded(sum);
    U32RoundTrip(n);
  }

  /**
   Whatever the bytes are, a record that is accepted was written: it is the bytes of the record
   that is returned, with the right checksum. So two records are never taken for one another.
   */
  method AcceptedWasWritten(file: Bytes, ghost id: nat, ghost actions: seq<Action>)
    returns (r: Result<(nat, seq<Action>)>, n: nat)
    ensures r.Ok? ==> n <= |file| && Storable(r.value.0, r.value.1) && file[..n] == RecordBytes(r.value.0, r.value.1)
    ensures Storable(id, actions) && Lies(file, 0, RecordBytes(id, actions)) ==> r == Ok((id, actions))
  {
    hide ActionOk, RecordBytes, Covered, Verdict, Lies;
    var reader := new LogReader(file);
    r := reader.ReadRecord(id, actions);
    n := reader.pos;
    assert file[0..n] == file[..n];
  }

  /** The table's number names its tier. */
  ghost predicate NamedBy(t: ValueTable, table: nat)
    reads t
  {
    table < 0x1_0000 && t.multipart == (Tier(table) == LAST_TIER) && t.entrySize == EntrySize(Tier(table))
  }

  /** Whatever a value table has logged when its plan is complete can be framed, its header included. */
  lemma {:induction false} LoggedIsFramed(t: ValueTable, table: nat, index: nat)
    requires t.Valid() && !t.dirtyHeader && index in t.log && NamedBy(t, table)
    ensures ActionOk(InsertValue(table, index, t.log[index]))
  {
    hide TableView.OkBut, SelfDelimiting;
    assert index in t.view.images && t.SlotShows(index);
    FilledFits(t.view);
    ImagesDelimitThemselves(t.view, index);
  }

  lemma FilledFits(v: TableView.View)
    requires TableView.Ok(v)
    ensures v.filled <= U64_LIMIT
  {
  }

  /** A record of images that a value table has logged reads back as written. */
  method TableRoundTrip(t: ValueTable, id: nat, table: nat, indexes: seq<nat>, tail: Bytes)
    returns (r: Result<(nat, seq<Action>)>, rest: Bytes)
    requires t.Valid() && !t.dirtyHeader && NamedBy(t, table) && id < U64_LIMIT
    requires forall i :: 0 <= i < |indexes| ==> indexes[i] in t.log
    ensures rest == tail && r.Ok? && r.value.0 == id && |r.value.1| == |indexes|
    ensures forall i :: 0 <= i < |indexes| ==> r.value.1[i] == InsertValue(table, indexes[i], t.log[indexes[i]])
  {
    hide ActionOk, NamedBy, ValueTable.Valid;
    var actions := seq(|indexes|, i requires 0 <= i < |indexes| && indexes[i] in t.log reads t =>
      InsertValue(table, indexes[i], t.log[indexes[i]]));
    forall i | 0 <= i < |actions|
      ensures ActionOk(actions[i])
    {
      LoggedIsFramed(t, table, indexes[i]);
    }
    r, rest := RoundTrip(id, actions, tail);
  }
}
