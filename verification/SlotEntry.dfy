/**
 How one slot of a value table is laid out in bytes: the marker or size word in front, the link
 to the next part, and the part of the value that the slot holds.
 */
module SlotEntry {
  import opened Keys
  import opened LittleEndian

  const TOMBSTONE: Bytes := [0xff, 0xff]
  const MULTIPART: Bytes := [0xfe, 0xff]
  const MULTIHEAD: Bytes := [0xfd, 0xff]
  const MULTIHEAD_COMPRESSED: Bytes := [0xfd, 0x7f]
  const COMPRESSED_MASK := 0x8000
  const MIN_ENTRY_SIZE := 32
  const MAX_ENTRY_SIZE := 0x7ff8
  const MULTIPART_ENTRY_SIZE := 4096
  const SIZE_SIZE := 2
  const INDEX_SIZE := 8
  const REFS_SIZE := 4
  const PARTIAL_SIZE := 26
  const HEADER_SIZE := 16
  const LOCKED_REF := 0xffff_ffff

  predicate IsTombstone(b: Bytes)
    requires |b| >= 2
  {
    b[..2] == TOMBSTONE
  }

  predicate IsMultihead(b: Bytes)
    requires |b| >= 2
  {
    b[..2] == MULTIHEAD_COMPRESSED || b[..2] == MULTIHEAD
  }

  predicate IsMulti(b: Bytes)
    requires |b| >= 2
  {
    b[..2] == MULTIPART || IsMultihead(b)
  }

  /** `Entry::write_size`: 15 bits of size under the compression flag. */
  function SizeWord(size: nat, compressed: bool): (b: Bytes)
    requires size < COMPRESSED_MASK
    ensures |b| == 2
  {
    LE(size + if compressed then COMPRESSED_MASK else 0, 2)
  }

  /** `Entry::read_size`. */
  function ReadSize(b: Bytes): (nat, bool)
    requires |b| >= 2
  {
    var word := FromLE(b[..2]);
    (word % COMPRESSED_MASK, word >= COMPRESSED_MASK)
  }

  lemma TwoBytes(n: nat)
    requires n < 0x1_0000
    ensures LE(n, 2) == [n % 256, n / 256]
  {
    assert LE(n / 256, 1) == [n / 256 % 256] + LE(n / 256 / 256, 0);
  }

  /** A size word reads back, and no size a table can hold is taken for a marker. */
  lemma SizeWordReads(size: nat, compressed: bool, rest: Bytes)
    requires size <= MAX_ENTRY_SIZE - SIZE_SIZE
    ensures var b := SizeWord(size, compressed) + rest;
      ReadSize(b) == (size, compressed) && !IsTombstone(b) && !IsMulti(b)
  {
    var word := size + if compressed then COMPRESSED_MASK else 0;
    var b := SizeWord(size, compressed) + rest;
    assert b[..2] == LE(word, 2);
    TwoBytes(word);
    Widths();
    Decoded(word, 2);
    assert TOMBSTONE[0] == 0xff && MULTIPART[0] == 0xfe && MULTIHEAD[0] == 0xfd && MULTIHEAD_COMPRESSED[0] == 0xfd;
    assert TOMBSTONE[1] == 0xff && MULTIPART[1] == 0xff && MULTIHEAD[1] == 0xff && MULTIHEAD_COMPRESSED[1] == 0x7f;
  }

  /** A freed slot: the tombstone and the next freed slot. */
  function Tomb(next: nat): (b: Bytes)
    ensures |b| == SIZE_SIZE + INDEX_SIZE
  {
    TOMBSTONE + LE(next, INDEX_SIZE)
  }

  function Header(lastRemoved: nat, filled: nat): (b: Bytes)
    ensures |b| == HEADER_SIZE
  {
    LE(lastRemoved, INDEX_SIZE) + LE(filled, INDEX_SIZE)
  }

  function Marker(first: bool, compressed: bool): (b: Bytes)
    ensures |b| == 2 && IsMulti(b) && !IsTombstone(b) && (first <==> IsMultihead(b))
    ensures (b == MULTIHEAD_COMPRESSED <==> first && compressed)
  {
    assert TOMBSTONE[0] != MULTIPART[0] && TOMBSTONE[0] != MULTIHEAD[0] && MULTIPART[0] != MULTIHEAD[0];
    assert MULTIHEAD[1] != MULTIHEAD_COMPRESSED[1];
    if !first then MULTIPART else if compressed then MULTIHEAD_COMPRESSED else MULTIHEAD
  }

  /** The layout spelled out: a word has its lowest byte first, and the flag is the top bit of the size. */
  lemma Layout()
    ensures SizeWord(0x123, false) == [0x23, 0x01] && SizeWord(0x123, true) == [0x23, 0x81]
    ensures Tomb(0x0102) == [0xff, 0xff, 2, 1, 0, 0, 0, 0, 0, 0]
    ensures Header(3, 0x0405) == [3, 0, 0, 0, 0, 0, 0, 0, 5, 4, 0, 0, 0, 0, 0, 0]
    ensures Marker(true, false) == [0xfd, 0xff] && Marker(true, true) == [0xfd, 0x7f]
    ensures Marker(false, true) == Marker(false, false) == [0xfe, 0xff]
  {
    TwoBytes(0x123);
    TwoBytes(0x8123);
    Small(0x0102);
    Small(3);
    Small(0x0405);
  }

  lemma Small(n: nat)
    requires n < 0x1_0000
    ensures LE(n, 8) == [n % 256, n / 256, 0, 0, 0, 0, 0, 0]
  {
    ZeroBytes(6);
    assert LE(n, 8) == [n % 256] + ([n / 256 % 256] + LE(n / 256 / 256, 6));
  }

  lemma {:induction false} ZeroBytes(width: nat)
    ensures LE(0, width) == seq(width, _ => 0)
  {
    if width > 0 {
      ZeroBytes(width - 1);
    }
  }

  /** Length the log reader gives the image of slot `index` from its first two bytes (`ValueTable::validate_plan`). */
  function InferredLength(index: nat, front: Bytes, multipart: bool, entrySize: nat): nat
    requires |front| >= 2
  {
    if index == 0 then HEADER_SIZE
    else if IsTombstone(front) then SIZE_SIZE + INDEX_SIZE
    else if multipart && IsMulti(front) then entrySize
    else SIZE_SIZE + ReadSize(front).0
  }

  ghost predicate SelfDelimiting(index: nat, image: Bytes, multipart: bool, entrySize: nat) {
    |image| >= 2 && InferredLength(index, image, multipart, entrySize) == |image|
  }
}
