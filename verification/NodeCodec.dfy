/**
 How a tree node is stored: child, separator, child, ... child. A key shorter than 255 bytes has a
 one-byte length; longer ones have the byte 255 and a four-byte length. Address 0 means no child.
 */
module NodeCodec {
  import opened Keys
  import opened LittleEndian
  import opened SlotEntry
  import opened Decoding
  import opened Tree

  const LONG_KEY := 255

  // ----- Layout

  function SizeBytes(n: nat): Bytes {
    if n >= LONG_KEY then [LONG_KEY] + LE(n, 4) else [n]
  }

  function SepBytes(x: Sep): Bytes {
    LE(x.addr, 8) + SizeBytes(|x.key|) + x.key
  }

  function ChildBytes(kids: seq<Addr>, i: nat): (b: Bytes)
    ensures |b| == 8
  {
    LE(if i < |kids| then kids[i] else 0, 8)
  }

  /** Everything from child `i` on. */
  function NodeBytes(seps: seq<Sep>, kids: seq<Addr>, i: nat): Bytes
    requires i <= |seps|
    decreases |seps| - i
  {
    if i == |seps| then ChildBytes(kids, i) else ChildBytes(kids, i) + SepBytes(seps[i]) + NodeBytes(seps, kids, i + 1)
  }

  /** Addresses are non-zero words and key lengths fit four bytes. */
  ghost predicate Storable(seps: seq<Sep>, kids: seq<Addr>) {
    && |seps| <= ORDER && (kids == [] || |kids| == |seps| + 1)
    && (forall i :: 0 <= i < |seps| ==> 0 < seps[i].addr < U64_LIMIT && |seps[i].key| < U32_LIMIT)
    && (forall i :: 0 <= i < |kids| ==> 0 < kids[i] < U64_LIMIT)
  }

  // ----- The buffer

  class NodeEntry {
    var buf: Bytes
    var offset: nat

    constructor (buf: Bytes)
      ensures this.buf == buf && offset == 0
    {
      this.buf, offset := buf, 0;
    }

    method WriteChildIndex(a: nat)
      modifies this
      ensures buf == old(buf) + LE(a, 8) && offset == |buf|
    {
      buf := buf + LE(a, 8);
      offset := |buf|;
    }

    method WriteSeparator(x: Sep)
      modifies this
      ensures buf == old(buf) + SepBytes(x) && offset == |buf|
    {
      buf := buf + LE(x.addr, 8);
      if |x.key| >= LONG_KEY {
        buf := buf + [LONG_KEY];
        buf := buf + LE(|x.key|, 4);
      } else {
        buf := buf + [|x.key|];
      }
      buf := buf + x.key;
      offset := |buf|;
      assert buf == old(buf) + SepBytes(x);
    }

    /** `read_child_index`: no child for address 0. */
    method ReadChildIndex() returns (r: Result<Option<Addr>>)
      requires offset <= |buf|
      modifies this`offset
      ensures r == if old(offset) + 8 > |buf| then Corruption else
        var a := FromLE(buf[old(offset)..old(offset) + 8]); Ok(if a == 0 then None else Some(a))
      ensures offset == if r.Ok? then old(offset) + 8 else old(offset)
    {
      if offset + 8 > |buf| {
        return Corruption;
      }
      var a := FromLE(buf[offset..offset + 8]);
      offset := offset + 8;
      r := Ok(if a == 0 then None else Some(a));
    }

    /** `read_separator`: nothing at the end of the buffer. */
    method ReadSeparator() returns (r: Result<Option<Sep>>)
      requires offset <= |buf|
      modifies this`offset
      ensures (r, offset) == ParseSep(buf, old(offset)) && offset <= |buf|
    {
      if offset == |buf| {
        return Ok(None);
      }
      if offset + 9 > |buf| {
        return Corruption;
      }
      var addr := FromLE(buf[offset..offset + 8]);
      var head := buf[offset + 8];
      var at, size := offset + 9, head;
      if head == LONG_KEY {
        if at + 4 > |buf| {
          return Corruption;
        }
        size := FromLE(buf[at..at + 4]);
        at := at + 4;
      }
      if at + size > |buf| {
        return Corruption;
      }
      offset := at + size;
      r := Ok(if addr == 0 then None else Some(Sep(buf[at..at + size], addr)));
    }
  }

  function ParseSep(buf: Bytes, offset: nat): (Result<Option<Sep>>, nat)
    requires offset <= |buf|
  {
    if offset == |buf| then (Ok(None), offset)
    else if offset + 9 > |buf| then (Corruption, offset)
    else
      var addr, head := FromLE(buf[offset..offset + 8]), buf[offset + 8];
      if head == LONG_KEY && offset + 13 > |buf| then (Corruption, offset)
      else
        var at := if head == LONG_KEY then offset + 13 else offset + 9;
        var size := if head == LONG_KEY then FromLE(buf[offset + 9..offset + 13]) else head;
        if at + size > |buf| then (Corruption, offset)
        else (Ok(if addr == 0 then None else Some(Sep(buf[at..at + size], addr))), at + size)
  }

  /** A written separator reads back, whichever form its length takes. */
  lemma {:induction false} SepReads(buf: Bytes, offset: nat, x: Sep, tail: Bytes)
    requires offset < |buf| && 0 < x.addr < U64_LIMIT && |x.key| < U32_LIMIT && buf[offset..] == SepBytes(x) + tail
    ensures var (r, n) := ParseSep(buf, offset); r == Ok(Some(x)) && n <= |buf| && buf[n..] == tail
  {
    hide LE, FromLE, SizeBytes, SepBytes;
    SepSlices(buf, offset, x, tail);
    SizeReads(|x.key|, x.key + tail);
    U64RoundTrip(x.addr);
    var rest := buf[offset + 8..];
    assert buf[offset + 8] == rest[0];
    if |x.key| >= LONG_KEY {
      assert buf[offset + 9..offset + 13] == rest[1..5];
    }
  }

  /** Where the parts of a separator lie. */
  lemma {:induction false} SepSlices(buf: Bytes, offset: nat, x: Sep, tail: Bytes)
    requires offset <= |buf| && buf[offset..] == SepBytes(x) + tail
    ensures var n, size := offset + 8 + |SizeBytes(|x.key|)|, SizeBytes(|x.key|);
      && n + |x.key| <= |buf| && buf[offset..offset + 8] == LE(x.addr, 8)
      && buf[offset + 8..] == size + (x.key + tail) && |size| > 0
      && buf[n..n + |x.key|] == x.key && buf[n + |x.key|..] == tail
  {
    hide LE, SizeBytes;
    var addr, size, n := LE(x.addr, 8), SizeBytes(|x.key|), offset + 8 + |SizeBytes(|x.key|)|;
    Grouped(addr, size, x.key, tail);
    SomeSize(|x.key|);
    Cut3(buf[offset..], addr, size + (x.key + tail));
    Sliced(buf, offset, 8);
    Cut3(buf[offset + 8..], size, x.key + tail);
    Sliced(buf, offset + 8, |size|);
    Cut3(buf[n..], x.key, tail);
    Sliced(buf, n, |x.key|);
  }

  lemma Grouped(a: Bytes, b: Bytes, c: Bytes, d: Bytes)
    ensures a + b + c + d == a + (b + (c + d))
  {
  }

  lemma SomeSize(n: nat)
    ensures |SizeBytes(n)| > 0
  {
  }

  lemma Cut3(b: Bytes, front: Bytes, rest: Bytes)
    requires b == front + rest
    ensures b[..|front|] == front && b[|front|..] == rest
  {
  }

  lemma Sliced(b: Bytes, at: nat, n: nat)
    requires at + n <= |b|
    ensures b[at..at + n] == b[at..][..n] && b[at + n..] == b[at..][n..]
  {
  }

  /** The length of a key, in either form, in front of anything. */
  lemma SizeReads(n: nat, rest: Bytes)
    requires n < U32_LIMIT
    ensures var b := SizeBytes(n) + rest;
      && |SizeBytes(n)| == (if n >= LONG_KEY then 5 else 1) && (b[0] == LONG_KEY <==> n >= LONG_KEY)
      && (n >= LONG_KEY ==> FromLE(b[1..5]) == n) && (n < LONG_KEY ==> b[0] == n)
      && b[|SizeBytes(n)|..] == rest
  {
    hide LE, FromLE;
    U32RoundTrip(n);
    if n >= LONG_KEY {
      assert (SizeBytes(n) + rest)[1..5] == LE(n, 4);
    }
  }

  /** A separator that is cut off anywhere is refused. */
  lemma {:induction false} CutSeparator(x: Sep, n: nat)
    requires |x.key| < U32_LIMIT && 0 < n < |SepBytes(x)|
    ensures ParseSep(SepBytes(x)[..n], 0) == (Corruption, 0)
  {
    hide LE, FromLE;
    var b, size := SepBytes(x)[..n], SizeBytes(|x.key|);
    U32RoundTrip(|x.key|);
    if n >= 9 {
      assert b[8] == (LE(x.addr, 8) + size + x.key)[8] == size[0];
      if |x.key| >= LONG_KEY && n >= 13 {
        assert b[9..13] == SepBytes(x)[9..13] == LE(|x.key|, 4);
      }
    }
  }

  lemma FourBytes()
    ensures LE(0x100, 4) == [0, 1, 0, 0]
  {
    ZeroBytes(2);
    assert LE(1, 3) == [1] + LE(0, 2);
    assert LE(0x100, 4) == [0] + LE(1, 3);
  }

  /** The layout spelled out, a key on each side of the length escape. */
  lemma SepLayout(k: Bytes)
    ensures SepBytes(Sep([7, 8], 0x0102)) == [2, 1, 0, 0, 0, 0, 0, 0, 2, 7, 8]
    ensures |k| == 0x100 ==> SepBytes(Sep(k, 9)) == [9, 0, 0, 0, 0, 0, 0, 0, 255, 0, 1, 0, 0] + k
  {
    hide LE;
    Small(0x0102);
    Small(9);
    FourBytes();
  }

  // ----- Whole nodes

  /** A node spelled out: child, separator, child; a leaf has address 0 in place of its children. */
  lemma NodeLayout(x: Sep, a: Addr, b: Addr)
    ensures NodeBytes([x], [a, b], 0) == LE(a, 8) + SepBytes(x) + LE(b, 8)
    ensures NodeBytes([x], [], 0) == LE(0, 8) + SepBytes(x) + LE(0, 8) && NodeBytes([], [], 0) == LE(0, 8)
  {
    hide LE, SepBytes;
    assert NodeBytes([x], [a, b], 1) == LE(b, 8);
    assert NodeBytes([x], [], 1) == LE(0, 8);
  }

  /** The writing loop of `write_node_plan`. */
  method EncodeNode(
      separators: seq<Option<Sep>>, children: seq<Option<Addr>>, ghost seps: seq<Sep>, ghost kids: seq<Addr>)
    returns (b: Bytes)
    requires Storable(seps, kids) && separators == Pad(seps, ORDER) && children == Pad(kids, ORDER_CHILD)
    ensures b == NodeBytes(seps, kids, 0)
  {
    hide NodeBytes, SepBytes, ChildBytes;
    var entry := new NodeEntry([]);
    var i := 0;
    while true
      invariant i <= |seps| && fresh(entry) && entry.buf + NodeBytes(seps, kids, i) == NodeBytes(seps, kids, 0)
      decreases |seps| - i
    {
      NodeFrom(entry.buf, seps, kids, i);
      entry.WriteChildIndex(if children[i].Some? then children[i].value else 0);
      if i + 1 == ORDER_CHILD || separators[i].None? {
        break;
      }
      entry.WriteSeparator(separators[i].value);
      i := i + 1;
    }
    b := entry.buf;
  }

  lemma NodeFrom(b: Bytes, seps: seq<Sep>, kids: seq<Addr>, i: nat)
    requires i <= |seps|
    ensures ChildBytes(kids, i) == LE(if i < |kids| then kids[i] else 0, 8)
    ensures i == |seps| ==> b + NodeBytes(seps, kids, i) == b + ChildBytes(kids, i)
    ensures i < |seps| ==>
      b + NodeBytes(seps, kids, i) == b + ChildBytes(kids, i) + SepBytes(seps[i]) + NodeBytes(seps, kids, i + 1)
  {
    hide SepBytes, LE;
    if i < |seps| {
      assert b + (ChildBytes(kids, i) + SepBytes(seps[i]) + NodeBytes(seps, kids, i + 1))
        == b + ChildBytes(kids, i) + SepBytes(seps[i]) + NodeBytes(seps, kids, i + 1);
    }
  }

  /** The bytes are those of a node with these separators and children. */
  ghost predicate Encodes(b: Bytes, seps: seq<Sep>, kids: seq<Addr>) {
    Storable(seps, kids) && b == NodeBytes(seps, kids, 0)
  }

  /** What is read of a node when its first `i` children and separators are. */
  ghost predicate ReadTo(
      b: Bytes, offset: nat, separators: seq<Option<Sep>>, children: seq<Option<Addr>>, seps: seq<Sep>,
      kids: seq<Addr>, i: nat) {
    && i <= |seps| && (kids == [] || i <= |kids|) && offset <= |b| && b[offset..] == NodeBytes(seps, kids, i)
    && separators == Pad(seps[..i], ORDER) && children == Pad(if kids == [] then [] else kids[..i], ORDER_CHILD)
  }

  /** `Node::from_encoded`: reading back what was written gives the same separators and children. */
  method DecodeNode(b: Bytes, ghost seps: seq<Sep>, ghost kids: seq<Addr>) returns (r: Result<Slot>)
    ensures Encodes(b, seps, kids) ==> r == Ok(NodeSlot(Pad(seps, ORDER), Pad(kids, ORDER_CHILD)))
  {
    hide Encodes, ReadTo, ParseSep, NodeBytes;
    var entry := new NodeEntry(b);
    var separators: seq<Option<Sep>> := Pad([], ORDER);
    var children: seq<Option<Addr>> := Pad([], ORDER_CHILD);
    StartRead(b, seps, kids);
    var i := 0;
    while true
      invariant i <= ORDER && fresh(entry) && entry.buf == b && entry.offset <= |b| && |separators| == ORDER
      invariant |children| == ORDER_CHILD
      invariant Encodes(b, seps, kids) ==> ReadTo(b, entry.offset, separators, children, seps, kids, i)
      decreases ORDER - i
    {
      ReadOne(b, entry.offset, separators, children, seps, kids, i);
      var c := entry.ReadChildIndex();
      if !c.Ok? {
        return Corruption;
      }
      if c.value.Some? {
        children := children[i := c.value];
      }
      if i + 1 == ORDER_CHILD {
        break;
      }
      var x := entry.ReadSeparator();
      if !x.Ok? {
        return Corruption;
      }
      if x.value.None? {
        break;
      }
      separators := separators[i := x.value];
      i := i + 1;
    }
    r := Ok(NodeSlot(separators, children));
  }

  lemma StartRead(b: Bytes, seps: seq<Sep>, kids: seq<Addr>)
    ensures Encodes(b, seps, kids) ==> ReadTo(b, 0, Pad([], ORDER), Pad([], ORDER_CHILD), seps, kids, 0)
  {
    assert b[0..] == b && seps[..0] == [];
    assert kids != [] ==> kids[..0] == [];
  }

  /** One round of reading: the next child, and the next separator or the end. */
  lemma {:induction false} ReadOne(
      b: Bytes, o: nat, separators: seq<Option<Sep>>, children: seq<Option<Addr>>, seps: seq<Sep>, kids: seq<Addr>,
      i: nat)
    requires i <= ORDER && o <= |b| && |separators| == ORDER && |children| == ORDER_CHILD
    requires Encodes(b, seps, kids) ==> ReadTo(b, o, separators, children, seps, kids, i)
    ensures Encodes(b, seps, kids) ==>
      && i <= |seps| && o + 8 <= |b|
      && var a := FromLE(b[o..o + 8]);
        var cs := if a == 0 then children else children[i := Some(a)];
        && (i == |seps| ==>
          ParseSep(b, o + 8).0 == Ok(None) && separators == Pad(seps, ORDER) && cs == Pad(kids, ORDER_CHILD))
        && (i < |seps| ==> i < ORDER && ParseSep(b, o + 8).0 == Ok(Some(seps[i])))
        && (i < |seps| ==> ReadTo(b, ParseSep(b, o + 8).1, separators[i := Some(seps[i])], cs, seps, kids, i + 1))
  {
    if Encodes(b, seps, kids) {
      ChildReads(b, o, seps, kids, i);
      PadOne(kids, i, ORDER_CHILD);
      if i < |seps| {
        SepReads(b, o + 8, seps[i], NodeBytes(seps, kids, i + 1));
        PadOne(seps, i, ORDER);
      } else {
        assert seps[..i] == seps;
        assert kids != [] ==> kids[..i + 1] == kids;
      }
    }
  }

  lemma PadOne<T>(s: seq<T>, i: nat, n: nat)
    ensures i < |s| <= n ==> Pad(s[..i], n)[i := Some(s[i])] == Pad(s[..i + 1], n)
  {
  }

  lemma {:induction false} ChildReads(b: Bytes, o: nat, seps: seq<Sep>, kids: seq<Addr>, i: nat)
    requires Storable(seps, kids) && i <= |seps| && o <= |b| && b[o..] == NodeBytes(seps, kids, i)
    ensures o + 8 <= |b| && FromLE(b[o..o + 8]) == if kids == [] then 0 else kids[i]
    ensures i == |seps| ==> o + 8 == |b|
    ensures i < |seps| ==> o + 8 < |b| && b[o + 8..] == SepBytes(seps[i]) + NodeBytes(seps, kids, i + 1)
  {
    hide NodeBytes, LE, FromLE, SizeBytes;
    U64RoundTrip(if kids == [] then 0 else kids[i]);
    NodeFrom([], seps, kids, i);
    var n, c := b[o..], ChildBytes(kids, i);
    assert [] + NodeBytes(seps, kids, i) == n;
    if i < |seps| {
      assert n == c + (SepBytes(seps[i]) + NodeBytes(seps, kids, i + 1)) by {
        assert [] + c + SepBytes(seps[i]) + NodeBytes(seps, kids, i + 1)
          == c + (SepBytes(seps[i]) + NodeBytes(seps, kids, i + 1));
      }
    } else {
      assert [] + c == c;
    }
    assert b[o..o + 8] == n[..8] == c;
    assert b[o + 8..] == n[8..];
  }

  /** A node of any fill, leaf or not, with keys of any length, survives being stored. */
  method NodeRoundTrip(
      separators: seq<Option<Sep>>, children: seq<Option<Addr>>, ghost seps: seq<Sep>, ghost kids: seq<Addr>)
    returns (r: Result<Slot>)
    requires Storable(seps, kids) && separators == Pad(seps, ORDER) && children == Pad(kids, ORDER_CHILD)
    ensures r == Ok(NodeSlot(separators, children))
  {
    var b := EncodeNode(separators, children, seps, kids);
    r := DecodeNode(b, seps, kids);
  }
}
