/**
 A value table: slots of one size in a file, with the images the log has not enacted yet in front
 of it. `view` is the meaning of the table; the methods keep it and are specified by it.
 */
module ValueTables {
  import opened Keys
  import opened LittleEndian
  import opened SlotEntry
  import opened TableView

  datatype TableKey = Partial(key: Bytes) | NoHash

  predicate KeyOk(key: TableKey) {
    key.Partial? ==> |key.key| == 32
  }

  /** What a table stores of a key: its last 26 bytes. */
  function KeyBytes(key: TableKey): (b: Bytes)
    requires KeyOk(key)
    ensures |b| == if key.Partial? then PARTIAL_SIZE else 0
  {
    if key.Partial? then key.key[6..] else []
  }

  function HeadSize(refCounted: bool, key: TableKey): nat {
    (if refCounted then REFS_SIZE else 0) + if key.Partial? then PARTIAL_SIZE else 0
  }

  /** Counter and key in front of a value that is written for the first time. */
  function Head(refCounted: bool, key: TableKey): (b: Bytes)
    requires KeyOk(key)
    ensures |b| == HeadSize(refCounted, key)
  {
    (if refCounted then LE(1, REFS_SIZE) else []) + KeyBytes(key)
  }

  function Counter(refCounted: bool, bytes: Bytes): nat
    requires refCounted ==> |bytes| >= REFS_SIZE
  {
    if refCounted then FromLE(bytes[..REFS_SIZE]) else 1
  }

  /** What a lookup of `key` finds in a live value: nothing unless the stored key bytes agree. */
  ghost function Answer(refCounted: bool, s: Stored, key: TableKey): Option<(Bytes, bool, nat)>
    requires KeyOk(key) && |s.bytes| >= HeadSize(refCounted, key)
  {
    var r, n := if refCounted then REFS_SIZE else 0, HeadSize(refCounted, key);
    if s.bytes[r..n] != KeyBytes(key) || Counter(refCounted, s.bytes) == 0 then None
    else Some((s.bytes[n..], s.compressed, Counter(refCounted, s.bytes)))
  }

  // ----- Chains while they are read and rewritten

  /** From slot `k` on, each slot names the next and the last names none. */
  ghost predicate Linked(images: map<nat, Bytes>, c: seq<nat>, k: nat) {
    forall j :: k <= j < |c| ==> c[j] in images && LinkIs(images[c[j]], Link(c, j + 1))
  }

  /** An image that leads to `next`, or to nothing for 0. */
  ghost predicate LinkIs(image: Bytes, next: nat) {
    && |image| >= 2
    && (next != 0 ==> |image| >= 10 && IsMulti(image) && FromLE(image[2..10]) == next)
    && (next == 0 ==> !IsMulti(image))
  }

  lemma {:induction false} PartLinks(image: Bytes, s: Stored, k: nat, entrySize: nat)
    requires MIN_ENTRY_SIZE <= entrySize <= MAX_ENTRY_SIZE && k < |s.chain| && PartOk(image, s, k, entrySize)
    requires k + 1 < |s.chain| ==> 0 < s.chain[k + 1] < U64_LIMIT
    ensures LinkIs(image, Link(s.chain, k + 1)) && !IsTombstone(image)
  {
    var at := Start(k, entrySize);
    if k + 1 < |s.chain| {
      var m := Marker(k == 0, s.compressed);
      assert image[..2] == m;
      assert image[2..10] == LE(s.chain[k + 1], 8);
      U64RoundTrip(s.chain[k + 1]);
    } else {
      SizeWordReads(|s.bytes| - at, s.compressed, s.bytes[at..]);
    }
  }

  lemma {:induction false} ChainLinks(v: View, h: nat)
    requires Ok(v) && h in v.live
    ensures Linked(v.images, v.live[h].chain, 0)
  {
    var s := v.live[h];
    assert ChainOk(v.images, s, h, v.entrySize, v.multipart);
    forall j | 0 <= j < |s.chain|
      ensures LinkIs(v.images[s.chain[j]], Link(s.chain, j + 1))
    {
      InRange(v, h, if j + 1 < |s.chain| then j + 1 else j);
      PartLinks(v.images[s.chain[j]], s, j, v.entrySize);
    }
  }

  lemma {:induction false} InRange(v: View, h: nat, j: nat)
    requires Partition(v) && h in v.live && j < |v.live[h].chain|
    ensures 0 < v.live[h].chain[j] < v.filled <= U64_LIMIT
  {
    assert v.live[h].chain[j] in v.live[h].chain;
  }

  /** A chain whose slots spell what it stores is back in order. */
  lemma {:induction false} Settled(v: View, h: nat)
    requires OkBut(v, h) && (h in v.live ==> ChainOk(v.images, v.live[h], h, v.entrySize, v.multipart))
    ensures Ok(v)
  {
  }

  /** A head with no slots left is gone. */
  lemma {:induction false} Dropped(v: View, h: nat)
    requires OkBut(v, h) && h in v.live && v.live[h].chain == []
    ensures Ok(v.(live := v.live - {h}))
  {
    forall i | i in v.owner
      ensures v.owner[i] != h
    {
      assert Owns(v.owner, v.live[h].chain, h);
      assert i !in v.live[h].chain;
    }
  }

  /** Slots 0 to k of the chain are written, and `follow` tells whether old slots are left. */
  ghost predicate Writing(v: View, h: nat, k: nat, follow: bool) {
    && OkBut(v, h) && h in v.live && k < |v.live[h].chain| && v.live[h].chain[0] == h
    && (v.multipart || |v.live[h].chain| == 1)
    && Written(v, h, k)
    && (if follow then Linked(v.images, v.live[h].chain, k) else k + 1 == |v.live[h].chain|)
  }

  ghost predicate Written(v: View, h: nat, k: nat)
    requires h in v.live && Sizes(v.entrySize, v.multipart) && k <= |v.live[h].chain|
  {
    forall j ::
      0 <= j < k ==> v.live[h].chain[j] in v.images && PartOk(v.images[v.live[h].chain[j]], v.live[h], j, v.entrySize)
  }

  /** A link is good only below `filled`. */
  function Inside(next: nat, filled: nat): Option<nat> {
    if next < filled then Some(next) else None
  }

  class ValueTable {
    const entrySize: nat
    const multipart: bool
    const refCounted: bool
    /** What an uninitialised buffer happens to hold. */
    const scratch: Bytes
    var filled: nat
    var lastRemoved: nat
    var dirtyHeader: bool
    var file: map<nat, Bytes>
    var log: map<nat, Bytes>
    ghost var view: View

    /** The newest image of slot `i` is in the log, or at the front of the slot in the file. */
    ghost predicate SlotShows(i: nat)
      requires i in view.images
      reads this
    {
      if i in log then log[i] == view.images[i]
      else i in file && |file[i]| == entrySize && view.images[i] <= file[i]
    }

    ghost predicate Shown()
      reads this
    {
      && Sizes(entrySize, multipart) && |scratch| >= entrySize
      && view.entrySize == entrySize && view.multipart == multipart
      && view.filled == filled && lastRemoved == Link(view.free, 0)
      && (forall i :: i in view.images ==> SlotShows(i) && i < filled) && log.Keys <= view.images.Keys
      && (forall i :: i in file ==> |file[i]| == entrySize)
    }

    /** A clean header says where the table ends and where its freed slots begin. */
    ghost predicate HeaderOk()
      reads this
    {
      dirtyHeader
      || (if 0 in view.images then view.images[0] == Header(lastRemoved, filled) else filled == 1 && lastRemoved == 0)
    }

    ghost predicate Valid()
      reads this
    {
      Shown() && Ok(view) && HeaderOk()
    }

    constructor (entrySize: nat, multipart: bool, refCounted: bool, scratch: Bytes)
      requires Sizes(entrySize, multipart) && |scratch| >= entrySize
      ensures Valid() && view.live == map[] && filled == 1
    {
      this.entrySize, this.multipart, this.refCounted, this.scratch := entrySize, multipart, refCounted, scratch;
      filled, lastRemoved, dirtyHeader, file, log := 1, 0, false, map[], map[];
      view := View(entrySize, multipart, 1, map[], [], map[], map[]);
    }

    /** `LogQuery::value`, or the file when the log has no image. */
    method ReadSlot(index: nat, len: nat) returns (buf: Bytes)
      requires Shown() && index in view.images && len <= entrySize
      ensures |buf| == len
      ensures len <= |view.images[index]| ==> buf == view.images[index][..len]
      ensures |view.images[index]| <= len ==> view.images[index] <= buf
    {
      assert SlotShows(index);
      if index in log {
        var n := if len < |log[index]| then len else |log[index]|;
        buf := log[index][..n] + scratch[n..len];
      } else {
        buf := file[index][..len];
      }
    }

    /** `LogWriter::insert_value`. */
    method InsertValue(index: nat, image: Bytes)
      requires Shown() && index < filled
      modifies this`log, this`view
      ensures Shown() && view == old(view).(images := old(view.images)[index := image])
      ensures log == old(log)[index := image]
    {
      log := log[index := image];
      view := view.(images := view.images[index := image]);
      assert forall i :: i in view.images && i != index ==> old(SlotShows(i));
    }

    /** Enacting a logged image changes the file under the log, not what the table means. */
    method Enact(index: nat, image: Bytes)
      requires Shown() && |image| <= entrySize
      requires (index in log || (index in view.images ==> view.images[index] == image))
      modifies this`file
      ensures Shown() && file.Keys == old(file).Keys + {index} && image <= file[index] && |file[index]| == entrySize
      ensures forall j :: j in old(file) && j != index ==> file[j] == old(file)[j]
      ensures index in old(file) ==> file[index][|image|..] == old(file)[index][|image|..]
    {
      var slot := if index in file then file[index] else seq(entrySize, _ => 0);
      file := file[index := image + slot[|image|..]];
      assert forall i :: i in view.images && i != index ==> old(SlotShows(i));
      assert index in view.images && index in log ==> old(SlotShows(index));
    }

    /** The log may forget an image that the file holds. */
    method Forget(index: nat)
      requires Shown() && index in log && index in file && log[index] <= file[index]
      modifies this`log
      ensures Shown() && log == old(log) - {index}
    {
      log := log - {index};
      assert forall i :: i in view.images ==> old(SlotShows(i));
    }

    // ----- Free list

    /** `read_next_free`: the next freed slot; a link out of the table is reported as corruption. */
    method ReadNextFree(index: nat) returns (r: Option<nat>)
      requires Shown() && Partition(view) && FreeOk(view) && view.free != [] && index == view.free[0]
      ensures r == Some(Link(view.free, 1))
    {
      assert view.images[view.free[0]] == Tomb(Link(view.free, 1));
      var buf := ReadSlot(index, 10);
      assert buf[2..10] == LE(Link(view.free, 1), 8);
      assert |view.free| > 1 ==> view.free[1] in view.free;
      U64RoundTrip(Link(view.free, 1));
      r := Inside(FromLE(buf[2..10]), filled);
    }

    /** `next_free`, for the chain of `h`, or for a new chain when there is none yet. */
    method NextFree(ghost h: nat) returns (x: nat)
      requires Shown() && OkBut(view, h) && filled < U64_LIMIT && (h in view.live || h == FreshSlot(view))
      modifies this`filled, this`lastRemoved, this`dirtyHeader, this`view
      ensures x == FreshSlot(old(view)) && view == Take(old(view), h) && Shown() && OkBut(view, h) && dirtyHeader
      ensures old(filled) <= filled <= old(filled) + 1
    {
      hide FreeOk, Partition, ChainOk, PartOk, Owns, LE;
      TakeOk(view, h);
      if lastRemoved != 0 {
        var next := ReadNextFree(lastRemoved);
        x := lastRemoved;
        lastRemoved := next.value;
      } else {
        assert view.free == [] by {
          FreshIsFree(view);
        }
        x := filled;
        filled := filled + 1;
      }
      view := Take(view, h);
      dirtyHeader := true;
      assert forall i :: i in view.images ==> old(SlotShows(i));
    }

    /** `clear_slot`. */
    method ClearSlot(index: nat, ghost h: nat, ghost kept: nat)
      requires Shown() && OkBut(view, h) && h in view.live && kept < |view.live[h].chain|
      requires index == view.live[h].chain[kept]
      modifies this`lastRemoved, this`dirtyHeader, this`log, this`view
      ensures Shown() && OkBut(view, h) && view == Give(old(view), h, kept) && dirtyHeader
    {
      hide OkBut, Give;
      GiveOk(view, h, kept);
      GiveImages(view, h, kept);
      InTable(view, h, kept);
      ghost var next := Give(view, h, kept);
      InsertValue(index, TOMBSTONE + LE(lastRemoved, INDEX_SIZE));
      lastRemoved := index;
      dirtyHeader := true;
      view := next;
    }

    // ----- Chains

    /** `read_next_part`. */
    method ReadNextPart(index: nat, ghost next: nat) returns (r: Option<nat>)
      requires Shown() && index in view.images && LinkIs(view.images[index], next) && (multipart || next == 0)
      ensures r == if next == 0 then None else Some(next)
    {
      var buf := ReadSlot(index, 10);
      assert buf[..2] == view.images[index][..2];
      if multipart && IsMulti(buf) {
        assert buf[2..10] == view.images[index][2..10];
        return Some(FromLE(buf[2..10]));
      }
      r := None;
    }

    /** `clear_chain`: frees every slot after the first `kept` ones. */
    method ClearChain(start: nat, ghost h: nat, ghost kept: nat)
      requires Shown() && OkBut(view, h) && h in view.live && kept < |view.live[h].chain|
      requires start == view.live[h].chain[kept]
      requires Linked(view.images, view.live[h].chain, kept) && (multipart || kept + 1 == |view.live[h].chain|)
      modifies this`lastRemoved, this`dirtyHeader, this`log, this`view
      ensures Shown() && Cleared(old(view), view, h, kept) && dirtyHeader
    {
      hide OkBut, Give, Clearing, Cleared;
      var index := start;
      ghost var v0, c, k := view, view.live[h].chain, kept;
      ClearingStart(v0, h, kept);
      while true
        invariant Shown() && c == v0.live[h].chain && kept <= k < |c| && index == c[k]
        invariant Clearing(v0, view, h, kept, k)
        decreases |c| - k
      {
        ClearingStep(v0, view, h, kept, k);
        var next := ReadNextPart(index, Link(c, k + 1));
        ClearSlot(index, h, kept);
        if next.None? {
          break;
        }
        index := next.value;
        k := k + 1;
      }
    }

    /** One round of the loop of `overwrite_chain`, up to the bytes in front of the payload. */
    method PlanPart(index: nat, follow: bool, remainder: nat, first: bool, compressed: bool, ghost h: nat, ghost k: nat)
        returns (next: nat, follow': bool, front: Bytes, len: nat)
      requires Shown() && Writing(view, h, k, follow) && index == view.live[h].chain[k] && first == (k == 0)
      requires (multipart || remainder <= entrySize - SIZE_SIZE)
      requires (remainder > entrySize - SIZE_SIZE ==> filled < U64_LIMIT)
      modifies this`filled, this`lastRemoved, this`dirtyHeader, this`view
      ensures Shown() && (old(HeaderOk()) ==> HeaderOk()) && old(filled) <= filled <= old(filled) + 1
      ensures (if remainder > entrySize - SIZE_SIZE && !follow' then view == Take(old(view), h) else view == old(view))
      ensures Planned(view, h, k, follow', next, remainder) && (follow' ==> follow)
      ensures len == (if remainder > entrySize - SIZE_SIZE then Payload(entrySize) else remainder)
      ensures front
        == if remainder > entrySize - SIZE_SIZE then Marker(first, compressed)
        + LE(next, INDEX_SIZE) else SizeWord(remainder, compressed)
    {
      hide OkBut, Written, Linked, Take, Planned;
      next, follow' := 0, follow;
      if follow {
        FollowLink(view, h, k);
        var r := ReadNextPart(index, Link(view.live[h].chain, k + 1));
        if r.Some? {
          next := r.value;
        } else {
          follow' := false;
        }
      }
      if remainder > entrySize - SIZE_SIZE {
        if !follow' {
          TakeChained(view, h, k, follow, remainder);
          next := NextFree(h);
        } else {
          PlanFollow(view, h, k, remainder);
        }
        front := (if !first then MULTIPART else if compressed then MULTIHEAD_COMPRESSED else MULTIHEAD)
        + LE(next, INDEX_SIZE);
        len := entrySize - SIZE_SIZE - INDEX_SIZE;
      } else {
        if follow' {
          PlanFollow(view, h, k, remainder);
        } else {
          PlanLast(view, h, k, follow, remainder);
        }
        front := SizeWord(remainder, compressed);
        len := remainder;
      }
    }

    /** Where `overwrite_chain` starts: at the old head, or at a fresh slot. */
    method BeginChain(at: Option<nat>, ghost bytes: Bytes, ghost compressed: bool) returns (index: nat, follow: bool)
      requires Valid() && (at.Some? ==> at.value in view.live) && (at.None? ==> filled < U64_LIMIT)
      modifies this`filled, this`lastRemoved, this`dirtyHeader, this`view
      ensures Shown() && HeaderOk() && index == (if at.Some? then at.value else FreshSlot(old(view)))
      ensures filled <= old(filled) + if at.Some? then 0 else 1
      ensures Round(old(view), view, index, 0, follow, bytes, compressed) && SlotAt(view, index, 0) == index
      ensures index != 0
    {
      hide OkBut, Take, Linked, ChainOk, FreeOk;
      if at.Some? {
        StartOver(view, at.value, bytes, compressed);
        HeadNotZero(view, at.value);
        index, follow := at.value, true;
      } else {
        StartFresh(view, bytes, compressed);
        follow := false;
        FreshIsNotLive(view);
        index := NextFree(FreshSlot(view));
        TakeFresh(old(view), index);
      }
      view := Relabel(view, index, bytes, compressed);
    }

    /** One slot of the chain; the spare slots after the last one are freed. */
    method WritePart(
        index: nat, follow: bool, remainder: nat, first: bool, compressed: bool, head: Bytes, value: Bytes,
        offset: nat,
                     ghost v0: View, ghost h: nat, ghost k: nat) returns (next: nat, follow': bool, len: nat)
      requires Shown() && HeaderOk() && Round(v0, view, h, k, follow, head + value, compressed)
      requires index == SlotAt(view, h, k) && first == (k == 0)
      requires Start(k, entrySize) + remainder == |head| + |value|
      requires offset == (if k == 0 then 0 else Start(k, entrySize) - |head|)
      requires |head| <= 30 && filled + remainder <= U64_LIMIT
      requires (multipart || |head| + |value| <= entrySize - SIZE_SIZE)
      modifies this`filled, this`lastRemoved, this`dirtyHeader, this`log, this`view
      ensures Shown() && HeaderOk()
      ensures len == (if remainder > entrySize - SIZE_SIZE then Payload(entrySize) else remainder)
      ensures remainder > entrySize - SIZE_SIZE ==>
        Round(v0, view, h, k + 1, follow', head + value, compressed) && next == SlotAt(view, h, k + 1)
      ensures filled <= old(filled) + if remainder > entrySize - SIZE_SIZE then 1 else 0
      ensures remainder <= entrySize - SIZE_SIZE ==> Overwritten(v0, view, h, head + value, compressed)
    {
      hide OkBut, Linked, RoundPlanned, Planned, PartOk, Take, ChainOk, Cleared, Overwritten, Round, Written;
      hide FreeOk, Partition, Owns, Marker, SizeWord, LE, Give;
      ghost var at, v := Start(k, entrySize), view;
      RoundWriting(v0, view, h, k, follow, head + value, compressed);
      InTable(view, h, k);
      var front;
      next, follow', front, len := PlanPart(index, follow, remainder, first, compressed, h, k);
      PlannedRound(v0, v, view, h, k, follow, follow', next, remainder, head + value, compressed);
      var written := if offset == 0 then head else [];
      PieceIs(front, head, value, at, offset, len);
      var image := front + written + value[offset..offset + len - |written|];
      ghost var v1 := view;
      InsertValue(index, image);
      if remainder > entrySize - SIZE_SIZE {
        RoundMore(v0, v1, view, h, k, follow', next, remainder, head + value, compressed);
      } else {
        RoundLast(v0, v1, view, h, k, follow', next, remainder, head + value, compressed);
        if next != 0 {
          FreeTail(next, v0, h, k, head + value, compressed);
        }
      }
    }

    /** The slots of the old chain that the new value does not need. */
    method FreeTail(next: nat, ghost v0: View, ghost h: nat, ghost k: nat, ghost bytes: Bytes, ghost compressed: bool)
      requires Shown() && HeaderOk() && LastWritten(v0, view, h, k, bytes, compressed)
      requires h in v0.live && h in view.live && v0.live[h].chain == view.live[h].chain && multipart
      requires k + 1 < |view.live[h].chain| && next == view.live[h].chain[k + 1]
      requires Linked(view.images, view.live[h].chain, k + 1)
      modifies this`lastRemoved, this`dirtyHeader, this`log, this`view
      ensures Shown() && HeaderOk() && Overwritten(v0, view, h, bytes, compressed)
    {
      hide OkBut, Linked, PartOk, ChainOk, Cleared, Overwritten, LastWritten;
      ghost var v := view;
      LastIsOk(v0, view, h, k, bytes, compressed);
      ClearChain(next, h, k + 1);
      RoundCleared(v0, v, view, h, k, bytes, compressed);
    }

    /**
     `overwrite_chain`: writes `value` over the chain at `at`, or as a new chain. Old slots are
     reused in order; missing ones are taken, spare ones freed.
     */
    method OverwriteChain(key: TableKey, value: Bytes, at: Option<nat>, compressed: bool) returns (start: nat)
      requires Valid() && KeyOk(key) && (at.Some? ==> at.value in view.live)
      requires multipart || |value| + HeadSize(refCounted, key) <= entrySize - SIZE_SIZE
      requires filled + |value| + HeadSize(refCounted, key) < U64_LIMIT
      modifies this`filled, this`lastRemoved, this`dirtyHeader, this`log, this`view
      ensures Valid() && start == (if at.Some? then at.value else FreshSlot(old(view)))
      ensures Overwritten(old(view), view, start, Head(refCounted, key) + value, compressed)
      ensures filled <= old(filled) + |value| + HeadSize(refCounted, key) + 1
    {
      hide OkBut, Round, Planned, PartOk, Take, ChainOk, Cleared, FreeOk, Partition, Owns, LE, Head, Writing;
      var head := Head(refCounted, key);
      var remainder, offset := |value| + |head|, 0;
      ghost var v0, k, bytes := view, 0, head + value;
      var index, follow := BeginChain(at, bytes, compressed);
      ghost var h := index;
      start := 0;
      while true
        invariant Shown() && HeaderOk() && Round(v0, view, h, k, follow, bytes, compressed)
        invariant index == SlotAt(view, h, k)
        invariant Start(k, entrySize) + remainder == |bytes|
        invariant offset == (if k == 0 then 0 else Start(k, entrySize) - |head|)
        invariant h != 0 && (k == 0 ==> index == h) && start == (if k == 0 then 0 else h)
        invariant (k > 0 ==> multipart && remainder > 0)
        invariant filled + remainder <= old(filled) + |bytes| + 1
        decreases remainder
      {
        var next, len;
        ghost var v1 := view;
        assert (k > 0 ==> multipart) && MIN_ENTRY_SIZE <= entrySize <= MAX_ENTRY_SIZE;
        next, follow, len := WritePart(index, follow, remainder, start == 0, compressed, head, value, offset, v0, h, k);
        NextStart(k, entrySize);
        offset := offset + len - if offset == 0 then |head| else 0;
        remainder := remainder - len;
        start := if start == 0 then index else start;
        index := next;
        k := k + 1;
        if remainder == 0 {
          break;
        }
      }
    }

    // ----- Plans

    method WriteInsertPlan(key: TableKey, value: Bytes, compressed: bool) returns (index: nat)
      requires Valid() && KeyOk(key) && (multipart || |value| + HeadSize(refCounted, key) <= entrySize - SIZE_SIZE)
      requires filled + |value| + HeadSize(refCounted, key) < U64_LIMIT
      modifies this`filled, this`lastRemoved, this`dirtyHeader, this`log, this`view
      ensures Valid() && index !in old(view.live) && index == FreshSlot(old(view))
      ensures Overwritten(old(view), view, index, Head(refCounted, key) + value, compressed)
      ensures filled <= old(filled) + |value| + HeadSize(refCounted, key) + 1
    {
      FreshTaken(view);
      index := OverwriteChain(key, value, None, compressed);
    }

    method WriteReplacePlan(index: nat, key: TableKey, value: Bytes, compressed: bool)
      requires Valid() && KeyOk(key) && (multipart || |value| + HeadSize(refCounted, key) <= entrySize - SIZE_SIZE)
      requires filled + |value| + HeadSize(refCounted, key) < U64_LIMIT && index in view.live
      modifies this`filled, this`lastRemoved, this`dirtyHeader, this`log, this`view
      ensures Valid() && Overwritten(old(view), view, index, Head(refCounted, key) + value, compressed)
      ensures filled <= old(filled) + |value| + HeadSize(refCounted, key) + 1
    {
      var _ := OverwriteChain(key, value, Some(index), compressed);
    }

    /** `write_remove_plan`: the value is gone, its slots are free, all other values are as they were. */
    method WriteRemovePlan(index: nat)
      requires Valid() && index in view.live
      modifies this`lastRemoved, this`dirtyHeader, this`log, this`view
      ensures Valid() && view.live == old(view.live) - {index}
    {
      hide OkBut, Linked, Cleared, Give;
      ChainLinks(view, index);
      LiveChain(view, index);
      ghost var v := view;
      if multipart {
        ClearChain(index, index, 0);
      } else {
        OneGiven(v, index);
        ClearSlot(index, index, 0);
      }
      AllCleared(v, view, index);
      view := view.(live := view.live - {index});
    }

    /** `complete_plan`: a changed header goes to the log. */
    method CompletePlan()
      requires Valid()
      modifies this`dirtyHeader, this`log, this`view
      ensures Valid() && !dirtyHeader && view.live == old(view.live) && view.free == old(view.free)
      ensures log == if old(dirtyHeader) then old(log)[0 := Header(lastRemoved, filled)] else old(log)
    {
      if dirtyHeader {
        dirtyHeader := false;
        HeaderImage(view, Header(lastRemoved, filled));
        InsertValue(0, Header(lastRemoved, filled));
      }
    }

    /** Slots and log are in order, whatever the fields in memory say. */
    ghost predicate Filed()
      reads this
    {
      && Sizes(entrySize, multipart) && |scratch| >= entrySize
      && view.entrySize == entrySize && view.multipart == multipart
      && (forall i :: i in view.images ==> SlotShows(i) && i < view.filled) && log.Keys <= view.images.Keys
      && (forall i :: i in file ==> |file[i]| == entrySize)
    }

    /**
     `refresh_metadata`: end of the table and head of the free list are read back from the enacted
     header, whatever they were. Without a file there is nothing to read and a table starts empty;
     a header that was never written reads as zeros.
     */
    method RefreshMetadata()
      requires Filed() && Ok(view) && !dirtyHeader && 0 !in log && view.filled < U64_LIMIT
      requires if 0 in view.images then view.images[0] == Header(Link(view.free, 0), view.filled)
        else view.filled == 1 && view.free == [] && 0 !in file
      requires file == map[] ==> filled == 1 && lastRemoved == 0
      modifies this`filled, this`lastRemoved
      ensures Valid() && filled == view.filled && lastRemoved == Link(view.free, 0)
    {
      hide OkBut;
      LinksFit(view);
      assert 0 in view.images ==> SlotShows(0);
      if file != map[] {
        var header := if 0 in file then file[0] else Header(0, 0);
        HeaderReads(header, if 0 in file then Link(view.free, 0) else 0, if 0 in file then view.filled else 0);
        var last, end := FromLE(header[..INDEX_SIZE]), FromLE(header[INDEX_SIZE..HEADER_SIZE]);
        lastRemoved, filled := last, if end == 0 then 1 else end;
      }
      assert forall i :: i in view.images ==> old(SlotShows(i));
    }

    // ----- Lookup

    /** One round of `for_parts`: the payload of a slot, or nothing when no value starts there. */
    method ReadPart(index: nat, first: bool, ghost h: nat, ghost k: nat) returns (r: Option<Part>)
      requires Valid() && index in view.owner && h == view.owner[index]
      requires h != 0 ==> h in view.live && k < |view.live[h].chain| && view.live[h].chain[k] == index
      ensures h == 0 ==> r == None
      ensures h != 0 && multipart && first && (k > 0 || |view.live[h].chain| == 1) ==> r == None
      ensures h != 0 && !(multipart && first && (k > 0 || |view.live[h].chain| == 1)) ==>
        r.Some? && PartReads(r.value, view.live[h], k, entrySize)
    {
      hide PartOk, PartReads, OkBut, LinkIs;
      SlotImage(view, index, h, k);
      var buf := ReadSlot(index, entrySize);
      if h != 0 {
        PartParsed(buf, view.images[index], view.live[h], k, entrySize, multipart);
      } else {
        SameFront(buf, view.images[index]);
      }
      if IsTombstone(buf) || (multipart && first && !IsMultihead(buf)) {
        return None;
      }
      r := Some(ParsePart(buf, multipart, entrySize));
    }

    /** `query` with a key to check: what the value at `start` says, and nothing at any other slot. */
    method Query(start: nat, key: TableKey) returns (r: Option<(Bytes, bool, nat)>)
      requires Valid() && KeyOk(key) && start in view.owner
      requires start in view.live ==> |view.live[start].bytes| >= HeadSize(refCounted, key)
      ensures r ==
        if start in view.live && (multipart ==> |view.live[start].chain| > 1)
        then Answer(refCounted, view.live[start], key) else None
    {
      hide OkBut, PartReads, Gathered, Answer, Counter;
      ghost var h: nat, k: nat := Place(view, start);
      var index, part, compressed, rc := start, 0, false, 1;
      var result: Bytes := [];
      while true
        invariant index in view.owner && h == view.owner[index]
        invariant h != 0 ==> h in view.live && k < |view.live[h].chain| && view.live[h].chain[k] == index
        invariant part == 0 ==> index == start && result == [] && rc == 1
        invariant part == 0 ==>
          (start in view.live <==> h == start) && (h != 0 ==> (k == 0 <==> h == start) && (multipart || k == 0))
        invariant part > 0 ==> part == k && h == start && h != 0 && (multipart ==> |view.live[h].chain| > 1)
        invariant part > 0 ==> Gathered(refCounted, view.live[h], key, Start(k, entrySize), result, compressed, rc)
        decreases if h == 0 then 0 else |view.live[h].chain| - k
      {
        var p := ReadPart(index, part == 0, h, k);
        if p.None? {
          return None;
        }
        LiveChain(view, h);
        var payload := p.value.payload;
        if part == 0 {
          var size := if refCounted then REFS_SIZE else 0;
          FirstPart(refCounted, view.live[h], key, p.value, entrySize, multipart);
          compressed := p.value.compressed;
          rc := Counter(refCounted, payload);
          if payload[size..HeadSize(refCounted, key)] != KeyBytes(key) {
            return None;
          }
          payload := payload[HeadSize(refCounted, key)..];
        } else {
          LaterPart(refCounted, view.live[h], key, p.value, k, entrySize, result, compressed, rc);
        }
        result := result + payload;
        assert part == 0 ==> result == payload;
        NextPlace(view, h, k, p.value, entrySize);
        if p.value.next == 0 {
          assert h == start && (multipart ==> |view.live[h].chain| > 1);
          GatheredAll(refCounted, view.live[h], key, result, compressed, rc);
          break;
        }
        part := part + 1;
        index := p.value.next;
        k := k + 1;
      }
      r := if rc > 0 then Some((result, compressed, rc)) else None;
    }

    // ----- Reference counters

    /** `change_ref` on the head of a value, or on a freed slot. */
    method ChangeRef(index: nat, delta: int) returns (r: bool)
      requires Valid() && refCounted && -0x8000_0000 <= delta < 0x8000_0000
      requires index in view.free || (index in view.live && |view.live[index].bytes| >= REFS_SIZE)
      modifies this`log, this`view
      ensures Valid() && (index in old(view.free) ==> !r) && (!r ==> view == old(view))
      ensures index in old(view.live) ==> r == Bumped(Counter(true, old(view.live[index].bytes)), delta).Some?
      ensures r ==> index in view.live && view.live == old(view.live)[index := Recounted(old(view.live[index]), delta)]
    {
      hide OkBut, PartOk, LinkIs, Recounted, FreeOk, Partition, Owns, ChainOk, LE, FromLE, Bumped, ReadSize;
      hide IsMulti;
      ghost var h := OwnerOf(view, index);
      SlotImage(view, index, h, 0);
      var buf := ReadSlot(index, entrySize);
      if h != 0 {
        HeadParsed(view, index, buf);
      } else {
        SameFront(buf, view.images[index]);
      }
      if IsTombstone(buf) {
        return false;
      }
      var multi := multipart && IsMulti(buf);
      var size := if multi then entrySize else SIZE_SIZE + ReadSize(buf).0;
      var offset := if multi then SIZE_SIZE + INDEX_SIZE else SIZE_SIZE;
      var counter := Bumped(FromLE(buf[offset..offset + REFS_SIZE]), delta);
      if counter.None? {
        return false;
      }
      var image := buf[..offset] + LE(counter.value, REFS_SIZE) + buf[offset + REFS_SIZE..size];
      RecountWritten(view, index, buf, offset, size, counter.value, image);
      RecountedIs(view.live[index], delta, counter.value);
      InsertValue(index, image);
      view := view.(live := view.live[index := Recounted(view.live[index], delta)]);
      r := true;
    }

    method WriteIncRef(index: nat)
      requires Valid() && refCounted && index in view.live && |view.live[index].bytes| >= REFS_SIZE
      modifies this`log, this`view
      ensures Valid() && view.live == old(view.live)[index := Recounted(old(view.live[index]), 1)]
    {
      var _ := ChangeRef(index, 1);
    }

    /** `write_dec_ref`: true while the value stays; it goes when its last reference does. */
    method WriteDecRef(index: nat) returns (stays: bool)
      requires Valid() && refCounted && index in view.live && |view.live[index].bytes| >= REFS_SIZE
      modifies this`lastRemoved, this`dirtyHeader, this`log, this`view
      ensures Valid() && stays == (Counter(true, old(view.live[index].bytes)) > 1)
      ensures view.live
        == if stays then old(view.live)[index := Recounted(old(view.live[index]), -1)] else old(view.live) - {index}
    {
      stays := ChangeRef(index, -1);
      if !stays {
        WriteRemovePlan(index);
      }
    }
  }

  /** The payload of one slot, the slot that follows, and the compression flag in front. */
  datatype Part = Part(payload: Bytes, next: nat, compressed: bool)

  function ParsePart(buf: Bytes, multipart: bool, entrySize: nat): Part
    requires entrySize >= MIN_ENTRY_SIZE && |buf| == entrySize
  {
    if multipart && IsMulti(buf) then
      Part(buf[SIZE_SIZE + INDEX_SIZE..], FromLE(buf[2..10]), buf[..2] == MULTIHEAD_COMPRESSED)
    else
      var (size, compressed) := ReadSize(buf);
      Part(if SIZE_SIZE + size <= |buf| then buf[SIZE_SIZE..SIZE_SIZE + size] else buf[SIZE_SIZE..], 0, compressed)
  }

  ghost predicate PartReads(p: Part, s: Stored, k: nat, entrySize: nat)
    requires entrySize >= MIN_ENTRY_SIZE
  {
    var at := Start(k, entrySize);
    && at + |p.payload| <= |s.bytes| && p.payload == s.bytes[at..at + |p.payload|]
    && p.next == Link(s.chain, k + 1) && (k == 0 ==> p.compressed == s.compressed)
    && |p.payload| == if k + 1 < |s.chain| then Payload(entrySize) else |s.bytes| - at
  }

  lemma GiveImages(v: View, h: nat, kept: nat)
    requires h in v.live && kept < |v.live[h].chain|
    ensures var w, x := Give(v, h, kept), v.live[h].chain[kept];
      w.images == v.images[x := Tomb(Link(v.free, 0))] && w.filled == v.filled && Link(w.free, 0) == x
      && w.entrySize == v.entrySize && w.multipart == v.multipart
  {
  }

  ghost predicate Untouched(before: map<nat, Bytes>, after: map<nat, Bytes>, s: seq<nat>) {
    forall i :: i in s && i in before ==> i in after && after[i] == before[i]
  }

  ghost predicate Chained(v0: View, v: View, h: nat, chain: seq<nat>)
    requires h in v0.live
  {
    v.live == v0.live[h := v0.live[h].(chain := chain)]
  }

  /** Only the first `kept` slots of the chain of `h` are left, as they were. */
  ghost predicate Cleared(v0: View, v: View, h: nat, kept: nat)
    requires h in v0.live && kept <= |v0.live[h].chain|
  {
    OkBut(v, h) && Chained(v0, v, h, v0.live[h].chain[..kept])
    && Untouched(v0.images, v.images, v0.live[h].chain[..kept])
  }

  /** Slots `kept` to `k` of the chain are freed. */
  ghost predicate Clearing(v0: View, v: View, h: nat, kept: nat, k: nat)
    requires h in v0.live && kept <= k < |v0.live[h].chain|
  {
    var c := v0.live[h].chain;
    && OkBut(v, h) && Chained(v0, v, h, c[..kept] + c[k..]) && Untouched(v0.images, v.images, c[..kept])
    && Linked(v.images, c, k) && (v.multipart || k + 1 == |c|)
  }

  lemma {:induction false} ClearingStart(v: View, h: nat, kept: nat)
    requires OkBut(v, h) && h in v.live && kept < |v.live[h].chain|
    requires Linked(v.images, v.live[h].chain, kept) && (v.multipart || kept + 1 == |v.live[h].chain|)
    ensures Clearing(v, v, h, kept, kept)
  {
    hide OkBut, Linked;
    var c := v.live[h].chain;
    assert c[..kept] + c[kept..] == c;
    assert v.live == v.live[h := v.live[h].(chain := c)];
  }

  lemma {:induction false} ClearingStep(v0: View, v: View, h: nat, kept: nat, k: nat)
    requires h in v0.live && kept <= k < |v0.live[h].chain| && Clearing(v0, v, h, kept, k)
    ensures var c := v0.live[h].chain;
      && OkBut(v, h) && h in v.live && kept < |v.live[h].chain| && v.live[h].chain[kept] == c[k]
      && c[k] in v.images && LinkIs(v.images[c[k]], Link(c, k + 1)) && (v.multipart || Link(c, k + 1) == 0)
      && (k + 1 < |c| <==> Link(c, k + 1) != 0)
      && (k + 1 < |c| ==> Clearing(v0, Give(v, h, kept), h, kept, k + 1))
      && (k + 1 == |c| ==> Cleared(v0, Give(v, h, kept), h, kept))
  {
    hide OkBut, LinkIs;
    var c, d := v0.live[h].chain, v.live[h].chain;
    assert d == c[..kept] + c[k..];
    Distinct(v, h);
    GiveOk(v, h, kept);
    StillLinked(v.images, d, kept, c, k, Tomb(Link(v.free, 0)));
    GiveChained(v0, v, h, kept, k);
    if k + 1 < |c| {
      assert d[kept + 1] == c[k + 1];
    } else {
      assert c[..kept] + c[k + 1..] == c[..kept];
    }
  }

  lemma {:induction false} Distinct(v: View, h: nat)
    requires OkBut(v, h) && h in v.live
    ensures NoDup(v.live[h].chain) && 0 !in v.live[h].chain
  {
    assert Owns(v.owner, v.live[h].chain, h);
  }

  lemma {:induction false} GiveChained(v0: View, v: View, h: nat, kept: nat, k: nat)
    requires h in v0.live && kept <= k < |v0.live[h].chain|
    requires Chained(v0, v, h, v0.live[h].chain[..kept] + v0.live[h].chain[k..])
    ensures Chained(v0, Give(v, h, kept), h, v0.live[h].chain[..kept] + v0.live[h].chain[k + 1..])
  {
    var c, d := v0.live[h].chain, v.live[h].chain;
    assert d[kept + 1..] == c[k + 1..] && d[..kept] == c[..kept];
  }

  /** Freeing one slot of a chain leaves the links after it and the slots before it alone. */
  lemma {:induction false} StillLinked(
      images: map<nat, Bytes>, d: seq<nat>, kept: nat, c: seq<nat>, k: nat, image: Bytes)
    requires NoDup(d) && kept <= k < |c| && d == c[..kept] + c[k..] && Linked(images, c, k)
    ensures var w := images[c[k] := image]; Linked(w, c, k + 1) && Untouched(images, w, c[..kept])
  {
    hide LinkIs;
    assert d[kept] == c[k];
    forall j | k < j < |c|
      ensures c[j] != c[k]
    {
      assert d[kept + j - k] == c[j];
    }
    forall i | i in c[..kept]
      ensures i != c[k]
    {
      var n :| 0 <= n < kept && c[n] == i;
      assert d[n] == i;
    }
  }

  // ----- Rewriting a chain

  /** Slot `k` of the chain of `h` is next to be written, and the slot after it is in place. */
  ghost predicate Planned(v: View, h: nat, k: nat, follow: bool, next: nat, remainder: nat) {
    && OkBut(v, h) && h in v.live && k < |v.live[h].chain| && v.live[h].chain[0] == h
    && (v.multipart || |v.live[h].chain| == 1)
    && Written(v, h, k) && next == Link(v.live[h].chain, k + 1)
    && (if follow then k + 1 < |v.live[h].chain| && Linked(v.images, v.live[h].chain, k + 1)
        else |v.live[h].chain| == k + if remainder > v.entrySize - SIZE_SIZE then 2 else 1)
  }

  lemma {:induction false} FollowLink(v: View, h: nat, k: nat)
    requires Writing(v, h, k, true)
    ensures var c := v.live[h].chain; c[k] in v.images && LinkIs(v.images[c[k]], Link(c, k + 1))
    ensures var c := v.live[h].chain; (k + 1 < |c| <==> Link(c, k + 1) != 0) && (v.multipart || Link(c, k + 1) == 0)
  {
    hide OkBut, LinkIs;
    Distinct(v, h);
    var c := v.live[h].chain;
    assert k + 1 < |c| ==> c[k + 1] in c;
  }

  lemma {:induction false} PlanFollow(v: View, h: nat, k: nat, remainder: nat)
    requires Writing(v, h, k, true) && k + 1 < |v.live[h].chain|
    ensures Planned(v, h, k, true, v.live[h].chain[k + 1], remainder)
  {
    hide OkBut, LinkIs, PartOk;
  }

  lemma {:induction false} PlanLast(v: View, h: nat, k: nat, follow: bool, remainder: nat)
    requires Writing(v, h, k, follow) && k + 1 == |v.live[h].chain| && remainder <= v.entrySize - SIZE_SIZE
    ensures Planned(v, h, k, false, 0, remainder)
  {
    hide OkBut, LinkIs, PartOk;
  }

  lemma {:induction false} TakeChained(v: View, h: nat, k: nat, follow: bool, remainder: nat)
    requires Writing(v, h, k, follow) && k + 1 == |v.live[h].chain| && remainder > v.entrySize - SIZE_SIZE
    requires v.filled < U64_LIMIT && v.multipart
    ensures OkBut(v, h) && Planned(Take(v, h), h, k, false, FreshSlot(v), remainder)
  {
    hide FreeOk, Partition, Owns, ChainOk, LE, Marker;
    TakeOk(v, h);
    hide OkBut, LinkIs;
    var w := Take(v, h);
    assert w.live[h].chain == v.live[h].chain + [FreshSlot(v)];
  }

  ghost function Relabel(v: View, h: nat, bytes: Bytes, compressed: bool): View
    requires h in v.live
  {
    v.(live := v.live[h := Stored(v.live[h].chain, bytes, compressed)])
  }

  ghost function SlotAt(v: View, h: nat, k: nat): nat {
    if h in v.live then Link(v.live[h].chain, k) else 0
  }

  /** Slot `k` of the chain of `h` is next; nothing but that chain differs from `v0`. */
  ghost predicate Round(v0: View, v: View, h: nat, k: nat, follow: bool, bytes: Bytes, compressed: bool) {
    && Writing(v, h, k, follow) && v.live == v0.live[h := Stored(v.live[h].chain, bytes, compressed)]
    && (if follow then h in v0.live && v.live[h].chain == v0.live[h].chain
        else h in v0.live ==> v0.live[h].chain <= v.live[h].chain)
  }

  /** The chain of `h` spells the new bytes, on the old slots as far as they go; all other values are as they were. */
  ghost predicate Overwritten(v0: View, v: View, h: nat, bytes: Bytes, compressed: bool) {
    && Ok(v) && h in v.live && v.live == v0.live[h := Stored(v.live[h].chain, bytes, compressed)]
    && (h in v0.live ==> v.live[h].chain <= v0.live[h].chain || v0.live[h].chain <= v.live[h].chain)
  }

  lemma {:induction false} RelabelOk(v: View, h: nat, bytes: Bytes, compressed: bool)
    requires OkBut(v, h) && h in v.live
    ensures OkBut(Relabel(v, h, bytes, compressed), h)
  {
    var w := Relabel(v, h, bytes, compressed);
    assert forall g :: g in w.live ==> w.live[g].chain == v.live[g].chain;
    assert forall g :: g in w.live && g != h ==> w.live[g] == v.live[g];
  }

  lemma {:induction false} StartOver(v: View, h: nat, bytes: Bytes, compressed: bool)
    requires Ok(v) && h in v.live
    ensures Round(v, Relabel(v, h, bytes, compressed), h, 0, true, bytes, compressed)
  {
    assert OkBut(v, h) && ChainOk(v.images, v.live[h], h, v.entrySize, v.multipart);
    ChainLinks(v, h);
    RelabelOk(v, h, bytes, compressed);
    hide OkBut, Linked;
  }

  /** No live value starts at a fresh slot. */
  lemma {:induction false} FreshTaken(v: View)
    requires Ok(v)
    ensures FreshSlot(v) !in v.live && OkBut(v, FreshSlot(v))
  {
    hide PartOk;
    FreshIsFree(v);
    forall g | g in v.live
      ensures g != FreshSlot(v)
    {
      assert ChainOk(v.images, v.live[g], g, v.entrySize, v.multipart);
      assert v.live[g].chain[0] in v.live[g].chain;
    }
  }

  lemma {:induction false} TakeFresh(v: View, x: nat)
    requires x == FreshSlot(v) && x !in v.live
    ensures var w := Take(v, x);
      w.live == v.live[x := Stored([x], [], false)] && w.entrySize == v.entrySize && w.multipart == v.multipart
      && w.filled <= v.filled + 1
  {
  }

  lemma {:induction false} StartFresh(v: View, bytes: Bytes, compressed: bool)
    requires Ok(v) && v.filled < U64_LIMIT
    ensures var x := FreshSlot(v);
      OkBut(v, x) && x !in v.live && Round(v, Relabel(Take(v, x), x, bytes, compressed), x, 0, false, bytes, compressed)
  {
    hide OkBut, Linked, Take, FreshSlot;
    var x := FreshSlot(v);
    FreshTaken(v);
    TakeOk(v, x);
    TakeFresh(v, x);
    RelabelOk(Take(v, x), x, bytes, compressed);
    var w := Relabel(Take(v, x), x, bytes, compressed);
    assert w.live == v.live[x := Stored([x], bytes, compressed)];
    OkSizes(v, x);
  }

  lemma OkSizes(v: View, h: nat)
    requires OkBut(v, h)
    ensures Sizes(v.entrySize, v.multipart)
  {
  }

  /** What one slot takes from the value is the next stretch of the stored bytes. */
  lemma {:induction false} PieceIs(front: Bytes, head: Bytes, value: Bytes, at: nat, offset: nat, len: nat)
    requires at + len <= |head| + |value| && offset == (if at == 0 then 0 else at - |head|)
    requires (at == 0 ==> len >= |head|) && (at > 0 ==> at > |head|)
    ensures var image := front + (if offset == 0 then head else [])
      + value[offset..offset + len - if offset == 0 then |head| else 0];
      image == front + (head + value)[at..at + len]
      && (at + len == |head| + |value| ==> image == front + (head + value)[at..])
  {
    var bytes := head + value;
    if at == 0 {
      assert bytes[..len] == head + value[..len - |head|];
    } else {
      assert bytes[at..at + len] == value[offset..offset + len];
    }
  }

  ghost predicate RoundPlanned(
      v0: View, v: View, h: nat, k: nat, follow: bool, next: nat, remainder: nat, bytes: Bytes, compressed: bool) {
    && Planned(v, h, k, follow, next, remainder) && v.live == v0.live[h := Stored(v.live[h].chain, bytes, compressed)]
    && (if follow then h in v0.live && v.live[h].chain == v0.live[h].chain
        else h in v0.live ==> v0.live[h].chain <= v.live[h].chain)
    && Start(k, v.entrySize) + remainder == |bytes|
  }

  lemma {:induction false} PlannedRound(
      v0: View, v: View, v1: View, h: nat, k: nat, follow: bool, follow': bool, next: nat, remainder: nat,
      bytes: Bytes, compressed: bool)
    requires Round(v0, v, h, k, follow, bytes, compressed) && Sizes(v.entrySize, v.multipart)
    requires Start(k, v.entrySize) + remainder == |bytes|
    requires v1 == (if remainder > v.entrySize - SIZE_SIZE && !follow' then Take(v, h) else v) && (follow' ==> follow)
    requires Planned(v1, h, k, follow', next, remainder)
    ensures RoundPlanned(v0, v1, h, k, follow', next, remainder, bytes, compressed)
    ensures SlotAt(v1, h, k) == SlotAt(v, h, k)
  {
    hide OkBut, Linked, Written, FreshSlot;
    assert h in v.live;
    if v1 != v {
      assert v1.live == v.live[h := Stored(v.live[h].chain + [FreshSlot(v)], bytes, compressed)];
    }
  }

  lemma HeadNotZero(v: View, h: nat)
    requires Ok(v) && h in v.live
    ensures h != 0
  {
  }

  lemma InTable(v: View, h: nat, k: nat)
    requires OkBut(v, h) && h in v.live && k < |v.live[h].chain|
    ensures 1 <= v.live[h].chain[k] < v.filled
  {
    hide FreeOk, ChainOk;
    assert v.live[h].chain[k] in v.live[h].chain;
  }

  lemma {:induction false} RoundWriting(v0: View, v: View, h: nat, k: nat, follow: bool, bytes: Bytes, compressed: bool)
    requires Round(v0, v, h, k, follow, bytes, compressed)
    ensures Writing(v, h, k, follow) && SlotAt(v, h, k) == v.live[h].chain[k] != 0 && 1 <= v.filled <= U64_LIMIT
  {
    hide Linked, Written, ChainOk;
    Distinct(v, h);
    assert v.live[h].chain[k] in v.live[h].chain;
  }

  /** Writing slot `k` keeps the slots before it and the links after it. */
  lemma {:induction false} SlotWritten(v: View, h: nat, k: nat, image: Bytes)
    requires OkBut(v, h) && h in v.live && k < |v.live[h].chain| && Written(v, h, k)
    ensures var w := v.(images := v.images[v.live[h].chain[k] := image]);
      OkBut(w, h) && Written(w, h, k)
      && (Linked(v.images, v.live[h].chain, k + 1) ==> Linked(w.images, v.live[h].chain, k + 1))
  {
    var c := v.live[h].chain;
    WriteOk(v, h, c[k], image);
    Distinct(v, h);
    OkSizes(v, h);
    hide OkBut, PartOk, LinkIs;
  }

  lemma {:induction false} RoundMore(
      v0: View, v: View, w: View, h: nat, k: nat, follow: bool, next: nat, remainder: nat, bytes: Bytes,
      compressed: bool)
    requires RoundPlanned(v0, v, h, k, follow, next, remainder, bytes, compressed)
    requires remainder > v.entrySize - SIZE_SIZE
    requires var at := Start(k, v.entrySize);
      w
      == v.(images := v.images[v.live[h].chain[k] := Marker(k == 0, compressed) + LE(next, INDEX_SIZE)
      + bytes[at..at + Payload(v.entrySize)]])
    ensures Round(v0, w, h, k + 1, follow, bytes, compressed) && next == SlotAt(w, h, k + 1)
  {
    hide OkBut, Linked, FreeOk, Partition, Owns, ChainOk, LE, Marker;
    var c := v.live[h].chain;
    SlotWritten(v, h, k, w.images[c[k]]);
    OkSizes(v, h);
    assert PartOk(w.images[c[k]], w.live[h], k, w.entrySize);
  }

  /** Ready to free the slots after the last one, if there are any. */
  ghost predicate LastWritten(v0: View, v: View, h: nat, k: nat, bytes: Bytes, compressed: bool) {
    && OkBut(v, h) && h in v.live && k < |v.live[h].chain|
      && v.live == v0.live[h := Stored(v.live[h].chain, bytes, compressed)]
    && ChainOk(v.images, Stored(v.live[h].chain[..k + 1], bytes, compressed), h, v.entrySize, v.multipart)
  }

  lemma {:induction false} RoundLast(
      v0: View, v: View, w: View, h: nat, k: nat, follow: bool, next: nat, remainder: nat, bytes: Bytes,
      compressed: bool)
    requires RoundPlanned(v0, v, h, k, follow, next, remainder, bytes, compressed)
    requires remainder <= v.entrySize - SIZE_SIZE
    requires w
      == v.(images := v.images[v.live[h].chain[k] := SizeWord(remainder, compressed) + bytes[Start(k, v.entrySize)..]])
    ensures next == 0 ==> Overwritten(v0, w, h, bytes, compressed)
    ensures next != 0 ==>
      LastWritten(v0, w, h, k, bytes, compressed) && h in v0.live && v0.live[h].chain == w.live[h].chain
    ensures next != 0 ==>
      k + 1 < |w.live[h].chain| && next == w.live[h].chain[k + 1] && Linked(w.images, w.live[h].chain, k + 1)
      && w.multipart
  {
    hide OkBut, Linked, ChainOk;
    var c := v.live[h].chain;
    SlotWritten(v, h, k, w.images[c[k]]);
    LastPartOk(w, h, k, remainder, bytes, compressed);
    Distinct(v, h);
    if k + 1 < |c| {
      assert c[k + 1] in c;
    } else {
      assert c[..k + 1] == c;
      Settled(w, h);
    }
  }

  lemma {:induction false} LastPartOk(w: View, h: nat, k: nat, remainder: nat, bytes: Bytes, compressed: bool)
    requires OkBut(w, h) && h in w.live && k < |w.live[h].chain| && w.live[h].chain[0] == h
    requires (w.multipart || |w.live[h].chain| == 1)
    requires Written(w, h, k) && w.live[h].bytes == bytes && w.live[h].compressed == compressed
    requires w.live[h].chain[k] in w.images
    requires Start(k, w.entrySize) + remainder == |bytes| && remainder <= w.entrySize - SIZE_SIZE
    requires w.images[w.live[h].chain[k]] == SizeWord(remainder, compressed) + bytes[Start(k, w.entrySize)..]
    ensures ChainOk(w.images, Stored(w.live[h].chain[..k + 1], bytes, compressed), h, w.entrySize, w.multipart)
  {
    hide OkBut, ChainOk;
    OkSizes(w, h);
    var c := w.live[h].chain;
    assert PartOk(w.images[c[k]], Stored(c[..k + 1], bytes, compressed), k, w.entrySize);
    hide PartOk;
    LastChainOk(w.images, w.live[h], h, k, w.entrySize, w.multipart);
  }

  lemma {:induction false} LastChainOk(
      images: map<nat, Bytes>, s: Stored, h: nat, k: nat, entrySize: nat, multipart: bool)
    requires MIN_ENTRY_SIZE <= entrySize <= MAX_ENTRY_SIZE && k < |s.chain| && s.chain[0] == h
    requires (multipart || |s.chain| == 1)
    requires forall j :: 0 <= j < k ==> s.chain[j] in images && PartOk(images[s.chain[j]], s, j, entrySize)
    requires s.chain[k] in images
    requires PartOk(images[s.chain[k]], Stored(s.chain[..k + 1], s.bytes, s.compressed), k, entrySize)
    ensures ChainOk(images, Stored(s.chain[..k + 1], s.bytes, s.compressed), h, entrySize, multipart)
  {
    hide PartOk;
    var t := Stored(s.chain[..k + 1], s.bytes, s.compressed);
    forall j | 0 <= j < |t.chain|
      ensures t.chain[j] in images && PartOk(images[t.chain[j]], t, j, entrySize)
    {
      if j < k {
        PartTruncated(images[s.chain[j]], s, k, j, entrySize);
      }
    }
  }

  lemma {:induction false} PartTruncated(image: Bytes, s: Stored, k: nat, j: nat, entrySize: nat)
    requires MIN_ENTRY_SIZE <= entrySize <= MAX_ENTRY_SIZE && j < k < |s.chain| && PartOk(image, s, j, entrySize)
    ensures PartOk(image, Stored(s.chain[..k + 1], s.bytes, s.compressed), j, entrySize)
  {
  }

  lemma LastIsOk(v0: View, v: View, h: nat, k: nat, bytes: Bytes, compressed: bool)
    requires LastWritten(v0, v, h, k, bytes, compressed)
    ensures OkBut(v, h)
  {
  }

  lemma {:induction false} RoundCleared(v0: View, v: View, w: View, h: nat, k: nat, bytes: Bytes, compressed: bool)
    requires LastWritten(v0, v, h, k, bytes, compressed) && Cleared(v, w, h, k + 1)
    requires w.entrySize == v.entrySize && w.multipart == v.multipart && h in v0.live
    requires v0.live[h].chain == v.live[h].chain
    ensures Overwritten(v0, w, h, bytes, compressed)
  {
    hide OkBut, PartOk;
    var s := Stored(v.live[h].chain[..k + 1], bytes, compressed);
    assert w.live[h] == s;
    OkSizes(v, h);
    forall j | 0 <= j < |s.chain|
      ensures s.chain[j] in w.images && PartOk(w.images[s.chain[j]], s, j, w.entrySize)
    {
      assert s.chain[j] in s.chain;
    }
    Settled(w, h);
  }

  lemma {:induction false} LiveChain(v: View, h: nat)
    requires Ok(v) && h in v.live
    ensures OkBut(v, h) && |v.live[h].chain| > 0 && v.live[h].chain[0] == h && (v.multipart || |v.live[h].chain| == 1)
  {
    assert ChainOk(v.images, v.live[h], h, v.entrySize, v.multipart);
  }

  lemma {:induction false} OneGiven(v: View, h: nat)
    requires OkBut(v, h) && h in v.live && |v.live[h].chain| == 1
    ensures Cleared(v, Give(v, h, 0), h, 0)
  {
    GiveOk(v, h, 0);
    hide OkBut;
    var c := v.live[h].chain;
    assert c[..0] + c[1..] == c[..0];
  }

  lemma {:induction false} AllCleared(v: View, w: View, h: nat)
    requires h in v.live && Cleared(v, w, h, 0)
    ensures h in w.live && Ok(w.(live := w.live - {h})) && w.live - {h} == v.live - {h}
  {
    hide OkBut;
    Dropped(w, h);
  }

  lemma {:induction false} HeaderImage(v: View, image: Bytes)
    requires Ok(v)
    ensures Ok(v.(images := v.images[0 := image]))
  {
    hide PartOk, NoDup, LE, Start;
    forall h | h in v.live
      ensures 0 !in v.live[h].chain && ChainOk(v.images[0 := image], v.live[h], h, v.entrySize, v.multipart)
    {
      assert ChainOk(v.images, v.live[h], h, v.entrySize, v.multipart);
      assert Owns(v.owner, v.live[h].chain, h);
      assert forall k :: 0 <= k < |v.live[h].chain| ==> v.live[h].chain[k] in v.live[h].chain;
    }
    assert 0 !in v.free;
    assert forall i :: 0 <= i < |v.free| ==> v.free[i] in v.free;
  }

  lemma LinksFit(v: View)
    requires Ok(v)
    ensures Link(v.free, 0) < U64_LIMIT && 1 <= v.filled
  {
    hide FreeOk, ChainOk;
    assert v.free != [] ==> v.free[0] in v.free;
  }

  lemma {:induction false} HeaderReads(slot: Bytes, lastRemoved: nat, filled: nat)
    requires lastRemoved < U64_LIMIT && filled < U64_LIMIT && Header(lastRemoved, filled) <= slot
    ensures FromLE(slot[..INDEX_SIZE]) == lastRemoved && FromLE(slot[INDEX_SIZE..HEADER_SIZE]) == filled
  {
    assert slot[..HEADER_SIZE] == Header(lastRemoved, filled);
    assert slot[..INDEX_SIZE] == slot[..HEADER_SIZE][..INDEX_SIZE] == LE(lastRemoved, INDEX_SIZE);
    assert slot[INDEX_SIZE..HEADER_SIZE] == slot[..HEADER_SIZE][INDEX_SIZE..] == LE(filled, INDEX_SIZE);
    U64RoundTrip(lastRemoved);
    U64RoundTrip(filled);
  }

  /** What the image of any slot in use starts with. */
  lemma {:induction false} SlotImage(v: View, index: nat, h: nat, k: nat)
    requires Ok(v) && index in v.owner && h == v.owner[index]
    requires h != 0 ==> h in v.live && k < |v.live[h].chain| && v.live[h].chain[k] == index
    ensures index in v.images && 2 <= |v.images[index]| <= v.entrySize
    ensures h == 0 ==> IsTombstone(v.images[index])
    ensures h != 0 ==> PartOk(v.images[index], v.live[h], k, v.entrySize) && !IsTombstone(v.images[index])
    ensures h != 0 ==> LinkIs(v.images[index], Link(v.live[h].chain, k + 1)) && (v.multipart || |v.live[h].chain| == 1)
    ensures h != 0 && k + 1 < |v.live[h].chain| ==> v.live[h].chain[k + 1] != 0
  {
    if h == 0 {
      assert index in v.free;
      var i :| 0 <= i < |v.free| && v.free[i] == index;
      assert v.images[v.free[i]][..2] == TOMBSTONE;
    } else {
      assert ChainOk(v.images, v.live[h], h, v.entrySize, v.multipart);
      InRange(v, h, if k + 1 < |v.live[h].chain| then k + 1 else k);
      PartLinks(v.images[index], v.live[h], k, v.entrySize);
    }
  }

  lemma SameFront(buf: Bytes, image: Bytes)
    requires 2 <= |image| <= |buf| && (|buf| == |image| ==> buf == image) && image <= buf
    ensures buf[..2] == image[..2]
  {
  }

  lemma {:induction false} LinkedParsed(buf: Bytes, image: Bytes, s: Stored, k: nat, entrySize: nat)
    requires MIN_ENTRY_SIZE <= entrySize <= MAX_ENTRY_SIZE && k + 1 < |s.chain| && |buf| == entrySize && image <= buf
    requires PartOk(image, s, k, entrySize) && LinkIs(image, s.chain[k + 1]) && s.chain[k + 1] != 0
    ensures !IsTombstone(buf) && (IsMultihead(buf) <==> k == 0)
    ensures PartReads(ParsePart(buf, true, entrySize), s, k, entrySize)
  {
    var at, m := Start(k, entrySize), Marker(k == 0, s.compressed);
    assert buf == image && image[..2] == m;
    assert buf[10..] == s.bytes[at..at + Payload(entrySize)];
  }

  lemma {:induction false} LastParsed(buf: Bytes, image: Bytes, s: Stored, k: nat, entrySize: nat, multipart: bool)
    requires MIN_ENTRY_SIZE <= entrySize <= MAX_ENTRY_SIZE && k + 1 == |s.chain| && |buf| == entrySize && image <= buf
    requires PartOk(image, s, k, entrySize)
    ensures !IsTombstone(buf) && !IsMultihead(buf) && PartReads(ParsePart(buf, multipart, entrySize), s, k, entrySize)
  {
    var at := Start(k, entrySize);
    var size := |s.bytes| - at;
    SizeWordReads(size, s.compressed, s.bytes[at..]);
    assert buf[..2] == image[..2];
    assert buf[2..2 + size] == image[2..] == s.bytes[at..];
  }

  lemma {:induction false} PartParsed(buf: Bytes, image: Bytes, s: Stored, k: nat, entrySize: nat, multipart: bool)
    requires MIN_ENTRY_SIZE <= entrySize <= MAX_ENTRY_SIZE && k < |s.chain| && |buf| == entrySize && image <= buf
    requires PartOk(image, s, k, entrySize) && LinkIs(image, Link(s.chain, k + 1))
    requires (k + 1 < |s.chain| ==> s.chain[k + 1] != 0) && (multipart || |s.chain| == 1)
    ensures !IsTombstone(buf) && (IsMultihead(buf) <==> k == 0 && |s.chain| > 1)
    ensures PartReads(ParsePart(buf, multipart, entrySize), s, k, entrySize)
  {
    hide PartOk, LinkIs, PartReads, ParsePart, IsMultihead, IsTombstone;
    if k + 1 < |s.chain| {
      LinkedParsed(buf, image, s, k, entrySize);
    } else {
      LastParsed(buf, image, s, k, entrySize, multipart);
    }
  }

  /** The bytes of a value up to `to` are read, and its key agrees. */
  ghost predicate Gathered(
      refCounted: bool, s: Stored, key: TableKey, to: nat, result: Bytes, compressed: bool, rc: nat)
    requires KeyOk(key)
  {
    var r, n := if refCounted then REFS_SIZE else 0, HeadSize(refCounted, key);
    && n <= to <= |s.bytes| && result == s.bytes[n..to] && s.bytes[r..n] == KeyBytes(key)
    && compressed == s.compressed && rc == Counter(refCounted, s.bytes)
  }

  /** The chain a slot belongs to and its place there. */
  lemma {:induction false} Place(v: View, index: nat) returns (h: nat, k: nat)
    requires Ok(v) && index in v.owner
    ensures h == v.owner[index]
    ensures (h != 0 ==> h in v.live && k < |v.live[h].chain| && v.live[h].chain[k] == index && (v.multipart || k == 0))
    ensures index != 0 && (index in v.live <==> h == index) && (h != 0 ==> (k == 0 <==> h == index))
  {
    h, k := v.owner[index], 0;
    if h != 0 {
      assert Owns(v.owner, v.live[h].chain, h);
      assert index in v.live[h].chain;
      k :| 0 <= k < |v.live[h].chain| && v.live[h].chain[k] == index;
      LiveChain(v, h);
    }
    if index in v.live {
      LiveChain(v, index);
      assert v.live[index].chain[0] in v.live[index].chain;
    }
  }

  lemma {:induction false} FirstPart(
      refCounted: bool, s: Stored, key: TableKey, p: Part, entrySize: nat, multipart: bool)
    requires KeyOk(key) && |s.bytes| >= HeadSize(refCounted, key) && Sizes(entrySize, multipart)
    requires (multipart || |s.chain| == 1) && |s.chain| > 0
    requires PartReads(p, s, 0, entrySize)
    ensures var r, n := if refCounted then REFS_SIZE else 0, HeadSize(refCounted, key);
      && |p.payload| >= n && s.bytes[r..n] == p.payload[r..n]
        && Counter(refCounted, p.payload) == Counter(refCounted, s.bytes) && p.compressed == s.compressed
      && (s.bytes[r..n] != KeyBytes(key) ==> Answer(refCounted, s, key) == None)
      && (s.bytes[r..n] == KeyBytes(key) ==>
        Gathered(refCounted, s, key, |p.payload|, p.payload[n..], p.compressed, Counter(refCounted, s.bytes)))
  {
    var r, n := if refCounted then REFS_SIZE else 0, HeadSize(refCounted, key);
    NextStart(0, entrySize);
    assert p.payload == s.bytes[..|p.payload|];
    assert |p.payload| >= n;
    assert refCounted ==> p.payload[..REFS_SIZE] == s.bytes[..REFS_SIZE];
    assert p.payload[n..] == s.bytes[n..|p.payload|] && p.payload[r..n] == s.bytes[r..n];
  }

  lemma {:induction false} LaterPart(
      refCounted: bool, s: Stored, key: TableKey, p: Part, k: nat, entrySize: nat, result: Bytes, compressed: bool,
      rc: nat)
    requires KeyOk(key) && entrySize >= MIN_ENTRY_SIZE && PartReads(p, s, k, entrySize)
    requires Gathered(refCounted, s, key, Start(k, entrySize), result, compressed, rc)
    ensures Gathered(refCounted, s, key, Start(k, entrySize) + |p.payload|, result + p.payload, compressed, rc)
  {
  }

  lemma {:induction false} NextPlace(v: View, h: nat, k: nat, p: Part, entrySize: nat)
    requires Ok(v) && h in v.live && k < |v.live[h].chain| && entrySize >= MIN_ENTRY_SIZE
    requires PartReads(p, v.live[h], k, entrySize)
    ensures p.next == 0 <==> k + 1 == |v.live[h].chain|
    ensures p.next == 0 ==> Start(k, entrySize) + |p.payload| == |v.live[h].bytes|
    ensures p.next != 0 ==>
      p.next == v.live[h].chain[k + 1] && p.next in v.owner && v.owner[p.next] == h
      && Start(k + 1, entrySize) == Start(k, entrySize) + |p.payload|
  {
    NextStart(k, entrySize);
    if k + 1 < |v.live[h].chain| {
      InRange(v, h, k + 1);
      assert Owns(v.owner, v.live[h].chain, h);
      assert v.live[h].chain[k + 1] in v.live[h].chain;
    }
  }

  lemma {:induction false} GatheredAll(
      refCounted: bool, s: Stored, key: TableKey, result: Bytes, compressed: bool, rc: nat)
    requires KeyOk(key) && Gathered(refCounted, s, key, |s.bytes|, result, compressed, rc)
    ensures Answer(refCounted, s, key) == if rc > 0 then Some((result, compressed, rc)) else None
  {
    assert result == s.bytes[HeadSize(refCounted, key)..];
  }

  // ----- Counters

  /** A counter moved by `delta`: stuck at the top, gone at the bottom. */
  function Bumped(counter: nat, delta: int): Option<nat> {
    if delta > 0 then Some(if counter >= LOCKED_REF - delta then LOCKED_REF else counter + delta)
    else if counter == LOCKED_REF then Some(counter)
    else if counter <= -delta then None
    else Some(counter + delta)
  }

  ghost function Recounted(s: Stored, delta: int): Stored
    requires |s.bytes| >= REFS_SIZE
  {
    var c := Bumped(Counter(true, s.bytes), delta);
    if c.None? then s else s.(bytes := LE(c.value, REFS_SIZE) + s.bytes[REFS_SIZE..])
  }

  /** Where the counter of a value lies in the image of its first slot. */
  ghost predicate HeadAt(buf: Bytes, image: Bytes, s: Stored, entrySize: nat, offset: nat, size: nat)
    requires |s.bytes| >= REFS_SIZE
  {
    && |image| == size <= |buf| && offset + REFS_SIZE <= size && image == buf[..size]
    && offset == (if |s.chain| > 1 then SIZE_SIZE + INDEX_SIZE else SIZE_SIZE)
    && buf[offset..offset + REFS_SIZE] == s.bytes[..REFS_SIZE]
    && size - offset <= |s.bytes| && image[offset..] == s.bytes[..size - offset]
  }

  lemma {:induction false} HeadParsed(v: View, h: nat, buf: Bytes)
    requires Ok(v) && h in v.live && |v.live[h].bytes| >= REFS_SIZE && h in v.images
    requires |v.images[h]| <= |buf| == v.entrySize && v.images[h] <= buf
    ensures !IsTombstone(buf) && (v.multipart ==> (IsMulti(buf) <==> |v.live[h].chain| > 1))
    ensures (!v.multipart ==> |v.live[h].chain| == 1)
    ensures var multi := v.multipart && IsMulti(buf);
      HeadAt(buf, v.images[h], v.live[h], v.entrySize, if multi then SIZE_SIZE + INDEX_SIZE else SIZE_SIZE,
      if multi then v.entrySize else SIZE_SIZE + ReadSize(buf).0)
  {
    hide OkBut, ChainOk, LE, FromLE, PartOk;
    var s, image := v.live[h], v.images[h];
    HeadPart(v, h);
    HeadImage(image, s, v.entrySize);
    assert image == buf[..|image|];
    assert buf[..2] == image[..2];
    var o := if |s.chain| > 1 then SIZE_SIZE + INDEX_SIZE else SIZE_SIZE;
    if |s.chain| == 1 {
      SizeWordReads(|s.bytes|, s.compressed, s.bytes);
      assert ReadSize(buf) == ReadSize(image);
    }
    assert image[o..] == s.bytes[..|image| - o];
    assert buf[o..o + REFS_SIZE] == image[o..][..REFS_SIZE] == s.bytes[..REFS_SIZE];
  }

  lemma {:induction false} HeadPart(v: View, h: nat)
    requires Ok(v) && h in v.live && h in v.images
    ensures Sizes(v.entrySize, v.multipart) && |v.live[h].chain| > 0 && (!v.multipart ==> |v.live[h].chain| == 1)
    ensures PartOk(v.images[h], v.live[h], 0, v.entrySize)
  {
    hide FreeOk, Owns;
    LiveChain(v, h);
    assert ChainOk(v.images, v.live[h], h, v.entrySize, v.multipart);
  }

  /** The first image of a chain: its front, and the bytes behind that. */
  lemma {:induction false} HeadImage(image: Bytes, s: Stored, entrySize: nat)
    requires MIN_ENTRY_SIZE <= entrySize <= MAX_ENTRY_SIZE && |s.chain| > 0 && PartOk(image, s, 0, entrySize)
    ensures if |s.chain| > 1 then
        && |s.bytes| > entrySize - SIZE_SIZE && |image| == entrySize
        && image[..2] == Marker(true, s.compressed) && image[10..] == s.bytes[..Payload(entrySize)]
      else
        && |s.bytes| <= entrySize - SIZE_SIZE && image[2..] == s.bytes
        && image == SizeWord(|s.bytes|, s.compressed) + s.bytes
  {
    hide LE;
    NextStart(0, entrySize);
  }

  lemma {:induction false} RecountedIs(s: Stored, delta: int, c: nat)
    requires |s.bytes| >= REFS_SIZE && Bumped(Counter(true, s.bytes), delta) == Some(c)
    ensures Recounted(s, delta) == s.(bytes := LE(c, REFS_SIZE) + s.bytes[REFS_SIZE..])
  {
  }

  /** New counter bytes in the first slot leave every slice behind them alone. */
  lemma {:induction false} RecountPart(image: Bytes, s: Stored, t: Stored, k: nat, entrySize: nat)
    requires MIN_ENTRY_SIZE <= entrySize <= MAX_ENTRY_SIZE && 0 < k < |s.chain| && PartOk(image, s, k, entrySize)
    requires t.chain == s.chain && t.compressed == s.compressed && |t.bytes| == |s.bytes| >= REFS_SIZE
    requires t.bytes[REFS_SIZE..] == s.bytes[REFS_SIZE..]
    ensures PartOk(image, t, k, entrySize)
  {
    var at := Start(k, entrySize);
    StartPast(k, entrySize);
    hide Start;
    SameAfter(s.bytes, t.bytes, REFS_SIZE, at, |s.bytes|);
    assert t.bytes[at..] == t.bytes[at..|s.bytes|] && s.bytes[at..] == s.bytes[at..|s.bytes|];
    if k + 1 < |s.chain| {
      SameAfter(s.bytes, t.bytes, REFS_SIZE, at, at + Payload(entrySize));
    }
  }

  lemma StartPast(k: nat, entrySize: nat)
    requires k > 0 && entrySize >= MIN_ENTRY_SIZE
    ensures Start(k, entrySize) >= Payload(entrySize)
  {
    assert Start(k, entrySize) == Payload(entrySize) + (k - 1) * Payload(entrySize);
  }

  lemma SameAfter(a: Bytes, b: Bytes, n: nat, i: nat, j: nat)
    requires n <= i <= j <= |a| == |b| && a[n..] == b[n..]
    ensures a[i..j] == b[i..j]
  {
    forall m | i <= m < j
      ensures a[m] == b[m]
    {
      assert a[n..][m - n] == b[n..][m - n];
    }
  }

  lemma {:induction false} OwnerOf(v: View, index: nat) returns (h: nat)
    requires Ok(v) && (index in v.free || index in v.live)
    ensures index in v.owner && v.owner[index] == h && (index in v.free ==> h == 0)
    ensures (index in v.live ==> h == index != 0 && |v.live[h].chain| > 0 && v.live[h].chain[0] == h)
    ensures h != 0 ==> index in v.live
  {
    if index in v.live {
      var k;
      LiveChain(v, index);
      assert Owns(v.owner, v.live[index].chain, index);
      assert v.live[index].chain[0] in v.live[index].chain;
      h, k := Place(v, index);
    } else {
      h := 0;
    }
  }

  /** Four bytes replaced in an image are the four bytes replaced in what it spells. */
  lemma {:induction false} Spliced(buf: Bytes, image: Bytes, bytes: Bytes, offset: nat, size: nat, four: Bytes)
    requires |four| == REFS_SIZE <= |bytes| && offset + REFS_SIZE <= size <= |buf| && size - offset <= |bytes|
    requires image == buf[..size] && image[offset..] == bytes[..size - offset]
    ensures buf[..offset] + four + buf[offset + REFS_SIZE..size]
      == image[..offset] + (four + bytes[REFS_SIZE..])[..size - offset]
  {
    assert buf[..offset] == image[..offset];
    assert buf[offset + REFS_SIZE..size] == image[offset..][REFS_SIZE..] == bytes[REFS_SIZE..size - offset];
    assert (four + bytes[REFS_SIZE..])[..size - offset] == four + bytes[REFS_SIZE..size - offset];
  }

  lemma {:induction false} RecountHead(
      image: Bytes, image': Bytes, s: Stored, t: Stored, entrySize: nat, offset: nat, size: nat)
    requires MIN_ENTRY_SIZE <= entrySize <= MAX_ENTRY_SIZE && 0 < |s.chain| && PartOk(image, s, 0, entrySize)
    requires |s.bytes| >= REFS_SIZE
    requires t.chain == s.chain && t.compressed == s.compressed && |t.bytes| == |s.bytes| && |image| == size
    requires offset == (if |s.chain| > 1 then SIZE_SIZE + INDEX_SIZE else SIZE_SIZE) && offset <= size
    requires size - offset <= |s.bytes|
    requires image' == image[..offset] + t.bytes[..size - offset]
    ensures PartOk(image', t, 0, entrySize)
  {
    assert Start(0, entrySize) == 0;
    if |s.chain| > 1 {
      assert image[..10] == Marker(true, s.compressed) + LE(s.chain[1], INDEX_SIZE);
      assert t.bytes[..size - offset] == t.bytes[0..Payload(entrySize)];
    } else {
      assert image[..2] == SizeWord(|s.bytes|, s.compressed);
      assert t.bytes[..size - offset] == t.bytes[0..];
    }
  }

  lemma {:induction false} RecountWritten(v: View, h: nat, buf: Bytes, offset: nat, size: nat, c: nat, image: Bytes)
    requires Ok(v) && h in v.live && h in v.images && |v.live[h].bytes| >= REFS_SIZE
    requires Sizes(v.entrySize, v.multipart) && HeadAt(buf, v.images[h], v.live[h], v.entrySize, offset, size)
    requires image == buf[..offset] + LE(c, REFS_SIZE) + buf[offset + REFS_SIZE..size]
    ensures var t := v.live[h].(bytes := LE(c, REFS_SIZE) + v.live[h].bytes[REFS_SIZE..]);
      Ok(v.(images := v.images[h := image], live := v.live[h := t]))
  {
    hide FreeOk, Owns, LE, PartOk;
    var s := v.live[h];
    var t := s.(bytes := LE(c, REFS_SIZE) + s.bytes[REFS_SIZE..]);
    var u := v.(images := v.images[h := image]);
    var w := u.(live := u.live[h := t]);
    LiveChain(v, h);
    assert ChainOk(v.images, s, h, v.entrySize, v.multipart);
    Distinct(v, h);
    WriteOk(v, h, h, image);
    RelabelOk(u, h, t.bytes, t.compressed);
    assert w == Relabel(u, h, t.bytes, t.compressed);
    hide OkBut, PartOk;
    forall k | 0 <= k < |t.chain|
      ensures t.chain[k] in w.images && PartOk(w.images[t.chain[k]], t, k, w.entrySize)
    {
      if k == 0 {
        Spliced(buf, v.images[h], s.bytes, offset, size, LE(c, REFS_SIZE));
        RecountHead(v.images[h], image, s, t, v.entrySize, offset, size);
      } else {
        RecountPart(v.images[s.chain[k]], s, t, k, v.entrySize);
      }
    }
    Settled(w, h);
  }

  // ----- What a table promises

  /** A value is spread over several slots exactly when it does not fit one. */
  lemma {:induction false} SeveralSlots(v: View, h: nat)
    requires Ok(v) && h in v.live
    ensures |v.live[h].chain| > 1 <==> |v.live[h].bytes| > v.entrySize - SIZE_SIZE
  {
    assert ChainOk(v.images, v.live[h], h, v.entrySize, v.multipart);
    assert PartOk(v.images[h], v.live[h], 0, v.entrySize);
    NextStart(0, v.entrySize);
  }

  /** A value that was just written answers its key with itself, and no other value answers differently. */
  lemma {:induction false} WrittenAnswers(
      refCounted: bool, v0: View, v: View, h: nat, key: TableKey, value: Bytes, compressed: bool)
    requires KeyOk(key) && Overwritten(v0, v, h, Head(refCounted, key) + value, compressed)
    ensures |v.live[h].bytes| >= HeadSize(refCounted, key)
    ensures Answer(refCounted, v.live[h], key) == Some((value, compressed, 1))
    ensures key.Partial? ==> forall k :: |k| == 32 ==>
      Answer(refCounted, v.live[h], Partial(k)) == if k[6..] == key.key[6..] then Some((value, compressed, 1)) else None
    ensures forall g :: g in v0.live && g != h ==> g in v.live && v.live[g] == v0.live[g]
  {
    hide FreeOk, Partition, Owns, ChainOk, OkBut, PartOk, FromLE;
    var b, n := v.live[h].bytes, HeadSize(refCounted, key);
    var r := if refCounted then REFS_SIZE else 0;
    assert b[..n] == Head(refCounted, key) && b[n..] == value;
    assert b[r..n] == Head(refCounted, key)[r..] == KeyBytes(key);
    if refCounted {
      assert b[..REFS_SIZE] == LE(1, REFS_SIZE);
      U32RoundTrip(1);
    }
  }

  lemma {:induction false} PartDelimits(index: nat, image: Bytes, s: Stored, k: nat, entrySize: nat, multipart: bool)
    requires MIN_ENTRY_SIZE <= entrySize <= MAX_ENTRY_SIZE && k < |s.chain| && PartOk(image, s, k, entrySize)
    requires (multipart || |s.chain| == 1)
    requires index != 0 && LinkIs(image, Link(s.chain, k + 1)) && (k + 1 < |s.chain| ==> s.chain[k + 1] != 0)
    requires !IsTombstone(image)
    ensures SelfDelimiting(index, image, multipart, entrySize)
  {
    if k + 1 == |s.chain| {
      var at := Start(k, entrySize);
      SizeWordReads(|s.bytes| - at, s.compressed, s.bytes[at..]);
    }
  }

  lemma {:induction false} FreeDelimits(v: View, index: nat)
    requires Ok(v) && index in v.free
    ensures index in v.images && SelfDelimiting(index, v.images[index], v.multipart, v.entrySize)
  {
    var i :| 0 <= i < |v.free| && v.free[i] == index;
    var image := v.images[v.free[i]];
    assert image[..2] == TOMBSTONE;
  }

  /** Every slot image, and the header that `complete_plan` logs at slot 0, says how long it is. */
  lemma {:induction false} ImagesDelimitThemselves(v: View, index: nat)
    requires Ok(v) && index < v.filled
    requires index == 0 ==> 0 in v.images && exists last: nat, filled: nat :: v.images[0] == Header(last, filled)
    ensures index in v.images && SelfDelimiting(index, v.images[index], v.multipart, v.entrySize)
  {
    hide OkBut, PartOk, LinkIs, SelfDelimiting, FreeOk, ChainOk;
    if index == 0 {
      HeaderDelimits(v.images[0], v.multipart, v.entrySize);
    } else {
      SlotDelimits(v, index);
    }
  }

  lemma HeaderDelimits(image: Bytes, multipart: bool, entrySize: nat)
    requires exists last: nat, filled: nat :: image == Header(last, filled)
    ensures SelfDelimiting(0, image, multipart, entrySize)
  {
  }

  lemma {:induction false} SlotDelimits(v: View, index: nat)
    requires Ok(v) && 0 < index < v.filled
    ensures index in v.images && SelfDelimiting(index, v.images[index], v.multipart, v.entrySize)
  {
    var h, k := Place(v, index);
    SlotImage(v, index, h, k);
    assert v.owner[index] == 0 ==> index in v.free;
    OkSizes(v, 0);
    if h == 0 {
      FreeDelimits(v, index);
    } else {
      PartDelimits(index, v.images[index], v.live[h], k, v.entrySize, v.multipart);
    }
  }
}
