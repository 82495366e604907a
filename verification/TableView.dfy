/**
 What a value table holds, slot by slot. Slots 1 to `filled` are split between one list of freed
 slots and the chains of the live values; every slot has exactly one owner.
 */
module TableView {
  import opened Keys
  import opened LittleEndian
  import opened SlotEntry

  /** A live value: its slots in order, and the bytes they spell (counter, key and value). */
  datatype Stored = Stored(chain: seq<nat>, bytes: Bytes, compressed: bool)

  /** `owner` is 0 for a freed slot and the head of its chain for a live one. */
  datatype View = View(
    entrySize: nat, multipart: bool,
    filled: nat, images: map<nat, Bytes>, free: seq<nat>, live: map<nat, Stored>, owner: map<nat, nat>)

  ghost predicate NoDup(s: seq<nat>) {
    forall i, j :: 0 <= i < j < |s| ==> s[i] != s[j]
  }

  /** `s` lists the slots that belong to `h`, each once. */
  ghost predicate Owns(owner: map<nat, nat>, s: seq<nat>, h: nat) {
    NoDup(s) && forall i :: i in s <==> i in owner && owner[i] == h
  }

  ghost predicate Partition(v: View) {
    && 1 <= v.filled <= U64_LIMIT && 0 !in v.live
    && (forall i :: i in v.owner <==> 1 <= i < v.filled)
    && (forall i :: i in v.owner ==> v.owner[i] == 0 || v.owner[i] in v.live)
    && Owns(v.owner, v.free, 0)
    && (forall h :: h in v.live ==> Owns(v.owner, v.live[h].chain, h))
  }

  lemma {:induction false} OwnsMore(owner: map<nat, nat>, s: seq<nat>, h: nat, x: nat)
    requires Owns(owner, s, h) && x !in s
    ensures Owns(owner[x := h], s + [x], h) && Owns(owner[x := h], [x] + s, h)
  {
    assert forall i :: i in s + [x] <==> i in s || i == x;
    assert forall i :: i in [x] + s <==> i in s || i == x;
  }

  lemma {:induction false} OwnsLess(owner: map<nat, nat>, s: seq<nat>, h: nat, k: nat, g: nat)
    requires Owns(owner, s, h) && k < |s| && g != h
    ensures Owns(owner[s[k] := g], s[..k] + s[k + 1..], h)
  {
    var d, x := s[..k] + s[k + 1..], s[k];
    forall i
      ensures i in d <==> i in s && i != x
    {
      if i in s && i != x {
        var n :| 0 <= n < |s| && s[n] == i;
        assert d[if n < k then n else n - 1] == i;
      }
      if i in d {
        var n :| 0 <= n < |d| && d[n] == i;
        assert i == s[if n < k then n else n + 1];
      }
    }
  }

  lemma {:induction false} OwnsStill(owner: map<nat, nat>, s: seq<nat>, h: nat, x: nat, g: nat)
    requires Owns(owner, s, h) && g != h && x !in s
    ensures Owns(owner[x := g], s, h)
  {
  }

  /** The link after position `i` of a list that ends in 0. */
  function Link(s: seq<nat>, i: nat): nat {
    if i < |s| then s[i] else 0
  }

  ghost predicate FreeOk(v: View) {
    forall i :: 0 <= i < |v.free| ==> v.free[i] in v.images && v.images[v.free[i]] == Tomb(Link(v.free, i + 1))
  }

  /** Payload of a slot that links to another one. */
  function Payload(entrySize: nat): nat
    requires entrySize >= MIN_ENTRY_SIZE
  {
    entrySize - SIZE_SIZE - INDEX_SIZE
  }

  function Start(k: nat, entrySize: nat): nat
    requires entrySize >= MIN_ENTRY_SIZE
  {
    k * Payload(entrySize)
  }

  lemma NextStart(k: nat, entrySize: nat)
    requires entrySize >= MIN_ENTRY_SIZE
    ensures Start(k + 1, entrySize) == Start(k, entrySize) + Payload(entrySize) && Start(0, entrySize) == 0
  {
  }

  ghost predicate Sizes(entrySize: nat, multipart: bool) {
    MIN_ENTRY_SIZE <= entrySize <= MAX_ENTRY_SIZE && (multipart ==> entrySize == MULTIPART_ENTRY_SIZE)
  }

  /** The image of slot `k` of a chain: full and linked, or last and just long enough. */
  ghost predicate PartOk(image: Bytes, s: Stored, k: nat, entrySize: nat)
    requires MIN_ENTRY_SIZE <= entrySize <= MAX_ENTRY_SIZE && k < |s.chain|
  {
    var at := Start(k, entrySize);
    && at <= |s.bytes|
    && if k + 1 < |s.chain| then
         && |s.bytes| - at > entrySize - SIZE_SIZE
         && image
           == Marker(k == 0, s.compressed) + LE(s.chain[k + 1], INDEX_SIZE) + s.bytes[at..at + Payload(entrySize)]
       else
         && |s.bytes| - at <= entrySize - SIZE_SIZE
         && image == SizeWord(|s.bytes| - at, s.compressed) + s.bytes[at..]
  }

  ghost predicate ChainOk(images: map<nat, Bytes>, s: Stored, h: nat, entrySize: nat, multipart: bool)
    requires MIN_ENTRY_SIZE <= entrySize <= MAX_ENTRY_SIZE
  {
    && |s.chain| > 0 && s.chain[0] == h && (multipart || |s.chain| == 1)
    && forall k :: 0 <= k < |s.chain| ==> s.chain[k] in images && PartOk(images[s.chain[k]], s, k, entrySize)
  }

  /** Everything but the chain of `busy`, which is being changed. */
  ghost predicate OkBut(v: View, busy: nat) {
    && Sizes(v.entrySize, v.multipart) && Partition(v) && FreeOk(v)
    && forall h :: h in v.live && h != busy ==> ChainOk(v.images, v.live[h], h, v.entrySize, v.multipart)
  }

  ghost predicate Ok(v: View) {
    OkBut(v, 0)
  }

  // ----- Taking, giving back and writing slots

  function FreshSlot(v: View): nat {
    if v.free != [] then v.free[0] else v.filled
  }

  ghost function Extended(v: View, h: nat, x: nat): Stored {
    if h in v.live then v.live[h].(chain := v.live[h].chain + [x]) else Stored([x], [], false)
  }

  /** `next_free`: the last freed slot, or a new one, at the end of the chain of `h`. */
  ghost function Take(v: View, h: nat): View {
    var x := FreshSlot(v);
    v.(free := if v.free != [] then v.free[1..] else [], filled := if v.free != [] then v.filled else v.filled + 1,
       live := v.live[h := Extended(v, h, x)], owner := v.owner[x := h])
  }

  lemma {:induction false} FreshIsFree(v: View)
    requires Partition(v)
    ensures var x := FreshSlot(v); x > 0 && (x in v.owner ==> v.owner[x] == 0) && (x !in v.owner ==> x == v.filled)
    ensures forall h :: h in v.live ==> FreshSlot(v) !in v.live[h].chain
  {
    if v.free != [] {
      assert v.free[0] in v.free;
    }
  }

  lemma {:induction false} TakePartition(v: View, h: nat)
    requires Partition(v) && v.filled < U64_LIMIT && (h in v.live || h == FreshSlot(v))
    ensures Partition(Take(v, h))
  {
    FreshIsFree(v);
    var x, w := FreshSlot(v), Take(v, h);
    if v.free != [] {
      OwnsLess(v.owner, v.free, 0, 0, h);
      assert w.free == v.free[..0] + v.free[1..];
    } else {
      OwnsStill(v.owner, v.free, 0, x, h);
    }
    forall g | g in w.live
      ensures Owns(w.owner, w.live[g].chain, g)
    {
      if g != h {
        OwnsStill(v.owner, v.live[g].chain, g, x, h);
      } else if h in v.live {
        OwnsMore(v.owner, v.live[h].chain, h, x);
      } else {
        assert Owns(v.owner, [], h);
        OwnsMore(v.owner, [], h, x);
        assert [] + [x] == [x];
      }
    }
  }

  lemma {:induction false} TakeOk(v: View, h: nat)
    requires OkBut(v, h) && v.filled < U64_LIMIT && (h in v.live || h == FreshSlot(v))
    ensures OkBut(Take(v, h), h)
  {
    TakePartition(v, h);
    var w := Take(v, h);
    forall i | 0 <= i < |w.free|
      ensures w.free[i] in w.images && w.images[w.free[i]] == Tomb(Link(w.free, i + 1))
    {
      assert w.free[i] == v.free[i + 1];
    }
  }

  /** `clear_slot` on the slot after the first `kept` ones of the chain of `h`. */
  ghost function Give(v: View, h: nat, kept: nat): View
    requires h in v.live && kept < |v.live[h].chain|
  {
    var c := v.live[h].chain;
    v.(free := [c[kept]] + v.free, images := v.images[c[kept] := Tomb(Link(v.free, 0))], owner := v.owner[c[kept] := 0],
       live := v.live[h := v.live[h].(chain := c[..kept] + c[kept + 1..])])
  }

  lemma {:induction false} GivePartition(v: View, h: nat, kept: nat)
    requires Partition(v) && h in v.live && kept < |v.live[h].chain|
    ensures Partition(Give(v, h, kept))
  {
    var c, w := v.live[h].chain, Give(v, h, kept);
    assert c[kept] in c;
    OwnsLess(v.owner, c, h, kept, 0);
    OwnsMore(v.owner, v.free, 0, c[kept]);
    forall g | g in w.live && g != h
      ensures Owns(w.owner, w.live[g].chain, g)
    {
      OwnsStill(v.owner, v.live[g].chain, g, c[kept], 0);
    }
  }

  /** A list of freed slots still links up after one more is put in front. */
  lemma {:induction false} FreedInFront(free: seq<nat>, images: map<nat, Bytes>, x: nat, i: nat)
    requires x !in free && i < |free| + 1
    requires i > 0 ==> free[i - 1] in images && images[free[i - 1]] == Tomb(Link(free, i))
    ensures var f, m := [x] + free, images[x := Tomb(Link(free, 0))]; f[i] in m && m[f[i]] == Tomb(Link(f, i + 1))
  {
    assert i > 0 ==> free[i - 1] in free;
  }

  lemma {:induction false} GiveFree(v: View, h: nat, kept: nat)
    requires Partition(v) && FreeOk(v) && h in v.live && kept < |v.live[h].chain|
    ensures FreeOk(Give(v, h, kept))
  {
    var x, w := v.live[h].chain[kept], Give(v, h, kept);
    assert Owns(v.owner, v.live[h].chain, h) && x in v.live[h].chain && x !in v.free;
    hide Partition, Tomb;
    forall i | 0 <= i < |w.free|
      ensures w.free[i] in w.images && w.images[w.free[i]] == Tomb(Link(w.free, i + 1))
    {
      FreedInFront(v.free, v.images, x, i);
    }
  }

  lemma {:induction false} GiveOk(v: View, h: nat, kept: nat)
    requires OkBut(v, h) && h in v.live && kept < |v.live[h].chain|
    ensures OkBut(Give(v, h, kept), h)
  {
    var x := v.live[h].chain[kept];
    assert Owns(v.owner, v.live[h].chain, h) && x in v.live[h].chain;
    GivePartition(v, h, kept);
    GiveFree(v, h, kept);
    OthersKept(v, h, x, Tomb(Link(v.free, 0)));
    hide Partition, FreeOk, ChainOk;
  }

  /** Writing a slot that `h` owns disturbs no other chain. */
  lemma {:induction false} OthersKept(v: View, h: nat, x: nat, image: Bytes)
    requires OkBut(v, h) && x in v.owner && v.owner[x] == h
    ensures forall g :: g in v.live && g != h ==> ChainOk(v.images[x := image], v.live[g], g, v.entrySize, v.multipart)
  {
    forall g | g in v.live && g != h
      ensures ChainOk(v.images[x := image], v.live[g], g, v.entrySize, v.multipart)
    {
      assert x !in v.live[g].chain;
      assert ChainOk(v.images, v.live[g], g, v.entrySize, v.multipart);
    }
  }

  lemma {:induction false} WriteOk(v: View, h: nat, x: nat, image: Bytes)
    requires OkBut(v, h) && h in v.live && x in v.live[h].chain
    ensures OkBut(v.(images := v.images[x := image]), h)
  {
    OthersKept(v, h, x, image);
    assert x !in v.free;
    forall i | 0 <= i < |v.free|
      ensures v.free[i] in v.images && v.images[x := image][v.free[i]] == Tomb(Link(v.free, i + 1))
    {
      assert v.free[i] in v.free;
    }
  }

  /** The slot `next_free` returns is no live slot, and it lies right behind or below `filled`. */
  lemma FreshIsNotLive(v: View)
    requires Ok(v)
    ensures 1 <= FreshSlot(v) <= v.filled && forall h :: h in v.live ==> FreshSlot(v) !in v.live[h].chain
  {
    FreshIsFree(v);
  }

  /** Every slot below `filled` is in the free list or in one chain, never in two places, never twice. */
  lemma OnePlaceEach(v: View, i: nat)
    requires Ok(v) && 1 <= i < v.filled
    ensures i in v.free <==> !exists h :: h in v.live && i in v.live[h].chain
    ensures forall g, h :: g in v.live && h in v.live && i in v.live[g].chain && i in v.live[h].chain ==> g == h
    ensures multiset(v.free)[i] <= 1 && forall h :: h in v.live ==> multiset(v.live[h].chain)[i] <= 1
  {
    assert i in v.owner;
    CountOnce(v.free, i);
    forall h | h in v.live
      ensures multiset(v.live[h].chain)[i] <= 1
    {
      CountOnce(v.live[h].chain, i);
    }
  }

  lemma {:induction false} CountOnce(s: seq<nat>, i: nat)
    requires NoDup(s)
    ensures multiset(s)[i] <= 1
  {
    if s != [] {
      var n := |s| - 1;
      assert s == s[..n] + [s[n]];
      CountOnce(s[..n], i);
      assert s[n] !in s[..n];
    }
  }
}
