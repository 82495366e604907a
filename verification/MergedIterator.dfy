/**
 The iterator that users see: the tree cursor merged with the ordered commit overlay, whose
 entries replace or hide those of the tree. A pair taken from the tree too early is kept as
 pending, together with the direction it was taken in.
 */
module MergedIterator {
  import opened Keys
  import opened Batch
  import opened Tree
  import opened NodeArrays
  import opened BTree
  import opened Cursor

  /** An overlay entry: a new value, or none for a deleted key. */
  datatype Entry = Entry(key: Bytes, value: Option<Bytes>)

  datatype LastKey = Start | End | AtKey(key: Bytes) | SeekedKey(key: Bytes)

  datatype Pending = Pending(item: Option<Pair>, dir: Direction)

  // ----- Positions

  /** Keys that a step in this direction may still return. */
  ghost predicate Beyond(last: LastKey, dir: Direction, k: Bytes) {
    match last
    case Start => dir == Forward
    case End => dir == Backward
    case AtKey(x) => if dir == Forward then Rank(x) < Rank(k) else Rank(k) < Rank(x)
    case SeekedKey(x) => if dir == Forward then Rank(x) <= Rank(k) else Rank(k) <= Rank(x)
  }

  predicate IsBeyond(last: LastKey, dir: Direction, k: Bytes) {
    match last
    case Start => dir == Forward
    case End => dir == Backward
    case AtKey(x) => if dir == Forward then Compare(x, k) == Less else Compare(k, x) == Less
    case SeekedKey(x) => if dir == Forward then Compare(x, k) != Greater else Compare(k, x) != Greater
  }

  lemma BeyondIs(last: LastKey, dir: Direction, k: Bytes)
    ensures IsBeyond(last, dir, k) == Beyond(last, dir, k)
  {
    if last.AtKey? || last.SeekedKey? {
      CompareIsRank(last.key, k);
      CompareIsRank(k, last.key);
    }
  }

  /** `a` comes before `b` on the way. */
  ghost predicate Nearer(dir: Direction, a: Bytes, b: Bytes) {
    if dir == Forward then Rank(a) < Rank(b) else Rank(b) < Rank(a)
  }

  /** Gap `w` parts the pairs that are still ahead from those that are not. */
  ghost predicate GapFor(f: seq<Pair>, last: LastKey, dir: Direction, w: nat) {
    w <= |f| && forall i :: 0 <= i < |f| ==> (Beyond(last, dir, f[i].key) <==> if dir == Forward then i >= w else i < w)
  }

  ghost predicate SortedEntries(o: seq<Entry>) {
    forall i, j :: 0 <= i < j < |o| ==> Rank(o[i].key) < Rank(o[j].key)
  }

  // ----- The merged contents

  ghost predicate Overlaid(o: seq<Entry>, k: Bytes) {
    exists i :: 0 <= i < |o| && o[i].key == k
  }

  /** Key `k` has value `v`: from the overlay if it has an entry, else from the tree. */
  ghost predicate Holds(f: seq<Pair>, o: seq<Entry>, k: Bytes, v: Bytes) {
    Entry(k, Some(v)) in o || (!Overlaid(o, k) && Pair(k, v) in f)
  }

  /** The nearest key on the way and its value, or nothing when there is none. */
  ghost predicate Nearest(f: seq<Pair>, o: seq<Entry>, last: LastKey, dir: Direction, r: Option<Pair>) {
    && (r.None? ==> forall k, v :: Holds(f, o, k, v) ==> !Beyond(last, dir, k))
    && (r.Some? ==>
      && Holds(f, o, r.value.key, r.value.val) && Beyond(last, dir, r.value.key)
      && forall k, v :: Holds(f, o, k, v) && Beyond(last, dir, k) ==> !Nearer(dir, k, r.value.key))
  }

  /** Entry `j` is the first of the overlay on the way. */
  ghost predicate Ahead(o: seq<Entry>, last: LastKey, dir: Direction, e: Option<Entry>, j: nat) {
    && (e.None? ==> forall i :: 0 <= i < |o| ==> !Beyond(last, dir, o[i].key))
    && (e.Some? ==> j < |o| && e.value == o[j] && Beyond(last, dir, o[j].key))
    && (e.Some? ==>
      forall i :: 0 <= i < |o| && Beyond(last, dir, o[i].key) ==> if dir == Forward then j <= i else i <= j)
  }

  /** `btree_next` and `btree_prev`: the nearest entry of the overlay. `j` is its place. */
  method OverlayNext(o: seq<Entry>, last: LastKey, dir: Direction) returns (r: Option<Entry>, ghost j: nat)
    requires SortedEntries(o)
    ensures Ahead(o, last, dir, r, j)
    ensures r.None? ==> forall e :: e in o ==> !Beyond(last, dir, e.key)
    ensures r.Some? ==> r.value in o && Beyond(last, dir, r.value.key)
    ensures r.Some? ==> forall e :: e in o && Beyond(last, dir, e.key) ==> !Nearer(dir, e.key, r.value.key)
  {
    hide Rank;
    if dir == Forward {
      var i := 0;
      while i < |o|
        invariant i <= |o| && forall x :: 0 <= x < i ==> !Beyond(last, dir, o[x].key)
      {
        BeyondIs(last, dir, o[i].key);
        if IsBeyond(last, dir, o[i].key) {
          return Some(o[i]), i;
        }
        i := i + 1;
      }
    } else {
      var i := |o|;
      while i > 0
        invariant 0 <= i <= |o| && forall x :: i <= x < |o| ==> !Beyond(last, dir, o[x].key)
      {
        i := i - 1;
        BeyondIs(last, dir, o[i].key);
        if IsBeyond(last, dir, o[i].key) {
          return Some(o[i]), i;
        }
      }
    }
    r, j := None, 0;
  }

  // ----- What the iterator keeps between calls

  /** A pair taken early is the next one of the tree, and the cursor stands on it. */
  ghost predicate Kept(f: seq<Pair>, last: LastKey, p: Pending, forward: nat, backward: nat) {
    if p.item.None? then
      && GapFor(f, last, p.dir, if p.dir == Forward then |f| else 0)
      && if p.dir == Forward then backward == |f| else forward == 0
    else
      && forward == backward + 1 && backward < |f| && p.item.value == f[backward]
      && GapFor(f, last, p.dir, if p.dir == Forward then backward else forward)
  }

  /** A step in this direction starts from the right place of the tree. */
  ghost predicate Poised(
      f: seq<Pair>, last: LastKey, pending: Option<Pending>, forward: nat, backward: nat, dir: Direction) {
    if pending.Some? && pending.value.dir == dir then Kept(f, last, pending.value, forward, backward)
    else GapFor(f, last, dir, if dir == Forward then forward else backward)
  }

  ghost predicate PoisedBoth(f: seq<Pair>, last: LastKey, pending: Option<Pending>, forward: nat, backward: nat) {
    Poised(f, last, pending, forward, backward, Forward) && Poised(f, last, pending, forward, backward, Backward)
  }

  /** What the tree offers next, with the cursor on it or past the end. */
  ghost predicate Offered(
      f: seq<Pair>, last: LastKey, dir: Direction, item: Option<Pair>, forward: nat, backward: nat) {
    Kept(f, last, Pending(item, dir), forward, backward)
  }

  /** After a key that lies ahead of `last`, and before the pair at gap `w`, is passed. */
  lemma {:induction false} PassedKey(f: seq<Pair>, last: LastKey, dir: Direction, w: nat, c: Bytes)
    requires Sorted(f) && GapFor(f, last, dir, w) && Beyond(last, dir, c)
    requires dir == Forward && w < |f| ==> Rank(c) < Rank(f[w].key)
    requires dir == Backward && w > 0 ==> Rank(f[w - 1].key) < Rank(c)
    ensures GapFor(f, AtKey(c), Forward, w) && GapFor(f, AtKey(c), Backward, w)
  {
    hide Rank;
    forall i | 0 <= i < |f|
      ensures if i < w then Rank(f[i].key) < Rank(c) else Rank(c) < Rank(f[i].key)
    {
      if dir == Forward {
        if i < w {
          assert !Beyond(last, dir, f[i].key);
        } else {
          assert i > w ==> Rank(f[w].key) < Rank(f[i].key);
        }
      } else if i >= w {
        assert !Beyond(last, dir, f[i].key);
      } else {
        assert i < w - 1 ==> Rank(f[i].key) < Rank(f[w - 1].key);
      }
    }
  }

  /** After pair `t` of the tree is returned or passed. */
  lemma {:induction false} PassedItem(f: seq<Pair>, t: nat)
    requires Sorted(f) && t < |f|
    ensures PoisedBoth(f, AtKey(f[t].key), None, t + 1, t)
  {
    hide Rank;
  }

  /** Nothing of the tree is left on the way. */
  lemma {:induction false} PassedAll(f: seq<Pair>, last: LastKey, dir: Direction, c: Bytes, forward: nat, backward: nat)
    requires Sorted(f) && Offered(f, last, dir, None, forward, backward) && Beyond(last, dir, c)
    ensures PoisedBoth(f, AtKey(c), Some(Pending(None, dir)), forward, backward)
  {
    PassedKey(f, last, dir, if dir == Forward then |f| else 0, c);
  }

  lemma PassedEnd(f: seq<Pair>, last: LastKey, dir: Direction, forward: nat, backward: nat)
    requires Offered(f, last, dir, None, forward, backward)
    ensures PoisedBoth(f, if dir == Forward then End else Start, Some(Pending(None, dir)), forward, backward)
  {
  }

  /** An overlay key in front of the tree's next pair. */
  lemma {:induction false} PassedEarly(
      f: seq<Pair>, last: LastKey, dir: Direction, c: Bytes, x: Pair, forward: nat, backward: nat)
    requires Sorted(f) && Offered(f, last, dir, Some(x), forward, backward) && Beyond(last, dir, c)
    requires Nearer(dir, c, x.key)
    ensures PoisedBoth(f, AtKey(c), Some(Pending(Some(x), dir)), forward, backward)
  {
    PassedKey(f, last, dir, if dir == Forward then backward else forward, c);
  }

  // ----- The choice between the two

  /** What is known when the overlay and the tree have both been asked. */
  ghost predicate Both(
      f: seq<Pair>, o: seq<Entry>, last: LastKey, dir: Direction, e: Option<Entry>, j: nat, item: Option<Pair>,
      forward: nat, backward: nat) {
    Sorted(f) && SortedEntries(o) && Ahead(o, last, dir, e, j) && Offered(f, last, dir, item, forward, backward)
  }

  /** Everything on the way lies behind the first entry of the overlay or behind the next pair of the tree. */
  lemma {:induction false} Behind(
      f: seq<Pair>, o: seq<Entry>, last: LastKey, dir: Direction, e: Option<Entry>, j: nat, item: Option<Pair>,
      forward: nat, backward: nat, k: Bytes, v: Bytes)
    requires Both(f, o, last, dir, e, j, item, forward, backward) && Holds(f, o, k, v) && Beyond(last, dir, k)
    ensures if Entry(k, Some(v)) in o then e.Some? && !Nearer(dir, k, e.value.key)
      else item.Some? && !Nearer(dir, k, item.value.key) && !Overlaid(o, k)
  {
    hide Rank;
    if Entry(k, Some(v)) in o {
      var i :| 0 <= i < |o| && o[i] == Entry(k, Some(v));
      assert e.Some? && (if dir == Forward then j <= i else i <= j);
    } else {
      var i :| 0 <= i < |f| && f[i] == Pair(k, v);
      assert item.Some? && f[backward] == item.value;
      assert if dir == Forward then backward <= i else i <= backward;
    }
  }

  /** An overlay entry that is no farther than the tree's next pair decides its own key. */
  lemma {:induction false} TakeEntry(
      f: seq<Pair>, o: seq<Entry>, last: LastKey, dir: Direction, e: Entry, j: nat, item: Option<Pair>,
      forward: nat, backward: nat, v: Bytes)
    requires Both(f, o, last, dir, Some(e), j, item, forward, backward) && e.value == Some(v)
    requires item.Some? ==> !Nearer(dir, item.value.key, e.key)
    ensures Nearest(f, o, last, dir, Some(Pair(e.key, v)))
  {
    assert o[j] == Entry(e.key, Some(v));
    forall k, w | Holds(f, o, k, w) && Beyond(last, dir, k)
      ensures !Nearer(dir, k, e.key)
    {
      Behind(f, o, last, dir, Some(e), j, item, forward, backward, k, w);
      hide Rank, Both, Holds;
    }
  }

  lemma {:induction false} TakeItem(
      f: seq<Pair>, o: seq<Entry>, last: LastKey, dir: Direction, e: Option<Entry>, j: nat, x: Pair, forward: nat,
      backward: nat)
    requires Both(f, o, last, dir, e, j, Some(x), forward, backward) && (e.Some? ==> Nearer(dir, x.key, e.value.key))
    ensures Nearest(f, o, last, dir, Some(x)) && backward < |f| && forward == backward + 1 && x == f[backward]
  {
    hide Rank;
    assert Beyond(last, dir, x.key) && f[backward] == x;
    assert !Overlaid(o, x.key) by {
      forall i | 0 <= i < |o|
        ensures o[i].key != x.key
      {
        assert e.Some? && (if dir == Forward then j < i else i < j) ==> Nearer(dir, o[j].key, o[i].key);
      }
    }
    assert Pair(x.key, x.val) in f;
    forall k, w | Holds(f, o, k, w) && Beyond(last, dir, k)
      ensures !Nearer(dir, k, x.key)
    {
      Behind(f, o, last, dir, e, j, Some(x), forward, backward, k, w);
      hide Both, Holds;
    }
  }

  lemma {:induction false} TakeNothing(
      f: seq<Pair>, o: seq<Entry>, last: LastKey, dir: Direction, j: nat, forward: nat, backward: nat)
    requires Both(f, o, last, dir, None, j, None, forward, backward)
    ensures Nearest(f, o, last, dir, None)
  {
    forall k, w | Holds(f, o, k, w)
      ensures !Beyond(last, dir, k)
    {
      if Beyond(last, dir, k) {
        Behind(f, o, last, dir, None, j, None, forward, backward, k, w);
        assert false;
      }
    }
  }

  /** The same keys are on the way from both places. */
  ghost predicate SameWay(f: seq<Pair>, o: seq<Entry>, dir: Direction, a: LastKey, b: LastKey) {
    forall k, v :: Holds(f, o, k, v) ==> (Beyond(a, dir, k) <==> Beyond(b, dir, k))
  }

  /** Passing a deleted key loses nothing. */
  lemma {:induction false} SkipEntry(
      f: seq<Pair>, o: seq<Entry>, last: LastKey, dir: Direction, e: Entry, j: nat, item: Option<Pair>,
      forward: nat, backward: nat)
    requires Both(f, o, last, dir, Some(e), j, item, forward, backward) && e.value == None
    requires item.Some? ==> !Nearer(dir, item.value.key, e.key)
    ensures SameWay(f, o, dir, last, AtKey(e.key))
  {
    hide Rank;
    forall k, w | Holds(f, o, k, w)
      ensures Beyond(last, dir, k) <==> Beyond(AtKey(e.key), dir, k)
    {
      if Beyond(last, dir, k) {
        Behind(f, o, last, dir, Some(e), j, item, forward, backward, k, w);
        NotDeleted(f, o, j, k, w);
        CompareIsRank(k, e.key);
      }
    }
  }

  lemma {:induction false} NotDeleted(f: seq<Pair>, o: seq<Entry>, j: nat, k: Bytes, v: Bytes)
    requires SortedEntries(o) && j < |o| && o[j].value == None && Holds(f, o, k, v)
    ensures k != o[j].key
  {
    hide Rank;
    if Entry(k, Some(v)) in o {
      var i :| 0 <= i < |o| && o[i] == Entry(k, Some(v));
      assert i < j ==> Rank(o[i].key) < Rank(o[j].key);
      assert j < i ==> Rank(o[j].key) < Rank(o[i].key);
    }
  }

  lemma {:induction false} NearestSame(
      f: seq<Pair>, o: seq<Entry>, dir: Direction, a: LastKey, b: LastKey, r: Option<Pair>)
    requires SameWay(f, o, dir, a, b) && Nearest(f, o, b, dir, r)
    ensures Nearest(f, o, a, dir, r)
  {
    hide Rank, Beyond, Holds;
  }

  // ----- One round, whatever the iterator was left with

  /** The pair beside a gap of the tree. */
  ghost function Beside(f: seq<Pair>, dir: Direction, g: nat): Option<Pair> {
    if dir == Forward then (if g < |f| then Some(f[g]) else None) else if 0 < g <= |f| then Some(f[g - 1]) else None
  }

  predicate Uses(pending: Option<Pending>, dir: Direction) {
    pending.Some? && pending.value.dir == dir
  }

  /** The tree's next pair: the pending one, right or not, or the one beside the cursor. */
  ghost function Upcoming(f: seq<Pair>, pending: Option<Pending>, dir: Direction, g: nat): Option<Pair> {
    if Uses(pending, dir) then pending.value.item else Beside(f, dir, g)
  }

  /** What a round returns when the overlay's entry is no deletion. */
  ghost function Chosen(dir: Direction, e: Option<Entry>, item: Option<Pair>): Option<Pair> {
    if e.None? || (item.Some? && Nearer(dir, item.value.key, e.value.key)) then item
    else if e.value.value.Some? then Some(Pair(e.value.key, e.value.value.value)) else None
  }

  /** What it leaves pending. */
  ghost function Leftover(dir: Direction, e: Option<Entry>, item: Option<Pair>): Option<Pending> {
    if item.None? || (e.Some? && Nearer(dir, e.value.key, item.value.key)) then Some(Pending(item, dir)) else None
  }

  /** Where it leaves the cursor: a pending pair does not move it. */
  ghost predicate Advances(f: seq<Pair>, used: bool, dir: Direction, fw: nat, bw: nat, fw': nat, bw': nat) {
    var g := if dir == Forward then fw else bw;
    if used then fw' == fw && bw' == bw
    else if Beside(f, dir, g).None? then fw' == 0 && bw' == |f|
    else bw' == (if dir == Forward then g else g - 1) && fw' == bw' + 1
  }

  // ----- The iterator

  class BTreeIterator {
    const cursor: TreeCursor
    var pending: Option<Pending>
    var lastKey: LastKey

    /** A new iterator stands before the first key. */
    constructor ()
      ensures fresh(cursor) && cursor.stack == [] && cursor.levels == [] && pending == None && lastKey == Start
    {
      cursor := new TreeCursor();
      pending, lastKey := None, Start;
    }

    /** `seek`: the iterator is right for steps in both directions. */
    method SeekKey(key: Bytes, root: Option<Addr>, depth: nat, store: Store, ghost b: Body)
      returns (ghost fw: nat, ghost bw: nat)
      requires RootOk(root, depth, b, store.slots) && RootStored(root, b, store.slots)
      modifies this, cursor
      ensures Has(None, fw, bw, b, depth, store.slots) && lastKey == SeekedKey(key) && Cut(Flat(b), key, fw, bw)
      ensures PoisedBoth(Flat(b), lastKey, pending, fw, bw)
    {
      hide RootOk, Flat, RestsAt, GapAt, PoisedBoth, Cut;
      lastKey := SeekedKey(key);
      pending := None;
      cursor.Seek(Include(key), root, depth, store, b);
      fw, bw := cursor.Gap(Forward, b, depth, store.slots), cursor.Gap(Backward, b, depth, store.slots);
      SeekPoised(Flat(b), key, fw, bw);
    }

    /**
     `seek_to_last` leaves a pending pair in place. The iterator is right afterwards exactly when
     nothing was pending, or only the news that the tree is at its end.
     */
    method SeekToLast(root: Option<Addr>, depth: nat, store: Store, ghost b: Body)
      requires RootOk(root, depth, b, store.slots) && RootStored(root, b, store.slots)
      modifies this, cursor
      ensures Has(old(pending), |Flat(b)|, |Flat(b)|, b, depth, store.slots) && lastKey == End
      ensures PoisedBoth(Flat(b), lastKey, pending, |Flat(b)|, |Flat(b)|) <==> SafePending(pending, Flat(b))
    {
      hide RootOk, Flat, RestsAt, GapAt, PoisedBoth, SafePending;
      lastKey := End;
      cursor.Seek(Last, root, depth, store, b);
      LastPoised(Flat(b), pending);
    }

    /** The tree has changed: the cursor seeks the key it last returned, and nothing is pending. */
    method Reopen(root: Option<Addr>, depth: nat, store: Store, ghost b: Body) returns (ghost fw: nat, ghost bw: nat)
      requires RootOk(root, depth, b, store.slots) && RootStored(root, b, store.slots)
      modifies this, cursor
      ensures Has(None, fw, bw, b, depth, store.slots) && lastKey == old(lastKey)
      ensures Poised(Flat(b), lastKey, None, fw, bw, Forward)
      ensures lastKey != Start ==> Poised(Flat(b), lastKey, None, fw, bw, Backward)
      ensures lastKey == Start ==> fw == 0 && bw == (if Flat(b) == [] || Flat(b)[0].key != [] then 0 else 1)
      ensures lastKey == Start ==> (Poised(Flat(b), lastKey, None, fw, bw, Backward) <==> bw == 0)
    {
      hide RootOk, RootStored, Flat, RestsAt, GapAt, Poised, Cut;
      pending := None;
      var to := match lastKey
        case AtKey(k) => Exclude(k)
        case SeekedKey(k) => Include(k)
        case Start => Include([])
        case End => Last;
      cursor.Seek(to, root, depth, store, b);
      fw, bw := cursor.Gap(Forward, b, depth, store.slots), cursor.Gap(Backward, b, depth, store.slots);
      RootSorted(root, depth, b, store.slots);
      ReopenPoised(Flat(b), lastKey, fw, bw);
    }

    /** What the iterator is left with: the pending pair and the gaps of the cursor. */
    ghost predicate Has(p: Option<Pending>, fw: nat, bw: nat, b: Body, d: nat, s: Slots)
      reads this, cursor
    {
      && cursor.Rests(b, d, s) && pending == p
      && cursor.Gap(Forward, b, d, s) == fw && cursor.Gap(Backward, b, d, s) == bw
    }

    /** The next pair of the tree: the pending one, or the cursor's. */
    method NextItem(
        dir: Direction, root: Option<Addr>, depth: nat, store: Store, ghost b: Body, ghost fw: nat, ghost bw: nat)
      returns (item: Option<Pair>, ghost fw': nat, ghost bw': nat)
      requires RootOk(root, depth, b, store.slots) && RootStored(root, b, store.slots)
      requires Has(pending, fw, bw, b, depth, store.slots)
      modifies this, cursor
      ensures Has(None, fw', bw', b, depth, store.slots) && lastKey == old(lastKey)
      ensures item == Upcoming(Flat(b), old(pending), dir, if dir == Forward then fw else bw)
      ensures Advances(Flat(b), Uses(old(pending), dir), dir, fw, bw, fw', bw')
      ensures Poised(Flat(b), lastKey, old(pending), fw, bw, dir) ==> Offered(Flat(b), lastKey, dir, item, fw', bw')
    {
      hide RootOk, Flat, RestsAt, GapAt, GapFor;
      var p := pending;
      pending, fw', bw' := None, fw, bw;
      if Uses(p, dir) {
        return p.value.item, fw, bw;
      }
      item := cursor.Next(dir, root, depth, store, b);
      Nowhere(cursor, b, depth, store.slots);
      fw', bw' := cursor.Gap(Forward, b, depth, store.slots), cursor.Gap(Backward, b, depth, store.slots);
    }

    /**
     One round of `iter_inner`: a result, or a deleted key passed. What it does is the same in
     every state; that the result is the right one takes an iterator that is ready.
     */
    method Round(
        dir: Direction, o: seq<Entry>, root: Option<Addr>, depth: nat, store: Store, ghost b: Body, ghost fw: nat,
        ghost bw: nat)
      returns (done: bool, r: Option<Pair>, ghost e: Option<Entry>, ghost j: nat, ghost fw': nat, ghost bw': nat)
      requires RootOk(root, depth, b, store.slots) && RootStored(root, b, store.slots) && SortedEntries(o)
      requires Has(pending, fw, bw, b, depth, store.slots)
      modifies this, cursor
      ensures Ahead(o, old(lastKey), dir, e, j)
      ensures var item := Upcoming(Flat(b), old(pending), dir, if dir == Forward then fw else bw);
        && Has(Leftover(dir, e, item), fw', bw', b, depth, store.slots)
        && Advances(Flat(b), Uses(old(pending), dir), dir, fw, bw, fw', bw')
        && (done ==> r == Chosen(dir, e, item) && lastKey == Stopped(dir, r))
        && (!done ==> e.Some? && e.value.value.None? && lastKey == AtKey(e.value.key))
      ensures Poised(Flat(b), old(lastKey), old(pending), fw, bw, dir) ==>
        && PoisedBoth(Flat(b), lastKey, pending, fw', bw')
        && (if done then Nearest(Flat(b), o, old(lastKey), dir, r) else SameWay(Flat(b), o, dir, old(lastKey), lastKey))
    {
      hide RootOk, RootStored, Flat, RestsAt, GapAt, Rank, Nearest, SameWay, Poised, PoisedBoth, Sorted;
      hide SortedEntries, Kept;
      hide Upcoming, Advances, Beside, Ahead, Beyond, Uses, Offered;
      ghost var f, last, ready := Flat(b), lastKey, Poised(Flat(b), lastKey, pending, fw, bw, dir);
      RootSorted(root, depth, b, store.slots);
      var c, item;
      done, r := false, None;
      c, j := OverlayNext(o, lastKey, dir);
      e := c;
      item, fw', bw' := NextItem(dir, root, depth, store, b, fw, bw);
      if c.Some? && item.Some? {
        CompareIsRank(c.value.key, item.value.key);
        var order := Compare(c.value.key, item.value.key);
        if order != Equal && ((dir == Forward) == (order == Less)) {
          pending := Some(Pending(item, dir));
        } else if order != Equal {
          lastKey := AtKey(item.value.key);
          done, r := true, item;
        }
      } else if c.Some? {
        pending := Some(Pending(None, dir));
      } else if item.Some? {
        lastKey := AtKey(item.value.key);
        done, r := true, item;
      } else {
        pending := Some(Pending(None, dir));
        lastKey := if dir == Forward then End else Start;
        done, r := true, None;
      }
      if !done {
        lastKey := AtKey(c.value.key);
        done := c.value.value.Some?;
        r := if done then Some(Pair(c.value.key, c.value.value.value)) else None;
      }
      if ready {
        RoundIsRight(f, o, last, dir, c, j, item, fw', bw', done, r);
      }
    }

    /** `iter_inner`: the nearest key in the direction, with what the overlay says about it. */
    method Step(
        dir: Direction, o: seq<Entry>, root: Option<Addr>, depth: nat, store: Store, ghost b: Body, ghost fw: nat,
        ghost bw: nat)
      returns (r: Option<Pair>, ghost e: Option<Entry>, ghost fw': nat, ghost bw': nat)
      requires RootOk(root, depth, b, store.slots) && RootStored(root, b, store.slots) && SortedEntries(o)
      requires Has(pending, fw, bw, b, depth, store.slots)
      modifies this, cursor
      ensures Has(pending, fw', bw', b, depth, store.slots) && lastKey == Stopped(dir, r)
      ensures Poised(Flat(b), old(lastKey), old(pending), fw, bw, dir) ==>
        PoisedBoth(Flat(b), lastKey, pending, fw', bw') && Nearest(Flat(b), o, old(lastKey), dir, r)
      ensures exists j :: Ahead(o, old(lastKey), dir, e, j)
      ensures (e.Some? ==> e.value.value.Some?) ==>
        var item := Upcoming(Flat(b), old(pending), dir, if dir == Forward then fw else bw);
        && r == Chosen(dir, e, item) && pending == Leftover(dir, e, item)
        && Advances(Flat(b), Uses(old(pending), dir), dir, fw, bw, fw', bw')
    {
      hide RootOk, RootStored, Flat, RestsAt, GapAt, Rank, Nearest, SameWay, Poised, PoisedBoth, SortedEntries, Beyond;
      hide Upcoming, Advances, Chosen, Leftover, Uses, Stopped;
      ghost var f, left: nat, first, ready := Flat(b), |o|, true, Poised(Flat(b), lastKey, pending, fw, bw, dir);
      e, fw', bw' := None, fw, bw;
      SameHere(f, o, dir, lastKey);
      AllAhead(o, lastKey, dir);
      while true
        invariant Has(pending, fw', bw', b, depth, store.slots)
        invariant first ==> lastKey == old(lastKey) && pending == old(pending) && fw' == fw && bw' == bw
        invariant !first ==> e.Some? && e.value.value.None? && exists j :: Ahead(o, old(lastKey), dir, e, j)
        invariant ready ==> Poised(f, lastKey, pending, fw', bw', dir) && SameWay(f, o, dir, old(lastKey), lastKey)
        invariant left <= |o| && AheadOf(o, lastKey, dir, left)
        decreases left
      {
        var done;
        ghost var j, c, last := 0, None, lastKey;
        done, r, c, j, fw', bw' := Round(dir, o, root, depth, store, b, fw', bw');
        if first {
          e, first := c, false;
          assert Ahead(o, old(lastKey), dir, e, j);
        }
        if done {
          if ready {
            NearestSame(f, o, dir, old(lastKey), last, r);
          }
          return;
        }
        if ready {
          BothAre(f, lastKey, pending, fw', bw');
          SameTrans(f, o, dir, old(lastKey), last, lastKey);
        }
        FewerLeft(o, j, dir, last, c, left);
        left := if dir == Forward then |o| - j - 1 else j;
      }
    }
  }

  /** A round from a ready iterator is right: what it returns, and what it leaves. */
  lemma {:induction false} RoundIsRight(
    f: seq<Pair>,
    o: seq<Entry>,
    last: LastKey,
    dir: Direction,
    e: Option<Entry>,
    j: nat,
    item: Option<Pair>,
    fw: nat,
    bw: nat,
    done: bool,
    r: Option<Pair>)
    requires Both(f, o, last, dir, e, j, item, fw, bw)
    requires if done then r == Chosen(dir, e, item)
      else e.Some? && e.value.value.None? && (item.Some? ==> !Nearer(dir, item.value.key, e.value.key))
    requires done && e.Some? && e.value.value.None? ==> item.Some? && Nearer(dir, item.value.key, e.value.key)
    ensures PoisedBoth(f, if done then Stopped(dir, r) else AtKey(e.value.key), Leftover(dir, e, item), fw, bw)
    ensures if done then Nearest(f, o, last, dir, r) else SameWay(f, o, dir, last, AtKey(e.value.key))
  {
    hide Rank, Nearest, SameWay, PoisedBoth, Sorted, SortedEntries, Kept, Ahead;
    AheadBeyond(o, last, dir, e, j);
    if item.None? {
      if e.None? {
        TakeNothing(f, o, last, dir, j, fw, bw);
        PassedEnd(f, last, dir, fw, bw);
      } else {
        PassedAll(f, last, dir, e.value.key, fw, bw);
      }
    } else if e.None? || Nearer(dir, item.value.key, e.value.key) {
      TakeItem(f, o, last, dir, e, j, item.value, fw, bw);
      PassedItem(f, bw);
    } else if Nearer(dir, e.value.key, item.value.key) {
      PassedEarly(f, last, dir, e.value.key, item.value, fw, bw);
    } else {
      CompareIsRank(e.value.key, item.value.key);
      ItemPassed(f, last, dir, item.value, fw, bw);
    }
    if e.Some? && (item.Some? ==> !Nearer(dir, item.value.key, e.value.key)) {
      if e.value.value.Some? {
        TakeEntry(f, o, last, dir, e.value, j, item, fw, bw, e.value.value.value);
      } else {
        SkipEntry(f, o, last, dir, e.value, j, item, fw, bw);
      }
    }
  }

  lemma AheadBeyond(o: seq<Entry>, last: LastKey, dir: Direction, e: Option<Entry>, j: nat)
    requires Ahead(o, last, dir, e, j)
    ensures e.Some? ==> Beyond(last, dir, e.value.key)
  {
  }

  lemma BothAre(f: seq<Pair>, last: LastKey, pending: Option<Pending>, forward: nat, backward: nat)
    requires PoisedBoth(f, last, pending, forward, backward)
    ensures forall dir :: Poised(f, last, pending, forward, backward, dir)
  {
    hide Poised;
    forall dir
      ensures Poised(f, last, pending, forward, backward, dir)
    {
      assert dir == Forward || dir == Backward;
    }
  }

  /** Only the last `left` entries on the way are ahead. */
  ghost predicate AheadOf(o: seq<Entry>, last: LastKey, dir: Direction, left: nat) {
    forall i :: 0 <= i < |o| && Beyond(last, dir, o[i].key) ==> if dir == Forward then i >= |o| - left else i < left
  }

  lemma AllAhead(o: seq<Entry>, last: LastKey, dir: Direction)
    ensures AheadOf(o, last, dir, |o|)
  {
  }

  /** The tree's next pair and the overlay entry that replaces it are both passed. */
  lemma {:induction false} ItemPassed(f: seq<Pair>, last: LastKey, dir: Direction, x: Pair, forward: nat, backward: nat)
    requires Sorted(f) && Offered(f, last, dir, Some(x), forward, backward)
    ensures PoisedBoth(f, AtKey(x.key), None, forward, backward)
  {
    PassedItem(f, backward);
  }

  lemma SameHere(f: seq<Pair>, o: seq<Entry>, dir: Direction, a: LastKey)
    ensures SameWay(f, o, dir, a, a)
  {
  }

  lemma {:induction false} SameTrans(f: seq<Pair>, o: seq<Entry>, dir: Direction, a: LastKey, b: LastKey, c: LastKey)
    requires SameWay(f, o, dir, a, b) && SameWay(f, o, dir, b, c)
    ensures SameWay(f, o, dir, a, c)
  {
    hide Holds, Beyond;
  }

  lemma {:induction false} FewerLeft(
    o: seq<Entry>, j: nat, dir: Direction, last: LastKey, e: Option<Entry>, left: nat)
    requires SortedEntries(o) && e.Some? && Ahead(o, last, dir, e, j) && AheadOf(o, last, dir, left) && left <= |o|
    ensures var n := if dir == Forward then |o| - j - 1 else j;
      0 <= n < left && AheadOf(o, AtKey(e.value.key), dir, n)
  {
    hide Rank;
  }

  // ----- Walks

  /** One step of a walk: its direction, the overlay at the time, and the tree, changed or not. */
  datatype Stop = Stop(
    dir: Direction, o: seq<Entry>, changed: bool, root: Option<Addr>, depth: nat, store: Store)

  ghost predicate StopOk(x: Stop, b: Body)
    reads x.store
  {
    RootOk(x.root, x.depth, b, x.store.slots) && RootStored(x.root, b, x.store.slots) && SortedEntries(x.o)
  }

  /**
   The tree changed while the iterator stood before its first key, and has an empty key now: a
   step backward takes that for a key on the way.
   */
  ghost predicate Misled(last: LastKey, changed: bool, dir: Direction, f: seq<Pair>) {
    changed && last == Start && dir == Backward && f != [] && f[0].key == []
  }

  /** What a step of a walk returns. */
  ghost predicate Answers(f: seq<Pair>, o: seq<Entry>, last: LastKey, changed: bool, dir: Direction, r: Option<Pair>) {
    if Misled(last, changed, dir, f) then r == Some(f[0]) else Nearest(f, o, last, dir, r)
  }

  /** A step when the tree has changed since the last one. */
  method StepChanged(it: BTreeIterator, x: Stop, ghost b: Body) returns (r: Option<Pair>, ghost fw: nat, ghost bw: nat)
    requires StopOk(x, b)
    modifies it, it.cursor
    ensures it.Has(it.pending, fw, bw, b, x.depth, x.store.slots) && it.lastKey == Stopped(x.dir, r)
    ensures PoisedBoth(Flat(b), it.lastKey, it.pending, fw, bw)
    ensures Answers(Flat(b), x.o, old(it.lastKey), true, x.dir, r)
  {
    hide RootOk, RootStored, Flat, Nearest, Poised, PoisedBoth, SortedEntries, RestsAt, GapAt, Chosen, Leftover;
    hide Ahead, Upcoming, Advances, Uses;
    ghost var f, last, e := Flat(b), it.lastKey, None;
    fw, bw := it.Reopen(x.root, x.depth, x.store, b);
    DirIs(x.dir);
    RootSorted(x.root, x.depth, b, x.store.slots);
    r, e, fw, bw := it.Step(x.dir, x.o, x.root, x.depth, x.store, b, fw, bw);
    if Misled(last, true, x.dir, f) {
      MisledTo(f, x.o, e, fw, bw);
    }
  }

  lemma DirIs(dir: Direction)
    ensures dir == Forward || dir == Backward
  {
  }

  lemma {:induction false} MisledTo(f: seq<Pair>, o: seq<Entry>, e: Option<Entry>, fw: nat, bw: nat)
    requires Sorted(f) && f != [] && exists j :: Ahead(o, Start, Backward, e, j)
    ensures e.None?
    ensures var item := Upcoming(f, None, Backward, 1);
      && item == Some(f[0]) && Chosen(Backward, None, item) == item && Leftover(Backward, None, item) == None
      && (Advances(f, Uses(None, Backward), Backward, 0, 1, fw, bw) ==> PoisedBoth(f, AtKey(f[0].key), None, fw, bw))
  {
    hide Rank;
    PassedItem(f, 0);
  }

  /**
   Any walk after a seek, with the overlay and the tree changing between the steps: every step
   returns the nearest key from where the one before it stopped.
   */
  method Walk(it: BTreeIterator, key: Bytes, start: Stop, stops: seq<Stop>, ghost first: Body, ghost bodies: seq<Body>)
      returns (results: seq<Option<Pair>>, ghost places: seq<LastKey>)
    requires StopOk(start, first) && |bodies| == |stops|
    requires forall i :: 0 <= i < |stops| ==> StopOk(stops[i], bodies[i])
    requires |stops| > 0 ==> Linked(start, first, stops[0], bodies[0])
    requires forall i :: 0 < i < |stops| ==> Linked(stops[i - 1], bodies[i - 1], stops[i], bodies[i])
    modifies it, it.cursor
    ensures |results| == |stops| && |places| == |stops| + 1 && places[0] == SeekedKey(key)
    ensures forall i :: 0 <= i < |stops| ==>
      && Answers(Flat(bodies[i]), stops[i].o, places[i], stops[i].changed, stops[i].dir, results[i])
      && places[i + 1] == Stopped(stops[i].dir, results[i])
  {
    hide StopOk, Flat, Answers, Poised, PoisedBoth, RestsAt, GapAt, Stopped, RootOk, RootStored, SortedEntries;
    hide Cut, Nearest, Rank, Sorted, GoodBody, Beyond, Misled, Sound, PathOk;
    StopIs(start, first);
    ghost var fw, bw := it.SeekKey(key, start.root, start.depth, start.store, first);
    results, places := [], [it.lastKey];
    var last := start;
    ghost var b := first;
    while |results| < |stops|
      invariant |results| <= |stops| && |places| == |results| + 1 && places[0] == SeekedKey(key)
      invariant |results| < |stops| ==> Linked(last, b, stops[|results|], bodies[|results|])
      invariant last == (if results == [] then start else stops[|results| - 1])
      invariant b == (if results == [] then first else bodies[|results| - 1])
      invariant it.Has(it.pending, fw, bw, b, last.depth, last.store.slots) && it.lastKey == places[|results|]
      invariant PoisedBoth(Flat(b), it.lastKey, it.pending, fw, bw)
      invariant forall i :: 0 <= i < |results| ==>
        && Answers(Flat(bodies[i]), stops[i].o, places[i], stops[i].changed, stops[i].dir, results[i])
        && places[i + 1] == Stopped(stops[i].dir, results[i])
    {
      var x := stops[|results|];
      assert Linked(last, b, x, bodies[|results|]);
      b := bodies[|results|];
      StopIs(x, b);
      var r;
      if x.changed {
        r, fw, bw := StepChanged(it, x, b);
      } else {
        BothAre(Flat(b), it.lastKey, it.pending, fw, bw);
        ghost var e, from := None, it.lastKey;
        r, e, fw, bw := it.Step(x.dir, x.o, x.root, x.depth, x.store, b, fw, bw);
        AnswersNearest(Flat(b), x.o, from, x.dir, r);
      }
      results, places, last := results + [r], places + [it.lastKey], x;
      if |results| < |stops| {
        assert Linked(stops[|results| - 1], bodies[|results| - 1], stops[|results|], bodies[|results|]);
      }
    }
  }

  /** Unless the tree has changed, it is the same at both stops. */
  ghost predicate Linked(x: Stop, a: Body, y: Stop, b: Body)
    reads x.store, y.store
  {
    !y.changed ==> x.depth == y.depth && x.store.slots == y.store.slots && a == b
  }

  lemma StopIs(x: Stop, b: Body)
    ensures StopOk(x, b) <==>
      (RootOk(x.root, x.depth, b, x.store.slots) && RootStored(x.root, b, x.store.slots) && SortedEntries(x.o))
  {
  }

  lemma AnswersNearest(f: seq<Pair>, o: seq<Entry>, last: LastKey, dir: Direction, r: Option<Pair>)
    requires Nearest(f, o, last, dir, r)
    ensures Answers(f, o, last, false, dir, r)
  {
  }

  ghost function Stopped(dir: Direction, r: Option<Pair>): LastKey {
    if r.Some? then AtKey(r.value.key) else if dir == Forward then End else Start
  }

  predicate SafePending(pending: Option<Pending>, f: seq<Pair>) {
    pending.None? || (pending.value.item.None? && (pending.value.dir == Forward || f == []))
  }

  lemma {:induction false} LastPoised(f: seq<Pair>, pending: Option<Pending>)
    ensures PoisedBoth(f, End, pending, |f|, |f|) <==> SafePending(pending, f)
  {
    assert f != [] ==> Beyond(End, Backward, f[0].key);
  }

  /**
   The first step of a new iterator. Forward it is right; backward, where nothing is on the way,
   it returns the last pair of the tree, whatever the overlay says about that key.
   */
  method FirstStep(x: Stop, ghost b: Body) returns (it: BTreeIterator, r: Option<Pair>)
    requires StopOk(x, b)
    ensures x.dir == Forward ==> Nearest(Flat(b), x.o, Start, Forward, r)
    ensures x.dir == Backward ==> r == if Flat(b) == [] then None else Some(Flat(b)[|Flat(b)| - 1])
    ensures x.dir == Backward ==> (Nearest(Flat(b), x.o, Start, Backward, r) <==> Flat(b) == [])
  {
    hide RootOk, RootStored, Flat, Poised, PoisedBoth, SortedEntries, RestsAt, GapAt, Ahead;
    it := new BTreeIterator();
    NewGaps(it, b, x.depth, x.store.slots);
    ghost var e, fw, bw;
    DirIs(x.dir);
    r, e, fw, bw := it.Step(x.dir, x.o, x.root, x.depth, x.store, b, 0, |Flat(b)|);
    NothingBefore(Flat(b), x.o, e, x.dir);
  }

  lemma {:induction false} NewGaps(it: BTreeIterator, b: Body, d: nat, s: Slots)
    requires it.cursor.stack == [] && it.cursor.levels == [] && it.pending == None && it.lastKey == Start
    ensures it.Has(None, 0, |Flat(b)|, b, d, s) && Poised(Flat(b), Start, None, 0, |Flat(b)|, Forward)
  {
    EmptyPath(b, d, s);
    Nowhere(it.cursor, b, d, s);
  }

  /** Nothing lies before the start. */
  lemma NothingBefore(f: seq<Pair>, o: seq<Entry>, e: Option<Entry>, dir: Direction)
    requires exists j :: Ahead(o, Start, dir, e, j)
    ensures dir == Backward ==> e.None? && forall r :: Nearest(f, o, Start, Backward, r) <==> r.None?
  {
  }

  // ----- A pending pair and `seek_to_last`

  /**
   Seek a key that is not in the tree, step forward onto an overlay entry for it, seek to the last
   key, and step forward: instead of nothing, the step returns the pair that was pending.
   */
  method StaleForward(it: BTreeIterator, key: Bytes, v: Bytes, x: Stop, ghost b: Body, ghost w: nat)
    returns (first: Option<Pair>, second: Option<Pair>)
    requires StopOk(x, b) && Cut(Flat(b), key, w, w) && w < |Flat(b)|
    modifies it, it.cursor
    ensures first == Some(Pair(key, v)) && second == Some(Flat(b)[w])
    ensures Nearest(Flat(b), x.o, End, Forward, None) && !Nearest(Flat(b), x.o, End, Forward, second)
  {
    hide RootOk, RootStored, Flat, Poised, PoisedBoth, RestsAt, GapAt, Ahead, Cut, SafePending, Nearest;
    ghost var f := Flat(b);
    first := SeekAndStep(it, Forward, key, v, x, b, w);
    it.SeekToLast(x.root, x.depth, x.store, b);
    ghost var e, fw, bw;
    second, e, fw, bw := it.Step(Forward, x.o, x.root, x.depth, x.store, b, |f|, |f|);
    NothingAfter(f, x.o, e);
  }

  /**
   The same backward: the pending pair comes first, wherever it is, and then the last pair of the
   tree. When the pending pair is the last one, it is returned twice.
   */
  method StaleBackward(it: BTreeIterator, key: Bytes, v: Bytes, x: Stop, ghost b: Body, ghost w: nat)
    returns (first: Option<Pair>, second: Option<Pair>, third: Option<Pair>)
    requires StopOk(x, b) && Cut(Flat(b), key, w, w) && 0 < w <= |Flat(b)|
    modifies it, it.cursor
    ensures var f := Flat(b);
      first == Some(Pair(key, v)) && second == Some(f[w - 1]) && third == Some(f[|f| - 1])
    ensures w < |Flat(b)| ==> !Nearest(Flat(b), [], End, Backward, second)
    ensures w == |Flat(b)| ==> second == third
  {
    hide RootOk, RootStored, Flat, Poised, PoisedBoth, RestsAt, GapAt, Cut, SafePending, Nearest;
    ghost var f := Flat(b);
    first := SeekAndStep(it, Backward, key, v, x, b, w);
    it.SeekToLast(x.root, x.depth, x.store, b);
    ghost var e, fw, bw;
    second, e, fw, bw := it.Step(Backward, [], x.root, x.depth, x.store, b, |f|, |f|);
    third, e, fw, bw := it.Step(Backward, [], x.root, x.depth, x.store, b, fw, bw);
    RootSorted(x.root, x.depth, b, x.store.slots);
    if w < |f| {
      LastIsNearest(f, w);
    }
  }

  /** Nothing lies after the end. */
  lemma NothingAfter(f: seq<Pair>, o: seq<Entry>, e: Option<Entry>)
    requires exists j :: Ahead(o, End, Forward, e, j)
    ensures e.None? && forall r :: Nearest(f, o, End, Forward, r) <==> r.None?
  {
  }

  /** Of a tree without overlay only the last pair is nearest from the end. */
  lemma {:induction false} LastIsNearest(f: seq<Pair>, w: nat)
    requires Sorted(f) && 0 < w < |f|
    ensures !Nearest(f, [], End, Backward, Some(f[w - 1]))
  {
    hide Rank;
    var k, v := f[|f| - 1].key, f[|f| - 1].val;
    assert Pair(k, v) in f && Holds(f, [], k, v);
    assert Nearer(Backward, k, f[w - 1].key);
  }

  /** Seek a key that is not in the tree and step onto an overlay entry for it. */
  method SeekAndStep(it: BTreeIterator, dir: Direction, key: Bytes, v: Bytes, x: Stop, ghost b: Body, ghost w: nat)
    returns (r: Option<Pair>)
    requires StopOk(x, b) && Cut(Flat(b), key, w, w) && if dir == Forward then w < |Flat(b)| else 0 < w <= |Flat(b)|
    modifies it, it.cursor
    ensures r == Some(Pair(key, v))
    ensures it.pending == Some(Pending(Some(Flat(b)[if dir == Forward then w else w - 1]), dir))
  {
    hide RootOk, RootStored, Flat, Poised, PoisedBoth, RestsAt, GapAt, Nearest, Ahead, Cut;
    ghost var fw, bw := it.SeekKey(key, x.root, x.depth, x.store, b);
    CutOnce(Flat(b), key, w, fw, bw);
    ghost var e;
    var o := [Entry(key, Some(v))];
    r, e, fw, bw := it.Step(dir, o, x.root, x.depth, x.store, b, fw, bw);
    OneAhead(Flat(b), key, v, dir, e, w);
  }

  lemma CutOnce(f: seq<Pair>, key: Bytes, w: nat, fw: nat, bw: nat)
    requires Cut(f, key, w, w) && Cut(f, key, fw, bw)
    ensures fw == w && bw == w
  {
    hide Rank;
    assert forall i :: 0 <= i < |f| ==> if i < w then Rank(f[i].key) < Rank(key) else Rank(key) < Rank(f[i].key);
    if fw < |f| {
      assert Rank(key) <= Rank(f[fw].key);
    }
    if w < |f| {
      assert Rank(key) < Rank(f[w].key);
    }
  }

  lemma {:induction false} OneAhead(f: seq<Pair>, key: Bytes, v: Bytes, dir: Direction, e: Option<Entry>, w: nat)
    requires Cut(f, key, w, w) && if dir == Forward then w < |f| else 0 < w <= |f|
    requires exists j :: Ahead([Entry(key, Some(v))], SeekedKey(key), dir, e, j)
    ensures e == Some(Entry(key, Some(v)))
    ensures var item := Upcoming(f, None, dir, w);
      && item == Some(f[if dir == Forward then w else w - 1])
      && Chosen(dir, e, item) == Some(Pair(key, v)) && Leftover(dir, e, item) == Some(Pending(item, dir))
  {
    hide Rank;
    var o := [Entry(key, Some(v))];
    assert Beyond(SeekedKey(key), dir, o[0].key);
    assert e == Some(o[0]);
    var item := f[if dir == Forward then w else w - 1];
    assert Upcoming(f, None, dir, w) == Some(item);
    assert Nearer(dir, key, item.key) && !Nearer(dir, item.key, key);
  }

  lemma {:induction false} ReopenPoised(f: seq<Pair>, last: LastKey, forward: nat, backward: nat)
    requires Sorted(f)
    requires match last
      case AtKey(k) => Cut(f, k, backward, forward)
      case SeekedKey(k) => Cut(f, k, forward, backward)
      case Start => Cut(f, [], forward, backward)
      case End => forward == |f| && backward == |f|
    ensures Poised(f, last, None, forward, backward, Forward)
    ensures last != Start ==> Poised(f, last, None, forward, backward, Backward)
    ensures last == Start ==> (Poised(f, last, None, forward, backward, Backward) <==> f == [] || f[0].key != [])
    ensures last == Start ==> forward == 0 && backward == if f == [] || f[0].key != [] then 0 else 1
  {
    hide Rank;
    match last
    case AtKey(k) =>
      assert forall i ::
        0 <= i < |f| ==> (Rank(k) < Rank(f[i].key) <==> i >= forward) && (Rank(f[i].key) < Rank(k) <==> i < backward);
    case SeekedKey(k) => SeekPoised(f, k, forward, backward);
    case Start => EmptyFirst(f, forward, backward);
    case End =>
  }

  /** No key comes before the empty one. */
  lemma {:induction false} EmptyFirst(f: seq<Pair>, forward: nat, backward: nat)
    requires Sorted(f) && Cut(f, [], forward, backward)
    ensures forward == 0 && (backward == 0 <==> f == [] || f[0].key != [])
  {
    assert Rank([]) == 0.0;
    if f != [] {
      CompareIsRank(f[0].key, []);
    }
  }

  lemma {:induction false} SeekPoised(f: seq<Pair>, key: Bytes, forward: nat, backward: nat)
    requires Cut(f, key, forward, backward)
    ensures PoisedBoth(f, SeekedKey(key), None, forward, backward)
  {
    hide Rank;
    forall i | 0 <= i < |f|
      ensures (Rank(key) <= Rank(f[i].key) <==> i >= forward) && (Rank(f[i].key) <= Rank(key) <==> i < backward)
    {
    }
  }

  lemma Nowhere(c: TreeCursor, b: Body, d: nat, s: Slots)
    requires c.Rests(b, d, s)
    ensures c.stack == [] ==> c.Gap(Forward, b, d, s) == 0 && c.Gap(Backward, b, d, s) == |Flat(b)|
  {
  }

  lemma RootSorted(root: Option<Addr>, d: nat, b: Body, s: Slots)
    requires RootOk(root, d, b, s)
    ensures Sorted(Flat(b))
  {
    match b
    case Body(_, _) =>
  }
}
