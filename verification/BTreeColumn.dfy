/**
 An ordered column as its users see it: a map from keys to values, changed by whole batches
 and looked up by key, over storage that holds nothing but the tree.
 */
module BTreeColumn {
  import opened Keys
  import opened Batch
  import opened Tree
  import opened TreeOps
  import opened NodeArrays
  import opened BTreeNode
  import opened BTree

  /** What the column means. */
  ghost function Contents(b: Body): map<Bytes, Bytes> {
    ToMap(Flat(b))
  }

  /**
   Every live slot is the header, a node reachable from the root it names, or a value such a
   node points to, each once; the tree is sorted, of uniform depth and filled as it should be.
   */
  ghost predicate ColumnOk(s: Slots, root: Option<Addr>, d: nat, b: Body) {
    && HEADER_ADDRESS in s && s[HEADER_ADDRESS] == HeaderSlot(root, d)
    && RootOk(root, d, b, s) && RootStored(root, b, s)
    && Live(s) == multiset{HEADER_ADDRESS} + RootFoot(root, b)
  }

  /** The header fits the smallest tier, where its address says it is. */
  ghost predicate HeaderFits(tierOf: Slot -> nat) {
    forall root, d :: tierOf(HeaderSlot(root, d)) % 256 == HEADER_ADDRESS % 256
  }

  lemma {:induction false} EmptyColumn()
    ensures ColumnOk(map[HEADER_ADDRESS := HeaderSlot(None, 0)], None, 0, Body([], []))
    ensures Contents(Body([], [])) == map[]
  {
    var s: Slots := map[HEADER_ADDRESS := HeaderSlot(None, 0)];
    assert AddrsOf([]) == [] && Foot(Body([], [])) == multiset{};
    assert s.Keys == {HEADER_ADDRESS};
    assert Flat(Body([], [])) == [];
  }

  lemma {:induction false} MovedLive(s0: Slots, f0: multiset<Addr>, s1: Slots, f1: multiset<Addr>, g: multiset<Addr>)
    requires Moved(s0, f0, s1, f1) && Live(s0) == g + f0
    ensures Live(s1) == g + f1
  {
    forall a
      ensures Live(s1)[a] == (g + f1)[a]
    {
      assert Live(s0)[a] == g[a] + f0[a];
      assert f1[a] <= Live(s1)[a] <= 1 && f0[a] <= Live(s0)[a] <= 1;
      assert (a in Outside(s0, f0)) == (a in Outside(s1, f1));
    }
  }

  lemma {:induction false} HeaderKept(s0: Slots, f0: multiset<Addr>, s1: Slots, f1: multiset<Addr>)
    requires Moved(s0, f0, s1, f1) && Live(s0) == multiset{HEADER_ADDRESS} + f0 && HEADER_ADDRESS in s0
    ensures HEADER_ADDRESS in s1 && s1[HEADER_ADDRESS] == s0[HEADER_ADDRESS]
  {
    assert HEADER_ADDRESS in Live(s0);
    Commute(multiset{HEADER_ADDRESS}, f0, f0);
    MovedFrame(s0, f0, s1, f1, multiset{HEADER_ADDRESS});
    SlotSame(multiset{HEADER_ADDRESS}, s0, s1, HEADER_ADDRESS);
  }

  /** Rewriting the header leaves the tree alone. */
  lemma {:induction false} HeaderWritten(s: Slots, root: Option<Addr>, d: nat, b: Body, h: Slot)
    requires RootOk(root, d, b, s) && RootStored(root, b, s) && Live(s) == multiset{HEADER_ADDRESS} + RootFoot(root, b)
    ensures var t := s[HEADER_ADDRESS := h];
      RootOk(root, d, b, t) && RootStored(root, b, t) && Live(t) == multiset{HEADER_ADDRESS} + RootFoot(root, b)
  {
    var t, r := s[HEADER_ADDRESS := h], if root.Some? then multiset{root.value} else multiset{};
    assert HEADER_ADDRESS in Live(s);
    MovedWrite(s, HEADER_ADDRESS, h);
    MovedFrame(s, multiset{HEADER_ADDRESS}, t, multiset{HEADER_ADDRESS}, RootFoot(root, b));
    assert t.Keys == s.Keys;
    SameSum(r, Foot(b), s, t);
    SameWide(b, d, s, t);
    if root.Some? {
      SlotSame(r, s, t, root.value);
    }
  }

  /** `BTreeChangeSet::write_plan`: sort the batch, apply it, update the header if it changed. */
  method WritePlan(store: Store, changes: seq<Operation>, ghost root: Option<Addr>, ghost d: nat, ghost b: Body)
      returns (ghost root': Option<Addr>, ghost d': nat, ghost b': Body)
    requires ColumnOk(store.slots, root, d, b) && HeaderFits(store.tierOf)
    modifies store
    ensures ColumnOk(store.slots, root', d', b')
    ensures Contents(b') == ApplyAllToMap(Contents(b), changes)
  {
    hide RootOk, Moved, ApplyAll, Flat, Foot, Progress, SortedOps;
    ghost var s0 := store.slots;
    var header := store.slots[HEADER_ADDRESS];
    var tree := new BTree(header.root, header.depth);
    var sorted := StableSort(changes);
    SortKeepsMeaning(Contents(b), changes);
    b' := tree.WriteSortedChanges(sorted, store, b);
    root', d' := tree.rootIndex, tree.depth;
    BatchMeans(root, d, b, s0, root', d', b', store.slots, sorted);
    if tree.rootIndex != header.root || tree.depth != header.depth {
      HeaderWritten(store.slots, root', d', b', HeaderSlot(tree.rootIndex, tree.depth));
      var _ := store.WriteExisting(HEADER_ADDRESS, HeaderSlot(tree.rootIndex, tree.depth));
    }
  }

  lemma {:induction false} BatchMeans(
      root: Option<Addr>, d: nat, b: Body, s0: Slots, root': Option<Addr>, d': nat, b': Body, s1: Slots,
      ops: seq<Operation>)
    requires Progress(root, b, s0, root', d', b', s1, ops) && ColumnOk(s0, root, d, b)
    ensures Contents(b') == ApplyAllToMap(Contents(b), ops) && RootOk(root', d', b', s1)
    ensures Live(s1) == multiset{HEADER_ADDRESS} + RootFoot(root', b')
    ensures HEADER_ADDRESS in s1 && s1[HEADER_ADDRESS] == s0[HEADER_ADDRESS]
  {
    MovedLive(s0, RootFoot(root, b), s1, RootFoot(root', b'), multiset{HEADER_ADDRESS});
    HeaderKept(s0, RootFoot(root, b), s1, RootFoot(root', b'));
    ApplyAllIsMapUpdate(Flat(b), ops);
  }

  /** Any history of batches from an empty column. */
  method Replay(
      store: Store, batches: seq<seq<Operation>>) returns (ghost root: Option<Addr>, ghost d: nat, ghost b: Body)
    requires store.slots == map[HEADER_ADDRESS := HeaderSlot(None, 0)] && HeaderFits(store.tierOf)
    modifies store
    ensures ColumnOk(store.slots, root, d, b) && Contents(b) == ApplyBatches(map[], batches)
  {
    hide ColumnOk, Contents, HeaderFits;
    EmptyColumn();
    root, d, b := None, 0, Body([], []);
    var rest := batches;
    while rest != []
      invariant ColumnOk(store.slots, root, d, b)
      invariant ApplyBatches(Contents(b), rest) == ApplyBatches(map[], batches)
      decreases |rest|
    {
      root, d, b := WritePlan(store, rest[0], root, d, b);
      rest := rest[1..];
    }
  }

  // ----- Lookup

  lemma {:induction false} InKid(b: Body, i: nat, key: Bytes, lo: real, hi: real, x: Pair)
    requires |b.kids| == |b.items| + 1 && i <= |b.items| && Sorted(Flat(b)) && Inside(Flat(b), lo, hi)
    requires LoOf(b, i, lo) < Rank(key) < HiOf(b, i, hi) && x.key == key
    ensures x in Flat(b) <==> x in FlatTree(b.kids[i])
  {
    FocusBounds(b, i, lo, hi);
    Focus(b, i);
    var l, m, r := FlatL(b.items[..i], b.kids[..i]), FlatTree(b.kids[i]), FlatR(b.items[i..], b.kids[i + 1..]);
    assert x !in l && x !in r;
    assert x in l + (m + r) <==> x in l || x in m || x in r;
  }

  lemma {:induction false} LookupInKid(b: Body, i: nat, key: Bytes, lo: real, hi: real)
    requires |b.kids| == |b.items| + 1 && i <= |b.items| && Sorted(Flat(b)) && Inside(Flat(b), lo, hi)
    requires LoOf(b, i, lo) < Rank(key) < HiOf(b, i, hi)
    ensures At(Contents(b), key) == At(Contents(b.kids[i].body), key)
  {
    FocusBounds(b, i, lo, hi);
    AtIs(Flat(b), key);
    AtIs(FlatTree(b.kids[i]), key);
    forall v
      ensures Pair(key, v) in Flat(b) <==> Pair(key, v) in FlatTree(b.kids[i])
    {
      InKid(b, i, key, lo, hi, Pair(key, v));
    }
  }

  lemma {:induction false} LookupHere(b: Body, i: nat)
    requires i < |b.items| && (b.kids == [] || |b.kids| == |b.items| + 1) && Sorted(Flat(b))
    ensures At(Contents(b), b.items[i].key) == Some(b.items[i].val)
  {
    FlatSplit(b, i);
    assert Flat(b)[|Flat(Left(b, i))|] == P(b.items[i]);
    AtIs(Flat(b), b.items[i].key);
  }

  lemma {:induction false} LookupMissing(b: Body, i: nat, key: Bytes)
    requires b.kids == [] && Sorted(Flat(b)) && Falls(b.items, key, false, i)
    ensures At(Contents(b), key) == None
  {
    LeafCut(b.items, key, i);
    AtIs(Flat(b), key);
    assert forall v :: Pair(key, v) !in Flat(b);
  }

  /** `Node::get`. */
  method NodeGet(
      self: Node, key: Bytes, store: Store, ghost d: nat, ghost b: Body, ghost lo: real, ghost hi: real)
    returns (r: Option<Addr>)
    requires self.Shows(b) && Ready(b, d, store.slots, lo, hi) && lo < Rank(key) < hi
    ensures r.None? ==> At(Contents(b), key) == None
    ensures r.Some? ==>
      r.value in store.slots && store.slots[r.value].ValueSlot?
      && At(Contents(b), key) == Some(store.slots[r.value].val)
    decreases d
  {
    var at, i := Find(self, key, b);
    if at {
      LookupHere(b, i);
      assert StoredItem(b.items[i], store.slots);
      return Some(self.separators[i].value.addr);
    }
    if d > 0 {
      FallsBetween(b, key, i, lo, hi);
      KidReady(b, d, store.slots, i, lo, hi);
      LookupInKid(b, i, key, lo, hi);
    } else {
      LookupMissing(b, i, key);
    }
    var child := FetchChild(self, i, store, b);
    if child != null {
      r := NodeGet(child, key, store, d - 1, b.kids[i].body, LoOf(b, i, lo), HiOf(b, i, hi));
    } else {
      r := None;
    }
  }

  /** `BTreeTable::get`: what the column maps a key to. */
  method Get(store: Store, key: Bytes, ghost root: Option<Addr>, ghost d: nat, ghost b: Body) returns (r: Option<Bytes>)
    requires ColumnOk(store.slots, root, d, b)
    ensures r == At(Contents(b), key)
  {
    var header := store.slots[HEADER_ADDRESS];
    if header.root.None? {
      assert Flat(b) == [];
      return None;
    }
    RootNarrow(root, d, b, store.slots);
    RootReady(root, d, b, store.slots);
    CompareIsRank(key, key);
    var tree := new BTree(header.root, header.depth);
    var node := tree.FetchRoot(store, b);
    var a := NodeGet(node, key, store, d, b, LOWEST, HIGHEST);
    r := if a.None? then None else Some(store.slots[a.value].val);
  }
}
