/**
 The tree of an ordered column: its header, its root, one sorted batch after the other, and
 lookup. `Column` ties the whole storage of the column to the tree: nothing is live but the
 header, the reachable nodes and their values.
 */
module BTree {
  import opened Keys
  import opened Batch
  import opened Tree
  import opened TreeOps
  import opened NodeArrays
  import opened BTreeNode

  /** `Address::new(1, 0)`: slot 1 of the smallest tier. */
  const HEADER_ADDRESS: Addr := 256

  const LOWEST: real := -1.0
  const HIGHEST: real := 1.0

  ghost function RootFoot(root: Option<Addr>, b: Body): multiset<Addr> {
    (if root.Some? then multiset{root.value} else multiset{}) + Foot(b)
  }

  /** Content `b` of the root, held in memory or in slot `root`. */
  ghost predicate RootOk(root: Option<Addr>, d: nat, b: Body, s: Slots) {
    match b
    case Body(items, kids) =>
      && GoodBody(b, d, s) && Owned(RootFoot(root, b), s) && Sorted(Flat(b))
      && (d > 0 ==> |items| > 0) && (root.Some? ==> root.value in s)
  }

  ghost predicate RootStored(root: Option<Addr>, b: Body, s: Slots) {
    if root.None? then b == Body([], []) else Stored(Tree(root.value, b), s)
  }

  lemma {:induction false} InsideAll(s: seq<Pair>)
    ensures Inside(s, LOWEST, HIGHEST)
  {
    forall i | 0 <= i < |s|
      ensures LOWEST < Rank(s[i].key) < HIGHEST
    {
      CompareIsRank(s[i].key, s[i].key);
    }
  }

  /** From content `b0` at the start of the batch to content `b` now. */
  ghost predicate Progress(
      root0: Option<Addr>, b0: Body, s0: Slots, root: Option<Addr>, d: nat, b: Body, s: Slots, ops: seq<Operation>) {
    match b
    case Body(_, _) =>
      && RootOk(root, d, b, s) && Moved(s0, RootFoot(root0, b0), s, RootFoot(root, b))
      && Flat(b) == ApplyAll(Flat(b0), ops)
  }

  lemma {:induction false} RootReady(root: Option<Addr>, d: nat, b: Body, s: Slots)
    requires RootOk(root, d, b, s)
    ensures Ready(b, d, s, LOWEST, HIGHEST)
  {
    InsideAll(Flat(b));
    OwnedPart(if root.Some? then multiset{root.value} else multiset{}, Foot(b), s);
  }

  /** One call of `change` on the root, the root's own slot untouched. */
  lemma {:induction false} RootChanged(
      root: Option<Addr>, d: nat, b: Body, s0: Slots, s1: Slots, ops: seq<Operation>, c: Body, u: Up)
    requires RootOk(root, d, b, s0) && Done(b, d, s0, s1, ops, c, u) && Between(ops, LOWEST, HIGHEST)
    ensures Moved(s0, RootFoot(root, b), s1, RootFoot(root, c) + FootUp(u))
    ensures root.Some? ==> root.value in s0 && root.value in s1 && s1[root.value] == s0[root.value]
    ensures Sorted(FlatUp(c, u)) && GoodBody(c, d, s1) && GoodUp(u, d, s1)
  {
    var r := if root.Some? then multiset{root.value} else multiset{};
    Commute(r, Foot(b), Foot(b));
    MovedFrame(s0, Foot(b), s1, Foot(c) + FootUp(u), r);
    Rearrange(r, Foot(c), FootUp(u));
    if root.Some? {
      SlotSame(r, s0, s1, root.value);
    }
    InsideAll(Flat(b));
    ApplyAllSorted(Flat(b), ops, LOWEST, HIGHEST);
  }

  lemma Rearrange(r: multiset<Addr>, c: multiset<Addr>, u: multiset<Addr>)
    ensures c + u + r == r + c + u
  {
  }

  /** The root was split: a new root of one separator over two children. */
  function Grown(a: Addr, c: Body, u: Up): Body
    requires u.Up?
  {
    Body([u.item], [Tree(a, c), u.tree])
  }

  lemma {:induction false} GrownFlat(a: Addr, c: Body, u: Up)
    requires u.Up?
    ensures Flat(Grown(a, c, u)) == FlatUp(c, u)
  {
    var g := Grown(a, c, u);
    FocusTwo(g, 0);
    assert g.items[..0] == [] && g.kids[..0] == [] && g.items[1..] == [] && g.kids[2..] == [];
    assert FlatL([], []) == [] && FlatR([], []) == [];
    var t := Two(g.kids[0], g.items[0], g.kids[1]);
    assert [] + (t + []) == t;
  }

  lemma {:induction false} GrownFoot(a: Addr, c: Body, u: Up)
    requires u.Up?
    ensures Foot(Grown(a, c, u)) == multiset{a} + Foot(c) + FootUp(u)
  {
    hide FootKids, AddrsOf, Foot;
    var g := Grown(a, c, u);
    OneItem(g);
    TwoKids(g);
    Three(multiset{u.item.addr}, multiset{a} + Foot(c), FootTree(u.tree));
  }

  lemma OneItem(g: Body)
    requires |g.items| == 1
    ensures Foot(g) == multiset{g.items[0].addr} + FootKids(g.kids)
  {
    hide FootKids;
    assert AddrsOf(g.items) == [g.items[0].addr];
  }

  lemma {:induction false} TwoKids(g: Body)
    requires |g.kids| == 2
    ensures FootKids(g.kids) == FootTree(g.kids[0]) + FootTree(g.kids[1])
  {
    hide FootTree;
    FootKidsSplit(g.kids, 1);
    FootKidsSplit(g.kids[..1], 0);
    NoKids();
    assert g.kids[..1][..0] == [] && g.kids[..1][1..] == [] && g.kids[2..] == [];
    assert g.kids[..1][0] == g.kids[0];
  }

  lemma NoKids()
    ensures FootKids([]) == multiset{}
  {
  }

  lemma Three(x: multiset<Addr>, l: multiset<Addr>, r: multiset<Addr>)
    ensures x + (l + r) == l + (x + r)
  {
  }

  /** The root lost its last separator: its only child is the new root. */
  lemma {:induction false} Shrunk(c: Body, d: nat, s: Slots)
    requires 0 < d && GoodBody(c, d, s) && |c.items| == 0
    ensures |c.kids| == 1 && GoodTree(c.kids[0], d - 1, s) && Flat(c) == FlatTree(c.kids[0])
    ensures Foot(c) == FootTree(c.kids[0])
  {
    assert c.kids[..0] == [] && FlatL([], []) == [];
    assert [] + FlatTree(c.kids[0]) == FlatTree(c.kids[0]);
    FootKidsSplit(c.kids, 0);
    assert c.kids[1..] == [] && FootKids([]) == multiset{} && AddrsOf(c.items) == [];
    NoneAround(FootTree(c.kids[0]));
  }

  lemma NoneAround(a: multiset<Addr>)
    ensures multiset{} + (multiset{} + a + multiset{}) == a
  {
  }

  /** Storage after the root's content was written to slot `a`. */
  lemma {:induction false} RootWritten(
      root: Option<Addr>, c: Body, more: multiset<Addr>, s1: Slots, a: Addr, s2: Slots, x: Slot)
    requires Owned(RootFoot(root, c) + more, s1)
    requires root.None? ==> a !in s1 && s2 == s1[a := x]
    requires root.Some? ==> Moved(s1, multiset{root.value}, s2, multiset{a})
    ensures Moved(s1, RootFoot(root, c) + more, s2, multiset{a} + Foot(c) + more) && Same(Foot(c), s1, s2)
    ensures Same(more, s1, s2)
  {
    var r := if root.Some? then multiset{root.value} else multiset{};
    if root.None? {
      MovedAlloc(s1, a, x);
    }
    Sum(r, Foot(c), more);
    Sum(multiset{a}, Foot(c), more);
    MovedFrame(s1, r, s2, multiset{a}, Foot(c) + more);
    SameSum(Foot(c), more, s1, s2);
  }

  lemma {:induction false} Grow(root: Option<Addr>, d: nat, c: Body, u: Up, s1: Slots, a: Addr, s2: Slots)
    requires GoodBody(c, d, s1) && GoodUp(u, d, s1) && u.Up? && |c.items| >= MIDDLE && Sorted(FlatUp(c, u))
    requires Owned(RootFoot(root, c) + FootUp(u), s1)
    requires root.None? ==> a !in s1 && s2 == s1[a := SlotOf(c)]
    requires root.Some? ==> Moved(s1, multiset{root.value}, s2, multiset{a}) && Stored(Tree(a, c), s2)
    ensures RootOk(None, d + 1, Grown(a, c, u), s2) && Flat(Grown(a, c, u)) == FlatUp(c, u)
    ensures Moved(s1, RootFoot(root, c) + FootUp(u), s2, RootFoot(None, Grown(a, c, u)))
  {
    hide Moved, Sorted, Flat, FlatTree, FlatL, Rank, Foot, FootTree, Owned, ApplyAll;
    var g := Grown(a, c, u);
    RootWritten(root, c, FootUp(u), s1, a, s2, SlotOf(c));
    GrownFlat(a, c, u);
    GrownFoot(a, c, u);
    NoneAnd(Foot(g));
    SameWide(c, d, s1, s2);
    SameUp(u, d, s1, s2);
    assert GoodTree(Tree(a, c), d, s2);
    assert GoodBody(g, d + 1, s2);
  }

  lemma {:induction false} ProgressBy(
      root0: Option<Addr>, b0: Body, s0: Slots, root: Option<Addr>, b: Body, s1: Slots, done: seq<Operation>,
    ops: seq<Operation>, f: multiset<Addr>, s2: Slots, root': Option<Addr>, d': nat, b': Body, s3: Slots, t: seq<Pair>)
    requires Moved(s0, RootFoot(root0, b0), s1, RootFoot(root, b)) && Flat(b) == ApplyAll(Flat(b0), done)
    requires Moved(s1, RootFoot(root, b), s2, f) && t == ApplyAll(Flat(b), ops)
    requires Moved(s2, f, s3, RootFoot(root', b')) && RootOk(root', d', b', s3) && Flat(b') == t
    ensures Progress(root0, b0, s0, root', d', b', s3, done + ops)
  {
    MovedTrans(s0, RootFoot(root0, b0), s1, RootFoot(root, b), s2, f);
    MovedTrans(s0, RootFoot(root0, b0), s2, f, s3, RootFoot(root', b'));
    ApplyAllAppend(Flat(b0), done, ops);
  }

  class BTree {
    var depth: nat
    var rootIndex: Option<Addr>

    constructor (rootIndex: Option<Addr>, depth: nat)
      ensures this.rootIndex == rootIndex && this.depth == depth
    {
      this.rootIndex := rootIndex;
      this.depth := depth;
    }

    method FetchRoot(store: Store, ghost b: Body) returns (root: Node)
      requires RootStored(rootIndex, b, store.slots) && Narrow(b)
      ensures fresh(root) && root.Shows(b) && (rootIndex.Some? ==> !root.changed) && (rootIndex.None? ==> root.changed)
    {
      if rootIndex.None? {
        root := new Node.Default();
        assert Seps([]) == [] && Roots([]) == [];
      } else {
        root := new Node.FromSlot(store.slots[rootIndex.value]);
      }
    }

    /** The root was split: add one level. */
    method AddLevel(
        root: Node, sep: Sep, right: Addr, store: Store, ghost c: Body, ghost u: Up) returns (top: Node, ghost g: Body)
      requires root.Shows(c) && root.changed && Matches(Some((sep, right)), u)
      requires GoodBody(c, depth, store.slots) && GoodUp(u, depth, store.slots) && |c.items| >= MIDDLE
      requires Sorted(FlatUp(c, u))
      requires Owned(RootFoot(rootIndex, c) + FootUp(u), store.slots)
      requires (rootIndex.Some? ==> rootIndex.value in store.slots)
      modifies this, store
      ensures depth == old(depth) + 1 && rootIndex == None && fresh(top) && top.Shows(g) && top.changed
      ensures RootOk(None, depth, g, store.slots) && Flat(g) == FlatUp(c, u)
      ensures Moved(old(store.slots), RootFoot(old(rootIndex), c) + FootUp(u), store.slots, RootFoot(None, g))
    {
      hide Flat, FlatTree, FlatL, Rank, Sorted, Foot, FootTree, GoodBody, GoodTree, Owned, Moved, ApplyAll;
      ghost var s1, index := store.slots, rootIndex;
      depth := depth + 1;
      var leftIndex := rootIndex;
      rootIndex := None;
      var newIndex := WriteNodePlan(root, store, leftIndex);
      var a := if newIndex.Some? then newIndex.value else leftIndex.value;
      if leftIndex.Some? {
        MovedExisting(s1, leftIndex.value, SlotOf(c), newIndex, store.slots);
      }
      Grow(index, depth - 1, c, u, s1, a, store.slots);
      top := new Node.Default();
      g := Grown(a, c, u);
      top.SetChild(0, a);
      top.SetChild(1, right);
      top.SetSeparator(0, sep);
      assert Seps(g.items) == [sep] && Roots(g.kids) == [a, right];
    }

    /** The root has no separator left: its only child becomes the root. */
    method DropLevel(root: Node, store: Store, ghost c: Body) returns (top: Node, ghost g: Body)
      requires root.Shows(c) && GoodBody(c, depth, store.slots) && Sorted(Flat(c))
      requires Owned(RootFoot(rootIndex, c), store.slots) && (rootIndex.Some? ==> rootIndex.value in store.slots)
      modifies this, store
      ensures top == root || fresh(top)
      ensures top.Shows(g) && RootOk(rootIndex, depth, g, store.slots) && Flat(g) == Flat(c)
      ensures Moved(old(store.slots), RootFoot(old(rootIndex), c), store.slots, RootFoot(rootIndex, g))
      ensures top == root ==> g == c && store.slots == old(store.slots) && rootIndex == old(rootIndex)
      ensures top != root ==> !top.changed && rootIndex.Some? && Stored(Tree(rootIndex.value, g), store.slots)
    {
      top, g := root, c;
      var n := root.NumberSeparator();
      assert |c.items| < ORDER ==> root.separators[|c.items|].None?;
      if n == 0 && root.children[0].Some? {
        top, g := DropRoot(root, store, c);
      } else {
        assert depth > 0 ==> |c.items| > 0;
      }
    }

    method DropRoot(root: Node, store: Store, ghost c: Body) returns (top: Node, ghost g: Body)
      requires root.Shows(c) && depth > 0 && GoodBody(c, depth, store.slots) && Sorted(Flat(c)) && |c.items| == 0
      requires Owned(RootFoot(rootIndex, c), store.slots) && (rootIndex.Some? ==> rootIndex.value in store.slots)
      modifies this, store
      ensures fresh(top) && top.Shows(g) && !top.changed
      ensures rootIndex.Some? && RootOk(rootIndex, depth, g, store.slots)
      ensures Stored(Tree(rootIndex.value, g), store.slots)
      ensures Flat(g) == Flat(c)
      ensures Moved(old(store.slots), RootFoot(old(rootIndex), c), store.slots, RootFoot(rootIndex, g))
    {
      hide Moved, Sorted, RootOk;
      Shrunk(c, depth, store.slots);
      ghost var k, s1, index := c.kids[0], store.slots, rootIndex;
      assert GoodWide(k.body, depth - 1, s1);
      top := FetchChild(root, 0, store, c);
      var child := root.children[0];
      g := k.body;
      depth := depth - 1;
      if rootIndex.Some? {
        store.Remove(rootIndex.value);
      }
      rootIndex := child;
      Shrink(index, depth, k, s1, store.slots);
    }

    /** One call of `change` on the root, and what it asks for. */
    method ChangeRoot(
        root: Node, rest: seq<Operation>, store: Store, ghost b: Body, ghost root0: Option<Addr>, ghost b0: Body,
        ghost s0: Slots, ghost done: seq<Operation>)
        returns (left: seq<Operation>, top: Node, ghost g: Body)
      requires rest != [] && SortedOps(rest) && root.Shows(b)
      requires Progress(root0, b0, s0, rootIndex, depth, b, store.slots, done)
      requires root.changed || (rootIndex.Some? && Stored(Tree(rootIndex.value, b), store.slots))
      modifies this, root, store
      ensures |left| < |rest| && left == rest[|rest| - |left|..] && (top == root || fresh(top))
      ensures top.Shows(g) && Progress(root0, b0, s0, rootIndex, depth, g, store.slots, done + rest[..|rest| - |left|])
      ensures top.changed || (rootIndex.Some? && Stored(Tree(rootIndex.value, g), store.slots))
    {
      hide Moved, Sorted, GoodWide, ApplyAll, Between, SortedOps, Flat, FlatTree, FlatL, Rank, Foot, FootTree;
      hide GoodBody, GoodTree, Owned;
      ghost var s1 := store.slots;
      RootReady(rootIndex, depth, b, s1);
      CompareIsRank(rest[0].key, rest[0].key);
      var last, up, under;
      ghost var c, u;
      last, up, under, c, u := Change(root, null, 0, depth, rest, store, b, b, LOWEST, HIGHEST);
      ghost var s2, ops := store.slots, Consumed(rest, last);
      RootChanged(rootIndex, depth, b, s1, s2, ops, c, u);
      left := last[1..];
      assert rest[..|rest| - |left|] == ops;
      top, g := SettleRoot(root, up, under, store, c, u, b);
      ProgressBy(root0, b0, s0, old(rootIndex), b, s1, done, ops, RootFoot(old(rootIndex), c) + FootUp(u), s2,
      rootIndex, depth, g,
        store.slots, FlatUp(c, u));
    }

    /** Add a level when the root was split, drop one when it lost its last separator. */
    method SettleRoot(
        root: Node, up: Option<(Sep, Addr)>, under: bool, store: Store, ghost c: Body, ghost u: Up, ghost b: Body)
        returns (top: Node, ghost g: Body)
      requires root.Shows(c) && Matches(up, u) && Sized(b, c, u, under) && (depth > 0 ==> |b.items| > 0)
      requires GoodBody(c, depth, store.slots) && GoodUp(u, depth, store.slots) && Sorted(FlatUp(c, u))
      requires Owned(RootFoot(rootIndex, c) + FootUp(u), store.slots)
      requires (rootIndex.Some? ==> rootIndex.value in store.slots)
      requires up.Some? ==> root.changed
      requires root.changed || (rootIndex.Some? && Stored(Tree(rootIndex.value, c), store.slots))
      modifies this, store
      ensures (top == root || fresh(top)) && top.Shows(g) && RootOk(rootIndex, depth, g, store.slots)
      ensures Flat(g) == FlatUp(c, u)
      ensures Moved(old(store.slots), RootFoot(old(rootIndex), c) + FootUp(u), store.slots, RootFoot(rootIndex, g))
      ensures top.changed || (rootIndex.Some? && Stored(Tree(rootIndex.value, g), store.slots))
    {
      hide Moved, Sorted, GoodWide, RootOk;
      if up.Some? {
        top, g := AddLevel(root, up.value.0, up.value.1, store, c, u);
      } else {
        assert RootFoot(rootIndex, c) + FootUp(u) == RootFoot(rootIndex, c);
        top, g := root, c;
        if under {
          top, g := DropLevel(root, store, c);
        } else {
          RootKept(rootIndex, depth, c, store.slots);
        }
      }
    }

    /** Apply a batch sorted by key. */
    method WriteSortedChanges(changes: seq<Operation>, store: Store, ghost b0: Body) returns (ghost b: Body)
      requires SortedOps(changes) && RootOk(rootIndex, depth, b0, store.slots) && RootStored(rootIndex, b0, store.slots)
      modifies this, store
      ensures Progress(old(rootIndex), b0, old(store.slots), rootIndex, depth, b, store.slots, changes)
      ensures RootStored(rootIndex, b, store.slots)
    {
      hide Progress, Node.Shows, SortedOps, RootOk;
      ghost var root0, s0 := rootIndex, store.slots;
      RootNarrow(rootIndex, depth, b0, s0);
      var root := FetchRoot(store, b0);
      b := b0;
      ProgressFirst(rootIndex, depth, b0, s0);
      var rest := changes;
      ghost var n := 0;
      while rest != []
        invariant n <= |changes| && rest == changes[n..] && fresh(root)
        invariant root.Shows(b) && Progress(root0, b0, s0, rootIndex, depth, b, store.slots, changes[..n])
        invariant root.changed || (rootIndex.Some? && Stored(Tree(rootIndex.value, b), store.slots))
        decreases |rest|
      {
        ghost var m := n;
        ghost var before := rest;
        SortedTail(changes, n);
        rest, root, b := ChangeRoot(root, rest, store, b, root0, b0, s0, changes[..n]);
        n := |changes| - |rest|;
        assert changes[..m] + before[..|before| - |rest|] == changes[..n];
        assert rest == changes[n..];
      }
      assert changes[..n] == changes;
      SaveRoot(root, store, b, root0, b0, s0, changes);
    }

    method SaveRoot(
        root: Node, store: Store, ghost b: Body, ghost root0: Option<Addr>, ghost b0: Body, ghost s0: Slots,
        ghost ops: seq<Operation>)
      requires root.Shows(b) && Progress(root0, b0, s0, rootIndex, depth, b, store.slots, ops)
      requires root.changed || (rootIndex.Some? && Stored(Tree(rootIndex.value, b), store.slots))
      modifies this, store
      ensures Progress(root0, b0, s0, rootIndex, depth, b, store.slots, ops) && RootStored(rootIndex, b, store.slots)
      ensures depth == old(depth)
    {
      if root.changed {
        ghost var s1, index := store.slots, rootIndex;
        var r := WriteNodePlan(root, store, rootIndex);
        if index.Some? {
          MovedExisting(s1, index.value, SlotOf(b), r, store.slots);
        }
        if r.Some? {
          rootIndex := r;
        }
        Saved(root0, b0, s0, index, depth, b, s1, ops, rootIndex.value, store.slots);
      }
    }
  }

  lemma SortedTail(changes: seq<Operation>, n: nat)
    requires SortedOps(changes) && n <= |changes|
    ensures SortedOps(changes[n..])
  {
  }

  lemma MovedRefl(s: Slots, f: multiset<Addr>)
    requires Owned(f, s)
    ensures Moved(s, f, s, f)
  {
  }

  lemma RootKept(root: Option<Addr>, d: nat, b: Body, s: Slots)
    requires GoodBody(b, d, s) && Owned(RootFoot(root, b), s) && Sorted(Flat(b)) && (d > 0 ==> |b.items| > 0)
    requires root.Some? ==> root.value in s
    ensures RootOk(root, d, b, s) && Moved(s, RootFoot(root, b), s, RootFoot(root, b))
  {
  }

  lemma {:induction false} RootNarrow(root: Option<Addr>, d: nat, b: Body, s: Slots)
    requires RootOk(root, d, b, s)
    ensures Narrow(b)
  {
  }

  lemma {:induction false} ProgressFirst(root: Option<Addr>, d: nat, b: Body, s: Slots)
    requires RootOk(root, d, b, s)
    ensures Progress(root, b, s, root, d, b, s, [])
  {
    MovedRefl(s, RootFoot(root, b));
  }

  lemma {:induction false} Saved(
      root0: Option<Addr>, b0: Body, s0: Slots, root: Option<Addr>, d: nat, b: Body, s1: Slots, ops: seq<Operation>,
      a: Addr, s2: Slots)
    requires Progress(root0, b0, s0, root, d, b, s1, ops)
    requires root.None? ==> a !in s1 && s2 == s1[a := SlotOf(b)]
    requires root.Some? ==> Moved(s1, multiset{root.value}, s2, multiset{a}) && Stored(Tree(a, b), s2)
    ensures Progress(root0, b0, s0, Some(a), d, b, s2, ops) && Stored(Tree(a, b), s2)
  {
    assert RootFoot(root, b) + multiset{} == RootFoot(root, b);
    RootWritten(root, b, multiset{}, s1, a, s2, SlotOf(b));
    assert multiset{a} + Foot(b) + multiset{} == RootFoot(Some(a), b);
    MovedTrans(s0, RootFoot(root0, b0), s1, RootFoot(root, b), s2, RootFoot(Some(a), b));
    SameWide(b, d, s1, s2);
  }

  lemma {:induction false} Shrink(root: Option<Addr>, d: nat, k: Tree, s1: Slots, s2: Slots)
    requires GoodTree(k, d, s1) && Sorted(FlatTree(k))
    requires Owned((if root.Some? then multiset{root.value} else multiset{}) + FootTree(k), s1)
    requires s2 == if root.Some? then s1 - {root.value} else s1
    requires root.Some? ==> root.value in s1
    ensures RootOk(Some(k.addr), d, k.body, s2) && Stored(k, s2)
    ensures Moved(s1, (if root.Some? then multiset{root.value} else multiset{}) + FootTree(k), s2,
      RootFoot(Some(k.addr), k.body))
  {
    var r := if root.Some? then multiset{root.value} else multiset{};
    if root.Some? {
      MovedFree(s1, root.value);
    }
    MovedFrame(s1, r, s2, multiset{}, FootTree(k));
    NoneAnd(FootTree(k));
    assert Stored(k, s1) && GoodWide(k.body, d, s1);
    SameTree(k, d, s1, s2);
    assert k.addr in s2;
  }
}
