/**
 The tree operations of a node: change a batch below it, insert with splitting, remove with
 borrowing and merging. Each method is specified on the logical tree: what it holds in order,
 what it occupies, and the shape it keeps.
 */
module BTreeNode {
  import opened Keys
  import opened Batch
  import opened Tree
  import opened TreeOps
  import opened NodeArrays

  function Without(s: Slots, id: Option<Addr>): Slots {
    if id.Some? then s - {id.value} else s
  }

  method FetchChild(self: Node, i: nat, store: Store, ghost b: Body) returns (child: Node?)
    requires |b.kids| <= ORDER_CHILD && self.children == Pad(Roots(b.kids), ORDER_CHILD) && i < ORDER_CHILD
    requires i < |b.kids| ==> Stored(b.kids[i], store.slots) && Narrow(b.kids[i].body)
    ensures child == null <==> i >= |b.kids|
    ensures child != null ==> fresh(child) && child.Shows(b.kids[i].body) && !child.changed
  {
    if self.children[i].None? {
      return null;
    }
    child := new Node.FromSlot(store.slots[self.children[i].value]);
  }

  /** Content that fits the arrays of one node. */
  ghost predicate Narrow(b: Body) {
    |b.items| <= ORDER && (b.kids == [] || |b.kids| == |b.items| + 1)
  }

  method WriteNodePlan(node: Node, store: Store, id: Option<Addr>) returns (r: Option<Addr>)
    requires id.Some? ==> id.value in store.slots
    modifies store
    ensures !node.changed ==> r.None? && store.slots == old(store.slots)
    ensures node.changed && r.None? ==>
      id.Some? && store.slots == old(store.slots)[id.value := NodeSlot(node.separators, node.children)]
    ensures node.changed && r.Some? ==>
      && r.value !in old(store.slots) && r.value >= 256
      && store.slots == Without(old(store.slots), id)[r.value := NodeSlot(node.separators, node.children)]
  {
    if !node.changed {
      return None;
    }
    var x := NodeSlot(node.separators, node.children);
    if id.Some? {
      r := store.WriteExisting(id.value, x);
    } else {
      var a := store.WriteNew(x);
      r := Some(a);
    }
  }

  /** Store a changed child and note its address if it moved. */
  method WriteChildSlot(
      self: Node, i: nat, child: Node, store: Store, ghost a: Addr, ghost c: Body) returns (ghost t: Tree)
    requires child.Shows(c) && child != self && i < |self.children| && self.children[i] == Some(a)
    requires a in store.slots && (child.changed || store.slots[a] == SlotOf(c))
    modifies self, store
    ensures t.body == c && Stored(t, store.slots)
    ensures self.children == old(self.children)[i := Some(t.addr)] && self.separators == old(self.separators)
    ensures Moved(old(store.slots), multiset{a}, store.slots, multiset{t.addr})
    ensures old(self.changed) ==> self.changed
    ensures !self.changed ==> self.children == old(self.children)
  {
    t := Tree(a, c);
    if child.changed {
      var r := WriteNodePlan(child, store, self.children[i]);
      if r.Some? {
        self.changed := true;
        self.children := self.children[i := r];
        t := Tree(r.value, c);
      }
    }
  }

  method WriteChild(self: Node, i: nat, child: Node, store: Store, ghost b: Body, ghost c: Body) returns (ghost t: Tree)
    requires self.Shows(b) && child.Shows(c) && child != self && i < |b.kids|
    requires b.kids[i].addr in store.slots && (child.changed || store.slots[b.kids[i].addr] == SlotOf(c))
    modifies self, store
    ensures t.body == c && Stored(t, store.slots) && self.Shows(WithKid(b, i, t))
    ensures Moved(old(store.slots), multiset{b.kids[i].addr}, store.slots, multiset{t.addr})
    ensures self.separators == old(self.separators)
    ensures old(self.changed) ==> self.changed
    ensures !self.changed ==> self.children == old(self.children)
  {
    t := WriteChildSlot(self, i, child, store, b.kids[i].addr, c);
    assert Roots(WithKid(b, i, t).kids) == Roots(b.kids)[i := t.addr];
  }

  // ----- Insertion

  ghost predicate Matches(up: Option<(Sep, Addr)>, u: Up) {
    match u
    case NoUp => up.None?
    case Up(x, t) => up == Some((Sep(x.key, x.addr), t.addr))
  }

  /** From content `w`, one separator too wide perhaps, to a node and what goes up. */
  ghost predicate Settled(w: Body, d: nat, s0: Slots, s1: Slots, c: Body, u: Up) {
    && GoodBody(c, d, s1) && GoodUp(u, d, s1)
    && Moved(s0, Foot(w), s1, Foot(c) + FootUp(u))
    && FlatUp(c, u) == Flat(w)
    && (if u.Up? then |c.items| == MIDDLE else c == w)
  }

  lemma {:induction false} SplitSettles(w: Body, d: nat, s0: Slots, s1: Slots, a: Addr)
    requires GoodWide(w, d, s0) && Owned(Foot(w), s0) && |w.items| == ORDER + 1
    requires a !in s0 && s1 == s0[a := SlotOf(Right(w, MIDDLE))]
    ensures Settled(w, d, s0, s1, Left(w, MIDDLE), Up(w.items[MIDDLE], Tree(a, Right(w, MIDDLE))))
  {
    hide Flat, FlatL, Rank, Sorted, Foot, Owned, Moved;
    var c, x, r := Left(w, MIDDLE), w.items[MIDDLE], Right(w, MIDDLE);
    FlatSplit(w, MIDDLE);
    assert Moved(s0, Foot(w), s1, Foot(c) + (multiset{x.addr} + FootTree(Tree(a, r)))) && GoodWide(w, d, s1) by {
      MovedAlloc(s0, a, SlotOf(r));
      NoneAnd(Foot(w));
      MovedFrame(s0, multiset{}, s1, multiset{a}, Foot(w));
      FootSplit(w, MIDDLE);
      Rotate(multiset{a}, Foot(c), multiset{x.addr}, Foot(r));
      SameWide(w, d, s0, s1);
    }
    GoodHalves(w, d, s1, MIDDLE);
  }

  lemma NoneAnd(a: multiset<Addr>)
    ensures multiset{} + a == a
  {
  }

  lemma Rotate(a: multiset<Addr>, c: multiset<Addr>, x: multiset<Addr>, r: multiset<Addr>)
    ensures a + (c + x + r) == c + (x + (a + r))
  {
  }

  lemma {:induction false} NothingUp(w: Body, d: nat, s: Slots)
    requires GoodBody(w, d, s) && Owned(Foot(w), s)
    ensures Settled(w, d, s, s, w, NoUp)
  {
    assert Foot(w) + multiset{} == Foot(w);
  }

  /** Put a separator into a node, splitting a full one (`insert` at a leaf, `insert_node` above). */
  method InsertNode(
      self: Node, i: nat, sep: Sep, child: Option<Addr>, store: Store, ghost b: Body, ghost w: Body, ghost d: nat)
      returns (up: Option<(Sep, Addr)>, ghost c: Body, ghost u: Up)
    requires self.Shows(b) && i <= |b.items| && Fits(Seps(b.items), Roots(b.kids), child)
    requires Seps(w.items) == Wide(Seps(b.items), i, sep) && Roots(w.kids) == WideKids(Roots(b.kids), i, child)
    requires GoodWide(w, d, store.slots) && Owned(Foot(w), store.slots)
    modifies self, store
    ensures self.changed && self.Shows(c) && Matches(up, u)
    ensures Settled(w, d, old(store.slots), store.slots, c, u)
  {
    hide Flat, FlatTree, FlatL, Rank, Sorted, Foot, FootTree, GoodBody, GoodTree, Owned, Moved;
    var top, right := self.Place(i, sep, child, Seps(b.items), Roots(b.kids));
    if top.None? {
      up, c, u := None, w, NoUp;
      NothingUp(w, d, store.slots);
    } else {
      ghost var r := Right(w, MIDDLE);
      assert right.Shows(r) by {
        assert Seps(r.items) == Seps(w.items)[MIDDLE + 1..];
        assert Roots(r.kids) == Rest(Roots(w.kids));
      }
      var x := WriteNodePlan(right, store, None);
      up := Some((top.value, x.value));
      c, u := Left(w, MIDDLE), Up(w.items[MIDDLE], Tree(x.value, r));
      assert self.Shows(c) by {
        assert Seps(c.items) == Seps(w.items)[..MIDDLE];
        assert Roots(c.kids) == Head(Roots(w.kids));
      }
      SplitSettles(w, d, old(store.slots), store.slots, x.value);
    }
  }

  // ----- Rebalancing

  ghost predicate Rebalanced(b: Body, d: nat, s0: Slots, s1: Slots, c: Body) {
    GoodBody(c, d, s1) && Flat(c) == Flat(b) && Moved(s0, Foot(b), s1, Foot(c)) && |c.items| >= |b.items| - 1
  }

  /** Two stored siblings and the separator between them, the one or the other short of a separator. */
  ghost predicate GoodPair(k: Tree, x: Item, l: Tree, d: nat, s: Slots) {
    match k
    case Tree(_, body) =>
      GoodWide(body, d, s) && StoredItem(x, s) && GoodWide(l.body, d, s) && Owned(FootPair(k, x, l), s)
  }

  lemma {:induction false} JoinIs(k: Tree, x: Item, l: Tree, d: nat, s: Slots)
    requires GoodPair(k, x, l, d, s)
    ensures GoodWide(Join(k.body, x, l.body), d, s)
    ensures Flat(Join(k.body, x, l.body)) == Two(k, x, l)
    ensures FootPair(k, x, l) == multiset{k.addr} + multiset{l.addr} + Foot(Join(k.body, x, l.body))
  {
    GoodJoin(k.body, x, l.body, d, s);
    JoinCuts(k.body, x, l.body);
    CutAgain(Join(k.body, x, l.body), |k.body.items|, k, l);
  }

  lemma {:induction false} CutAgain(w: Body, j: nat, k: Tree, l: Tree)
    requires j < |w.items| && (w.kids == [] || |w.kids| == |w.items| + 1) && k.body == Left(w, j)
    requires l.body == Right(w, j)
    ensures FootPair(k, w.items[j], l) == multiset{k.addr} + multiset{l.addr} + Foot(w)
    ensures Two(k, w.items[j], l) == Flat(w)
  {
    FlatSplit(w, j);
    FootSplit(w, j);
    FiveParts(multiset{k.addr}, Foot(k.body), multiset{w.items[j].addr}, multiset{l.addr}, Foot(l.body));
  }

  lemma FiveParts(p: multiset<Addr>, k: multiset<Addr>, x: multiset<Addr>, q: multiset<Addr>, l: multiset<Addr>)
    ensures p + k + x + (q + l) == p + q + (k + x + l)
  {
  }

  /** Slots `own` gave way to `f`; content `w` beside them stays good. */
  lemma {:induction false} Beside(w: Body, d: nat, s0: Slots, s1: Slots, own: multiset<Addr>, f: multiset<Addr>)
    requires GoodWide(w, d, s0) && Owned(own + Foot(w), s0) && Moved(s0, own, s1, f)
    ensures GoodWide(w, d, s1) && Moved(s0, own + Foot(w), s1, f + Foot(w))
  {
    MovedFrame(s0, own, s1, f, Foot(w));
    SameWide(w, d, s0, s1);
  }

  lemma {:induction false} GoodCut(w: Body, d: nat, s: Slots, j: nat, k: Tree, l: Tree)
    requires GoodWide(w, d, s) && MIDDLE <= j <= ORDER && j + 1 + MIDDLE <= |w.items| <= j + 1 + ORDER
    requires k.body == Left(w, j) && l.body == Right(w, j) && Stored(k, s) && Stored(l, s)
    ensures GoodTree(k, d, s) && GoodTree(l, d, s) && StoredItem(w.items[j], s)
  {
    GoodHalves(w, d, s, j);
  }

  /** The pair's content cut at another separator: what borrowing does. */
  lemma {:induction false} Borrowed(k: Tree, x: Item, l: Tree, d: nat, s0: Slots, s1: Slots, j: nat, k': Tree, l': Tree)
      returns (y: Item)
    requires GoodPair(k, x, l, d, s0)
    requires MIDDLE <= j <= ORDER && j + 1 + MIDDLE <= |Join(k.body, x, l.body).items| <= j + 1 + ORDER
    requires k'.body == Left(Join(k.body, x, l.body), j) && l'.body == Right(Join(k.body, x, l.body), j)
    requires Moved(s0, multiset{k.addr} + multiset{l.addr}, s1, multiset{k'.addr} + multiset{l'.addr})
    requires Stored(k', s1) && Stored(l', s1)
    ensures y == Join(k.body, x, l.body).items[j]
    ensures GoodTree(k', d, s1) && GoodTree(l', d, s1) && StoredItem(y, s1)
    ensures Moved(s0, FootPair(k, x, l), s1, FootPair(k', y, l')) && Two(k', y, l') == Two(k, x, l)
  {
    var w := Join(k.body, x, l.body);
    y := w.items[j];
    JoinIs(k, x, l, d, s0);
    Beside(w, d, s0, s1, multiset{k.addr} + multiset{l.addr}, multiset{k'.addr} + multiset{l'.addr});
    GoodCut(w, d, s1, j, k', l');
    CutAgain(w, j, k', l');
  }

  /** The pair's content in one node. */
  lemma {:induction false} Merged(k: Tree, x: Item, l: Tree, d: nat, s0: Slots, s1: Slots, m: Tree)
    requires GoodPair(k, x, l, d, s0)
    requires MIDDLE <= |m.body.items| <= ORDER && m.body == Join(k.body, x, l.body)
    requires Moved(s0, multiset{k.addr} + multiset{l.addr}, s1, multiset{m.addr}) && Stored(m, s1)
    ensures GoodTree(m, d, s1) && Moved(s0, FootPair(k, x, l), s1, FootTree(m)) && FlatTree(m) == Two(k, x, l)
  {
    JoinIs(k, x, l, d, s0);
    Beside(m.body, d, s0, s1, multiset{k.addr} + multiset{l.addr}, multiset{m.addr});
  }

  lemma {:induction false} PairOf(b: Body, d: nat, s: Slots, at: nat, i: nat)
    requires GoodBut(b, d, s, at) && i < |b.items| && (at == i || at == i + 1) && Owned(Foot(b), s)
    ensures GoodPair(b.kids[i], b.items[i], b.kids[i + 1], d - 1, s)
  {
    assert StoredItem(b.items[i], s) && GoodWide(b.kids[i].body, d - 1, s) && GoodWide(b.kids[i + 1].body, d - 1, s);
    FootFocusTwo(b, i);
    OwnedPart(FootPair(b.kids[i], b.items[i], b.kids[i + 1]), OthersTwo(b, i), s);
  }

  lemma OwnedPart(f: multiset<Addr>, g: multiset<Addr>, s: Slots)
    requires Owned(f + g, s)
    ensures Owned(f, s) && Owned(g, s)
  {
    assert forall a :: (f + g)[a] == f[a] + g[a];
  }

  /** A node whose separator `i` was exchanged in memory. */
  function WithItem(b: Body, i: nat, x: Item): Body
    requires i < |b.items|
  {
    Body(b.items[i := x], b.kids)
  }

  lemma {:induction false} SepsUpdate(items: seq<Item>, i: nat, x: Item)
    requires i < |items|
    ensures Seps(items[i := x]) == Seps(items)[i := Sep(x.key, x.addr)]
  {
  }

  lemma {:induction false} PadUpdate<T>(s: seq<T>, i: nat, x: T, n: nat)
    requires i < |s| <= n
    ensures Pad(s[i := x], n) == Pad(s, n)[i := Some(x)]
  {
  }

  /** Exchange separator `i` of a node for the one of `y`, as borrowing does. */
  method SwapSeparator(self: Node, i: nat, sep: Sep, ghost b: Body, ghost y: Item) returns (out: Sep)
    requires self.Shows(b) && i < |b.items| && sep == Sep(y.key, y.addr)
    modifies self
    ensures self.changed && out == Sep(b.items[i].key, b.items[i].addr) && self.Shows(WithItem(b, i, y))
  {
    var x := self.RemoveSeparator(i);
    out := x.value;
    self.SetSeparator(i, sep);
    SepsUpdate(b.items, i, y);
    PadUpdate(Seps(b.items), i, sep, ORDER);
  }

  /** Write back both children of a pair. */
  method WritePair(
      self: Node, i: nat, left: Node, right: Node, store: Store, ghost b: Body, ghost lc: Body, ghost rc: Body)
      returns (ghost k: Tree, ghost l: Tree)
    requires self.Shows(b) && left.Shows(lc) && right.Shows(rc) && i + 1 < |b.kids|
    requires self != left && self != right && left.changed && right.changed
    requires Owned(multiset{b.kids[i].addr} + multiset{b.kids[i + 1].addr}, store.slots)
    modifies self, store
    ensures k.body == lc && l.body == rc && Stored(k, store.slots) && Stored(l, store.slots)
    ensures self.Shows(WithKid(WithKid(b, i, k), i + 1, l))
    ensures Moved(old(store.slots), multiset{b.kids[i].addr} + multiset{b.kids[i + 1].addr},
      store.slots, multiset{k.addr} + multiset{l.addr})
    ensures old(self.changed) ==> self.changed
  {
    ghost var s0, p, q := store.slots, multiset{b.kids[i].addr}, multiset{b.kids[i + 1].addr};
    assert p[b.kids[i].addr] + q[b.kids[i].addr] == (p + q)[b.kids[i].addr] <= 1;
    assert (p + q)[b.kids[i + 1].addr] <= 1;
    k := WriteChild(self, i, left, store, b, lc);
    ghost var s1 := store.slots;
    MovedFrame(s0, p, s1, multiset{k.addr}, q);
    l := WriteChild(self, i + 1, right, store, WithKid(b, i, k), rc);
    Commute(multiset{k.addr}, q, multiset{l.addr});
    MovedFrame(s1, q, store.slots, multiset{l.addr}, multiset{k.addr});
    MovedTrans(s0, p + q, s1, q + multiset{k.addr}, store.slots, multiset{l.addr} + multiset{k.addr});
    SlotSame(multiset{k.addr}, s1, store.slots, k.addr);
  }

  lemma Commute(a: multiset<Addr>, b: multiset<Addr>, c: multiset<Addr>)
    ensures a + b == b + a && a + c == c + a
  {
  }

  lemma {:induction false} PairShown(b: Body, i: nat, k: Tree, y: Item, l: Tree)
    requires i < |b.items| && |b.kids| == |b.items| + 1
    ensures WithKid(WithKid(WithItem(b, i, y), i, k), i + 1, l) == WithPair(b, i, k, y, l)
  {
    var c, e := WithKid(WithKid(WithItem(b, i, y), i, k), i + 1, l), WithPair(b, i, k, y, l);
    assert c.items == e.items && c.kids == e.kids;
  }

  ghost predicate SameHeight(k: Body, l: Body, hasChild: bool) {
    if hasChild then |k.kids| == |k.items| + 1 && |l.kids| == |l.items| + 1 else k.kids == [] && l.kids == []
  }

  lemma {:induction false} CutBefore(k: Body, x: Item, l: Body, hasChild: bool)
    requires SameHeight(k, l, hasChild) && |k.items| > 0
    ensures var w, j := Join(k, x, l), |k.items| - 1;
      && w.items[j] == k.items[j]
      && Seps(Left(w, j).items) == Seps(k.items)[..j]
      && Roots(Left(w, j).kids) == (if hasChild then Roots(k.kids)[..j + 1] else [])
      && Seps(Right(w, j).items) == [Sep(x.key, x.addr)] + Seps(l.items)
      && Roots(Right(w, j).kids) == (if hasChild then [Roots(k.kids)[j + 1]] + Roots(l.kids) else [])
  {
  }

  lemma {:induction false} CutAfter(k: Body, x: Item, l: Body, hasChild: bool)
    requires SameHeight(k, l, hasChild) && |l.items| > 0
    ensures var w, j := Join(k, x, l), |k.items| + 1;
      && w.items[j] == l.items[0]
      && Seps(Left(w, j).items) == Seps(k.items) + [Sep(x.key, x.addr)]
      && Roots(Left(w, j).kids) == (if hasChild then Roots(k.kids) + [Roots(l.kids)[0]] else [])
      && Seps(Right(w, j).items) == Seps(l.items)[1..]
      && Roots(Right(w, j).kids) == (if hasChild then Roots(l.kids)[1..] else [])
  {
  }

  lemma {:induction false} OwnedTwo(k: Tree, x: Item, l: Tree, d: nat, s: Slots)
    requires GoodPair(k, x, l, d, s)
    ensures Owned(multiset{k.addr} + multiset{l.addr}, s)
  {
    JoinIs(k, x, l, d, s);
    OwnedPart(multiset{k.addr} + multiset{l.addr}, Foot(Join(k.body, x, l.body)), s);
  }

  lemma {:induction false} BorrowDone(
      b: Body, d: nat, s0: Slots, s1: Slots, at: nat, i: nat, j: nat, k: Tree, l: Tree) returns (c: Body)
    requires GoodBut(b, d, s0, at) && i < |b.items| && (at == i || at == i + 1) && Owned(Foot(b), s0)
    requires GoodPair(b.kids[i], b.items[i], b.kids[i + 1], d - 1, s0)
    requires MIDDLE <= j <= ORDER && j + 1 + MIDDLE <= |PairBody(b, i).items| <= j + 1 + ORDER
    requires k.body == Left(PairBody(b, i), j) && l.body == Right(PairBody(b, i), j) && Stored(k, s1) && Stored(l, s1)
    requires Moved(s0, multiset{b.kids[i].addr} + multiset{b.kids[i + 1].addr}, s1, multiset{k.addr} + multiset{l.addr})
    ensures c == WithKid(WithKid(WithItem(b, i, PairBody(b, i).items[j]), i, k), i + 1, l)
    ensures Rebalanced(b, d, s0, s1, c)
  {
    var k0, x, l0 := b.kids[i], b.items[i], b.kids[i + 1];
    assert GoodPair(k0, x, l0, d - 1, s0) && PairBody(b, i) == Join(k0.body, x, l0.body);
    assert Moved(s0, multiset{k0.addr} + multiset{l0.addr}, s1, multiset{k.addr} + multiset{l.addr});
    var y := Borrowed(k0, x, l0, d - 1, s0, s1, j, k, l);
    c := WithPair(b, i, k, y, l);
    PairShown(b, i, k, y, l);
    ReplacePair(b, d, s0, s1, at, i, k, y, l);
  }

  function PairBody(b: Body, i: nat): Body
    requires i < |b.items| && i + 1 < |b.kids|
  {
    Join(b.kids[i].body, b.items[i], b.kids[i + 1].body)
  }

  lemma {:induction false} OwnedKids(b: Body, d: nat, s: Slots, at: nat, i: nat)
    requires GoodBut(b, d, s, at) && i < |b.items| && (at == i || at == i + 1) && Owned(Foot(b), s)
    ensures Owned(multiset{b.kids[i].addr} + multiset{b.kids[i + 1].addr}, s)
    ensures SameHeight(b.kids[i].body, b.kids[i + 1].body, d > 1)
    ensures GoodPair(b.kids[i], b.items[i], b.kids[i + 1], d - 1, s)
  {
    PairOf(b, d, s, at, i);
    OwnedTwo(b.kids[i], b.items[i], b.kids[i + 1], d - 1, s);
  }

  method BorrowLeft(self: Node, d: nat, i: nat, left: Node, store: Store, ghost b: Body) returns (ghost c: Body)
    requires self.Shows(b) && GoodBut(b, d, store.slots, i + 1) && i < |b.items| && Owned(Foot(b), store.slots)
    requires left != self && left.Shows(b.kids[i].body) && |b.kids[i].body.items| > MIDDLE
    requires |b.kids[i + 1].body.items| == MIDDLE - 1
    modifies self, left, store
    ensures self.changed && self.Shows(c) && Rebalanced(b, d, old(store.slots), store.slots, c)
  {
    hide Flat, FlatTree, FlatL, Rank, Sorted, Foot, FootTree, GoodBody, GoodTree, Owned, Moved, Rebalanced, Left;
    hide Right, WithPair, Pairs;
    ghost var w, j, s0 := PairBody(b, i), |b.kids[i].body.items| - 1, store.slots;
    OwnedKids(b, d, s0, i + 1, i);
    var right := RotateRight(self, d, i, left, store, b);
    ghost var k', l' := WritePair(self, i, left, right, store, WithItem(b, i, w.items[j]), Left(w, j), Right(w, j));
    c := BorrowDone(b, d, s0, store.slots, i + 1, i, j, k', l');
  }

  /** In memory: the last separator of child `i` goes up, the parent's goes down to child `i + 1`. */
  method RotateRight(self: Node, d: nat, i: nat, left: Node, store: Store, ghost b: Body) returns (right: Node)
    requires self.Shows(b) && 0 < d && i < |b.items| && |b.kids| == |b.items| + 1
    requires left != self && left.Shows(b.kids[i].body) && |b.kids[i].body.items| > 0
    requires Stored(b.kids[i + 1], store.slots) && Narrow(b.kids[i + 1].body) && |b.kids[i + 1].body.items| < ORDER
    requires SameHeight(b.kids[i].body, b.kids[i + 1].body, d > 1)
    modifies self, left
    ensures self.changed && left.changed && fresh(right) && right.changed
    ensures var w, j := PairBody(b, i), |b.kids[i].body.items| - 1;
      self.Shows(WithItem(b, i, w.items[j])) && left.Shows(Left(w, j)) && right.Shows(Right(w, j))
  {
    ghost var k, l, y := b.kids[i].body, b.kids[i + 1].body, PairBody(b, i).items[|b.kids[i].body.items| - 1];
    var up, child := TakeLast(left, d - 1 != 0, Seps(k.items), Roots(k.kids));
    var down := SwapSeparator(self, i, up, b, y);
    right := FetchChild(self, i + 1, store, WithItem(b, i, y));
    PushFront(right, down, child, Seps(l.items), Roots(l.kids));
    CutBefore(k, b.items[i], l, d > 1);
  }

  method BorrowRight(self: Node, d: nat, i: nat, right: Node, store: Store, ghost b: Body) returns (ghost c: Body)
    requires self.Shows(b) && GoodBut(b, d, store.slots, i) && i < |b.items| && Owned(Foot(b), store.slots)
    requires right != self && right.Shows(b.kids[i + 1].body) && |b.kids[i + 1].body.items| > MIDDLE
    requires |b.kids[i].body.items| == MIDDLE - 1
    modifies self, right, store
    ensures self.changed && self.Shows(c) && Rebalanced(b, d, old(store.slots), store.slots, c)
  {
    hide Flat, FlatTree, FlatL, Rank, Sorted, Foot, FootTree, GoodBody, GoodTree, Owned, Moved, Rebalanced, Left;
    hide Right, WithPair, Pairs;
    ghost var w, j, s0 := PairBody(b, i), |b.kids[i].body.items| + 1, store.slots;
    OwnedKids(b, d, s0, i, i);
    var left := RotateLeft(self, d, i, right, store, b);
    ghost var k', l' := WritePair(self, i, left, right, store, WithItem(b, i, w.items[j]), Left(w, j), Right(w, j));
    c := BorrowDone(b, d, s0, store.slots, i, i, j, k', l');
  }

  /** In memory: the first separator of child `i + 1` goes up, the parent's goes down to child `i`. */
  method RotateLeft(self: Node, d: nat, i: nat, right: Node, store: Store, ghost b: Body) returns (left: Node)
    requires self.Shows(b) && 0 < d && i < |b.items| && |b.kids| == |b.items| + 1
    requires right != self && right.Shows(b.kids[i + 1].body) && |b.kids[i + 1].body.items| > 0
    requires Stored(b.kids[i], store.slots) && Narrow(b.kids[i].body) && |b.kids[i].body.items| < ORDER
    requires SameHeight(b.kids[i].body, b.kids[i + 1].body, d > 1)
    modifies self, right
    ensures self.changed && right.changed && fresh(left) && left.changed
    ensures var w, j := PairBody(b, i), |b.kids[i].body.items| + 1;
      self.Shows(WithItem(b, i, w.items[j])) && left.Shows(Left(w, j)) && right.Shows(Right(w, j))
  {
    ghost var k, l, y := b.kids[i].body, b.kids[i + 1].body, PairBody(b, i).items[|b.kids[i].body.items| + 1];
    var up, child := TakeFirst(right, d - 1 != 0, Seps(l.items), Roots(l.kids));
    var down := SwapSeparator(self, i, up, b, y);
    left := FetchChild(self, i, store, WithItem(b, i, y));
    PushBack(left, down, child, Seps(k.items), Roots(k.kids));
    CutAfter(k, b.items[i], l, d > 1);
  }

  lemma {:induction false} MergeDone(b: Body, d: nat, s0: Slots, s1: Slots, at: nat, i: nat, m: Tree)
    requires GoodBut(b, d, s0, at) && i < |b.items| && (at == i || at == i + 1) && Owned(Foot(b), s0)
    requires GoodPair(b.kids[i], b.items[i], b.kids[i + 1], d - 1, s0)
    requires m.body == PairBody(b, i) && MIDDLE <= |m.body.items| <= ORDER && Stored(m, s1)
    requires Moved(s0, multiset{b.kids[i].addr} + multiset{b.kids[i + 1].addr}, s1, multiset{m.addr})
    ensures Rebalanced(b, d, s0, s1, WithMerged(b, i, m))
  {
    var k, x, l := b.kids[i], b.items[i], b.kids[i + 1];
    assert GoodPair(k, x, l, d - 1, s0) && m.body == Join(k.body, x, l.body);
    assert Moved(s0, multiset{k.addr} + multiset{l.addr}, s1, multiset{m.addr});
    Merged(k, x, l, d - 1, s0, s1, m);
    ReplaceMerged(b, d, s0, s1, at, i, m);
  }

  lemma {:induction false} PadClose<T>(s: seq<T>, i: nat, n: nat)
    requires i < |s| <= n
    ensures Pad(s, n)[i := None][..i] + Pad(s, n)[i := None][i + 1..] + [None] == Pad(s[..i] + s[i + 1..], n)
  {
  }

  lemma {:induction false} MergeShown(b: Body, i: nat, m: Tree)
    requires i < |b.items| && |b.kids| == |b.items| + 1
    ensures Seps(WithMerged(b, i, m).items) == Seps(b.items)[..i] + Seps(b.items)[i + 1..]
    ensures Roots(WithMerged(b, i, m).kids) == Roots(b.kids)[i := m.addr][..i + 1] + Roots(b.kids)[i := m.addr][i + 2..]
  {
  }

  lemma {:induction false} JoinShown(k: Body, x: Item, l: Body)
    ensures Seps(Join(k, x, l).items) == Seps(k.items) + [Sep(x.key, x.addr)] + Seps(l.items)
    ensures Roots(Join(k, x, l).kids) == Roots(k.kids) + Roots(l.kids)
  {
  }

  lemma {:induction false} MovedMerge(s0: Slots, p: Addr, q: Addr, s1: Slots, s2: Slots, m: Addr)
    requires Owned(multiset{p} + multiset{q}, s0) && s1 == s0 - {q} && Moved(s1, multiset{p}, s2, multiset{m})
    ensures Moved(s0, multiset{p} + multiset{q}, s2, multiset{m})
  {
    assert (multiset{p} + multiset{q})[p] <= 1 && (multiset{p} + multiset{q})[q] <= 1;
    MovedFree(s0, q);
    Commute(multiset{p}, multiset{q}, multiset{q});
    MovedFrame(s0, multiset{q}, s1, multiset{}, multiset{p});
    NoneAnd(multiset{p});
    MovedTrans(s0, multiset{q} + multiset{p}, s1, multiset{p}, s2, multiset{m});
  }

  method Merge(
      self: Node, d: nat, at: nat, i: nat, left: Node, right: Node, store: Store, ghost b: Body) returns (ghost c: Body)
    requires self.Shows(b) && GoodBut(b, d, store.slots, at) && i < |b.items| && (at == i || at == i + 1)
    requires Owned(Foot(b), store.slots)
    requires left != self && right != self && left != right
    requires left.Shows(b.kids[i].body) && right.Shows(b.kids[i + 1].body)
    requires MIDDLE <= |b.kids[i].body.items| + 1 + |b.kids[i + 1].body.items| <= ORDER
    modifies self, left, right, store
    ensures self.changed && self.Shows(c) && Rebalanced(b, d, old(store.slots), store.slots, c)
  {
    hide Flat, FlatTree, FlatL, Rank, Sorted, Foot, FootTree, GoodBody, GoodTree, Moved;
    ghost var k, l, w, s0 := b.kids[i], b.kids[i + 1], PairBody(b, i), store.slots;
    OwnedKids(b, d, s0, at, i);
    var sep := self.RemoveSeparator(i);
    Absorb(left, sep.value, right, d - 1 != 0, Seps(k.body.items), Roots(k.body.kids), Seps(l.body.items),
    Roots(l.body.kids));
    JoinShown(k.body, b.items[i], l.body);
    var removed := self.RemoveChild(i + 1);
    assert removed == Some(l.addr) && (multiset{k.addr} + multiset{l.addr})[l.addr] <= 1;
    store.Remove(removed.value);
    ghost var s1 := store.slots;
    assert k.addr in s1 by {
      assert (multiset{k.addr} + multiset{l.addr})[k.addr] <= 1;
    }
    ghost var m := WriteChildSlot(self, i, left, store, k.addr, w);
    MovedMerge(s0, k.addr, l.addr, s1, store.slots, m.addr);
    MergeClose(self, i, b, m);
    c := WithMerged(b, i, m);
    MergeDone(b, d, s0, store.slots, at, i, m);
  }

  /** Close the gaps a merge leaves in the parent. */
  method MergeClose(self: Node, i: nat, ghost b: Body, ghost m: Tree)
    requires i < |b.items| <= ORDER && |b.kids| == |b.items| + 1
    requires self.separators == Pad(Seps(b.items), ORDER)[i := None]
    requires self.children == Pad(Roots(b.kids), ORDER_CHILD)[i + 1 := None][i := Some(m.addr)]
    modifies self
    ensures self.changed && self.Shows(WithMerged(b, i, m))
  {
    ghost var r := Roots(b.kids)[i := m.addr];
    assert self.children == Pad(r, ORDER_CHILD)[i + 1 := None];
    PadClose(Seps(b.items), i, ORDER);
    PadClose(r, i + 1, ORDER_CHILD);
    self.RemoveFrom(i, true, false);
    MergeShown(b, i, m);
  }

  lemma {:induction false} KidFits(b: Body, d: nat, s: Slots, at: nat, i: nat)
    requires GoodBut(b, d, s, at) && i < |b.kids|
    ensures Stored(b.kids[i], s) && Narrow(b.kids[i].body) && |b.kids[i].body.items| >= MIDDLE - 1
    ensures i != at ==> |b.kids[i].body.items| >= MIDDLE
  {
    if i != at {
      assert GoodTree(b.kids[i], d - 1, s);
    }
    assert GoodWide(b.kids[i].body, d - 1, s);
  }

  /** Child `at` lacks a separator: borrow from the left or right sibling, or merge with one. */
  method Rebalance(self: Node, d: nat, at: nat, store: Store, ghost b: Body) returns (ghost c: Body)
    requires self.Shows(b) && GoodBut(b, d, store.slots, at) && |b.items| > 0 && Owned(Foot(b), store.slots)
    requires |b.kids[at].body.items| == MIDDLE - 1
    modifies self, store
    ensures self.changed && self.Shows(c) && Rebalanced(b, d, old(store.slots), store.slots, c)
  {
    var left: Node? := null;
    if at > 0 {
      KidFits(b, d, store.slots, at, at - 1);
      left := FetchChild(self, at - 1, store, b);
      if left.separators[MIDDLE].Some? {
        c := BorrowLeft(self, d, at - 1, left, store, b);
        return;
      }
    }
    c := RebalanceRight(self, d, at, left, store, b);
  }

  /** ... when the left sibling, if any, has nothing to give. */
  method RebalanceRight(self: Node, d: nat, at: nat, left: Node?, store: Store, ghost b: Body) returns (ghost c: Body)
    requires self.Shows(b) && GoodBut(b, d, store.slots, at) && |b.items| > 0 && Owned(Foot(b), store.slots)
    requires |b.kids[at].body.items| == MIDDLE - 1
    requires at > 0 ==>
      left != null && left != self && left.Shows(b.kids[at - 1].body) && |b.kids[at - 1].body.items| == MIDDLE
    modifies self, left, store
    ensures self.changed && self.Shows(c) && Rebalanced(b, d, old(store.slots), store.slots, c)
  {
    hide Flat, FlatTree, FlatL, Rank, Sorted, Foot, FootTree, GoodBody, GoodTree, Owned, Moved;
    var numberChild := self.NumberSeparator();
    assert |b.items| < ORDER ==> self.separators[|b.items|].None?;
    assert numberChild == |b.items|;
    numberChild := numberChild + 1;
    var right: Node? := null;
    KidFits(b, d, store.slots, at, at);
    if at + 1 < numberChild {
      KidFits(b, d, store.slots, at, at + 1);
      right := FetchChild(self, at + 1, store, b);
      if right.separators[MIDDLE].Some? {
        c := BorrowRight(self, d, at, right, store, b);
        return;
      }
    }
    var left := left;
    if at + 1 == numberChild {
      right := FetchChild(self, at, store, b);
      c := Merge(self, d, at, at - 1, left, right, store, b);
    } else {
      left := FetchChild(self, at, store, b);
      c := Merge(self, d, at, at, left, right, store, b);
    }
  }

  // ----- Descending with a batch

  /** The batch `ops` was applied to content `b`: content `c` stays, `u` goes up. */
  ghost predicate Done(b: Body, d: nat, s0: Slots, s1: Slots, ops: seq<Operation>, c: Body, u: Up) {
    && GoodBody(c, d, s1) && GoodUp(u, d, s1)
    && Moved(s0, Foot(b), s1, Foot(c) + FootUp(u))
    && FlatUp(c, u) == ApplyAll(Flat(b), ops)
    && (u.Up? ==> |c.items| >= MIDDLE)
  }

  function Min(a: nat, b: nat): nat {
    if a < b then a else b
  }

  ghost predicate Unmoved(node: Node, separators: seq<Option<Sep>>, children: seq<Option<Addr>>, wasChanged: bool)
    reads node
  {
    !node.changed ==> !wasChanged && node.separators == separators && node.children == children
  }

  /** Child `i` was changed and written back; what it sends up is still loose. */
  lemma {:induction false} KidDone(
      b: Body, d: nat, i: nat, s0: Slots, s1: Slots, s2: Slots, ops: seq<Operation>, c: Body, u: Up,
    t: Tree, lo: real, hi: real)
    requires 0 < d && Ready(b, d, s0, lo, hi) && i < |b.kids| == |b.items| + 1
    requires Between(ops, LoOf(b, i, lo), HiOf(b, i, hi))
    requires Done(b.kids[i].body, d - 1, s0, s1, ops, c, u) && |c.items| >= MIDDLE - 1
    requires Moved(s1, multiset{b.kids[i].addr}, s2, multiset{t.addr}) && Stored(t, s2) && t.body == c
    ensures Visited(b, d, i, s0, s2, ops, t, u) && Between(ops, lo, hi)
  {
    hide Moved, Sorted, Inside, Between, Flat, FlatL, Rank, Lo, Apply, ApplyAll, Foot, FootTree, GoodBody;
    hide GoodTree, Owned;
    var k := b.kids[i];
    FocusBounds(b, i, lo, hi);
    BetweenWider(ops, LoOf(b, i, lo), HiOf(b, i, hi), lo, hi);
    KidOwned(b, i, s0);
    KidMoved(k, s0, s1, s2, c, FootUp(u), t, d - 1);
    SameUp(u, d - 1, s1, s2);
    ReplaceKid(b, d, s0, s2, i, t, FootUp(u));
    BatchInKid(b, i, ops, lo, hi);
  }

  lemma BetweenWider(ops: seq<Operation>, lo: real, hi: real, lower: real, higher: real)
    requires Between(ops, lo, hi) && lower <= lo && hi <= higher
    ensures Between(ops, lower, higher)
  {
  }

  lemma {:induction false} KidOwned(b: Body, i: nat, s: Slots)
    requires i < |b.kids| && Owned(Foot(b), s)
    ensures Owned(FootTree(b.kids[i]), s) && Owned(Foot(b.kids[i].body), s)
  {
    FootFocus(b, i);
    OwnedPart(FootTree(b.kids[i]), Others(b, i), s);
    OwnedPart(multiset{b.kids[i].addr}, Foot(b.kids[i].body), s);
  }

  /** Change a child's content, leaving `g` loose, then write its node. */
  lemma {:induction false} KidMoved(
      k: Tree, s0: Slots, s1: Slots, s2: Slots, c: Body, g: multiset<Addr>, t: Tree, d: nat)
    requires Owned(FootTree(k), s0) && Moved(s0, Foot(k.body), s1, Foot(c) + g)
    requires Moved(s1, multiset{k.addr}, s2, multiset{t.addr}) && t.body == c && GoodBody(c, d, s1)
    ensures Moved(s0, FootTree(k), s2, FootTree(t) + g) && GoodBody(c, d, s2) && Same(g, s1, s2)
  {
    var a, f := multiset{k.addr}, Foot(c) + g;
    Commute(a, Foot(k.body), f);
    MovedFrame(s0, Foot(k.body), s1, f, a);
    MovedFrame(s1, a, s2, multiset{t.addr}, f);
    MovedTrans(s0, FootTree(k), s1, a + f, s2, multiset{t.addr} + f);
    Sum(multiset{t.addr}, Foot(c), g);
    SameSum(Foot(c), g, s1, s2);
    SameWide(c, d, s1, s2);
  }

  lemma {:induction false} SameUp(u: Up, d: nat, s0: Slots, s1: Slots)
    requires GoodUp(u, d, s0) && Same(FootUp(u), s0, s1)
    ensures GoodUp(u, d, s1)
  {
    if u.Up? {
      SameSum(multiset{u.item.addr}, FootTree(u.tree), s0, s1);
      SlotSame(multiset{u.item.addr}, s0, s1, u.item.addr);
      SameTree(u.tree, d, s0, s1);
    }
  }

  ghost predicate Ready(b: Body, d: nat, s: Slots, lo: real, hi: real) {
    match b
    case Body(items, kids) =>
      GoodBody(b, d, s) && Owned(Foot(b), s) && Sorted(Flat(b)) && Inside(Flat(b), lo, hi) && (d > 0 ==> |items| > 0)
  }

  /** How full a changed node may be, and when it asks its parent to rebalance. */
  ghost predicate Sized(b: Body, c: Body, u: Up, under: bool) {
    if u.Up? then !under && |c.items| >= MIDDLE
    else
      && |c.items| + 1 >= Min(|b.items|, MIDDLE)
      && (if under then |c.items| < MIDDLE else |c.items| >= Min(|b.items|, MIDDLE))
  }

  // The three ways a changed child is taken back by its parent.

  lemma {:induction false} TakeSplit(
      b: Body, d: nat, i: nat, s0: Slots, s2: Slots, s3: Slots, ops: seq<Operation>, t: Tree, v: Up, c: Body, u: Up)
    requires 0 < d && i < |b.kids| == |b.items| + 1 && v.Up?
    requires Moved(s0, Foot(b), s2, Foot(WithKid(b, i, t)) + FootUp(v))
    requires ApplyAll(Flat(b), ops) ==
      FlatL(b.items[..i], b.kids[..i]) + (FlatUp(t.body, v) + FlatR(b.items[i..], b.kids[i + 1..]))
    requires Settled(Widen(WithKid(b, i, t), i, v), d, s2, s3, c, u)
    ensures Done(b, d, s0, s3, ops, c, u)
  {
    var b1 := WithKid(b, i, t);
    assert b1.kids[..i] == b.kids[..i] && b1.kids[i + 1..] == b.kids[i + 1..];
    FlatWiden(b1, i, v);
    FootWiden(b1, i, v);
    MovedTrans(s0, Foot(b), s2, Foot(Widen(b1, i, v)), s3, Foot(c) + FootUp(u));
  }

  lemma {:induction false} TakePlain(
      b: Body, d: nat, i: nat, s0: Slots, s2: Slots, s3: Slots, ops: seq<Operation>, t: Tree, c: Body)
    requires 0 < d && i < |b.kids| == |b.items| + 1
    requires Moved(s0, Foot(b), s2, Foot(WithKid(b, i, t)) + FootUp(NoUp))
    requires ApplyAll(Flat(b), ops) ==
      FlatL(b.items[..i], b.kids[..i]) + (FlatUp(t.body, NoUp) + FlatR(b.items[i..], b.kids[i + 1..]))
    requires GoodBody(c, d, s3) && Flat(c) == Flat(WithKid(b, i, t)) && Moved(s2, Foot(WithKid(b, i, t)), s3, Foot(c))
    ensures Done(b, d, s0, s3, ops, c, NoUp)
  {
    FlatWithKid(b, i, t);
    assert Foot(WithKid(b, i, t)) + FootUp(NoUp) == Foot(WithKid(b, i, t));
    assert Foot(c) + FootUp(NoUp) == Foot(c);
    MovedTrans(s0, Foot(b), s2, Foot(WithKid(b, i, t)), s3, Foot(c));
  }

  lemma {:induction false} GoodAgain(b: Body, d: nat, s: Slots, i: nat)
    requires GoodBut(b, d, s, i) && |b.kids[i].body.items| >= MIDDLE
    ensures GoodBody(b, d, s)
  {
    forall j | 0 <= j < |b.kids|
      ensures GoodTree(b.kids[j], d - 1, s)
    {
      if j == i {
        assert Stored(b.kids[i], s) && GoodWide(b.kids[i].body, d - 1, s);
      }
    }
  }

  lemma {:induction false} WidenShown(b: Body, i: nat, u: Up)
    requires i < |b.kids| == |b.items| + 1 && u.Up?
    ensures Seps(Widen(b, i, u).items) == Wide(Seps(b.items), i, Sep(u.item.key, u.item.addr))
    ensures Roots(Widen(b, i, u).kids) == WideKids(Roots(b.kids), i, Some(u.tree.addr))
  {
  }

  /** Child `i`, now tree `t`, has the batch behind it and sends `v` up. */
  ghost predicate Visited(b: Body, d: nat, i: nat, s0: Slots, s2: Slots, ops: seq<Operation>, t: Tree, v: Up) {
    match b
    case Body(items, kids) =>
      && 0 < d && i < |kids| == |items| + 1
      && GoodBut(WithKid(b, i, t), d, s2, i) && GoodUp(v, d - 1, s2)
      && Moved(s0, Foot(b), s2, Foot(WithKid(b, i, t)) + FootUp(v))
      && ApplyAll(Flat(b), ops) == FlatL(items[..i], kids[..i]) + (FlatUp(t.body, v) + FlatR(items[i..], kids[i + 1..]))
  }

  /** Operations consumed by a call that left `rest`, whose first one is done. */
  function Consumed(changes: seq<Operation>, rest: seq<Operation>): seq<Operation>
    requires 1 <= |rest| <= |changes|
  {
    changes[..|changes| - |rest| + 1]
  }

  ghost predicate Suffix(rest: seq<Operation>, changes: seq<Operation>) {
    1 <= |rest| <= |changes| && rest == changes[|changes| - |rest|..]
  }

  /** Hand the batch to child `i` and write the child back. */
  method Visit(
      self: Node, d: nat, i: nat, changes: seq<Operation>, store: Store, ghost b: Body, ghost lo: real,
      ghost hi: real)
      returns (rest: seq<Operation>, r: Option<(Sep, Addr)>, below: bool, ghost t: Tree, ghost v: Up)
    requires 0 < d && self.Shows(b) && Ready(b, d, store.slots, lo, hi) && i <= |b.items|
    requires changes != [] && SortedOps(changes) && LoOf(b, i, lo) < Rank(changes[0].key) < HiOf(b, i, hi)
    modifies self, store
    ensures Suffix(rest, changes) && Between(Consumed(changes, rest), lo, hi)
    ensures Visited(b, d, i, old(store.slots), store.slots, Consumed(changes, rest), t, v)
    ensures self.Shows(WithKid(b, i, t)) && Matches(r, v) && Sized(b.kids[i].body, t.body, v, below)
    ensures |b.kids[i].body.items| >= MIDDLE
    ensures Unmoved(self, old(self.separators), old(self.children), old(self.changed))
    decreases d, 0
  {
    hide Moved, Visited, Between, Ready, GoodWide, Sorted, SortedOps, Flat, FlatTree, FlatL, Apply, ApplyAll;
    hide Rank, Foot, FootTree, GoodBody, GoodTree, Owned;
    ghost var s0 := store.slots;
    KidReady(b, d, s0, i, lo, hi);
    ghost var k := b.kids[i];
    var child := FetchChild(self, i, store, b);
    ghost var kc;
    rest, r, below, kc, v := Change(child, self, i, d - 1, changes, store, k.body, b, LoOf(b, i, lo), HiOf(b, i, hi));
    ghost var s1 := store.slots;
    KidSlot(b, i, s0, s1, Foot(kc) + FootUp(v));
    assert child.changed || s1[k.addr] == SlotOf(kc);
    t := WriteChild(self, i, child, store, b, kc);
    KidDone(b, d, i, s0, s1, store.slots, Consumed(changes, rest), kc, v, t, lo, hi);
  }

  /** Take a visited child back: insert what it sends up, or rebalance it. */
  method TakeBack(self: Node, d: nat, i: nat, r: Option<(Sep, Addr)>, below: bool, store: Store,
      ghost b: Body, ghost s0: Slots, ghost ops: seq<Operation>, ghost t: Tree, ghost v: Up)
      returns (up: Option<(Sep, Addr)>, under: bool, ghost c: Body, ghost u: Up)
    requires Visited(b, d, i, s0, store.slots, ops, t, v) && |b.items| > 0
    requires self.Shows(WithKid(b, i, t)) && Matches(r, v) && Sized(b.kids[i].body, t.body, v, below)
    requires |b.kids[i].body.items| >= MIDDLE
    modifies self, store
    ensures Done(b, d, s0, store.slots, ops, c, u)
    ensures self.Shows(c) && Matches(up, u) && Sized(b, c, u, under) && (up.Some? ==> self.changed)
    ensures Unmoved(self, old(self.separators), old(self.children), old(self.changed))
  {
    hide Visited, Done;
    if r.Some? {
      under := false;
      up, c, u := TakeBackTwo(self, d, i, r.value, store, b, s0, ops, t, v);
    } else {
      up, u := None, NoUp;
      under, c := TakeBackOne(self, d, i, below, store, b, s0, ops, t);
    }
  }

  method TakeBackTwo(
      self: Node, d: nat, i: nat, r: (Sep, Addr), store: Store, ghost b: Body, ghost s0: Slots,
      ghost ops: seq<Operation>, ghost t: Tree, ghost v: Up)
      returns (up: Option<(Sep, Addr)>, ghost c: Body, ghost u: Up)
    requires Visited(b, d, i, s0, store.slots, ops, t, v) && |b.items| > 0 && self.Shows(WithKid(b, i, t))
    requires Matches(Some(r), v)
    requires |t.body.items| >= MIDDLE
    modifies self, store
    ensures Done(b, d, s0, store.slots, ops, c, u)
    ensures self.Shows(c) && Matches(up, u) && Sized(b, c, u, false) && (up.Some? ==> self.changed)
    ensures Unmoved(self, old(self.separators), old(self.children), old(self.changed))
  {
    hide Flat, FlatTree, FlatL, Apply, ApplyAll, Rank, Sorted, Foot, FootTree, GoodBody, GoodTree, Owned, Done;
    hide Node.Shows;
    ghost var s2 := store.slots;
    GoodAgain(WithKid(b, i, t), d, s2, i);
    up, c, u := InsertFromChild(self, d, i, r.0, r.1, store, WithKid(b, i, t), v);
    TakeSplit(b, d, i, s0, s2, store.slots, ops, t, v, c, u);
  }

  method TakeBackOne(
      self: Node, d: nat, i: nat, below: bool, store: Store, ghost b: Body, ghost s0: Slots,
      ghost ops: seq<Operation>, ghost t: Tree)
      returns (under: bool, ghost c: Body)
    requires Visited(b, d, i, s0, store.slots, ops, t, NoUp) && |b.items| > 0 && self.Shows(WithKid(b, i, t))
    requires if below then |t.body.items| == MIDDLE - 1 else |t.body.items| >= MIDDLE
    modifies self, store
    ensures Done(b, d, s0, store.slots, ops, c, NoUp)
    ensures self.Shows(c) && Sized(b, c, NoUp, under)
    ensures Unmoved(self, old(self.separators), old(self.children), old(self.changed))
  {
    ghost var b1, s2 := WithKid(b, i, t), store.slots;
    assert Foot(b1) + FootUp(NoUp) == Foot(b1);
    if below {
      c := Rebalance(self, d, i, store, b1);
      TakePlain(b, d, i, s0, s2, store.slots, ops, t, c);
      under := self.separators[MIDDLE - 1].None?;
    } else {
      GoodAgain(b1, d, s2, i);
      under, c := false, b1;
      TakePlain(b, d, i, s0, s2, s2, ops, t, c);
    }
  }

  method Descend(
      self: Node, d: nat, i: nat, changes: seq<Operation>, store: Store, ghost b: Body, ghost lo: real,
      ghost hi: real)
      returns (rest: seq<Operation>, up: Option<(Sep, Addr)>, under: bool, ghost c: Body, ghost u: Up)
    requires 0 < d && self.Shows(b) && Ready(b, d, store.slots, lo, hi) && i <= |b.items|
    requires changes != [] && SortedOps(changes) && LoOf(b, i, lo) < Rank(changes[0].key) < HiOf(b, i, hi)
    modifies self, store
    ensures Suffix(rest, changes) && Between(Consumed(changes, rest), lo, hi)
    ensures Done(b, d, old(store.slots), store.slots, Consumed(changes, rest), c, u)
    ensures self.Shows(c) && Matches(up, u) && Sized(b, c, u, under) && (up.Some? ==> self.changed)
    ensures Unmoved(self, old(self.separators), old(self.children), old(self.changed))
    decreases d, 1
  {
    var r, below;
    ghost var t, v;
    ghost var s0 := store.slots;
    rest, r, below, t, v := Visit(self, d, i, changes, store, b, lo, hi);
    up, under, c, u := TakeBack(self, d, i, r, below, store, b, s0, Consumed(changes, rest), t, v);
  }

  lemma {:induction false} KidReady(b: Body, d: nat, s: Slots, i: nat, lo: real, hi: real)
    requires 0 < d && Ready(b, d, s, lo, hi) && i <= |b.items|
    ensures |b.kids| == |b.items| + 1 && Stored(b.kids[i], s) && Narrow(b.kids[i].body)
    ensures |b.kids[i].body.items| >= MIDDLE
    ensures Ready(b.kids[i].body, d - 1, s, LoOf(b, i, lo), HiOf(b, i, hi))
    ensures lo <= LoOf(b, i, lo) && HiOf(b, i, hi) <= hi && Owned(Foot(b), s)
  {
    assert GoodTree(b.kids[i], d - 1, s);
    assert GoodWide(b.kids[i].body, d - 1, s);
    KidOwned(b, i, s);
    FootFocus(b, i);
    FocusBounds(b, i, lo, hi);
  }

  lemma {:induction false} KidSlot(b: Body, i: nat, s0: Slots, s1: Slots, f: multiset<Addr>)
    requires i < |b.kids| && Owned(Foot(b), s0) && Moved(s0, Foot(b.kids[i].body), s1, f)
    ensures b.kids[i].addr in s0 && b.kids[i].addr in s1 && s1[b.kids[i].addr] == s0[b.kids[i].addr]
  {
    var k := b.kids[i];
    KidOwned(b, i, s0);
    assert k.addr in FootTree(k) && k.addr in Live(s0);
    Commute(multiset{k.addr}, Foot(k.body), f);
    MovedFrame(s0, Foot(k.body), s1, f, multiset{k.addr});
    SlotSame(multiset{k.addr}, s0, s1, k.addr);
  }

  method InsertFromChild(self: Node, d: nat, i: nat, sep: Sep, right: Addr, store: Store, ghost b: Body, ghost v: Up)
      returns (up: Option<(Sep, Addr)>, ghost c: Body, ghost u: Up)
    requires 0 < d && self.Shows(b) && GoodBody(b, d, store.slots) && i < |b.kids|
    requires Matches(Some((sep, right)), v) && GoodUp(v, d - 1, store.slots) && Owned(Foot(b) + FootUp(v), store.slots)
    modifies self, store
    ensures self.changed && self.Shows(c) && Matches(up, u)
    ensures Settled(Widen(b, i, v), d, old(store.slots), store.slots, c, u)
  {
    GoodWiden(b, d, store.slots, i, v);
    FootWiden(b, i, v);
    WidenShown(b, i, v);
    up, c, u := InsertNode(self, i, sep, Some(right), store, b, Widen(b, i, v), d);
  }

  // ----- One operation at its own node

  lemma {:induction false} ApplyOne(s: seq<Pair>, op: Operation)
    ensures ApplyAll(s, [op]) == Apply(s, op)
  {
    assert [op][1..] == [];
    assert ApplyAll(Apply(s, op), []) == Apply(s, op);
  }

  /** Position `i` is where `key` falls among the separators; `at` says it is there. */
  ghost predicate Falls(items: seq<Item>, key: Bytes, at: bool, i: nat) {
    && i <= |items| && (at ==> i < |items| && items[i].key == key)
    && (forall j :: 0 <= j < i ==> Rank(items[j].key) < Rank(key))
    && (!at && i < |items| ==> Rank(key) < Rank(items[i].key))
  }

  lemma {:induction false} LeafCut(items: seq<Item>, key: Bytes, i: nat)
    requires Sorted(Pairs(items)) && Falls(items, key, false, i)
    ensures Cut(Pairs(items), key, i, i)
  {
    var s := Pairs(items);
    assert forall j :: 0 <= j < |s| ==> s[j] == P(items[j]);
    assert i < |s| ==> Rank(key) < Rank(s[i].key);
  }

  lemma {:induction false} PairsWiden(items: seq<Item>, i: nat, x: Item)
    requires i <= |items|
    ensures Pairs(items[..i] + [x] + items[i..]) == Pairs(items)[..i] + [P(x)] + Pairs(items)[i..]
  {
  }

  lemma {:induction false} LeafWidened(b: Body, i: nat, x: Item)
    requires b.kids == [] && Sorted(Flat(b)) && Falls(b.items, x.key, false, i)
    ensures Flat(WidenLeaf(b, i, x)) == ApplyAll(Flat(b), [Set(x.key, x.val)])
  {
    LeafCut(b.items, x.key, i);
    CutIs(Pairs(b.items), Set(x.key, x.val), i, i);
    ApplyOne(Pairs(b.items), Set(x.key, x.val));
    PairsWiden(b.items, i, x);
  }

  lemma {:induction false} StoredWiden(items: seq<Item>, i: nat, x: Item, s: Slots)
    requires StoredItems(items, s) && i <= |items| && StoredItem(x, s)
    ensures StoredItems(items[..i] + [x] + items[i..], s)
  {
    var t := items[..i] + [x] + items[i..];
    forall j | 0 <= j < |t|
      ensures StoredItem(t[j], s)
    {
      assert t[j] == if j < i then items[j] else if j == i then x else items[j - 1];
    }
  }

  lemma {:induction false} LeafStored(b: Body, i: nat, x: Item, s0: Slots)
    requires GoodBody(b, 0, s0) && Owned(Foot(b), s0) && i <= |b.items| && x.addr !in s0
    ensures var s1 := s0[x.addr := ValueSlot(x.val)];
      GoodWide(WidenLeaf(b, i, x), 0, s1) && Moved(s0, Foot(b), s1, Foot(WidenLeaf(b, i, x)))
  {
    var s1 := s0[x.addr := ValueSlot(x.val)];
    MovedAlloc(s0, x.addr, ValueSlot(x.val));
    NoneAnd(Foot(b));
    MovedFrame(s0, multiset{}, s1, multiset{x.addr}, Foot(b));
    FootWidenLeaf(b, i, x);
    Commute(multiset{x.addr}, Foot(b), Foot(b));
    SameWide(b, 0, s0, s1);
    StoredWiden(b.items, i, x, s1);
  }

  lemma {:induction false} WidenLeafShown(b: Body, i: nat, x: Item)
    requires i <= |b.items| && b.kids == []
    ensures Seps(WidenLeaf(b, i, x).items) == Wide(Seps(b.items), i, Sep(x.key, x.addr))
  {
  }

  lemma {:induction false} SettledIsDone(
      b: Body, d: nat, s0: Slots, s1: Slots, s2: Slots, ops: seq<Operation>, w: Body, c: Body, u: Up)
    requires Moved(s0, Foot(b), s1, Foot(w)) && Flat(w) == ApplyAll(Flat(b), ops)
    requires Settled(w, d, s1, s2, c, u)
    ensures Done(b, d, s0, s2, ops, c, u)
  {
    MovedTrans(s0, Foot(b), s1, Foot(w), s2, Foot(c) + FootUp(u));
  }

  /** A new key at a leaf. */
  method InsertLeaf(
      self: Node, i: nat, key: Bytes, val: Bytes, store: Store, ghost b: Body, ghost lo: real, ghost hi: real)
      returns (up: Option<(Sep, Addr)>, ghost c: Body, ghost u: Up)
    requires self.Shows(b) && Ready(b, 0, store.slots, lo, hi) && Falls(b.items, key, false, i)
    modifies self, store
    ensures Done(b, 0, old(store.slots), store.slots, [Set(key, val)], c, u)
    ensures self.changed && self.Shows(c) && Matches(up, u) && Sized(b, c, u, false)
  {
    hide Flat, FlatTree, FlatL, Apply, ApplyAll, Rank, Sorted, Foot, FootTree, GoodBody, GoodTree, Owned, Done;
    hide Node.Shows;
    ghost var s0 := store.slots;
    var a := store.WriteNew(ValueSlot(val));
    ghost var x, s1 := Item(key, a, val), store.slots;
    ghost var w := WidenLeaf(b, i, x);
    LeafStored(b, i, x, s0);
    LeafWidened(b, i, x);
    WidenLeafShown(b, i, x);
    up, c, u := InsertNode(self, i, Sep(key, a), None, store, b, w, 0);
    SettledIsDone(b, 0, s0, s1, store.slots, [Set(key, val)], w, c, u);
  }

  /** Exchanging item `i` for one with the same key is a Set. */
  lemma {:induction false} ItemReplaced(b: Body, i: nat, x: Item)
    requires i < |b.items| && (b.kids == [] || |b.kids| == |b.items| + 1) && Sorted(Flat(b)) && x.key == b.items[i].key
    ensures Flat(WithItem(b, i, x)) == ApplyAll(Flat(b), [Set(x.key, x.val)])
  {
    hide Flat, FlatTree, FlatL, Apply, ApplyAll, Cut, Rank, Sorted, Lo;
    var l, r := Flat(Left(b, i)), Flat(Right(b, i));
    ItemCut(b, i);
    var op := Set(x.key, x.val);
    CutIs(Flat(b), op, |l|, |l| + 1);
    ApplyOne(Flat(b), op);
    assert Left(WithItem(b, i, x), i) == Left(b, i) && Right(WithItem(b, i, x), i) == Right(b, i);
    FlatSplit(WithItem(b, i, x), i);
    Assoc(l, [P(x)], r);
  }

  lemma {:induction false} ItemCut(b: Body, i: nat)
    requires i < |b.items| && (b.kids == [] || |b.kids| == |b.items| + 1) && Sorted(Flat(b))
    ensures var l, r := Flat(Left(b, i)), Flat(Right(b, i));
      && Cut(Flat(b), b.items[i].key, |l|, |l| + 1)
      && Flat(b)[..|l|] == l && Flat(b)[|l| + 1..] == r
  {
    var l, r, s := Flat(Left(b, i)), Flat(Right(b, i)), Flat(b);
    FlatSplit(b, i);
    assert s[|l|] == P(b.items[i]);
    assert s[..|l|] == l && s[|l| + 1..] == r;
  }

  lemma {:induction false} ItemStored(b: Body, d: nat, i: nat, x: Item, s0: Slots, s1: Slots)
    requires GoodBody(b, d, s0) && i < |b.items| && Owned(Foot(b), s0)
    requires Moved(s0, multiset{b.items[i].addr}, s1, multiset{x.addr}) && StoredItem(x, s1)
    ensures GoodBody(WithItem(b, i, x), d, s1) && Moved(s0, Foot(b), s1, Foot(WithItem(b, i, x)))
  {
    var c := WithItem(b, i, x);
    assert Left(c, i) == Left(b, i) && Right(c, i) == Right(b, i);
    FootSplit(b, i);
    FootSplit(c, i);
    var l, r := Foot(Left(b, i)), Foot(Right(b, i));
    Around(l, multiset{b.items[i].addr}, r);
    Around(l, multiset{x.addr}, r);
    MovedFrame(s0, multiset{b.items[i].addr}, s1, multiset{x.addr}, l + r);
    GoodHalves(b, d, s0, i);
    SameSum(l, r, s0, s1);
    SameWide(Left(b, i), d, s0, s1);
    SameWide(Right(b, i), d, s0, s1);
    GoodJoin(Left(b, i), x, Right(b, i), d, s1);
    JoinBack(b, i, x);
  }

  lemma Around(l: multiset<Addr>, x: multiset<Addr>, r: multiset<Addr>)
    ensures l + x + r == x + (l + r)
  {
  }

  lemma {:induction false} JoinBack(b: Body, i: nat, x: Item)
    requires i < |b.items| && (b.kids == [] || |b.kids| == |b.items| + 1)
    ensures Join(Left(b, i), x, Right(b, i)) == WithItem(b, i, x)
  {
    var j := Join(Left(b, i), x, Right(b, i));
    assert j.items == b.items[i := x] && j.kids == b.kids;
  }

  lemma {:induction false} MovedExisting(s0: Slots, a: Addr, x: Slot, r: Option<Addr>, s1: Slots)
    requires a in s0
    requires r.None? ==> s1 == s0[a := x]
    requires r.Some? ==> r.value !in s0 && s1 == (s0 - {a})[r.value := x]
    ensures var b := if r.Some? then r.value else a;
      Moved(s0, multiset{a}, s1, multiset{b}) && b in s1 && s1[b] == x
  {
    if r.Some? {
      MovedFree(s0, a);
      MovedAlloc(s0 - {a}, r.value, x);
    } else {
      MovedWrite(s0, a, x);
    }
  }

  /** A new value for a key that is there. */
  method ReplaceValue(
      self: Node, d: nat, i: nat, key: Bytes, val: Bytes, store: Store, ghost b: Body, ghost lo: real,
      ghost hi: real)
      returns (ghost c: Body)
    requires self.Shows(b) && Ready(b, d, store.slots, lo, hi) && i < |b.items| && b.items[i].key == key
    modifies self, store
    ensures Done(b, d, old(store.slots), store.slots, [Set(key, val)], c, NoUp)
    ensures self.changed && self.Shows(c) && |c.items| == |b.items|
  {
    ghost var s0 := store.slots;
    var existing := self.separators[i].value.addr;
    ItemLive(b, i, s0);
    var r := store.WriteExisting(existing, ValueSlot(val));
    var a := if r.Some? then r.value else existing;
    ghost var x := Item(key, a, val);
    self.SetSeparator(i, Sep(key, a));
    c := WithItem(b, i, x);
    SepsUpdate(b.items, i, x);
    PadUpdate(Seps(b.items), i, Sep(key, a), ORDER);
    MovedExisting(s0, existing, ValueSlot(val), r, store.slots);
    ItemStored(b, d, i, x, s0, store.slots);
    ItemReplaced(b, i, x);
    assert Foot(c) + FootUp(NoUp) == Foot(c);
  }

  lemma {:induction false} ItemLive(b: Body, i: nat, s: Slots)
    requires i < |b.items| && Owned(Foot(b), s)
    ensures b.items[i].addr in s && Owned(multiset{b.items[i].addr}, s)
  {
    AddrsSplit(b.items, i);
    assert b.items[i].addr in Foot(b) && b.items[i].addr in Live(s);
  }

  // ----- Removal

  /** Content `b` lost its last item `x` and became `c`. */
  ghost predicate LostLast(b: Body, d: nat, s0: Slots, s1: Slots, c: Body, x: Item) {
    && GoodBody(c, d, s1) && StoredItem(x, s1) && Flat(b) == Flat(c) + [P(x)]
    && Moved(s0, Foot(b), s1, Foot(c) + multiset{x.addr})
  }

  lemma {:induction false} LeafLostLast(b: Body, s: Slots)
    requires GoodBody(b, 0, s) && |b.items| > 0 && Owned(Foot(b), s)
    ensures LostLast(b, 0, s, s, Body(b.items[..|b.items| - 1], []), b.items[|b.items| - 1])
    ensures Seps(b.items[..|b.items| - 1]) == Seps(b.items)[..|b.items| - 1]
  {
    hide FlatTree, FlatL, Rank, Sorted, FootTree, GoodTree, Owned;
    var n := |b.items| - 1;
    FootSplit(b, n);
    assert Right(b, n) == Body([], []) && Left(b, n) == Body(b.items[..n], []);
    assert Foot(Body([], [])) == multiset{} by {
      assert AddrsOf([]) == [];
    }
    assert Foot(Left(b, n)) + multiset{b.items[n].addr} + multiset{} == Foot(Left(b, n)) + multiset{b.items[n].addr};
    assert Pairs(b.items) == Pairs(b.items[..n]) + [P(b.items[n])];
    GoodHalves(b, 0, s, n);
  }

  /** The last child lost its last item and was written back. */
  lemma {:induction false} KidLostLast(b: Body, d: nat, s0: Slots, s1: Slots, s2: Slots, c: Body, x: Item, t: Tree)
    requires 0 < d && GoodBody(b, d, s0) && Owned(Foot(b), s0)
    requires LostLast(b.kids[|b.items|].body, d - 1, s0, s1, c, x) && |c.items| >= MIDDLE - 1
    requires Moved(s1, multiset{b.kids[|b.items|].addr}, s2, multiset{t.addr}) && Stored(t, s2) && t.body == c
    ensures GoodBut(WithKid(b, |b.items|, t), d, s2, |b.items|) && StoredItem(x, s2)
    ensures Moved(s0, Foot(b), s2, Foot(WithKid(b, |b.items|, t)) + multiset{x.addr})
    ensures Flat(b) == Flat(WithKid(b, |b.items|, t)) + [P(x)]
  {
    var n := |b.items|;
    KidOwned(b, n, s0);
    KidMoved(b.kids[n], s0, s1, s2, c, multiset{x.addr}, t, d - 1);
    SlotSame(multiset{x.addr}, s1, s2, x.addr);
    ReplaceKid(b, d, s0, s2, n, t, multiset{x.addr});
    assert WithKid(b, n, t).kids[..n] == b.kids[..n];
    Assoc(FlatL(b.items, b.kids[..n]), FlatTree(t), [P(x)]);
  }

  /** ... and then the node was rebalanced. */
  lemma {:induction false} LostLastThen(b: Body, d: nat, s0: Slots, s2: Slots, s3: Slots, b1: Body, x: Item, c: Body)
    requires Moved(s0, Foot(b), s2, Foot(b1) + multiset{x.addr}) && StoredItem(x, s2) && Flat(b) == Flat(b1) + [P(x)]
    requires Moved(s2, Foot(b1), s3, Foot(c)) && GoodBody(c, d, s3) && Flat(c) == Flat(b1)
    ensures LostLast(b, d, s0, s3, c, x)
  {
    MovedFrame(s2, Foot(b1), s3, Foot(c), multiset{x.addr});
    MovedTrans(s0, Foot(b), s2, Foot(b1) + multiset{x.addr}, s3, Foot(c) + multiset{x.addr});
    SlotSame(multiset{x.addr}, s2, s3, x.addr);
  }

  /** Take out the largest key below a node. */
  method RemoveLast(
      self: Node, d: nat, store: Store, ghost b: Body)
    returns (need: bool, sep: Option<Sep>, ghost c: Body, ghost x: Item)
    requires self.Shows(b) && GoodBody(b, d, store.slots) && Owned(Foot(b), store.slots) && |b.items| > 0
    modifies self, store
    ensures self.Shows(c) && LostLast(b, d, old(store.slots), store.slots, c, x)
    ensures sep == Some(Sep(x.key, x.addr)) && Sized(b, c, NoUp, need)
    ensures Unmoved(self, old(self.separators), old(self.children), old(self.changed))
    decreases d, 1
  {
    ghost var s0 := store.slots;
    var last := self.LastSeparatorIndex();
    assert self.separators[|b.items| - 1].Some? && last.value == |b.items| - 1;
    var i := last.value;
    if d == 0 {
      need, sep, c, x := RemoveLastHere(self, i, store, b);
    } else {
      var below;
      ghost var t;
      below, sep, t, x := RemoveLastBelow(self, d, i + 1, store, b);
      need, c := RemoveLastBack(self, d, i + 1, below, store, b, s0, WithKid(b, i + 1, t), x);
    }
  }

  method RemoveLastBelow(
      self: Node, d: nat, i: nat, store: Store, ghost b: Body)
    returns (below: bool, sep: Option<Sep>, ghost t: Tree, ghost x: Item)
    requires self.Shows(b) && GoodBody(b, d, store.slots) && Owned(Foot(b), store.slots) && 0 < d && i == |b.items|
    modifies self, store
    ensures i < |b.kids| && self.Shows(WithKid(b, i, t)) && GoodBut(WithKid(b, i, t), d, store.slots, i)
    ensures StoredItem(x, store.slots)
    ensures Moved(old(store.slots), Foot(b), store.slots, Foot(WithKid(b, i, t)) + multiset{x.addr})
    ensures Flat(b) == Flat(WithKid(b, i, t)) + [P(x)] && sep == Some(Sep(x.key, x.addr))
    ensures if below then |t.body.items| == MIDDLE - 1 else |t.body.items| >= MIDDLE
    ensures Unmoved(self, old(self.separators), old(self.children), old(self.changed))
    decreases d, 0
  {
    hide Flat, FlatTree, FlatL, Rank, Sorted, Foot, FootTree, GoodTree, Owned, Moved;
    ghost var k, s0 := b.kids[i], store.slots;
    LastKid(b, d, s0);
    assert KidOk(k, d - 1, s0);
    var child := FetchChild(self, i, store, b);
    ghost var kc;
    below, sep, kc, x := RemoveLast(child, d - 1, store, k.body);
    ghost var s1 := store.slots;
    KidSlot(b, i, s0, s1, Foot(kc) + multiset{x.addr});
    assert child.changed || s1[k.addr] == SlotOf(kc);
    t := WriteChild(self, i, child, store, b, kc);
    KidLostLast(b, d, s0, s1, store.slots, kc, x, t);
  }

  /** Rebalance after the last child lost an item, if that child asks for it. */
  method RemoveLastBack(
      self: Node, d: nat, at: nat, need: bool, store: Store, ghost b: Body, ghost s0: Slots, ghost b1: Body,
      ghost x: Item)
      returns (needToo: bool, ghost c: Body)
    requires self.Shows(b1) && GoodBut(b1, d, store.slots, at) && StoredItem(x, store.slots)
    requires |b1.items| == |b.items| > 0
    requires Moved(s0, Foot(b), store.slots, Foot(b1) + multiset{x.addr}) && Flat(b) == Flat(b1) + [P(x)]
    requires if need then |b1.kids[at].body.items| == MIDDLE - 1 else |b1.kids[at].body.items| >= MIDDLE
    modifies self, store
    ensures self.Shows(c) && LostLast(b, d, s0, store.slots, c, x) && Sized(b, c, NoUp, needToo)
    ensures Unmoved(self, old(self.separators), old(self.children), old(self.changed))
  {
    ghost var s2 := store.slots;
    if need {
      OwnedPart(Foot(b1), multiset{x.addr}, s2);
      c := Rebalance(self, d, at, store, b1);
      LostLastThen(b, d, s0, s2, store.slots, b1, x, c);
      needToo := self.separators[MIDDLE - 1].None?;
    } else {
      GoodAgain(b1, d, s2, at);
      needToo, c := false, b1;
    }
  }

  method RemoveLastHere(
      self: Node, i: nat, store: Store, ghost b: Body)
    returns (need: bool, sep: Option<Sep>, ghost c: Body, ghost x: Item)
    requires self.Shows(b) && GoodBody(b, 0, store.slots) && Owned(Foot(b), store.slots) && |b.items| == i + 1
    modifies self
    ensures self.changed && self.Shows(c) && LostLast(b, 0, store.slots, store.slots, c, x)
    ensures sep == Some(Sep(x.key, x.addr)) && Sized(b, c, NoUp, need)
  {
    LeafLostLast(b, store.slots);
    sep := self.RemoveSeparator(i);
    c, x := Body(b.items[..i], []), b.items[i];
    need := self.separators[MIDDLE - 1].None?;
  }

  lemma {:induction false} LastKid(b: Body, d: nat, s: Slots)
    requires 0 < d && GoodBody(b, d, s) && Owned(Foot(b), s)
    ensures |b.kids| == |b.items| + 1
    ensures forall i :: 0 <= i < |b.kids| ==> KidOk(b.kids[i], d - 1, s)
  {
    forall i | 0 <= i < |b.kids|
      ensures KidOk(b.kids[i], d - 1, s)
    {
      assert GoodTree(b.kids[i], d - 1, s);
      assert GoodWide(b.kids[i].body, d - 1, s);
      KidOwned(b, i, s);
    }
  }

  ghost predicate KidOk(t: Tree, d: nat, s: Slots) {
    Stored(t, s) && Narrow(t.body) && GoodBody(t.body, d, s) && |t.body.items| >= MIDDLE && Owned(Foot(t.body), s)
  }

  /** Dropping item `i` is a Dereference. */
  lemma {:induction false} ItemDropped(b: Body, i: nat)
    requires i < |b.items| && (b.kids == [] || |b.kids| == |b.items| + 1) && Sorted(Flat(b))
    ensures ApplyAll(Flat(b), [Dereference(b.items[i].key)]) == Flat(Left(b, i)) + Flat(Right(b, i))
  {
    hide Flat, FlatTree, FlatL, Apply, ApplyAll, Cut, Rank, Sorted, Lo, Left, Right;
    var l, r, op := Flat(Left(b, i)), Flat(Right(b, i)), Dereference(b.items[i].key);
    ItemCut(b, i);
    CutIs(Flat(b), op, |l|, |l| + 1);
    ApplyOne(Flat(b), op);
    assert l + [] + r == l + r;
  }

  function Dropped(b: Body, i: nat): Body
    requires i < |b.items|
  {
    Body(b.items[..i] + b.items[i + 1..], [])
  }

  lemma {:induction false} LeafDropped(b: Body, i: nat, s0: Slots)
    requires GoodBody(b, 0, s0) && Owned(Foot(b), s0) && i < |b.items| && Sorted(Flat(b))
    ensures b.items[i].addr in s0
    ensures Done(b, 0, s0, s0 - {b.items[i].addr}, [Dereference(b.items[i].key)], Dropped(b, i), NoUp)
  {
    hide FlatL, Apply, ApplyAll, Rank, Sorted, Lo, Foot, FootTree, GoodTree, Owned;
    var c, a := Dropped(b, i), b.items[i].addr;
    var s1, l, r := s0 - {a}, Foot(Left(b, i)), Foot(Right(b, i));
    ItemDropped(b, i);
    assert Flat(c) == Flat(Left(b, i)) + Flat(Right(b, i));
    ItemLive(b, i, s0);
    MovedFree(s0, a);
    FootSplit(b, i);
    Around(l, multiset{a}, r);
    MovedFrame(s0, multiset{a}, s1, multiset{}, l + r);
    NoneAnd(l + r);
    DroppedFoot(b, i);
    SameSum(l, r, s0, s1);
    GoodHalves(b, 0, s0, i);
    SameWide(Left(b, i), 0, s0, s1);
    SameWide(Right(b, i), 0, s0, s1);
    StoredConcat(b.items[..i], b.items[i + 1..], s1);
  }

  lemma {:induction false} DroppedFoot(b: Body, i: nat)
    requires i < |b.items| && b.kids == []
    ensures Foot(Dropped(b, i)) + FootUp(NoUp) == Foot(Left(b, i)) + Foot(Right(b, i))
  {
    AddrsAppend(b.items[..i], b.items[i + 1..]);
  }

  lemma {:induction false} StoredConcat(a: seq<Item>, b: seq<Item>, s: Slots)
    requires StoredItems(a, s) && StoredItems(b, s)
    ensures StoredItems(a + b, s)
  {
  }

  method RemoveHere(
      self: Node, i: nat, store: Store, ghost b: Body, ghost lo: real, ghost hi: real) returns (ghost c: Body)
    requires self.Shows(b) && Ready(b, 0, store.slots, lo, hi) && i < |b.items|
    modifies self, store
    ensures Done(b, 0, old(store.slots), store.slots, [Dereference(b.items[i].key)], c, NoUp)
    ensures self.changed && self.Shows(c) && |c.items| == |b.items| - 1
  {
    LeafDropped(b, i, store.slots);
    c := Dropped(b, i);
    store.Remove(self.separators[i].value.addr);
    DropHere(self, i, b);
  }

  method DropHere(self: Node, i: nat, ghost b: Body)
    requires self.Shows(b) && i < |b.items| && b.kids == []
    modifies self
    ensures self.changed && self.Shows(Dropped(b, i))
  {
    var _ := self.RemoveSeparator(i);
    PadClose(Seps(b.items), i, ORDER);
    self.RemoveFrom(i, false, true);
    assert Seps(Dropped(b, i).items) == Seps(b.items)[..i] + Seps(b.items)[i + 1..];
  }

  // An inner separator is replaced by the largest key of the child to its left.

  lemma {:induction false} InnerDropped(b: Body, i: nat, t: Tree, y: Item)
    requires |b.kids| == |b.items| + 1 && i < |b.items| && Sorted(Flat(b))
    requires FlatTree(b.kids[i]) == FlatTree(t) + [P(y)]
    ensures Flat(WithPair(b, i, t, y, b.kids[i + 1])) == ApplyAll(Flat(b), [Dereference(b.items[i].key)])
  {
    hide Flat, FlatTree, FlatL, ApplyAll, Sorted, Left, Right;
    var l, r := FlatL(b.items[..i], b.kids[..i]), Flat(Right(b, i));
    var c := WithPair(b, i, t, y, b.kids[i + 1]);
    PairSlices(b, i, t, y, b.kids[i + 1]);
    ItemDropped(b, i);
    FlatSplit(c, i);
    LeftEnds(b, i);
    LeftEnds(c, i);
    SameRight(b, i, t, y);
    Assoc(l, FlatTree(t), [P(y)]);
    Assoc(l + FlatTree(t), [P(y)], r);
  }

  lemma LeftEnds(b: Body, i: nat)
    requires |b.kids| == |b.items| + 1 && i < |b.items|
    ensures Flat(Left(b, i)) == FlatL(b.items[..i], b.kids[..i]) + FlatTree(b.kids[i])
  {
    hide FlatL, FlatTree;
    assert b.kids[..i + 1][..i] == b.kids[..i];
  }

  lemma SameRight(b: Body, i: nat, t: Tree, y: Item)
    requires |b.kids| == |b.items| + 1 && i < |b.items|
    ensures Right(WithPair(b, i, t, y, b.kids[i + 1]), i) == Right(b, i)
  {
    var c := WithPair(b, i, t, y, b.kids[i + 1]);
    assert c.items[i + 1..] == b.items[i + 1..] && c.kids[i + 1..] == b.kids[i + 1..];
  }

  /** Value freed, child's last item taken out, child written: what the pair then occupies. */
  lemma {:induction false} InnerMoved(
      k: Tree, x: Item, m: Tree, d: nat, s0: Slots, s1: Slots, s2: Slots, s3: Slots, kc: Body, y: Item, t: Tree)
    requires Owned(FootPair(k, x, m), s0) && s1 == s0 - {x.addr}
    requires LostLast(k.body, d, s1, s2, kc, y)
    requires Moved(s2, multiset{k.addr}, s3, multiset{t.addr}) && t.body == kc
    ensures x.addr in s0 && Owned(FootTree(k), s1) && GoodBody(kc, d, s3) && StoredItem(y, s3)
    ensures Moved(s0, FootPair(k, x, m), s3, FootPair(t, y, m)) && Same(FootTree(m), s0, s3)
  {
    var fk, fx, fm := FootTree(k), multiset{x.addr}, FootTree(m);
    Around(fk, fx, fm);
    assert x.addr in FootPair(k, x, m) && x.addr in Live(s0);
    MovedFree(s0, x.addr);
    MovedFrame(s0, fx, s1, multiset{}, fk + fm);
    NoneAnd(fk + fm);
    SameSum(fk, fm, s0, s1);
    OwnedPart(fk, fm, s1);
    KidMoved(k, s1, s2, s3, kc, multiset{y.addr}, t, d);
    MovedFrame(s1, fk, s3, FootTree(t) + multiset{y.addr}, fm);
    MovedTrans(s0, fx + (fk + fm), s1, fk + fm, s3, FootTree(t) + multiset{y.addr} + fm);
    SlotSame(multiset{y.addr}, s2, s3, y.addr);
  }

  lemma {:induction false} PairBut(b: Body, d: nat, s0: Slots, s1: Slots, i: nat, t: Tree, y: Item)
    requires 0 < d && GoodBody(b, d, s0) && i < |b.items| && Same(OthersTwo(b, i), s0, s1)
    requires Same(FootTree(b.kids[i + 1]), s0, s1)
    requires Stored(t, s1) && GoodBody(t.body, d - 1, s1) && |t.body.items| >= MIDDLE - 1 && StoredItem(y, s1)
    ensures GoodBut(WithPair(b, i, t, y, b.kids[i + 1]), d, s1, i)
  {
    var c, m := WithPair(b, i, t, y, b.kids[i + 1]), b.kids[i + 1];
    GoodOuterAll(b, d, s0, i);
    SameButTwo(b, d - 1, s0, s1, i);
    SameTree(m, d - 1, s0, s1);
    assert GoodTree(m, d - 1, s1);
    forall j | 0 <= j < |c.items|
      ensures StoredItem(c.items[j], s1)
    {
      assert c.items[j] == if j < i then b.items[..i][j] else if j == i then y else b.items[i + 1..][j - i - 1];
    }
    forall j | 0 <= j < |c.kids| && j != i
      ensures GoodTree(c.kids[j], d - 1, s1)
    {
      assert c.kids[j] == if j < i then b.kids[..i][j] else if j == i + 1 then m else b.kids[i + 2..][j - i - 2];
    }
  }

  lemma {:induction false} GoodOuterAll(b: Body, d: nat, s: Slots, i: nat)
    requires 0 < d && GoodBody(b, d, s) && i < |b.items|
    ensures |b.kids| == |b.items| + 1 && GoodTree(b.kids[i + 1], d - 1, s)
    ensures StoredItems(b.items[..i], s) && StoredItems(b.items[i + 1..], s)
    ensures GoodKids(b.kids[..i], d - 1, s) && GoodKids(b.kids[i + 2..], d - 1, s)
  {
  }

  /** The value of separator `i` is freed; the rest of the node stands. */
  lemma {:induction false} ValueFreed(b: Body, d: nat, i: nat, s0: Slots)
    requires 0 < d && GoodBody(b, d, s0) && Owned(Foot(b), s0) && i < |b.items|
    ensures b.items[i].addr in s0 && |b.kids| == |b.items| + 1
    ensures KidOk(b.kids[i], d - 1, s0 - {b.items[i].addr}) && Owned(FootTree(b.kids[i]), s0 - {b.items[i].addr})
    ensures Owned(FootPair(b.kids[i], b.items[i], b.kids[i + 1]), s0)
  {
    hide Flat, FlatTree, FlatL, Rank, Sorted, Foot, FootTree, Owned, OthersTwo, FootPair, GoodTree;
    assert GoodTree(b.kids[i], d - 1, s0);
    ItemLive(b, i, s0);
    FootFocusTwo(b, i);
    assert Owned(FootPair(b.kids[i], b.items[i], b.kids[i + 1]) + OthersTwo(b, i), s0);
    OwnedPart(FootPair(b.kids[i], b.items[i], b.kids[i + 1]), OthersTwo(b, i), s0);
    SiblingKept(b.kids[i], b.items[i], b.kids[i + 1], d - 1, s0);
  }

  lemma {:induction false} SiblingKept(k: Tree, x: Item, m: Tree, d: nat, s0: Slots)
    requires GoodTree(k, d, s0) && x.addr in s0 && Owned(FootPair(k, x, m), s0)
    ensures KidOk(k, d, s0 - {x.addr}) && Owned(FootTree(k), s0 - {x.addr})
  {
    var s1 := s0 - {x.addr};
    Around(FootTree(k), multiset{x.addr}, FootTree(m));
    MovedFree(s0, x.addr);
    MovedFrame(s0, multiset{x.addr}, s1, multiset{}, FootTree(k) + FootTree(m));
    NoneAnd(FootTree(k) + FootTree(m));
    OwnedPart(FootTree(k), FootTree(m), s1);
    OwnedPart(multiset{k.addr}, Foot(k.body), s1);
    SameSum(FootTree(k), FootTree(m), s0, s1);
    SameTree(k, d, s0, s1);
    assert GoodWide(k.body, d, s1);
  }

  lemma {:induction false} InnerDone(
      b: Body, d: nat, i: nat, s0: Slots, s2: Slots, s3: Slots, kc: Body, y: Item, t: Tree)
    requires 0 < d && GoodBody(b, d, s0) && Owned(Foot(b), s0) && Sorted(Flat(b)) && i < |b.items|
    requires |b.kids| == |b.items| + 1
    requires LostLast(b.kids[i].body, d - 1, s0 - {b.items[i].addr}, s2, kc, y) && |kc.items| >= MIDDLE - 1
    requires Moved(s2, multiset{b.kids[i].addr}, s3, multiset{t.addr}) && Stored(t, s3) && t.body == kc
    requires Owned(FootPair(b.kids[i], b.items[i], b.kids[i + 1]), s0)
    ensures GoodBut(WithPair(b, i, t, y, b.kids[i + 1]), d, s3, i)
    ensures Moved(s0, Foot(b), s3, Foot(WithPair(b, i, t, y, b.kids[i + 1])))
    ensures Flat(WithPair(b, i, t, y, b.kids[i + 1])) == ApplyAll(Flat(b), [Dereference(b.items[i].key)])
  {
    var k, x, m := b.kids[i], b.items[i], b.kids[i + 1];
    InnerMoved(k, x, m, d - 1, s0, s0 - {x.addr}, s2, s3, kc, y, t);
    PairMoved(b, s0, s3, i, t, y, m);
    InnerDropped(b, i, t, y);
    PairBut(b, d, s0, s3, i, t, y);
  }

  method RemoveInner(
      self: Node, d: nat, i: nat, store: Store, ghost b: Body, ghost lo: real, ghost hi: real)
    returns (need: bool, ghost b1: Body)
    requires 0 < d && self.Shows(b) && Ready(b, d, store.slots, lo, hi) && i < |b.items|
    modifies self, store
    ensures self.changed && self.Shows(b1) && GoodBut(b1, d, store.slots, i) && |b1.items| == |b.items|
    ensures Moved(old(store.slots), Foot(b), store.slots, Foot(b1))
    ensures Flat(b1) == ApplyAll(Flat(b), [Dereference(b.items[i].key)])
    ensures if need then |b1.kids[i].body.items| == MIDDLE - 1 else |b1.kids[i].body.items| >= MIDDLE
  {
    ghost var s0 := store.slots;
    ValueFreed(b, d, i, s0);
    store.Remove(self.separators[i].value.addr);
    var sep;
    ghost var y, t, s2;
    need, sep, y, t, s2 := TakeMax(self, d, i, store, b);
    self.SetSeparator(i, sep.value);
    b1 := WithPair(b, i, t, y, b.kids[i + 1]);
    InnerShown(b, i, t, y);
    InnerDone(b, d, i, s0, s2, store.slots, t.body, y, t);
  }

  /** Leave a gap at separator `i` and take the largest key out of the child to its left. */
  method TakeMax(self: Node, d: nat, i: nat, store: Store, ghost b: Body)
      returns (need: bool, sep: Option<Sep>, ghost y: Item, ghost t: Tree, ghost s2: Slots)
    requires 0 < d && self.Shows(b) && i < |b.items| && |b.kids| == |b.items| + 1
    requires KidOk(b.kids[i], d - 1, store.slots) && Owned(FootTree(b.kids[i]), store.slots)
    modifies self, store
    ensures self.separators == old(self.separators)[i := None] && self.children == old(self.children)[i := Some(t.addr)]
    ensures LostLast(b.kids[i].body, d - 1, old(store.slots), s2, t.body, y) && sep == Some(Sep(y.key, y.addr))
    ensures Moved(s2, multiset{b.kids[i].addr}, store.slots, multiset{t.addr}) && Stored(t, store.slots)
    ensures if need then |t.body.items| == MIDDLE - 1 else |t.body.items| >= MIDDLE
  {
    ghost var k, s1, kc := b.kids[i], store.slots, b;
    var _ := self.RemoveSeparator(i);
    var child := FetchChild(self, i, store, b);
    need, sep, kc, y := RemoveLast(child, d - 1, store, k.body);
    s2 := store.slots;
    TreeSlot(k, s1, s2, Foot(kc) + multiset{y.addr});
    assert child.changed || s2[k.addr] == SlotOf(kc);
    t := WriteChildSlot(self, i, child, store, k.addr, kc);
  }

  lemma {:induction false} TreeSlot(k: Tree, s0: Slots, s1: Slots, f: multiset<Addr>)
    requires Owned(FootTree(k), s0) && Moved(s0, Foot(k.body), s1, f)
    ensures k.addr in s0 && k.addr in s1 && s1[k.addr] == s0[k.addr]
  {
    assert k.addr in FootTree(k) && k.addr in Live(s0);
    Commute(multiset{k.addr}, Foot(k.body), f);
    MovedFrame(s0, Foot(k.body), s1, f, multiset{k.addr});
    SlotSame(multiset{k.addr}, s0, s1, k.addr);
  }

  lemma {:induction false} InnerShown(b: Body, i: nat, t: Tree, y: Item)
    requires |b.items| <= ORDER && |b.kids| == |b.items| + 1 && i < |b.items|
    ensures Pad(Seps(WithPair(b, i, t, y, b.kids[i + 1]).items), ORDER) ==
      Pad(Seps(b.items), ORDER)[i := None][i := Some(Sep(y.key, y.addr))]
    ensures Pad(Roots(WithPair(b, i, t, y, b.kids[i + 1]).kids), ORDER_CHILD) ==
      Pad(Roots(b.kids), ORDER_CHILD)[i := Some(t.addr)]
    ensures WithPair(b, i, t, y, b.kids[i + 1]).kids[i] == t && |WithPair(b, i, t, y, b.kids[i + 1]).items| == |b.items|
  {
    assert WithPair(b, i, t, y, b.kids[i + 1]).items == b.items[i := y];
    assert WithPair(b, i, t, y, b.kids[i + 1]).kids == b.kids[i := t];
    SepsUpdate(b.items, i, y);
    PadUpdate(Seps(b.items), i, Sep(y.key, y.addr), ORDER);
    assert Roots(b.kids[i := t]) == Roots(b.kids)[i := t.addr];
    PadUpdate(Roots(b.kids), i, t.addr, ORDER_CHILD);
  }

  /** Remove the key of separator `i`. */
  method RemoveKey(self: Node, d: nat, i: nat, store: Store, ghost b: Body, ghost lo: real, ghost hi: real)
      returns (under: bool, ghost c: Body)
    requires self.Shows(b) && Ready(b, d, store.slots, lo, hi) && i < |b.items|
    modifies self, store
    ensures Done(b, d, old(store.slots), store.slots, [Dereference(b.items[i].key)], c, NoUp)
    ensures self.changed && self.Shows(c) && Sized(b, c, NoUp, under)
  {
    ghost var s0 := store.slots;
    if d == 0 {
      c := RemoveHere(self, i, store, b, lo, hi);
    } else {
      var need;
      ghost var b1;
      need, b1 := RemoveInner(self, d, i, store, b, lo, hi);
      c := RemoveInnerBack(self, d, i, need, store, b, s0, b1);
    }
    under := self.separators[MIDDLE - 1].None?;
  }

  method RemoveInnerBack(
      self: Node, d: nat, i: nat, need: bool, store: Store, ghost b: Body, ghost s0: Slots, ghost b1: Body)
      returns (ghost c: Body)
    requires self.changed && self.Shows(b1) && GoodBut(b1, d, store.slots, i) && |b1.items| == |b.items|
    requires i < |b.items|
    requires Moved(s0, Foot(b), store.slots, Foot(b1)) && Flat(b1) == ApplyAll(Flat(b), [Dereference(b.items[i].key)])
    requires if need then |b1.kids[i].body.items| == MIDDLE - 1 else |b1.kids[i].body.items| >= MIDDLE
    modifies self, store
    ensures Done(b, d, s0, store.slots, [Dereference(b.items[i].key)], c, NoUp)
    ensures self.changed && self.Shows(c) && |c.items| >= |b.items| - 1
  {
    ghost var s3 := store.slots;
    c := b1;
    if need {
      c := Rebalance(self, d, i, store, b1);
      MovedTrans(s0, Foot(b), s3, Foot(b1), store.slots, Foot(c));
    } else {
      GoodAgain(b1, d, s3, i);
    }
    assert Foot(c) + FootUp(NoUp) == Foot(c);
  }

  // ----- The batch loop

  lemma {:induction false} FallsBetween(b: Body, key: Bytes, i: nat, lo: real, hi: real)
    requires Falls(b.items, key, false, i) && lo < Rank(key) < hi
    ensures LoOf(b, i, lo) < Rank(key) < HiOf(b, i, hi)
  {
  }

  /** An operation on a key that is not there, and is not being set, changes nothing. */
  lemma {:induction false} Missing(b: Body, d: nat, s: Slots, op: Operation, i: nat, lo: real, hi: real)
    requires Ready(b, d, s, lo, hi)
    requires (op.Reference? || (d == 0 && op.Dereference? && Falls(b.items, op.key, false, i)))
    ensures Done(b, d, s, s, [op], b, NoUp)
  {
    hide FlatTree, FlatL, Rank, Sorted, Lo, ApplyAll, Foot, FootTree, GoodTree, Owned;
    assert Foot(b) + FootUp(NoUp) == Foot(b);
    ApplyOne(Flat(b), op);
    if op.Dereference? {
      LeafCut(b.items, op.key, i);
      CutIs(Pairs(b.items), op, i, i);
      var t := Pairs(b.items);
      assert t[..i] + [] + t[i..] == t;
    }
  }

  method Find(self: Node, key: Bytes, ghost b: Body) returns (at: bool, i: nat)
    requires self.Shows(b)
    ensures Falls(b.items, key, at, i)
  {
    at, i := self.Position(key, Seps(b.items));
    assert forall j :: 0 <= j < |b.items| ==> Seps(b.items)[j].key == b.items[j].key;
  }

  /** `insert`: the first operation of the batch is a Set. */
  method Insert(
      self: Node, d: nat, key: Bytes, val: Bytes, changes: seq<Operation>, store: Store, ghost b: Body,
      ghost lo: real, ghost hi: real)
      returns (rest: seq<Operation>, up: Option<(Sep, Addr)>, under: bool, ghost c: Body, ghost u: Up)
    requires self.Shows(b) && Ready(b, d, store.slots, lo, hi)
    requires changes != [] && SortedOps(changes) && changes[0] == Set(key, val) && lo < Rank(key) < hi
    modifies self, store
    ensures Suffix(rest, changes) && Between(Consumed(changes, rest), lo, hi)
    ensures Done(b, d, old(store.slots), store.slots, Consumed(changes, rest), c, u)
    ensures self.Shows(c) && Matches(up, u) && Sized(b, c, u, under) && (up.Some? ==> self.changed)
    ensures Unmoved(self, old(self.separators), old(self.children), old(self.changed))
    decreases d, 2
  {
    hide Flat, FlatTree, FlatL, Apply, ApplyAll, Rank, Sorted, Foot, FootTree, GoodBody, GoodTree, Owned, Done;
    hide Node.Shows, SortedOps;
    var at, i := Find(self, key, b);
    if !at && d != 0 {
      FallsBetween(b, key, i, lo, hi);
      rest, up, under, c, u := Descend(self, d, i, changes, store, b, lo, hi);
      return;
    }
    rest, under := changes, false;
    assert Consumed(changes, rest) == [Set(key, val)];
    if !at {
      up, c, u := InsertLeaf(self, i, key, val, store, b, lo, hi);
    } else {
      up, u := None, NoUp;
      c := ReplaceValue(self, d, i, key, val, store, b, lo, hi);
    }
  }

  /** `on_existing`: the first operation is a Dereference, or a Reference, which does nothing here. */
  method OnExisting(
      self: Node, d: nat, changes: seq<Operation>, store: Store, ghost b: Body, ghost lo: real, ghost hi: real)
      returns (rest: seq<Operation>, up: Option<(Sep, Addr)>, under: bool, ghost c: Body, ghost u: Up)
    requires self.Shows(b) && Ready(b, d, store.slots, lo, hi)
    requires changes != [] && SortedOps(changes) && !changes[0].Set? && lo < Rank(changes[0].key) < hi
    modifies self, store
    ensures Suffix(rest, changes) && Between(Consumed(changes, rest), lo, hi)
    ensures Done(b, d, old(store.slots), store.slots, Consumed(changes, rest), c, u)
    ensures self.Shows(c) && Matches(up, u) && Sized(b, c, u, under) && (up.Some? ==> self.changed)
    ensures Unmoved(self, old(self.separators), old(self.children), old(self.changed))
    decreases d, 2
  {
    hide Flat, FlatTree, FlatL, Apply, ApplyAll, Rank, Sorted, Foot, FootTree, GoodBody, GoodTree, Owned, Done;
    hide SortedOps;
    var op := changes[0];
    var at, i := Find(self, op.key, b);
    if !at && d != 0 {
      FallsBetween(b, op.key, i, lo, hi);
      rest, up, under, c, u := Descend(self, d, i, changes, store, b, lo, hi);
      return;
    }
    rest, up, u := changes, None, NoUp;
    assert Consumed(changes, rest) == [op];
    if !at {
      c, under := b, false;
      Missing(b, d, store.slots, op, i, lo, hi);
    } else if op.Dereference? {
      under, c := RemoveKey(self, d, i, store, b, lo, hi);
    } else {
      c := b;
      under := self.separators[MIDDLE - 1].None?;
      Missing(b, d, store.slots, op, i, lo, hi);
    }
  }

  /** Up to operation `n` everything is done but that operation itself, `c` being the content so far. */
  ghost predicate Pending(b: Body, changes: seq<Operation>, n: nat, c: Body) {
    n < |changes| && ApplyAll(Flat(b), changes[..n + 1]) == Apply(Flat(c), changes[n])
  }

  lemma {:induction false} PendingFirst(b: Body, changes: seq<Operation>)
    requires changes != []
    ensures Pending(b, changes, 0, b)
  {
    assert changes[..1] == [changes[0]];
    ApplyOne(Flat(b), changes[0]);
  }

  lemma {:induction false} PendingNext(b: Body, changes: seq<Operation>, n: nat, c: Body)
    requires n + 1 < |changes| && ApplyAll(Flat(b), changes[..n + 1]) == Flat(c)
    ensures Pending(b, changes, n + 1, c)
  {
    assert changes[..n + 2] == changes[..n + 1] + [changes[n + 1]];
    ApplyAllAppend(Flat(b), changes[..n + 1], [changes[n + 1]]);
    ApplyOne(Flat(c), changes[n + 1]);
  }

  /** Skipping an operation whose key the next one sets or removes. */
  lemma {:induction false} PendingSkip(b: Body, changes: seq<Operation>, n: nat, c: Body)
    requires Pending(b, changes, n, c) && n + 1 < |changes| && Sorted(Flat(c))
    requires changes[n].key == changes[n + 1].key && !changes[n + 1].Reference?
    ensures Pending(b, changes, n + 1, c)
  {
    assert changes[..n + 2] == changes[..n + 1] + [changes[n + 1]];
    ApplyAllAppend(Flat(b), changes[..n + 1], [changes[n + 1]]);
    ApplyOne(Apply(Flat(c), changes[n]), changes[n + 1]);
    LaterWins(Flat(c), changes[n], changes[n + 1]);
  }

  lemma {:induction false} PendingDone(b: Body, changes: seq<Operation>, n: nat, c: Body, m: nat)
    requires Pending(b, changes, n, c) && n <= m < |changes|
    ensures ApplyAll(Flat(c), changes[n..m + 1]) == ApplyAll(Flat(b), changes[..m + 1])
  {
    assert changes[n..m + 1][1..] == changes[n + 1..m + 1];
    assert changes[..m + 1] == changes[..n + 1] + changes[n + 1..m + 1];
    ApplyAllAppend(Flat(b), changes[..n + 1], changes[n + 1..m + 1]);
  }

  lemma {:induction false} Combine(
      b: Body, d: nat, s0: Slots, s1: Slots, s2: Slots, changes: seq<Operation>, n: nat, m: nat, c: Body, e: Body,
      u: Up)
    requires Pending(b, changes, n, c) && n <= m < |changes| && Moved(s0, Foot(b), s1, Foot(c))
    requires Done(c, d, s1, s2, changes[n..m + 1], e, u)
    ensures Done(b, d, s0, s2, changes[..m + 1], e, u)
  {
    PendingDone(b, changes, n, c, m);
    MovedTrans(s0, Foot(b), s1, Foot(c), s2, Foot(e) + FootUp(u));
  }

  lemma {:induction false} ReadyAgain(
      b: Body, d: nat, s0: Slots, s1: Slots, ops: seq<Operation>, c: Body, lo: real, hi: real)
    requires Ready(b, d, s0, lo, hi) && Done(b, d, s0, s1, ops, c, NoUp) && Between(ops, lo, hi)
    requires (d > 0 ==> |c.items| > 0)
    ensures Ready(c, d, s1, lo, hi) && Moved(s0, Foot(b), s1, Foot(c)) && Flat(c) == ApplyAll(Flat(b), ops)
  {
    assert Foot(c) + FootUp(NoUp) == Foot(c);
    ApplyAllSorted(Flat(b), ops, lo, hi);
  }

  lemma {:induction false} ItemInside(b: Body, i: nat, lo: real, hi: real)
    requires i < |b.items| && (b.kids == [] || |b.kids| == |b.items| + 1) && Inside(Flat(b), lo, hi)
    ensures lo < Rank(b.items[i].key) < hi
  {
    FlatSplit(b, i);
    assert Flat(b)[|Flat(Left(b, i))|] == P(b.items[i]);
  }

  /** `insert` or `on_existing`, by the first operation. */
  method Apply1(
      self: Node, d: nat, changes: seq<Operation>, store: Store, ghost b: Body, ghost lo: real, ghost hi: real)
      returns (rest: seq<Operation>, up: Option<(Sep, Addr)>, under: bool, ghost c: Body, ghost u: Up)
    requires self.Shows(b) && Ready(b, d, store.slots, lo, hi)
    requires changes != [] && SortedOps(changes) && lo < Rank(changes[0].key) < hi
    modifies self, store
    ensures Suffix(rest, changes) && Between(Consumed(changes, rest), lo, hi)
    ensures Done(b, d, old(store.slots), store.slots, Consumed(changes, rest), c, u)
    ensures self.Shows(c) && Matches(up, u) && Sized(b, c, u, under) && (up.Some? ==> self.changed)
    ensures Unmoved(self, old(self.separators), old(self.children), old(self.changed))
    decreases d, 3
  {
    match changes[0] {
      case Set(key, val) =>
        rest, up, under, c, u := Insert(self, d, key, val, changes, store, b, lo, hi);
      case _ =>
        rest, up, under, c, u := OnExisting(self, d, changes, store, b, lo, hi);
    }
  }

  /** The state of the batch loop: operation `n` is next, content `c` has all before it. */
  ghost predicate Going(
      b: Body, d: nat, s0: Slots, s1: Slots, changes: seq<Operation>, n: nat, c: Body, lo: real, hi: real) {
    match c
    case Body(items, kids) =>
      && Ready(c, d, s1, lo, hi) && Moved(s0, Foot(b), s1, Foot(c)) && Pending(b, changes, n, c)
      && Between(changes[..n + 1], lo, hi) && Min(|b.items|, MIDDLE) <= Min(|items|, MIDDLE) && (d > 0 ==> |items| > 0)
  }

  /** The state after a round that neither split nor emptied the node. */
  ghost predicate Halted(
      b: Body, d: nat, s0: Slots, s1: Slots, changes: seq<Operation>, n: nat, c: Body, lo: real, hi: real) {
    match c
    case Body(items, kids) =>
      && n < |changes| && Ready(c, d, s1, lo, hi) && Moved(s0, Foot(b), s1, Foot(c))
        && Flat(c) == ApplyAll(Flat(b), changes[..n + 1])
      && Between(changes[..n + 1], lo, hi) && Min(|b.items|, MIDDLE) <= Min(|items|, MIDDLE) && (d > 0 ==> |items| > 0)
  }

  lemma {:induction false} GoingFirst(b: Body, d: nat, s: Slots, changes: seq<Operation>, lo: real, hi: real)
    requires Ready(b, d, s, lo, hi) && changes != [] && lo < Rank(changes[0].key) < hi
    ensures Going(b, d, s, s, changes, 0, b, lo, hi)
  {
    PendingFirst(b, changes);
    assert changes[..1] == [changes[0]];
  }

  lemma {:induction false} GoingSkip(
      b: Body, d: nat, s0: Slots, s1: Slots, changes: seq<Operation>, n: nat, c: Body, lo: real, hi: real)
    requires Going(b, d, s0, s1, changes, n, c, lo, hi) && n + 1 < |changes|
    requires changes[n].key == changes[n + 1].key && !changes[n + 1].Reference?
    ensures Going(b, d, s0, s1, changes, n + 1, c, lo, hi)
  {
    PendingSkip(b, changes, n, c);
    BetweenNext(changes, n, lo, hi);
  }

  lemma {:induction false} BetweenNext(changes: seq<Operation>, n: nat, lo: real, hi: real)
    requires n + 1 < |changes| && Between(changes[..n + 1], lo, hi)
    requires Rank(changes[n].key) <= Rank(changes[n + 1].key) < hi || changes[n].key == changes[n + 1].key
    ensures Between(changes[..n + 2], lo, hi)
  {
    BetweenPrefix(changes, n + 1, lo, hi);
    BetweenPrefix(changes, n + 2, lo, hi);
  }

  lemma {:induction false} BetweenPrefix(changes: seq<Operation>, k: nat, lo: real, hi: real)
    requires k <= |changes|
    ensures Between(changes[..k], lo, hi) <==> forall i :: 0 <= i < k ==> lo < Rank(changes[i].key) < hi
  {
    var t := changes[..k];
    assert forall i :: 0 <= i < k ==> t[i] == changes[i];
  }

  lemma {:induction false} HaltedInside(
      b: Body, d: nat, s0: Slots, s1: Slots, changes: seq<Operation>, n: nat, c: Body, lo: real, hi: real)
    requires Halted(b, d, s0, s1, changes, n, c, lo, hi)
    ensures (c.kids == [] || |c.kids| == |c.items| + 1) && Inside(Flat(c), lo, hi)
  {
  }

  lemma {:induction false} GoingNext(
      b: Body, d: nat, s0: Slots, s1: Slots, changes: seq<Operation>, n: nat, c: Body, lo: real, hi: real)
    requires Halted(b, d, s0, s1, changes, n, c, lo, hi) && n + 1 < |changes| && SortedOps(changes)
    requires Rank(changes[n + 1].key) < hi
    ensures Going(b, d, s0, s1, changes, n + 1, c, lo, hi)
  {
    PendingNext(b, changes, n, c);
    BetweenNext(changes, n, lo, hi);
  }

  /** One round of the batch loop. */
  method Round(
      self: Node, d: nat, changes: seq<Operation>, n: nat, store: Store, ghost b: Body, ghost s0: Slots,
      ghost c1: Body, ghost lo: real, ghost hi: real)
      returns (rest: seq<Operation>, up: Option<(Sep, Addr)>, under: bool, ghost c: Body, ghost u: Up)
    requires self.Shows(c1) && n < |changes| && SortedOps(changes)
    requires Going(b, d, s0, store.slots, changes, n, c1, lo, hi)
    modifies self, store
    ensures Suffix(rest, changes) && |rest| <= |changes| - n && Between(Consumed(changes, rest), lo, hi)
    ensures Done(b, d, s0, store.slots, Consumed(changes, rest), c, u)
    ensures self.Shows(c) && Matches(up, u) && Sized(b, c, u, under) && (up.Some? ==> self.changed)
    ensures u.NoUp? && !under ==> Halted(b, d, s0, store.slots, changes, |changes| - |rest|, c, lo, hi)
    ensures Unmoved(self, old(self.separators), old(self.children), old(self.changed))
    decreases d, 4
  {
    ghost var s1 := store.slots;
    assert changes[..n + 1][n] == changes[n];
    assert SortedOps(changes[n..]);
    rest, up, under, c, u := Apply1(self, d, changes[n..], store, c1, lo, hi);
    RoundDone(b, d, s0, s1, store.slots, changes, n, rest, c1, c, u, under, lo, hi);
  }

  lemma {:induction false} RoundDone(
      b: Body, d: nat, s0: Slots, s1: Slots, s2: Slots, changes: seq<Operation>, n: nat, rest: seq<Operation>,
    c1: Body, c: Body, u: Up, under: bool, lo: real, hi: real)
    requires n < |changes| && Going(b, d, s0, s1, changes, n, c1, lo, hi)
    requires Suffix(rest, changes[n..]) && Between(Consumed(changes[n..], rest), lo, hi)
    requires Done(c1, d, s1, s2, Consumed(changes[n..], rest), c, u) && Sized(c1, c, u, under)
    ensures Suffix(rest, changes) && Between(Consumed(changes, rest), lo, hi)
    ensures Done(b, d, s0, s2, Consumed(changes, rest), c, u) && Sized(b, c, u, under)
    ensures u.NoUp? && !under ==> Halted(b, d, s0, s2, changes, |changes| - |rest|, c, lo, hi)
  {
    hide Done, Moved, Ready, Pending, Between, Sized;
    var m := |changes| - |rest|;
    assert Consumed(changes[n..], rest) == changes[n..m + 1] && Consumed(changes, rest) == changes[..m + 1];
    Combine(b, d, s0, s1, s2, changes, n, m, c1, c, u);
    BetweenJoin(changes, n, m, lo, hi);
    SizedTrans(b, c1, c, u, under);
    if u.NoUp? && !under {
      RoundHalted(b, d, s0, s1, s2, changes, n, m, c1, c, lo, hi);
    }
  }

  lemma SizedTrans(b: Body, c1: Body, c: Body, u: Up, under: bool)
    requires Sized(c1, c, u, under) && Min(|b.items|, MIDDLE) <= Min(|c1.items|, MIDDLE)
    ensures Sized(b, c, u, under)
    ensures u.NoUp? && !under ==> Min(|b.items|, MIDDLE) <= Min(|c.items|, MIDDLE) && (|c1.items| > 0 ==> |c.items| > 0)
  {
  }

  lemma {:induction false} RoundHalted(
      b: Body, d: nat, s0: Slots, s1: Slots, s2: Slots, changes: seq<Operation>, n: nat, m: nat,
    c1: Body, c: Body, lo: real, hi: real)
    requires n <= m < |changes| && Going(b, d, s0, s1, changes, n, c1, lo, hi)
    requires Between(changes[n..m + 1], lo, hi) && Between(changes[..m + 1], lo, hi)
    requires Done(c1, d, s1, s2, changes[n..m + 1], c, NoUp)
    requires Min(|b.items|, MIDDLE) <= Min(|c.items|, MIDDLE) && (|c1.items| > 0 ==> |c.items| > 0)
    ensures Halted(b, d, s0, s2, changes, m, c, lo, hi)
  {
    hide Done, Moved, Ready, Pending, Between;
    ReadyAgain(c1, d, s1, s2, changes[n..m + 1], c, lo, hi);
    PendingDone(b, changes, n, c1, m);
    MovedTrans(s0, Foot(b), s1, Foot(c1), s2, Foot(c));
  }

  lemma {:induction false} BetweenJoin(changes: seq<Operation>, n: nat, m: nat, lo: real, hi: real)
    requires n <= m < |changes| && Between(changes[..n + 1], lo, hi) && Between(changes[n..m + 1], lo, hi)
    ensures Between(changes[..m + 1], lo, hi)
  {
    BetweenPrefix(changes, n + 1, lo, hi);
    BetweenPrefix(changes, m + 1, lo, hi);
    var t := changes[n..m + 1];
    assert forall i :: n <= i < m + 1 ==> changes[i] == t[i - n];
  }

  /** Some separator of the node is not below the key. */
  ghost predicate NotPast(items: seq<Item>, key: Bytes) {
    exists x :: 0 <= x < |items| && Rank(key) <= Rank(items[x].key)
  }

  /** The key falls into child `p`, and not behind the last separator. */
  ghost predicate FallsInto(items: seq<Item>, p: nat, key: Bytes) {
    && p < |items| && Rank(key) < Rank(items[p].key)
    && forall x :: 0 <= x < p ==> Rank(items[x].key) < Rank(key)
  }

  /**
   Does the next key still fall into this node? Yes exactly when the node is not past it or the
   parent sends it here; for the last child the parent is not asked further up.
   */
  method StaysHere(
    self: Node, parent: Node?, p: nat, key: Bytes, ghost b: Body, ghost pb: Body, ghost lo: real, ghost hi: real)
    returns (stays: bool)
    requires self.Shows(b) && (b.kids == [] || |b.kids| == |b.items| + 1) && Inside(Flat(b), lo, hi)
    requires parent != null ==>
      parent.Shows(pb) && p <= |pb.items| && (p < |pb.items| ==> Rank(pb.items[p].key) <= hi)
    ensures stays <==> parent != null && (NotPast(b.items, key) || FallsInto(pb.items, p, key))
    ensures stays ==> Rank(key) < hi
  {
    hide Rank, Flat;
    if parent == null {
      return false;
    }
    var at, i := Find(self, key, b);
    if at || (i < ORDER && self.separators[i].Some?) {
      ItemInside(b, i, lo, hi);
      return true;
    }
    at, i := Find(parent, key, pb);
    stays := !at && i == p && i < ORDER && parent.separators[i].Some?;
  }

  /** Apply the batch from its first operation on, as long as its keys fall below this node. */
  method Change(self: Node, parent: Node?, p: nat, d: nat, changes: seq<Operation>, store: Store,
      ghost b: Body, ghost pb: Body, ghost lo: real, ghost hi: real)
      returns (rest: seq<Operation>, up: Option<(Sep, Addr)>, under: bool, ghost c: Body, ghost u: Up)
    requires self.Shows(b) && Ready(b, d, store.slots, lo, hi)
    requires changes != [] && SortedOps(changes) && lo < Rank(changes[0].key) < hi
    requires parent != null ==>
      parent != self && parent.Shows(pb) && p <= |pb.items| && (p < |pb.items| ==> Rank(pb.items[p].key) <= hi)
    modifies self, store
    ensures Suffix(rest, changes) && Between(Consumed(changes, rest), lo, hi)
    ensures Done(b, d, old(store.slots), store.slots, Consumed(changes, rest), c, u)
    ensures self.Shows(c) && Matches(up, u) && Sized(b, c, u, under) && (up.Some? ==> self.changed)
    ensures Unmoved(self, old(self.separators), old(self.children), old(self.changed))
    decreases d, 5
  {
    hide Done, Going, Halted, Node.Shows, SortedOps;
    ghost var s0 := store.slots;
    var n: nat := 0;
    c := b;
    GoingFirst(b, d, s0, changes, lo, hi);
    while true
      invariant n < |changes| && self.Shows(c) && Going(b, d, s0, store.slots, changes, n, c, lo, hi)
      invariant Unmoved(self, old(self.separators), old(self.children), old(self.changed))
      decreases |changes| - n
    {
      if n + 1 < |changes| && !changes[n + 1].Reference? && changes[n].key == changes[n + 1].key {
        GoingSkip(b, d, s0, store.slots, changes, n, c, lo, hi);
        n := n + 1;
        continue;
      }
      rest, up, under, c, u := Round(self, d, changes, n, store, b, s0, c, lo, hi);
      n := |changes| - |rest|;
      if up.Some? || under || |rest| == 1 {
        return;
      }
      HaltedInside(b, d, s0, store.slots, changes, n, c, lo, hi);
      var stays := StaysHere(self, parent, p, rest[1].key, c, pb, lo, hi);
      if !stays {
        return;
      }
      GoingNext(b, d, s0, store.slots, changes, n, c, lo, hi);
      n := n + 1;
    }
  }
}
