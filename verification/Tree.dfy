/**
 The logical tree behind an ordered column. A `Body` is what one node holds: its items (key,
 address of the value, value) and its child trees. `Flat` is the in-order sequence of pairs,
 `Foot` the multiset of storage addresses the node's content occupies, and `GoodBody` says that
 the storage holds that content with the shape the tree promises. `Moved` is a frame rule:
 a step gives up one footprint, takes another, and touches nothing else.
 */
module Tree {
  import opened Keys
  import opened Batch

  const ORDER: nat := 8
  const ORDER_CHILD: nat := 9
  const MIDDLE: nat := 4

  type Addr = nat

  datatype Sep = Sep(key: Bytes, addr: Addr)

  datatype Slot =
    | NodeSlot(separators: seq<Option<Sep>>, children: seq<Option<Addr>>)
    | ValueSlot(val: Bytes)
    | HeaderSlot(root: Option<Addr>, depth: nat)

  type Slots = map<Addr, Slot>

  datatype Item = Item(key: Bytes, addr: Addr, val: Bytes)
  datatype Body = Body(items: seq<Item>, kids: seq<Tree>)
  datatype Tree = Tree(addr: Addr, body: Body)

  // ----- In-order contents

  function P(x: Item): Pair {
    Pair(x.key, x.val)
  }

  ghost function Pairs(items: seq<Item>): seq<Pair> {
    seq(|items|, i requires 0 <= i < |items| => P(items[i]))
  }

  lemma Assoc<T>(a: seq<T>, b: seq<T>, c: seq<T>)
    ensures a + (b + c) == a + b + c
  {
  }

  ghost function FlatTree(t: Tree): seq<Pair>
    decreases t, 2
  {
    Flat(t.body)
  }

  /** Children followed by their right separators. */
  ghost function FlatL(items: seq<Item>, kids: seq<Tree>): seq<Pair>
    decreases kids, 0
  {
    if |items| == 0 || |kids| == 0 then []
    else FlatL(items[..|items| - 1], kids[..|kids| - 1]) + (FlatTree(kids[|kids| - 1]) + [P(items[|items| - 1])])
  }

  /** Separators followed by their right children. */
  ghost function FlatR(items: seq<Item>, kids: seq<Tree>): seq<Pair>
    decreases kids, 0
  {
    if |items| == 0 || |kids| == 0 then []
    else [P(items[0])] + FlatTree(kids[0]) + FlatR(items[1..], kids[1..])
  }

  ghost function Flat(b: Body): seq<Pair>
    decreases b, 1
  {
    if |b.kids| != |b.items| + 1 then Pairs(b.items)
    else FlatL(b.items, b.kids[..|b.items|]) + FlatTree(b.kids[|b.items|])
  }

  lemma {:induction false} FlatLAppend(a: seq<Item>, b: seq<Item>, c: seq<Tree>, d: seq<Tree>)
    requires |a| == |c| && |b| == |d|
    ensures FlatL(a + b, c + d) == FlatL(a, c) + FlatL(b, d)
    decreases |b|
  {
    if b == [] {
      assert a + b == a && c + d == c;
    } else {
      var n := |b| - 1;
      FlatLAppend(a, b[..n], c, d[..n]);
      assert (a + b)[..|a| + n] == a + b[..n] && (c + d)[..|c| + n] == c + d[..n];
      Assoc(FlatL(a, c), FlatL(b[..n], d[..n]), FlatTree(d[n]) + [P(b[n])]);
    }
  }

  lemma {:induction false} FlatLFirst(items: seq<Item>, kids: seq<Tree>)
    requires |items| == |kids| > 0
    ensures FlatL(items, kids) == FlatTree(kids[0]) + ([P(items[0])] + FlatL(items[1..], kids[1..]))
  {
    assert items == items[..1] + items[1..] && kids == kids[..1] + kids[1..];
    FlatLAppend(items[..1], items[1..], kids[..1], kids[1..]);
    assert FlatL(items[..1][..0], kids[..1][..0]) == [];
    assert FlatL(items[..1], kids[..1]) == [] + (FlatTree(kids[0]) + [P(items[0])]);
    Assoc(FlatTree(kids[0]), [P(items[0])], FlatL(items[1..], kids[1..]));
  }

  lemma {:induction false} Shift(items: seq<Item>, kids: seq<Tree>)
    requires |kids| == |items| + 1
    ensures FlatL(items, kids[..|items|]) + FlatTree(kids[|items|]) == FlatTree(kids[0]) + FlatR(items, kids[1..])
    decreases |items|
  {
    var n := |items|;
    if n == 0 {
      assert kids[1..] == [];
    } else {
      var f, x, l, z := FlatTree(kids[0]), [P(items[0])], FlatL(items[1..], kids[1..n]), FlatTree(kids[n]);
      assert kids[1..][..n - 1] == kids[1..n] && kids[1..][n - 1] == kids[n] && kids[..n][1..] == kids[1..n];
      calc {
        FlatL(items, kids[..n]) + z;
        { FlatLFirst(items, kids[..n]); }
        f + (x + l) + z;
        { Assoc(f, x + l, z); Assoc(x, l, z); }
        f + (x + (l + z));
        { Shift(items[1..], kids[1..]); }
        f + (x + (FlatTree(kids[1]) + FlatR(items[1..], kids[1..][1..])));
        { Assoc(x, FlatTree(kids[1]), FlatR(items[1..], kids[1..][1..])); }
        f + FlatR(items, kids[1..]);
      }
    }
  }

  /** The contents of a node seen from its child `i`. */
  lemma {:induction false} Focus(b: Body, i: nat)
    requires |b.kids| == |b.items| + 1 && i < |b.kids|
    ensures Flat(b) ==
      FlatL(b.items[..i], b.kids[..i]) + (FlatTree(b.kids[i]) + FlatR(b.items[i..], b.kids[i + 1..]))
  {
    var n := |b.items|;
    var its, ks := b.items[i..], b.kids[i..];
    assert b.items == b.items[..i] + its && b.kids[..n] == b.kids[..i] + ks[..n - i];
    assert ks[n - i] == b.kids[n] && ks[1..] == b.kids[i + 1..];
    var l := FlatL(b.items[..i], b.kids[..i]);
    FlatLAppend(b.items[..i], its, b.kids[..i], ks[..n - i]);
    Assoc(l, FlatL(its, ks[..n - i]), FlatTree(ks[n - i]));
    Shift(its, ks);
  }

  lemma {:induction false} FlatRFirst(b: Body, i: nat)
    requires |b.kids| == |b.items| + 1 && i < |b.items|
    ensures FlatR(b.items[i..], b.kids[i + 1..]) ==
      [P(b.items[i])] + FlatTree(b.kids[i + 1]) + FlatR(b.items[i + 1..], b.kids[i + 2..])
  {
    assert b.items[i..][1..] == b.items[i + 1..] && b.kids[i + 1..][1..] == b.kids[i + 2..];
  }

  /** The contents of two neighbouring children and their separator. */
  ghost function Two(k: Tree, x: Item, l: Tree): seq<Pair> {
    FlatTree(k) + ([P(x)] + FlatTree(l))
  }

  /** The contents of a node seen from two neighbouring children. */
  lemma {:induction false} FocusTwo(b: Body, i: nat)
    requires |b.kids| == |b.items| + 1 && i < |b.items|
    ensures Flat(b) == FlatL(b.items[..i], b.kids[..i])
      + (Two(b.kids[i], b.items[i], b.kids[i + 1]) + FlatR(b.items[i + 1..], b.kids[i + 2..]))
  {
    Focus(b, i);
    FlatRFirst(b, i);
    Assoc(FlatTree(b.kids[i]), [P(b.items[i])] + FlatTree(b.kids[i + 1]), FlatR(b.items[i + 1..], b.kids[i + 2..]));
  }

  function Left(b: Body, i: nat): Body
    requires i < |b.items|
  {
    Body(b.items[..i], if i < |b.kids| then b.kids[..i + 1] else [])
  }

  function Right(b: Body, i: nat): Body
    requires i < |b.items|
  {
    Body(b.items[i + 1..], if i < |b.kids| then b.kids[i + 1..] else [])
  }

  /** Cutting a node at a separator. Every split, borrow and merge is an instance. */
  lemma {:induction false} FlatSplit(b: Body, i: nat)
    requires i < |b.items| && (b.kids == [] || |b.kids| == |b.items| + 1)
    ensures Flat(b) == Flat(Left(b, i)) + ([P(b.items[i])] + Flat(Right(b, i)))
  {
    if b.kids != [] {
      FocusTwo(b, i);
      var l, k, x := FlatL(b.items[..i], b.kids[..i]), FlatTree(b.kids[i]), [P(b.items[i])];
      var y, r := FlatTree(b.kids[i + 1]), FlatR(b.items[i + 1..], b.kids[i + 2..]);
      assert Flat(Left(b, i)) == l + k by {
        assert b.kids[..i + 1][..i] == b.kids[..i];
      }
      assert Flat(Right(b, i)) == y + r by {
        Shift(b.items[i + 1..], b.kids[i + 1..]);
        assert b.kids[i + 1..][1..] == b.kids[i + 2..];
      }
      FourParts(l, k, x, y, r);
    }
  }

  lemma FourParts<T>(l: seq<T>, k: seq<T>, x: seq<T>, y: seq<T>, r: seq<T>)
    ensures l + (k + (x + y) + r) == l + k + (x + (y + r))
  {
  }

  // ----- Footprints

  ghost function AddrsOf(items: seq<Item>): seq<Addr> {
    seq(|items|, i requires 0 <= i < |items| => items[i].addr)
  }

  ghost function FootKids(kids: seq<Tree>): multiset<Addr>
    decreases kids, 0
  {
    if kids == [] then multiset{}
    else FootKids(kids[..|kids| - 1]) + FootTree(kids[|kids| - 1])
  }

  ghost function FootTree(t: Tree): multiset<Addr>
    decreases t, 2
  {
    multiset{t.addr} + Foot(t.body)
  }

  ghost function Foot(b: Body): multiset<Addr>
    decreases b, 1
  {
    multiset(AddrsOf(b.items)) + FootKids(b.kids)
  }

  lemma {:induction false} AddrsAppend(a: seq<Item>, b: seq<Item>)
    ensures multiset(AddrsOf(a + b)) == multiset(AddrsOf(a)) + multiset(AddrsOf(b))
  {
    assert AddrsOf(a + b) == AddrsOf(a) + AddrsOf(b);
  }

  lemma Sum(a: multiset<Addr>, b: multiset<Addr>, c: multiset<Addr>)
    ensures a + (b + c) == a + b + c
  {
  }

  lemma {:induction false} FootKidsAppend(a: seq<Tree>, b: seq<Tree>)
    ensures FootKids(a + b) == FootKids(a) + FootKids(b)
    decreases |b|
  {
    if b == [] {
      assert a + b == a;
    } else {
      var n := |b| - 1;
      assert (a + b)[..|a| + n] == a + b[..n];
      calc {
        FootKids(a + b);
        FootKids(a + b[..n]) + FootTree(b[n]);
        { FootKidsAppend(a, b[..n]); }
        FootKids(a) + FootKids(b[..n]) + FootTree(b[n]);
        { Sum(FootKids(a), FootKids(b[..n]), FootTree(b[n])); }
        FootKids(a) + FootKids(b);
      }
    }
  }

  lemma {:induction false} FootKidsSplit(kids: seq<Tree>, i: nat)
    requires i < |kids|
    ensures FootKids(kids) == FootKids(kids[..i]) + FootTree(kids[i]) + FootKids(kids[i + 1..])
  {
    assert kids == kids[..i + 1] + kids[i + 1..] && kids[..i + 1][..i] == kids[..i];
    FootKidsAppend(kids[..i + 1], kids[i + 1..]);
  }

  /** The footprint is cut the way the contents are. */
  lemma {:induction false} FootSplit(b: Body, i: nat)
    requires i < |b.items| && (b.kids == [] || |b.kids| == |b.items| + 1)
    ensures Foot(b) == Foot(Left(b, i)) + multiset{b.items[i].addr} + Foot(Right(b, i))
  {
    hide AddrsOf, FootKids;
    AddrsSplit(b.items, i);
    FootKidsHalves(b, i);
    Shuffle(
      multiset(AddrsOf(b.items[..i])),
      multiset{b.items[i].addr},
      multiset(AddrsOf(b.items[i + 1..])),
      FootKids(Left(b, i).kids),
      FootKids(Right(b, i).kids));
  }

  lemma {:induction false} FootKidsHalves(b: Body, i: nat)
    requires i < |b.items| && (b.kids == [] || |b.kids| == |b.items| + 1)
    ensures FootKids(b.kids) == FootKids(Left(b, i).kids) + FootKids(Right(b, i).kids)
  {
    if b.kids != [] {
      FootKidsAppend(b.kids[..i + 1], b.kids[i + 1..]);
      assert b.kids == b.kids[..i + 1] + b.kids[i + 1..];
    }
  }

  lemma Shuffle(a: multiset<Addr>, x: multiset<Addr>, c: multiset<Addr>, k: multiset<Addr>, l: multiset<Addr>)
    ensures (a + x + c) + (k + l) == (a + k) + x + (c + l)
  {
  }

  lemma {:induction false} AddrsSplit(items: seq<Item>, i: nat)
    requires i < |items|
    ensures multiset(AddrsOf(items)) ==
      multiset(AddrsOf(items[..i])) + multiset{items[i].addr} + multiset(AddrsOf(items[i + 1..]))
  {
    assert AddrsOf(items) == AddrsOf(items[..i]) + [items[i].addr] + AddrsOf(items[i + 1..]);
  }

  // ----- What storage holds

  /** A fixed-length array whose first entries are filled. */
  function Pad<T>(s: seq<T>, n: nat): (r: seq<Option<T>>)
    ensures |r| == n
  {
    seq(n, i => if 0 <= i < |s| then Some(s[i]) else None)
  }

  function Seps(items: seq<Item>): seq<Sep> {
    seq(|items|, i requires 0 <= i < |items| => Sep(items[i].key, items[i].addr))
  }

  function Roots(kids: seq<Tree>): seq<Addr> {
    seq(|kids|, i requires 0 <= i < |kids| => kids[i].addr)
  }

  function SlotOf(b: Body): Slot {
    NodeSlot(Pad(Seps(b.items), ORDER), Pad(Roots(b.kids), ORDER_CHILD))
  }

  ghost predicate StoredItem(x: Item, s: Slots) {
    x.addr in s && s[x.addr] == ValueSlot(x.val)
  }

  ghost predicate StoredItems(items: seq<Item>, s: Slots) {
    forall i :: 0 <= i < |items| ==> StoredItem(items[i], s)
  }

  ghost predicate Stored(t: Tree, s: Slots) {
    t.addr in s && s[t.addr] == SlotOf(t.body)
  }

  /** Node content at height `d`, of any width: one more child than separators above the leaves. */
  ghost predicate GoodWide(b: Body, d: nat, s: Slots)
    decreases d, 0
  {
    match b
    case Body(items, kids) =>
      && StoredItems(items, s)
      && (d == 0 ==> kids == [])
      && (d > 0 ==> |kids| == |items| + 1 && forall i :: 0 <= i < |kids| ==> GoodTree(kids[i], d - 1, s))
  }

  /** A stored subtree of height `d` whose root is at least half full. */
  ghost predicate GoodTree(t: Tree, d: nat, s: Slots)
    decreases d, 1
  {
    match t
    case Tree(_, body) => Stored(t, s) && MIDDLE <= |body.items| <= ORDER && GoodWide(body, d, s)
  }

  /** Content that one node can hold. */
  ghost predicate GoodBody(b: Body, d: nat, s: Slots) {
    |b.items| <= ORDER && GoodWide(b, d, s)
  }

  ghost predicate GoodKids(kids: seq<Tree>, d: nat, s: Slots) {
    forall i :: 0 <= i < |kids| ==> GoodTree(kids[i], d, s)
  }

  // ----- Frame rule

  ghost function Live(s: Slots): multiset<Addr> {
    multiset(s.Keys)
  }

  ghost function Outside(s: Slots, f: multiset<Addr>): Slots {
    map a | a in s && a !in f :: s[a]
  }

  ghost function Part(s: Slots, f: multiset<Addr>): Slots {
    map a | a in s && a in f :: s[a]
  }

  /** Each address of the footprint is live, and occurs once. */
  ghost predicate Owned(f: multiset<Addr>, s: Slots) {
    f <= Live(s)
  }

  ghost predicate Same(f: multiset<Addr>, s0: Slots, s1: Slots) {
    Part(s0, f) == Part(s1, f)
  }

  /** From `s0` to `s1` footprint `f0` was given up, `f1` taken, and nothing else changed. */
  ghost predicate Moved(s0: Slots, f0: multiset<Addr>, s1: Slots, f1: multiset<Addr>) {
    Owned(f0, s0) && Owned(f1, s1) && Outside(s0, f0) == Outside(s1, f1)
  }

  lemma MovedTrans(s0: Slots, f0: multiset<Addr>, s1: Slots, f1: multiset<Addr>, s2: Slots, f2: multiset<Addr>)
    requires Moved(s0, f0, s1, f1) && Moved(s1, f1, s2, f2)
    ensures Moved(s0, f0, s2, f2)
  {
  }

  lemma {:induction false} MovedFrame(s0: Slots, f0: multiset<Addr>, s1: Slots, f1: multiset<Addr>, g: multiset<Addr>)
    requires Moved(s0, f0, s1, f1) && Owned(f0 + g, s0)
    ensures Moved(s0, f0 + g, s1, f1 + g) && Same(g, s0, s1)
  {
    hide Flat, FlatTree, Foot, FootTree, Rank;
    forall a
      ensures a in g ==> a in Outside(s0, f0) && g[a] == 1 && f0[a] == 0
      ensures a in g ==> a in s1 && s1[a] == s0[a] && f1[a] == 0
    {
      assert (f0 + g)[a] == f0[a] + g[a] <= Live(s0)[a] <= 1;
      assert a in g ==> Outside(s1, f1)[a] == Outside(s0, f0)[a];
    }
    assert Owned(f1 + g, s1) by {
      forall a
        ensures (f1 + g)[a] <= Live(s1)[a]
      {
        assert f1[a] <= Live(s1)[a];
      }
    }
    assert Outside(s0, f0 + g) == Outside(s1, f1 + g) by {
      OutsideSum(s0, f0, g);
      OutsideSum(s1, f1, g);
    }
  }

  lemma {:induction false} OutsideSum(s: Slots, f: multiset<Addr>, g: multiset<Addr>)
    ensures Outside(s, f + g) == map a | a in Outside(s, f) && a !in g :: Outside(s, f)[a]
  {
  }

  /** The three storage primitives. */
  lemma MovedAlloc(s: Slots, a: Addr, x: Slot)
    requires a !in s
    ensures Moved(s, multiset{}, s[a := x], multiset{a})
  {
  }

  lemma MovedFree(s: Slots, a: Addr)
    requires a in s
    ensures Moved(s, multiset{a}, s - {a}, multiset{})
  {
  }

  lemma MovedWrite(s: Slots, a: Addr, x: Slot)
    requires a in s
    ensures Moved(s, multiset{a}, s[a := x], multiset{a})
  {
  }

  lemma SameSum(f: multiset<Addr>, g: multiset<Addr>, s0: Slots, s1: Slots)
    requires Same(f + g, s0, s1)
    ensures Same(f, s0, s1) && Same(g, s0, s1)
  {
    forall a
      ensures (a in s0 && (a in f || a in g)) == (a in s1 && (a in f || a in g))
      ensures a in s0 && (a in f || a in g) ==> s0[a] == s1[a]
    {
      assert a in Part(s0, f + g) <==> a in Part(s1, f + g);
      assert a in Part(s0, f + g) ==> Part(s0, f + g)[a] == Part(s1, f + g)[a];
    }
  }

  lemma {:induction false} SlotSame(f: multiset<Addr>, s0: Slots, s1: Slots, a: Addr)
    requires Same(f, s0, s1) && a in f && a in s0
    ensures a in s1 && s1[a] == s0[a]
  {
    assert a in Part(s0, f) && Part(s0, f)[a] == Part(s1, f)[a];
  }

  lemma {:induction false} SameItems(items: seq<Item>, s0: Slots, s1: Slots)
    requires StoredItems(items, s0) && Same(multiset(AddrsOf(items)), s0, s1)
    ensures StoredItems(items, s1)
  {
    forall i | 0 <= i < |items|
      ensures StoredItem(items[i], s1)
    {
      assert AddrsOf(items)[i] == items[i].addr;
      SlotSame(multiset(AddrsOf(items)), s0, s1, items[i].addr);
    }
  }

  lemma {:induction false} SameTree(t: Tree, d: nat, s0: Slots, s1: Slots)
    requires GoodWide(t.body, d, s0) && Stored(t, s0) && Same(FootTree(t), s0, s1)
    ensures GoodWide(t.body, d, s1) && Stored(t, s1)
    decreases d, 1
  {
    SlotSame(FootTree(t), s0, s1, t.addr);
    SameSum(multiset{t.addr}, Foot(t.body), s0, s1);
    SameWide(t.body, d, s0, s1);
  }

  lemma {:induction false} SameWide(b: Body, d: nat, s0: Slots, s1: Slots)
    requires GoodWide(b, d, s0) && Same(Foot(b), s0, s1)
    ensures GoodWide(b, d, s1)
    decreases d, 0
  {
    SameSum(multiset(AddrsOf(b.items)), FootKids(b.kids), s0, s1);
    SameItems(b.items, s0, s1);
    if d > 0 {
      SameKids(b.kids, d - 1, s0, s1);
    }
  }

  lemma {:induction false} SameKids(kids: seq<Tree>, d: nat, s0: Slots, s1: Slots)
    requires GoodKids(kids, d, s0) && Same(FootKids(kids), s0, s1)
    ensures GoodKids(kids, d, s1)
    decreases d, 2
  {
    forall i | 0 <= i < |kids|
      ensures GoodTree(kids[i], d, s1)
    {
      FootKidsSplit(kids, i);
      SameSum(FootKids(kids[..i]) + FootTree(kids[i]), FootKids(kids[i + 1..]), s0, s1);
      SameSum(FootKids(kids[..i]), FootTree(kids[i]), s0, s1);
      SameTree(kids[i], d, s0, s1);
    }
  }
}
