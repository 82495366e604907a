/**
 What the structural moves of the B-tree do to the logical tree: contents, footprint and shape
 of a node whose child, or whose neighbouring children, were replaced.
 */
module TreeOps {
  import opened Keys
  import opened Batch
  import opened Tree

  // ----- One child replaced

  function WithKid(b: Body, i: nat, t: Tree): Body
    requires i < |b.kids|
  {
    Body(b.items, b.kids[i := t])
  }

  /** Everything a node occupies besides its child `i`. */
  ghost function Others(b: Body, i: nat): multiset<Addr>
    requires i < |b.kids|
  {
    multiset(AddrsOf(b.items)) + (FootKids(b.kids[..i]) + FootKids(b.kids[i + 1..]))
  }

  lemma {:induction false} FootFocus(b: Body, i: nat)
    requires i < |b.kids|
    ensures Foot(b) == FootTree(b.kids[i]) + Others(b, i)
  {
    var a, l, k, r := multiset(AddrsOf(b.items)), FootKids(b.kids[..i]), FootTree(b.kids[i]), FootKids(b.kids[i + 1..]);
    calc {
      Foot(b);
      { FootKidsSplit(b.kids, i); }
      a + (l + k + r);
      k + (a + (l + r));
    }
  }

  lemma {:induction false} OthersWithKid(b: Body, i: nat, t: Tree)
    requires i < |b.kids|
    ensures Others(WithKid(b, i, t), i) == Others(b, i)
  {
    assert b.kids[i := t][..i] == b.kids[..i] && b.kids[i := t][i + 1..] == b.kids[i + 1..];
  }

  /** Above the leaves, good but for child `i`, which may lack one separator. */
  ghost predicate GoodBut(b: Body, d: nat, s: Slots, i: nat) {
    match b
    case Body(items, kids) =>
      && 0 < d && i < |kids| == |items| + 1 && |items| <= ORDER
      && StoredItems(items, s)
      && (forall j :: 0 <= j < |kids| && j != i ==> GoodTree(kids[j], d - 1, s))
      && Stored(kids[i], s) && GoodBody(kids[i].body, d - 1, s) && |kids[i].body.items| >= MIDDLE - 1
  }

  lemma {:induction false} SameBut(b: Body, d: nat, s0: Slots, s1: Slots, i: nat)
    requires 0 < d && GoodBody(b, d, s0) && i < |b.kids| && Same(Others(b, i), s0, s1)
    ensures StoredItems(b.items, s1) && GoodKids(b.kids[..i], d - 1, s1) && GoodKids(b.kids[i + 1..], d - 1, s1)
  {
    SameSum(multiset(AddrsOf(b.items)), FootKids(b.kids[..i]) + FootKids(b.kids[i + 1..]), s0, s1);
    SameSum(FootKids(b.kids[..i]), FootKids(b.kids[i + 1..]), s0, s1);
    SameItems(b.items, s0, s1);
    SameKids(b.kids[..i], d - 1, s0, s1);
    SameKids(b.kids[i + 1..], d - 1, s0, s1);
  }

  /** Frame rule for one child of a node. */
  lemma {:induction false} ReplaceKid(b: Body, d: nat, s0: Slots, s1: Slots, i: nat, t: Tree, more: multiset<Addr>)
    requires 0 < d && GoodBody(b, d, s0) && i < |b.kids| && Owned(Foot(b), s0)
    requires Moved(s0, FootTree(b.kids[i]), s1, FootTree(t) + more)
    requires Stored(t, s1) && GoodBody(t.body, d - 1, s1) && |t.body.items| >= MIDDLE - 1
    ensures GoodBut(WithKid(b, i, t), d, s1, i)
    ensures Moved(s0, Foot(b), s1, Foot(WithKid(b, i, t)) + more)
  {
    var g := Others(b, i);
    FootFocus(b, i);
    MovedFrame(s0, FootTree(b.kids[i]), s1, FootTree(t) + more, g);
    FootWithKid(b, i, t, more);
    SameBut(b, d, s0, s1, i);
    GoodButIntro(WithKid(b, i, t), d, s1, i, b);
  }

  lemma {:induction false} GoodButIntro(c: Body, d: nat, s: Slots, i: nat, b: Body)
    requires i < |b.kids| == |b.items| + 1 && |b.items| <= ORDER && c.items == b.items && |c.kids| == |b.kids| && 0 < d
    requires c.kids == b.kids[i := c.kids[i]]
    requires StoredItems(b.items, s) && GoodKids(b.kids[..i], d - 1, s) && GoodKids(b.kids[i + 1..], d - 1, s)
    requires Stored(c.kids[i], s) && GoodBody(c.kids[i].body, d - 1, s) && |c.kids[i].body.items| >= MIDDLE - 1
    ensures GoodBut(c, d, s, i)
  {
    assert forall j :: 0 <= j < i ==> c.kids[j] == b.kids[..i][j];
    assert forall j :: i < j < |b.kids| ==> c.kids[j] == b.kids[i + 1..][j - i - 1];
  }

  lemma {:induction false} FootWithKid(b: Body, i: nat, t: Tree, more: multiset<Addr>)
    requires i < |b.kids|
    ensures Foot(WithKid(b, i, t)) + more == FootTree(t) + more + Others(b, i)
  {
    FootFocus(WithKid(b, i, t), i);
    OthersWithKid(b, i, t);
    Swap(FootTree(t), Others(b, i), more);
  }

  lemma Swap(a: multiset<Addr>, b: multiset<Addr>, c: multiset<Addr>)
    ensures a + b + c == a + c + b
  {
  }

  /** Contents of a node whose child `i` went from `old` contents to new ones. */
  lemma {:induction false} FlatWithKid(b: Body, i: nat, t: Tree)
    requires |b.kids| == |b.items| + 1 && i < |b.kids|
    ensures Flat(WithKid(b, i, t)) ==
      FlatL(b.items[..i], b.kids[..i]) + (FlatTree(t) + FlatR(b.items[i..], b.kids[i + 1..]))
  {
    var c := WithKid(b, i, t);
    Focus(c, i);
    assert c.kids[..i] == b.kids[..i] && c.kids[i + 1..] == b.kids[i + 1..];
  }

  /** Bounds on the keys to the left of, in, and to the right of child `i`. */
  ghost function LoOf(b: Body, i: nat, lo: real): real
    requires i <= |b.items|
  {
    if i == 0 then lo else Rank(b.items[i - 1].key)
  }

  ghost function HiOf(b: Body, i: nat, hi: real): real
    requires i <= |b.items|
  {
    if i == |b.items| then hi else Rank(b.items[i].key)
  }

  lemma {:induction false} SortedThree(a: seq<Pair>, m: seq<Pair>, c: seq<Pair>, lo: real, hi: real)
    requires Sorted(a + (m + c)) && Inside(a + (m + c), lo, hi)
    ensures Sorted(a) && Sorted(m) && Sorted(c) && Inside(a, lo, hi) && Inside(m, lo, hi) && Inside(c, lo, hi)
    ensures forall i, j :: 0 <= i < |a| && 0 <= j < |m| ==> Rank(a[i].key) < Rank(m[j].key)
    ensures forall i, j :: 0 <= i < |m| && 0 <= j < |c| ==> Rank(m[i].key) < Rank(c[j].key)
  {
    var s := a + (m + c);
    assert forall i :: 0 <= i < |a| ==> s[i] == a[i];
    assert forall i :: 0 <= i < |m| ==> s[|a| + i] == m[i];
    assert forall i :: 0 <= i < |c| ==> s[|a| + |m| + i] == c[i];
  }

  lemma {:induction false} FlatLBound(items: seq<Item>, kids: seq<Tree>)
    requires |items| == |kids| > 0 && Sorted(FlatL(items, kids))
    ensures AtMost(FlatL(items, kids), Rank(items[|items| - 1].key))
  {
    var n := |items| - 1;
    var s := FlatL(items, kids);
    var a := FlatL(items[..n], kids[..n]) + FlatTree(kids[n]);
    assert s == a + [P(items[n])];
    assert s[|a|] == P(items[n]);
  }

  lemma {:induction false} FlatRBound(items: seq<Item>, kids: seq<Tree>)
    requires |items| == |kids| > 0 && Sorted(FlatR(items, kids))
    ensures AtLeast(FlatR(items, kids), Rank(items[0].key))
  {
    assert FlatR(items, kids)[0] == P(items[0]);
  }

  /** The keys on either side of child `i` bound those in it. */
  lemma {:induction false} FocusBounds(b: Body, i: nat, lo: real, hi: real)
    requires |b.kids| == |b.items| + 1 && i <= |b.items| && Sorted(Flat(b)) && Inside(Flat(b), lo, hi)
    ensures Sorted(FlatTree(b.kids[i])) && Inside(FlatTree(b.kids[i]), LoOf(b, i, lo), HiOf(b, i, hi))
    ensures lo <= LoOf(b, i, lo) && HiOf(b, i, hi) <= hi
    ensures AtMost(FlatL(b.items[..i], b.kids[..i]), LoOf(b, i, lo))
    ensures AtLeast(FlatR(b.items[i..], b.kids[i + 1..]), HiOf(b, i, hi))
  {
    Focus(b, i);
    var l, m, r := FlatL(b.items[..i], b.kids[..i]), FlatTree(b.kids[i]), FlatR(b.items[i..], b.kids[i + 1..]);
    SortedThree(l, m, r, lo, hi);
    if i > 0 {
      FlatLBound(b.items[..i], b.kids[..i]);
      assert l[|l| - 1] == P(b.items[i - 1]);
    }
    if i < |b.items| {
      FlatRBound(b.items[i..], b.kids[i + 1..]);
      assert r[0] == P(b.items[i]);
    }
  }

  /** A batch inside child `i`'s range acts on child `i` alone. */
  lemma {:induction false} BatchInKid(b: Body, i: nat, ops: seq<Operation>, lo: real, hi: real)
    requires |b.kids| == |b.items| + 1 && i <= |b.items| && Sorted(Flat(b)) && Inside(Flat(b), lo, hi)
    requires Between(ops, LoOf(b, i, lo), HiOf(b, i, hi))
    ensures ApplyAll(Flat(b), ops) == FlatL(b.items[..i], b.kids[..i])
      + (ApplyAll(FlatTree(b.kids[i]), ops) + FlatR(b.items[i..], b.kids[i + 1..]))
  {
    var l, m, r := FlatL(b.items[..i], b.kids[..i]), FlatTree(b.kids[i]), FlatR(b.items[i..], b.kids[i + 1..]);
    FocusBounds(b, i, lo, hi);
    calc {
      ApplyAll(Flat(b), ops);
      { Focus(b, i); Assoc(l, m, r); }
      ApplyAll(l + m + r, ops);
      { FrameAll(l, m, r, ops, LoOf(b, i, lo), HiOf(b, i, hi)); }
      l + ApplyAll(m, ops) + r;
      { Assoc(l, ApplyAll(m, ops), r); }
      l + (ApplyAll(m, ops) + r);
    }
  }

  // ----- One separator and one child more

  /** A separator and the subtree to its right, on their way to the parent. */
  datatype Up = NoUp | Up(item: Item, tree: Tree)

  ghost function FlatUp(b: Body, u: Up): seq<Pair> {
    if u.NoUp? then Flat(b) else Flat(b) + ([P(u.item)] + FlatTree(u.tree))
  }

  ghost function FootUp(u: Up): multiset<Addr> {
    if u.NoUp? then multiset{} else multiset{u.item.addr} + FootTree(u.tree)
  }

  ghost predicate GoodUp(u: Up, d: nat, s: Slots) {
    u.Up? ==> StoredItem(u.item, s) && GoodTree(u.tree, d, s)
  }

  function WidenLeaf(b: Body, i: nat, x: Item): Body
    requires i <= |b.items|
  {
    Body(b.items[..i] + [x] + b.items[i..], b.kids)
  }

  function Widen(b: Body, i: nat, u: Up): Body
    requires i <= |b.items| && i < |b.kids| && u.Up?
  {
    Body(b.items[..i] + [u.item] + b.items[i..], b.kids[..i + 1] + [u.tree] + b.kids[i + 1..])
  }

  lemma {:induction false} FlatWiden(b: Body, i: nat, u: Up)
    requires |b.kids| == |b.items| + 1 && i < |b.kids| && u.Up?
    ensures Flat(Widen(b, i, u)) == FlatL(b.items[..i], b.kids[..i])
      + (FlatUp(b.kids[i].body, u) + FlatR(b.items[i..], b.kids[i + 1..]))
  {
    var w := Widen(b, i, u);
    FocusTwo(w, i);
    assert w.items[..i] == b.items[..i] && w.kids[..i] == b.kids[..i];
    assert w.items[i + 1..] == b.items[i..] && w.kids[i + 2..] == b.kids[i + 1..];
  }

  lemma {:induction false} FootWiden(b: Body, i: nat, u: Up)
    requires i <= |b.items| && i < |b.kids| && u.Up?
    ensures Foot(Widen(b, i, u)) == Foot(b) + FootUp(u)
  {
    var w := Widen(b, i, u);
    assert w.items[..i] == b.items[..i] && w.items[i + 1..] == b.items[i..];
    AddrsSplit(w.items, i);
    AddrsAppend(b.items[..i], b.items[i..]);
    assert b.items == b.items[..i] + b.items[i..];
    assert w.kids[..i + 1] == b.kids[..i + 1] && w.kids[i + 2..] == b.kids[i + 1..];
    FootKidsSplit(w.kids, i + 1);
    FootKidsAppend(b.kids[..i + 1], b.kids[i + 1..]);
    assert b.kids == b.kids[..i + 1] + b.kids[i + 1..];
    Regroup(multiset(AddrsOf(b.items[..i])), multiset{u.item.addr}, multiset(AddrsOf(b.items[i..])),
      FootKids(b.kids[..i + 1]), FootTree(u.tree), FootKids(b.kids[i + 1..]));
  }

  lemma Regroup(
      a: multiset<Addr>, x: multiset<Addr>, c: multiset<Addr>, d: multiset<Addr>, y: multiset<Addr>,
      e: multiset<Addr>)
    ensures a + x + c + (d + y + e) == a + c + (d + e) + (x + y)
  {
  }

  lemma {:induction false} FootWidenLeaf(b: Body, i: nat, x: Item)
    requires i <= |b.items| && b.kids == []
    ensures Foot(WidenLeaf(b, i, x)) == Foot(b) + multiset{x.addr}
  {
    var w := WidenLeaf(b, i, x);
    assert w.items[..i] == b.items[..i] && w.items[i + 1..] == b.items[i..];
    AddrsSplit(w.items, i);
    AddrsAppend(b.items[..i], b.items[i..]);
    assert b.items == b.items[..i] + b.items[i..];
  }

  lemma {:induction false} GoodWiden(b: Body, d: nat, s: Slots, i: nat, u: Up)
    requires 0 < d && GoodBody(b, d, s) && i < |b.kids| && u.Up? && GoodUp(u, d - 1, s)
    ensures GoodWide(Widen(b, i, u), d, s)
  {
    var w := Widen(b, i, u);
    forall j | 0 <= j < |w.items|
      ensures StoredItem(w.items[j], s)
    {
      assert w.items[j] == if j < i then b.items[j] else if j == i then u.item else b.items[j - 1];
    }
    forall j | 0 <= j < |w.kids|
      ensures GoodTree(w.kids[j], d - 1, s)
    {
      assert w.kids[j] == if j <= i then b.kids[j] else if j == i + 1 then u.tree else b.kids[j - 1];
    }
  }

  lemma {:induction false} GoodHalves(b: Body, d: nat, s: Slots, i: nat)
    requires GoodWide(b, d, s) && i < |b.items|
    ensures GoodWide(Left(b, i), d, s) && GoodWide(Right(b, i), d, s) && StoredItem(b.items[i], s)
  {
  }

  // ----- Two neighbouring children

  /** The content of two siblings and their separator, as one wide node. */
  function Join(k: Body, x: Item, l: Body): Body {
    Body(k.items + [x] + l.items, k.kids + l.kids)
  }

  lemma {:induction false} JoinCuts(k: Body, x: Item, l: Body)
    requires k.kids == [] || |k.kids| == |k.items| + 1
    requires k.kids == [] ==> l.kids == []
    ensures Left(Join(k, x, l), |k.items|) == k && Right(Join(k, x, l), |k.items|) == l
    ensures Join(k, x, l).items[|k.items|] == x
  {
    var w := Join(k, x, l);
    assert w.items[..|k.items|] == k.items && w.items[|k.items| + 1..] == l.items;
    if k.kids != [] {
      assert w.kids[..|k.items| + 1] == k.kids && w.kids[|k.items| + 1..] == l.kids;
    }
  }

  lemma {:induction false} GoodJoin(k: Body, x: Item, l: Body, d: nat, s: Slots)
    requires GoodWide(k, d, s) && GoodWide(l, d, s) && StoredItem(x, s)
    ensures GoodWide(Join(k, x, l), d, s)
  {
    var w := Join(k, x, l);
    forall j | 0 <= j < |w.items|
      ensures StoredItem(w.items[j], s)
    {
      assert w.items[j] ==
        if j < |k.items| then k.items[j] else if j == |k.items| then x else l.items[j - |k.items| - 1];
    }
    if d > 0 {
      forall j | 0 <= j < |w.kids|
        ensures GoodTree(w.kids[j], d - 1, s)
      {
        assert w.kids[j] == if j < |k.kids| then k.kids[j] else l.kids[j - |k.kids|];
      }
    }
  }

  ghost function FootPair(k: Tree, x: Item, l: Tree): multiset<Addr> {
    FootTree(k) + multiset{x.addr} + FootTree(l)
  }

  /** Everything a node occupies besides children `i`, `i + 1` and their separator. */
  ghost function OthersTwo(b: Body, i: nat): multiset<Addr>
    requires i < |b.items| && i + 1 < |b.kids|
  {
    multiset(AddrsOf(b.items[..i])) + multiset(AddrsOf(b.items[i + 1..]))
      + (FootKids(b.kids[..i]) + FootKids(b.kids[i + 2..]))
  }

  lemma {:induction false} FootFocusTwo(b: Body, i: nat)
    requires i < |b.items| && i + 1 < |b.kids|
    ensures Foot(b) == FootPair(b.kids[i], b.items[i], b.kids[i + 1]) + OthersTwo(b, i)
  {
    AddrsSplit(b.items, i);
    FootKidsSplit(b.kids, i);
    FootKidsSplit(b.kids[i + 1..], 0);
    assert b.kids[i + 1..][..0] == [] && b.kids[i + 1..][1..] == b.kids[i + 2..];
    assert FootKids(b.kids[i + 1..]) == FootTree(b.kids[i + 1]) + FootKids(b.kids[i + 2..]) by {
      assert FootKids([]) == multiset{};
      NoneAndTwo(FootTree(b.kids[i + 1]), FootKids(b.kids[i + 2..]));
    }
    SevenParts(multiset(AddrsOf(b.items[..i])), multiset{b.items[i].addr}, multiset(AddrsOf(b.items[i + 1..])),
      FootKids(b.kids[..i]), FootTree(b.kids[i]), FootTree(b.kids[i + 1]), FootKids(b.kids[i + 2..]));
  }

  lemma NoneAndTwo(a: multiset<Addr>, b: multiset<Addr>)
    ensures multiset{} + a + b == a + b
  {
  }

  lemma SevenParts(a: multiset<Addr>, x: multiset<Addr>, c: multiset<Addr>, l: multiset<Addr>, k: multiset<Addr>,
    m: multiset<Addr>, r: multiset<Addr>)
    ensures a + x + c + (l + k + (m + r)) == k + x + m + (a + c + (l + r))
  {
  }

  function WithPair(b: Body, i: nat, k: Tree, x: Item, l: Tree): Body
    requires i < |b.items| && i + 1 < |b.kids|
  {
    Body(b.items[..i] + [x] + b.items[i + 1..], b.kids[..i] + [k, l] + b.kids[i + 2..])
  }

  function WithMerged(b: Body, i: nat, k: Tree): Body
    requires i < |b.items| && i + 1 < |b.kids|
  {
    Body(b.items[..i] + b.items[i + 1..], b.kids[..i] + [k] + b.kids[i + 2..])
  }

  lemma {:induction false} GoodOuter(b: Body, d: nat, s: Slots, at: nat, i: nat)
    requires GoodBut(b, d, s, at) && i < |b.items| && (at == i || at == i + 1)
    ensures StoredItems(b.items[..i], s) && StoredItems(b.items[i + 1..], s)
    ensures GoodKids(b.kids[..i], d - 1, s) && GoodKids(b.kids[i + 2..], d - 1, s)
  {
  }

  lemma {:induction false} SameButTwo(b: Body, d: nat, s0: Slots, s1: Slots, i: nat)
    requires i < |b.items| && i + 1 < |b.kids| && Same(OthersTwo(b, i), s0, s1)
    requires StoredItems(b.items[..i], s0) && StoredItems(b.items[i + 1..], s0)
    requires GoodKids(b.kids[..i], d, s0) && GoodKids(b.kids[i + 2..], d, s0)
    ensures StoredItems(b.items[..i], s1) && StoredItems(b.items[i + 1..], s1)
    ensures GoodKids(b.kids[..i], d, s1) && GoodKids(b.kids[i + 2..], d, s1)
  {
    var p, q := multiset(AddrsOf(b.items[..i])), multiset(AddrsOf(b.items[i + 1..]));
    var l, r := FootKids(b.kids[..i]), FootKids(b.kids[i + 2..]);
    SameSum(p + q, l + r, s0, s1);
    SameSum(p, q, s0, s1);
    SameSum(l, r, s0, s1);
    SameItems(b.items[..i], s0, s1);
    SameItems(b.items[i + 1..], s0, s1);
    SameKids(b.kids[..i], d, s0, s1);
    SameKids(b.kids[i + 2..], d, s0, s1);
  }

  lemma {:induction false} PairSlices(b: Body, i: nat, k: Tree, x: Item, l: Tree)
    requires i < |b.items| && |b.kids| == |b.items| + 1
    ensures var c := WithPair(b, i, k, x, l);
      && c.items[..i] == b.items[..i] && c.items[i + 1..] == b.items[i + 1..]
      && c.kids[..i] == b.kids[..i] && c.kids[i + 2..] == b.kids[i + 2..]
      && c.items[i] == x && c.kids[i] == k && c.kids[i + 1] == l && |c.kids| == |c.items| + 1
  {
  }

  lemma {:induction false} PairMoved(b: Body, s0: Slots, s1: Slots, i: nat, k: Tree, x: Item, l: Tree)
    requires i < |b.items| && |b.kids| == |b.items| + 1 && Owned(Foot(b), s0)
    requires Moved(s0, FootPair(b.kids[i], b.items[i], b.kids[i + 1]), s1, FootPair(k, x, l))
    ensures Moved(s0, Foot(b), s1, Foot(WithPair(b, i, k, x, l))) && Same(OthersTwo(b, i), s0, s1)
  {
    PairSlices(b, i, k, x, l);
    FootFocusTwo(b, i);
    FootFocusTwo(WithPair(b, i, k, x, l), i);
    MovedFrame(s0, FootPair(b.kids[i], b.items[i], b.kids[i + 1]), s1, FootPair(k, x, l), OthersTwo(b, i));
  }

  lemma {:induction false} PairFlat(b: Body, i: nat, k: Tree, x: Item, l: Tree)
    requires i < |b.items| && |b.kids| == |b.items| + 1
    requires Two(k, x, l) == Two(b.kids[i], b.items[i], b.kids[i + 1])
    ensures Flat(WithPair(b, i, k, x, l)) == Flat(b)
  {
    PairSlices(b, i, k, x, l);
    FocusTwo(b, i);
    FocusTwo(WithPair(b, i, k, x, l), i);
  }

  /** A separator and two children replaced by others: borrowing from a sibling. */
  lemma {:induction false} ReplacePair(
      b: Body, d: nat, s0: Slots, s1: Slots, at: nat, i: nat, k: Tree, x: Item, l: Tree)
    requires GoodBut(b, d, s0, at) && i < |b.items| && (at == i || at == i + 1) && Owned(Foot(b), s0)
    requires Moved(s0, FootPair(b.kids[i], b.items[i], b.kids[i + 1]), s1, FootPair(k, x, l))
    requires GoodTree(k, d - 1, s1) && StoredItem(x, s1) && GoodTree(l, d - 1, s1)
    requires Two(k, x, l) == Two(b.kids[i], b.items[i], b.kids[i + 1])
    ensures GoodBody(WithPair(b, i, k, x, l), d, s1)
    ensures Moved(s0, Foot(b), s1, Foot(WithPair(b, i, k, x, l)))
    ensures Flat(WithPair(b, i, k, x, l)) == Flat(b)
  {
    PairMoved(b, s0, s1, i, k, x, l);
    PairFlat(b, i, k, x, l);
    PairGood(b, d, s0, s1, at, i, k, x, l);
  }

  lemma {:induction false} PairGood(b: Body, d: nat, s0: Slots, s1: Slots, at: nat, i: nat, k: Tree, x: Item, l: Tree)
    requires GoodBut(b, d, s0, at) && i < |b.items| && (at == i || at == i + 1) && Same(OthersTwo(b, i), s0, s1)
    requires GoodTree(k, d - 1, s1) && StoredItem(x, s1) && GoodTree(l, d - 1, s1)
    ensures GoodBody(WithPair(b, i, k, x, l), d, s1)
  {
    GoodOuter(b, d, s0, at, i);
    SameButTwo(b, d - 1, s0, s1, i);
    GoodPairIntro(b, d, s1, i, k, x, l);
  }

  lemma {:induction false} GoodPairIntro(b: Body, d: nat, s: Slots, i: nat, k: Tree, x: Item, l: Tree)
    requires 0 < d && i < |b.items| && |b.kids| == |b.items| + 1 && |b.items| <= ORDER
    requires StoredItems(b.items[..i], s) && StoredItems(b.items[i + 1..], s)
    requires GoodKids(b.kids[..i], d - 1, s) && GoodKids(b.kids[i + 2..], d - 1, s)
    requires GoodTree(k, d - 1, s) && StoredItem(x, s) && GoodTree(l, d - 1, s)
    ensures GoodBody(WithPair(b, i, k, x, l), d, s)
  {
    var c := WithPair(b, i, k, x, l);
    forall j | 0 <= j < |c.items|
      ensures StoredItem(c.items[j], s)
    {
      assert c.items[j] == if j < i then b.items[..i][j] else if j == i then x else b.items[i + 1..][j - i - 1];
    }
    forall j | 0 <= j < |c.kids|
      ensures GoodTree(c.kids[j], d - 1, s)
    {
      assert c.kids[j] ==
        if j < i then b.kids[..i][j] else if j == i then k else if j == i + 1 then l else b.kids[i + 2..][j - i - 2];
    }
  }

  lemma {:induction false} MergedSlices(b: Body, i: nat, k: Tree)
    requires i < |b.items| && |b.kids| == |b.items| + 1
    ensures var c := WithMerged(b, i, k);
      && c.items[..i] == b.items[..i] && c.items[i..] == b.items[i + 1..]
      && c.kids[..i] == b.kids[..i] && c.kids[i + 1..] == b.kids[i + 2..]
      && c.kids[i] == k && |c.kids| == |c.items| + 1
  {
  }

  lemma {:induction false} MergedMoved(b: Body, s0: Slots, s1: Slots, i: nat, k: Tree)
    requires i < |b.items| && |b.kids| == |b.items| + 1 && Owned(Foot(b), s0)
    requires Moved(s0, FootPair(b.kids[i], b.items[i], b.kids[i + 1]), s1, FootTree(k))
    ensures Moved(s0, Foot(b), s1, Foot(WithMerged(b, i, k))) && Same(OthersTwo(b, i), s0, s1)
  {
    MergedSlices(b, i, k);
    FootFocusTwo(b, i);
    MovedFrame(s0, FootPair(b.kids[i], b.items[i], b.kids[i + 1]), s1, FootTree(k), OthersTwo(b, i));
    AddrsAppend(b.items[..i], b.items[i + 1..]);
    FootFocus(WithMerged(b, i, k), i);
  }

  lemma {:induction false} MergedFlat(b: Body, i: nat, k: Tree)
    requires i < |b.items| && |b.kids| == |b.items| + 1
    requires FlatTree(k) == Two(b.kids[i], b.items[i], b.kids[i + 1])
    ensures Flat(WithMerged(b, i, k)) == Flat(b)
  {
    MergedSlices(b, i, k);
    FocusTwo(b, i);
    Focus(WithMerged(b, i, k), i);
  }

  /** Two children and their separator replaced by one child. */
  lemma {:induction false} ReplaceMerged(b: Body, d: nat, s0: Slots, s1: Slots, at: nat, i: nat, k: Tree)
    requires GoodBut(b, d, s0, at) && i < |b.items| && (at == i || at == i + 1) && Owned(Foot(b), s0)
    requires Moved(s0, FootPair(b.kids[i], b.items[i], b.kids[i + 1]), s1, FootTree(k))
    requires GoodTree(k, d - 1, s1) && FlatTree(k) == Two(b.kids[i], b.items[i], b.kids[i + 1])
    ensures GoodBody(WithMerged(b, i, k), d, s1)
    ensures Moved(s0, Foot(b), s1, Foot(WithMerged(b, i, k)))
    ensures Flat(WithMerged(b, i, k)) == Flat(b)
  {
    MergedMoved(b, s0, s1, i, k);
    MergedFlat(b, i, k);
    MergedGood(b, d, s0, s1, at, i, k);
  }

  lemma {:induction false} MergedGood(b: Body, d: nat, s0: Slots, s1: Slots, at: nat, i: nat, k: Tree)
    requires GoodBut(b, d, s0, at) && i < |b.items| && (at == i || at == i + 1) && Same(OthersTwo(b, i), s0, s1)
    requires GoodTree(k, d - 1, s1)
    ensures GoodBody(WithMerged(b, i, k), d, s1)
  {
    GoodOuter(b, d, s0, at, i);
    SameButTwo(b, d - 1, s0, s1, i);
    GoodMergedIntro(b, d, s1, i, k);
  }

  lemma {:induction false} GoodMergedIntro(b: Body, d: nat, s: Slots, i: nat, k: Tree)
    requires 0 < d && i < |b.items| && |b.kids| == |b.items| + 1 && |b.items| <= ORDER
    requires StoredItems(b.items[..i], s) && StoredItems(b.items[i + 1..], s)
    requires GoodKids(b.kids[..i], d - 1, s) && GoodKids(b.kids[i + 2..], d - 1, s) && GoodTree(k, d - 1, s)
    ensures GoodBody(WithMerged(b, i, k), d, s)
  {
    var c := WithMerged(b, i, k);
    forall j | 0 <= j < |c.items|
      ensures StoredItem(c.items[j], s)
    {
      assert c.items[j] == if j < i then b.items[..i][j] else b.items[i + 1..][j - i];
    }
    forall j | 0 <= j < |c.kids|
      ensures GoodTree(c.kids[j], d - 1, s)
    {
      assert c.kids[j] == if j < i then b.kids[..i][j] else if j == i then k else b.kids[i + 2..][j - i - 1];
    }
  }
}
