/**
 The stack cursor of a tree iterator. Whatever the stack looks like, the cursor stands in one gap
 of the sorted sequence of pairs for each direction it may move in; a step returns the pair next
 to that gap.
 */
module Cursor {
  import opened Keys
  import opened Batch
  import opened Tree
  import opened TreeOps
  import opened NodeArrays
  import opened BTreeNode
  import opened BTree

  datatype Direction = Forward | Backward

  datatype LastIndex = Seeked(i: nat) | AtItem(i: nat) | Before(i: nat) | Descend(i: nat)

  datatype SeekTo = Include(key: Bytes) | Exclude(key: Bytes) | Last

  /** A node on the stack and where the cursor is in it. */
  datatype Frame = Frame(ix: LastIndex, slot: Slot)

  /** The content of that node and how many pairs lie before it. */
  datatype Level = Level(body: Body, off: nat)

  // ----- Places in a node

  ghost function ItemPos(b: Body, i: nat): nat
    requires i < |b.items|
  {
    |Flat(Left(b, i))|
  }

  ghost function KidPos(b: Body, i: nat): nat
    requires i <= |b.items| && i <= |b.kids|
  {
    |FlatL(b.items[..i], b.kids[..i])|
  }

  lemma {:induction false} ItemIs(b: Body, i: nat)
    requires i < |b.items| && (b.kids == [] || |b.kids| == |b.items| + 1)
    ensures ItemPos(b, i) < |Flat(b)| && Flat(b)[ItemPos(b, i)] == P(b.items[i])
  {
    FlatSplit(b, i);
    hide Flat;
    var l, r := Flat(Left(b, i)), Flat(Right(b, i));
    assert (l + ([P(b.items[i])] + r))[|l|] == P(b.items[i]);
  }

  lemma {:induction false} LeafPos(b: Body, i: nat)
    requires b.kids == []
    ensures |Flat(b)| == |b.items| && (i < |b.items| ==> ItemPos(b, i) == i)
  {
  }

  lemma {:induction false} KidIs(b: Body, i: nat)
    requires |b.kids| == |b.items| + 1 && i <= |b.items|
    ensures KidPos(b, i) + |FlatTree(b.kids[i])| <= |Flat(b)|
    ensures forall k :: 0 <= k < |FlatTree(b.kids[i])| ==> Flat(b)[KidPos(b, i) + k] == FlatTree(b.kids[i])[k]
    ensures i < |b.items| ==> ItemPos(b, i) == KidPos(b, i) + |FlatTree(b.kids[i])|
    ensures i == |b.items| ==> KidPos(b, i) + |FlatTree(b.kids[i])| == |Flat(b)|
    ensures i == 0 ==> KidPos(b, i) == 0
    ensures i > 0 ==> KidPos(b, i) == ItemPos(b, i - 1) + 1
  {
    Focus(b, i);
    if i < |b.items| {
      LeftSize(b, i);
    } else {
      assert b.items[i..] == [] && FlatR([], b.kids[i + 1..]) == [];
    }
    if i > 0 {
      LeftSize(b, i - 1);
      assert b.items[..i][..i - 1] == b.items[..i - 1] && b.kids[..i][..i - 1] == b.kids[..i - 1];
    }
  }

  lemma {:induction false} LeftSize(b: Body, i: nat)
    requires |b.kids| == |b.items| + 1 && i < |b.items|
    ensures ItemPos(b, i) == KidPos(b, i) + |FlatTree(b.kids[i])|
  {
    var l := Left(b, i);
    assert l.kids[..i] == b.kids[..i] && l.kids[i] == b.kids[i];
  }

  // ----- The stack

  ghost predicate Under(a: Level, ix: LastIndex, c: Level) {
    && ix.Descend? && ix.i <= |a.body.items| && |a.body.kids| == |a.body.items| + 1
    && c == Level(a.body.kids[ix.i].body, a.off + KidPos(a.body, ix.i))
  }

  /** Node content at height `d`, as the cursor needs it. */
  ghost predicate Sound(b: Body, d: nat, s: Slots, root: bool) {
    match b
    case Body(items, kids) => GoodBody(b, d, s) && (d > 0 ==> |items| > 0) && (!root ==> |items| > 0)
  }

  ghost predicate PathOk(levels: seq<Level>, stack: seq<Frame>, b: Body, d: nat, s: Slots) {
    && |levels| == |stack| <= d + 1 && (stack != [] ==> levels[0] == Level(b, 0))
    && (forall j :: 0 <= j < |stack| ==>
      stack[j].slot == SlotOf(levels[j].body) && Sound(levels[j].body, d - j, s, j == 0))
    && (forall j :: 0 <= j < |stack| - 1 ==> Under(levels[j], stack[j].ix, levels[j + 1]))
  }

  /** Where the cursor may be in the node on top of the stack, on its way in one direction. */
  ghost predicate TopOk(b: Body, ix: LastIndex, dir: Direction) {
    match ix
    case Seeked(i) => i < |b.items|
    case AtItem(i) => i < |b.items|
    case Before(i) => i <= |b.items| && (b.kids == [] || if dir == Forward then i < |b.items| else i > 0)
    case Descend(i) => b.kids != [] && i <= |b.items|
  }

  /** The gap the cursor moves from. */
  ghost function GapIn(b: Body, ix: LastIndex, dir: Direction): nat
    requires TopOk(b, ix, dir) && (b.kids == [] || |b.kids| == |b.items| + 1)
  {
    match ix
    case Seeked(i) => ItemPos(b, i) + if dir == Forward then 0 else 1
    case AtItem(i) => ItemPos(b, i) + if dir == Forward then 1 else 0
    case Before(i) => if b.kids == [] then i else if dir == Forward then ItemPos(b, i) else KidPos(b, i)
    case Descend(i) => KidPos(b, i) + if dir == Forward then 0 else |FlatTree(b.kids[i])|
  }

  /** A node on the path is a stretch of the whole sequence. */
  lemma {:induction false} InFlat(levels: seq<Level>, stack: seq<Frame>, b: Body, d: nat, s: Slots, j: nat)
    requires PathOk(levels, stack, b, d, s) && j < |stack|
    ensures levels[j].off + |Flat(levels[j].body)| <= |Flat(b)|
    ensures forall k :: 0 <= k < |Flat(levels[j].body)| ==> Flat(b)[levels[j].off + k] == Flat(levels[j].body)[k]
  {
    hide Flat, FlatL, Sound, KidPos;
    if j > 0 {
      InFlat(levels, stack, b, d, s, j - 1);
      var a, ix := levels[j - 1], stack[j - 1].ix;
      assert Under(a, ix, levels[j]);
      KidIs(a.body, ix.i);
      Stretch(Flat(b), a.off, Flat(a.body), KidPos(a.body, ix.i), FlatTree(a.body.kids[ix.i]));
    }
  }

  lemma Stretch(f: seq<Pair>, i: nat, g: seq<Pair>, j: nat, h: seq<Pair>)
    requires i + |g| <= |f| && j + |h| <= |g|
    requires forall k :: 0 <= k < |g| ==> f[i + k] == g[k]
    requires forall k :: 0 <= k < |h| ==> g[j + k] == h[k]
    ensures forall k :: 0 <= k < |h| ==> f[i + j + k] == h[k]
  {
    forall k | 0 <= k < |h|
      ensures f[i + j + k] == h[k]
    {
      assert f[i + (j + k)] == g[j + k];
    }
  }

  ghost predicate Walking(levels: seq<Level>, stack: seq<Frame>, b: Body, d: nat, s: Slots, dir: Direction, g: nat) {
    && |levels| == |stack| && PathOk(levels, stack, b, d, s) && stack != []
    && Stands(levels[|stack| - 1], stack[|stack| - 1].ix, dir, g)
  }

  ghost predicate Stands(l: Level, ix: LastIndex, dir: Direction, g: nat) {
    && (l.body.kids == [] || |l.body.kids| == |l.body.items| + 1)
    && TopOk(l.body, ix, dir) && l.off + GapIn(l.body, ix, dir) == g
  }

  /** The cursor has passed everything in the node on top of the stack. */
  ghost predicate Leaving(levels: seq<Level>, stack: seq<Frame>, b: Body, d: nat, s: Slots, dir: Direction, g: nat) {
    && |levels| == |stack| && PathOk(levels, stack, b, d, s) && stack != []
    && Past(levels[|stack| - 1], dir, g)
  }

  ghost predicate Past(l: Level, dir: Direction, g: nat) {
    g == l.off + if dir == Forward then |Flat(l.body)| else 0
  }

  /** Nothing is left in this direction. */
  ghost predicate Over(b: Body, dir: Direction, g: nat) {
    g == if dir == Forward then |Flat(b)| else 0
  }

  lemma {:induction false} SoundShape(b: Body, d: nat, s: Slots, root: bool)
    requires Sound(b, d, s, root)
    ensures |b.items| <= ORDER && (d == 0 ==> b.kids == []) && (d > 0 ==> |b.kids| == |b.items| + 1 && |b.items| > 0)
    ensures d > 0 ==> forall i :: 0 <= i <= |b.items| ==> Stored(b.kids[i], s) && Sound(b.kids[i].body, d - 1, s, false)
    ensures forall i :: 0 <= i < |b.items| ==> StoredItem(b.items[i], s)
  {
    if d > 0 {
      forall i | 0 <= i <= |b.items|
        ensures Stored(b.kids[i], s) && Sound(b.kids[i].body, d - 1, s, false)
      {
        assert GoodTree(b.kids[i], d - 1, s);
      }
    }
  }

  lemma {:induction false} TopSound(levels: seq<Level>, stack: seq<Frame>, b: Body, d: nat, s: Slots)
    requires PathOk(levels, stack, b, d, s) && stack != []
    ensures var n := |stack| - 1;
      n <= d && Sound(levels[n].body, d - n, s, n == 0) && stack[n].slot == SlotOf(levels[n].body)
  {
  }

  /** `exit`, one level up: the parent has a next item beside the child, or is passed as well. */
  lemma {:induction false} UpOk(a: Level, ix: LastIndex, c: Level, dir: Direction, g: nat)
    requires Under(a, ix, c) && Past(c, dir, g)
    ensures (dir == Forward && ix.i == |a.body.items|) || (dir == Backward && ix.i == 0) ==> Past(a, dir, g)
    ensures !((dir == Forward && ix.i == |a.body.items|) || (dir == Backward && ix.i == 0)) ==>
      Stands(a, Before(ix.i), dir, g)
  {
    KidIs(a.body, ix.i);
    hide Flat, FlatL, KidPos, ItemPos;
  }

  lemma {:induction false} PathPop(levels: seq<Level>, stack: seq<Frame>, b: Body, d: nat, s: Slots)
    requires PathOk(levels, stack, b, d, s) && stack != []
    ensures var n := |stack| - 1;
      PathOk(levels[..n], stack[..n], b, d, s) && n <= d && (n == 0 ==> levels[0] == Level(b, 0))
    ensures |stack| > 1 ==> var n := |stack| - 1; Under(levels[n - 1], stack[n - 1].ix, levels[n])
  {
    hide Sound, Under;
  }

  lemma {:induction false} PathSet(levels: seq<Level>, stack: seq<Frame>, b: Body, d: nat, s: Slots, ix: LastIndex)
    requires PathOk(levels, stack, b, d, s) && stack != []
    ensures var n := |stack| - 1; PathOk(levels, stack[n := stack[n].(ix := ix)], b, d, s)
  {
    hide Sound, Under;
  }

  lemma {:induction false} PathPush(
      levels: seq<Level>, stack: seq<Frame>, b: Body, d: nat, s: Slots, f: Frame, l: Level)
    requires PathOk(levels, stack, b, d, s) && |stack| <= d
    requires stack == [] ==> l == Level(b, 0)
    requires stack != [] ==> Under(levels[|stack| - 1], stack[|stack| - 1].ix, l)
    requires f.slot == SlotOf(l.body) && Sound(l.body, d - |stack|, s, stack == [])
    ensures PathOk(levels + [l], stack + [f], b, d, s)
  {
    hide Sound, Under;
  }

  // ----- One step

  /** What follows an index in a direction; nothing means that the node is passed. */
  function Advance(ix: LastIndex, dir: Direction, leaf: bool): Option<LastIndex> {
    match ix
    case Descend(i) => Some(Descend(i))
    case Seeked(i) => Some(AtItem(i))
    case AtItem(i) =>
      if dir == Forward then
        (if !leaf then Some(Descend(i + 1)) else if i + 1 == ORDER then None else Some(AtItem(i + 1)))
      else if !leaf then Some(Descend(i))
      else if i == 0 then None
      else Some(AtItem(i - 1))
    case Before(i) =>
      if dir == Forward then (if i == ORDER then None else Some(AtItem(i)))
      else if i == 0 then None
      else Some(AtItem(i - 1))
  }

  ghost predicate Leaves(b: Body, a: Option<LastIndex>) {
    a.None? || (a.value.AtItem? && a.value.i >= |b.items|)
  }

  /** Moving on inside a node: to an item beside the gap, to a child that borders it, or out of the node. */
  ghost predicate Advanced(l: Level, a: Option<LastIndex>, dir: Direction, g: nat) {
    && (Leaves(l.body, a) ==> Past(l, dir, g) && l.body.kids == [])
    && (!Leaves(l.body, a) && a.value.AtItem? ==>
      g == l.off + ItemPos(l.body, a.value.i) + if dir == Forward then 0 else 1)
    && (a.Some? && a.value.Descend? ==> l.body.kids != [] && Stands(l, a.value, dir, g))
    && (a.Some? ==> a.value.AtItem? || a.value.Descend?)
  }

  lemma {:induction false} AdvanceLeaf(l: Level, ix: LastIndex, dir: Direction, g: nat)
    requires Stands(l, ix, dir, g) && |l.body.items| <= ORDER && l.body.kids == []
    ensures Advanced(l, Advance(ix, dir, true), dir, g)
  {
    LeafPositions(l.body);
    hide Flat, FlatL, KidPos, ItemPos, FlatTree;
  }

  lemma {:induction false} AdvanceInner(l: Level, ix: LastIndex, dir: Direction, g: nat)
    requires Stands(l, ix, dir, g) && |l.body.items| <= ORDER && |l.body.kids| == |l.body.items| + 1
    ensures Advanced(l, Advance(ix, dir, false), dir, g)
  {
    hide Flat, FlatTree, FlatL, GoodBody, Rank, Sorted, Sound, KidPos, ItemPos;
    var i := ix.i;
    KidIs(l.body, i);
    if ix.AtItem? {
      KidIs(l.body, i + 1);
    }
    hide Flat, FlatL, KidPos, ItemPos, FlatTree;
  }

  lemma LeafPositions(b: Body)
    requires b.kids == []
    ensures |Flat(b)| == |b.items| && forall i :: 0 <= i < |b.items| ==> ItemPos(b, i) == i
  {
    forall i | 0 <= i < |b.items|
      ensures ItemPos(b, i) == i
    {
      LeafPos(b, i);
    }
    LeafPos(b, 0);
  }

  /** A node entered from one side stands at that end of it. */
  lemma {:induction false} EnterOk(a: Level, c: nat, dir: Direction, leaf: bool, g: nat)
    requires Stands(a, Descend(c), dir, g)
    requires var k := a.body.kids[c].body; leaf <==> k.kids == []
    requires var k := a.body.kids[c].body; leaf || |k.kids| == |k.items| + 1
    ensures var l := Level(a.body.kids[c].body, a.off + KidPos(a.body, c));
      Under(a, Descend(c), l) && Stands(l, StartIndex(l.body, dir, leaf), dir, g)
  {
    var l := Level(a.body.kids[c].body, a.off + KidPos(a.body, c));
    StartStands(l, dir, leaf);
    hide Flat, FlatL, KidPos, ItemPos;
  }

  ghost function StartIndex(b: Body, dir: Direction, leaf: bool): LastIndex {
    var i := if dir == Forward then 0 else |b.items|;
    if leaf then Before(i) else Descend(i)
  }

  lemma {:induction false} StartStands(l: Level, dir: Direction, leaf: bool)
    requires leaf <==> l.body.kids == []
    requires leaf || |l.body.kids| == |l.body.items| + 1
    ensures Stands(l, StartIndex(l.body, dir, leaf), dir, l.off + if dir == Forward then 0 else |Flat(l.body)|)
  {
    if leaf {
      LeafPos(l.body, 0);
    } else {
      KidIs(l.body, if dir == Forward then 0 else |l.body.items|);
    }
    hide Flat, FlatL, KidPos, ItemPos;
  }

  /** How far the loop of `next` is from its end. */
  ghost function Distance(stack: seq<Frame>, d: nat): nat
    requires stack != [] && |stack| <= d + 1
  {
    if |stack| == d + 1 then 1 else if stack[|stack| - 1].ix.Before? then 0 else 2 + d + 1 - |stack|
  }

  /** Between two steps the cursor is at an item, before an item of a leaf, or nowhere. */
  ghost predicate RestsAt(levels: seq<Level>, stack: seq<Frame>, b: Body, d: nat, s: Slots) {
    && PathOk(levels, stack, b, d, s)
    && (stack != [] ==> Resting(stack[|stack| - 1].ix, levels[|stack| - 1].body))
  }

  ghost predicate Resting(ix: LastIndex, b: Body) {
    !ix.Descend? && (ix.Before? ==> b.kids == []) && TopOk(b, ix, Forward)
    && (b.kids == [] || |b.kids| == |b.items| + 1)
  }

  ghost function GapAt(levels: seq<Level>, stack: seq<Frame>, dir: Direction, b: Body, d: nat, s: Slots): nat
    requires RestsAt(levels, stack, b, d, s)
  {
    if stack == [] then (if dir == Forward then 0 else |Flat(b)|)
    else levels[|stack| - 1].off + GapIn(levels[|stack| - 1].body, stack[|stack| - 1].ix, dir)
  }

  method NodeStart(slot: Slot, dir: Direction, leaf: bool, ghost b: Body) returns (ix: LastIndex)
    requires slot == SlotOf(b) && |b.items| <= ORDER
    ensures ix == StartIndex(b, dir, leaf)
  {
    var node := new Node.FromSlot(slot);
    var last := node.LastSeparatorIndex();
    assert |b.items| > 0 ==> node.separators[|b.items| - 1].Some?;
    assert forall i :: 0 <= i < ORDER && node.separators[i].Some? ==> i < |b.items|;
    var i := if dir == Forward then 0 else if last.Some? then last.value + 1 else 0;
    ix := if leaf then Before(i) else Descend(i);
  }

  /** `BTreeIterState`: a stack of nodes, each with the place the cursor has reached in it. */
  class TreeCursor {
    var stack: seq<Frame>
    ghost var levels: seq<Level>

    constructor ()
      ensures stack == [] && levels == []
    {
      stack, levels := [], [];
    }

    ghost predicate Rests(b: Body, d: nat, s: Slots)
      reads this
    {
      RestsAt(levels, stack, b, d, s)
    }

    /** The gap that a step in this direction starts from. */
    ghost function Gap(dir: Direction, b: Body, d: nat, s: Slots): nat
      requires Rests(b, d, s)
      reads this
    {
      GapAt(levels, stack, dir, b, d, s)
    }

    method Exit(dir: Direction, ghost b: Body, ghost d: nat, ghost s: Slots, ghost g: nat) returns (over: bool)
      requires Leaving(levels, stack, b, d, s, dir, g)
      modifies this
      ensures if over then stack == [] && levels == [] && Over(b, dir, g) else Walking(levels, stack, b, d, s, dir, g)
      ensures !over ==> |stack| <= d && stack[|stack| - 1].ix.Before?
    {
      hide PathOk, Under, Stands, Past, Flat;
      while stack != []
        invariant |levels| == |stack| && PathOk(levels, stack, b, d, s)
        invariant if stack == [] then Over(b, dir, g) else Past(levels[|stack| - 1], dir, g)
      {
        var n := |stack| - 1;
        ghost var c := levels[n];
        PathPop(levels, stack, b, d, s);
        RootPast(c, b, dir, g, n);
        stack, levels := stack[..n], levels[..n];
        if stack != [] {
          var f := stack[n - 1];
          UpOk(levels[n - 1], f.ix, c, dir, g);
          CountIs(levels, stack, b, d, s, f.ix, c);
          if !((dir == Backward && f.ix.i == 0)
            || (dir == Forward && (f.ix.i == ORDER || f.slot.separators[f.ix.i].None?))) {
            PathSet(levels, stack, b, d, s, Before(f.ix.i));
            stack := stack[n - 1 := f.(ix := Before(f.ix.i))];
            return false;
          }
        }
      }
      over := true;
    }

    /** A cursor that is nowhere starts at the end that its direction starts from. */
    method EnterRoot(dir: Direction, root: Option<Addr>, depth: nat, store: Store, ghost b: Body, ghost g: nat)
      requires RootOk(root, depth, b, store.slots) && RootStored(root, b, store.slots) && Rests(b, depth, store.slots)
      requires g == Gap(dir, b, depth, store.slots)
      modifies this
      ensures Walking(levels, stack, b, depth, store.slots, dir, g) && |stack| <= depth + 1
      ensures |stack| == depth + 1 || !stack[|stack| - 1].ix.Before?
    {
      hide RootOk, Flat, ItemPos, KidPos, Sound, Under;
      if stack == [] {
        RootSound(root, depth, b, store.slots);
        var slot := if root.None? then NodeSlot(Nones(ORDER), Nones(ORDER_CHILD)) else store.slots[root.value];
        EmptySlot(root, b, slot);
        var ix := NodeStart(slot, dir, depth == 0, b);
        StartStands(Level(b, 0), dir, depth == 0);
        PathPush(levels, stack, b, depth, store.slots, Frame(ix, slot), Level(b, 0));
        stack, levels := stack + [Frame(ix, slot)], levels + [Level(b, 0)];
      } else {
        RestWalks(levels, stack, b, depth, store.slots, dir);
      }
    }

    /** `BTreeIterState::next`: the pair beside the gap, or nothing at the end of the tree. */
    method Next(dir: Direction, root: Option<Addr>, depth: nat, store: Store, ghost b: Body) returns (r: Option<Pair>)
      requires RootOk(root, depth, b, store.slots) && RootStored(root, b, store.slots) && Rests(b, depth, store.slots)
      modifies this
      ensures Rests(b, depth, store.slots)
      ensures var g := old(Gap(dir, b, depth, store.slots));
        if Over(b, dir, g) then r == None && stack == [] else
          var t := if dir == Forward then g else g - 1;
          && 0 <= t < |Flat(b)| && r == Some(Flat(b)[t]) && stack != []
          && Gap(Forward, b, depth, store.slots) == t + 1 && Gap(Backward, b, depth, store.slots) == t
    {
      hide RootOk, Flat, ItemPos, KidPos, Sound, Under, PathOk, Stands, RootStored, Stored, SlotOf, FlatTree;
      hide GoodBody, GoodTree, Rank, Sorted, Leaving, Past;
      ghost var g, s := Gap(dir, b, depth, store.slots), store.slots;
      EnterRoot(dir, root, depth, store, b, g);
      while true
        invariant Walking(levels, stack, b, depth, s, dir, g) && |stack| <= depth + 1
        decreases Distance(stack, depth)
      {
        var n := |stack| - 1;
        var f, leaf := stack[n], depth + 1 == |stack|;
        var a := Advance(f.ix, dir, leaf);
        StepOk(levels, stack, b, depth, s, dir, g, a);
        if a.None? || (a.value.AtItem? && f.slot.separators[a.value.i].None?)
          || (a.value.Descend? && f.slot.children[a.value.i].None?) {
          var over := Exit(dir, b, depth, s, g);
          if over {
            EmptyPath(b, depth, s);
            return None;
          }
        } else if a.value.AtItem? {
          var sep := f.slot.separators[a.value.i].value;
          StopOk(levels, stack, b, depth, s, dir, g, a.value.i);
          stack := stack[n := f.(ix := a.value)];
          return Some(Pair(sep.key, store.slots[sep.addr].val));
        } else {
          var child := store.slots[f.slot.children[a.value.i].value];
          ghost var l := levels[n];
          var ix := NodeStart(child, dir, depth == |stack|, l.body.kids[a.value.i].body);
          DownOk(levels, stack, b, depth, s, dir, g, a.value.i);
          ghost var k := Level(l.body.kids[a.value.i].body, l.off + KidPos(l.body, a.value.i));
          stack, levels := stack[n := f.(ix := a.value)] + [Frame(ix, child)], levels + [k];
        }
      }
    }

    /** `seek`: the stack ends at the key when it is there, else at the gap where it would be. */
    method Seek(to: SeekTo, root: Option<Addr>, depth: nat, store: Store, ghost b: Body)
      requires RootOk(root, depth, b, store.slots) && RootStored(root, b, store.slots)
      modifies this
      ensures Rests(b, depth, store.slots) && stack != []
      ensures Reached(to, Flat(b), Gap(Forward, b, depth, store.slots), Gap(Backward, b, depth, store.slots))
    {
      hide RootOk, Flat, ItemPos, KidPos, Sound, Under, PathOk, Encloses, Sorted, Joins, Reached, RestsAt, GapAt;
      stack, levels := [], [];
      ghost var s, l := store.slots, Level(b, 0);
      RootSound(root, depth, b, s);
      EmptyPath(b, depth, s);
      StartEncloses(root, depth, b, s, to);
      var slot := if root.None? then NodeSlot(Nones(ORDER), Nones(ORDER_CHILD)) else store.slots[root.value];
      EmptySlot(root, b, slot);
      FirstJoins(b, depth, s, slot);
      var d := depth;
      while true
        invariant |levels| == |stack| && |stack| + d == depth && Joins(levels, stack, b, depth, s, slot, l)
        invariant Encloses(Flat(b), l, to)
        decreases d
      {
        JoinsShape(levels, stack, b, depth, s, slot, l);
        var at, i := Locate(slot, to, l.body);
        SeekOk(levels, stack, b, depth, s, slot, l, to, at, i);
        if at || d == 0 {
          var f := Frame(if !at then Before(i) else if to.Exclude? then AtItem(i) else Seeked(i), slot);
          stack, levels := stack + [f], levels + [l];
          return;
        }
        var f := Frame(Descend(i), slot);
        slot := store.slots[slot.children[i].value];
        ghost var k := Level(l.body.kids[i].body, l.off + KidPos(l.body, i));
        stack, levels := stack + [f], levels + [l];
        l := k;
        d := d - 1;
      }
    }
  }

  lemma {:induction false} RootSound(root: Option<Addr>, d: nat, b: Body, s: Slots)
    requires RootOk(root, d, b, s)
    ensures Sound(b, d, s, true) && |b.items| <= ORDER && (d == 0 <==> b.kids == [])
    ensures (d == 0 || |b.kids| == |b.items| + 1)
  {
    match b
    case Body(items, kids) =>
  }

  lemma EmptySlot(root: Option<Addr>, b: Body, slot: Slot)
    requires root.None? ==> b == Body([], []) && slot == NodeSlot(Nones(ORDER), Nones(ORDER_CHILD))
    requires root.Some? ==> slot == SlotOf(b)
    ensures slot == SlotOf(b)
  {
    if root.None? {
      assert Seps([]) == [] && Roots([]) == [];
    }
  }

  lemma {:induction false} RestWalks(levels: seq<Level>, stack: seq<Frame>, b: Body, d: nat, s: Slots, dir: Direction)
    requires PathOk(levels, stack, b, d, s) && stack != []
    requires Resting(stack[|stack| - 1].ix, levels[|stack| - 1].body)
    ensures var ix, l := stack[|stack| - 1].ix, levels[|stack| - 1];
      TopOk(l.body, ix, dir) && Walking(levels, stack, b, d, s, dir, l.off + GapIn(l.body, ix, dir)) && |stack| <= d + 1
    ensures |stack| == d + 1 || !stack[|stack| - 1].ix.Before?
  {
    TopSound(levels, stack, b, d, s);
    var l := levels[|stack| - 1];
    SoundShape(l.body, d - (|stack| - 1), s, |stack| == 1);
  }

  /** What the step finds in the node on top of the stack. */
  lemma {:induction false} StepOk(
      levels: seq<Level>, stack: seq<Frame>, b: Body, d: nat, s: Slots, dir: Direction, g: nat, a: Option<LastIndex>)
    requires Walking(levels, stack, b, d, s, dir, g) && |stack| <= d + 1
    requires a == Advance(stack[|stack| - 1].ix, dir, d + 1 == |stack|)
    ensures |levels| == |stack|
    ensures var l, slot := levels[|stack| - 1], stack[|stack| - 1].slot;
      && slot.NodeSlot? && |slot.separators| == ORDER && |slot.children| == ORDER_CHILD && |l.body.items| <= ORDER
      && (a.Some? ==> a.value.AtItem? || a.value.Descend?)
      && (a.Some? && a.value.AtItem? ==>
        a.value.i < ORDER && (slot.separators[a.value.i].None? <==> a.value.i >= |l.body.items|))
      && (a.Some? && a.value.AtItem? && slot.separators[a.value.i].Some? ==>
        slot.separators[a.value.i].value.addr in s && s[slot.separators[a.value.i].value.addr].ValueSlot?)
      && (a.Some? && a.value.Descend? ==>
        a.value.i <= |l.body.items| && |l.body.kids| == |l.body.items| + 1 && slot.children[a.value.i].Some?)
      && (a.Some? && a.value.Descend? ==>
        slot.children[a.value.i].value in s && s[slot.children[a.value.i].value] == SlotOf(l.body.kids[a.value.i].body))
      && (a.Some? && a.value.Descend? ==> |l.body.kids[a.value.i].body.items| <= ORDER && |stack| <= d)
      && Advanced(l, a, dir, g)
      && (Leaves(l.body, a) ==> Leaving(levels, stack, b, d, s, dir, g) && |stack| == d + 1)
  {
    hide Flat, FlatTree, FlatL, GoodBody, Rank, Sorted, Sound, KidPos, ItemPos, Under;
    var n := |stack| - 1;
    var l, slot := levels[n], stack[n].slot;
    TopSound(levels, stack, b, d, s);
    SoundShape(l.body, d - n, s, n == 0);
    if d == n {
      AdvanceLeaf(l, stack[n].ix, dir, g);
    } else {
      AdvanceInner(l, stack[n].ix, dir, g);
    }
    hide PathOk, Flat, Sound, Under, ItemPos, KidPos, Past;
    if a.Some? && a.value.AtItem? && a.value.i < |l.body.items| {
      assert StoredItem(l.body.items[a.value.i], s);
    }
    if a.Some? && a.value.Descend? {
      assert Stored(l.body.kids[a.value.i], s) && Sound(l.body.kids[a.value.i].body, d - n - 1, s, false);
      SoundShape(l.body.kids[a.value.i].body, d - n - 1, s, false);
    }
  }

  /** An item beside the gap is the pair that the step returns. */
  lemma {:induction false} StopOk(
      levels: seq<Level>, stack: seq<Frame>, b: Body, d: nat, s: Slots, dir: Direction, g: nat, i: nat)
    requires Walking(levels, stack, b, d, s, dir, g) && i < |levels[|stack| - 1].body.items|
    requires var l := levels[|stack| - 1]; g == l.off + ItemPos(l.body, i) + if dir == Forward then 0 else 1
    ensures var n := |stack| - 1; PathOk(levels, stack[n := stack[n].(ix := AtItem(i))], b, d, s)
    ensures var l := levels[|stack| - 1]; var t := l.off + ItemPos(l.body, i);
      t < |Flat(b)| && Flat(b)[t] == P(l.body.items[i]) && !Over(b, dir, g)
      && (l.body.kids == [] || |l.body.kids| == |l.body.items| + 1)
    ensures var l, seps := levels[|stack| - 1], stack[|stack| - 1].slot.separators;
      |seps| == ORDER && |l.body.items| <= ORDER && seps[i] == Some(Sep(l.body.items[i].key, l.body.items[i].addr))
      && StoredItem(l.body.items[i], s)
  {
    hide PathOk, Flat, Sound, Under, ItemPos, KidPos;
    var n := |stack| - 1;
    var l := levels[n];
    PathSet(levels, stack, b, d, s, AtItem(i));
    TopSound(levels, stack, b, d, s);
    SoundShape(l.body, d - n, s, n == 0);
    InFlat(levels, stack, b, d, s, n);
    ItemIs(l.body, i);
  }

  lemma StandsShape(l: Level, c: nat, dir: Direction, g: nat)
    requires Stands(l, Descend(c), dir, g)
    ensures TopOk(l.body, Descend(c), dir)
  {
  }

  lemma {:induction false} DownOk(
      levels: seq<Level>, stack: seq<Frame>, b: Body, d: nat, s: Slots, dir: Direction, g: nat, c: nat)
    requires PathOk(levels, stack, b, d, s) && stack != [] && |stack| <= d
    requires Stands(levels[|stack| - 1], Descend(c), dir, g)
    ensures var n, l := |stack| - 1, levels[|stack| - 1];
      var k := Level(l.body.kids[c].body, l.off + KidPos(l.body, c));
      var f := Frame(StartIndex(k.body, dir, d == |stack|), SlotOf(k.body));
      Walking(levels + [k], stack[n := stack[n].(ix := Descend(c))] + [f], b, d, s, dir, g)
  {
    hide Sound, Under, Stands, Flat, KidPos, ItemPos;
    var n, l := |stack| - 1, levels[|stack| - 1];
    StandsShape(l, c, dir, g);
    TopSound(levels, stack, b, d, s);
    SoundShape(l.body, d - n, s, n == 0);
    var k := Level(l.body.kids[c].body, l.off + KidPos(l.body, c));
    SoundShape(k.body, d - n - 1, s, false);
    EnterOk(l, c, dir, d == |stack|, g);
    PathSet(levels, stack, b, d, s, Descend(c));
    var f := Frame(StartIndex(k.body, dir, d == |stack|), SlotOf(k.body));
    PathPush(levels, stack[n := stack[n].(ix := Descend(c))], b, d, s, f, k);
  }

  lemma EmptyPath(b: Body, d: nat, s: Slots)
    ensures PathOk([], [], b, d, s)
  {
  }

  lemma RootPast(c: Level, b: Body, dir: Direction, g: nat, n: nat)
    requires Past(c, dir, g)
    ensures n == 0 && c == Level(b, 0) ==> Over(b, dir, g)
  {
  }

  lemma {:induction false} CountIs(
      levels: seq<Level>, stack: seq<Frame>, b: Body, d: nat, s: Slots, ix: LastIndex, c: Level)
    requires PathOk(levels, stack, b, d, s) && stack != [] && Under(levels[|stack| - 1], ix, c)
    ensures var l, slot := levels[|stack| - 1], stack[|stack| - 1].slot;
      && ix.Descend? && slot.NodeSlot? && |slot.separators| == ORDER && |l.body.items| <= ORDER
        && ix.i <= |l.body.items|
      && (ix.i == ORDER || slot.separators[ix.i].None? <==> ix.i == |l.body.items|)
  {
    TopSound(levels, stack, b, d, s);
    var l := levels[|stack| - 1];
    SoundShape(l.body, d - (|stack| - 1), s, |stack| == 1);
  }

  // ----- Seeking

  /** Where a seek goes on in a node: the place of its key, or behind the last separator. */
  method Locate(slot: Slot, to: SeekTo, ghost b: Body) returns (at: bool, i: nat)
    requires slot == SlotOf(b) && Narrow(b)
    ensures i <= |b.items| && (to.Last? ==> !at && i == |b.items|) && (!to.Last? ==> Falls(b.items, to.key, at, i))
  {
    var node := new Node.FromSlot(slot);
    if to.Last? {
      var last := node.LastSeparatorIndex();
      assert |b.items| > 0 ==> node.separators[|b.items| - 1].Some?;
      assert forall i :: 0 <= i < ORDER && node.separators[i].Some? ==> i < |b.items|;
      at, i := false, if last.Some? then last.value + 1 else 0;
    } else {
      at, i := Find(node, to.key, b);
    }
  }

  /** The node that is to go on the stack next. */
  ghost predicate Joins(levels: seq<Level>, stack: seq<Frame>, b: Body, d: nat, s: Slots, slot: Slot, l: Level) {
    && PathOk(levels, stack, b, d, s) && |levels| == |stack| <= d
    && slot == SlotOf(l.body) && Sound(l.body, d - |stack|, s, stack == [])
    && (stack == [] ==> l == Level(b, 0)) && (stack != [] ==> Under(levels[|stack| - 1], stack[|stack| - 1].ix, l))
  }

  /** What is sought lies in this node or at one of its ends. */
  ghost predicate Encloses(f: seq<Pair>, l: Level, to: SeekTo) {
    var end := l.off + |Flat(l.body)|;
    && end <= |f|
    && (to.Last? ==> end == |f|)
    && (!to.Last? && l.off > 0 ==> Rank(f[l.off - 1].key) < Rank(to.key))
    && (!to.Last? && end < |f| ==> Rank(to.key) < Rank(f[end].key))
  }

  lemma {:induction false} StartEncloses(root: Option<Addr>, d: nat, b: Body, s: Slots, to: SeekTo)
    requires RootOk(root, d, b, s)
    ensures Encloses(Flat(b), Level(b, 0), to) && Sorted(Flat(b))
  {
    match b
    case Body(_, _) =>
  }

  lemma {:induction false} JoinsShape(
      levels: seq<Level>, stack: seq<Frame>, b: Body, d: nat, s: Slots, slot: Slot, l: Level)
    requires Joins(levels, stack, b, d, s, slot, l)
    ensures Narrow(l.body) && slot == SlotOf(l.body)
  {
    SoundShape(l.body, d - |stack|, s, stack == []);
  }

  /** Forward and backward gaps after a seek. */
  ghost predicate Reached(to: SeekTo, f: seq<Pair>, forward: nat, backward: nat) {
    match to
    case Include(key) => Cut(f, key, forward, backward)
    case Exclude(key) => Cut(f, key, backward, forward)
    case Last => forward == |f| && backward == |f|
  }

  lemma FirstJoins(b: Body, d: nat, s: Slots, slot: Slot)
    requires slot == SlotOf(b) && Sound(b, d, s, true)
    ensures Joins([], [], b, d, s, slot, Level(b, 0))
  {
  }

  lemma {:induction false} SortedHit(f: seq<Pair>, t: nat, key: Bytes)
    requires Sorted(f) && t < |f| && f[t].key == key
    ensures Cut(f, key, t, t + 1)
  {
    hide Rank;
  }

  lemma {:induction false} SortedGap(f: seq<Pair>, g: nat, key: Bytes)
    requires Sorted(f) && g <= |f| && (g > 0 ==> Rank(f[g - 1].key) < Rank(key))
    requires (g < |f| ==> Rank(key) < Rank(f[g].key))
    ensures Cut(f, key, g, g)
  {
    hide Rank;
    assert forall x :: 0 <= x < g - 1 ==> Rank(f[x].key) < Rank(f[g - 1].key);
    assert forall x :: g < x < |f| ==> Rank(f[g].key) < Rank(f[x].key);
  }

  /** Item `i` of the node that joins, as an item of the whole sequence. */
  lemma {:induction false} JoinedItem(
      levels: seq<Level>, stack: seq<Frame>, b: Body, d: nat, s: Slots, slot: Slot, l: Level, i: nat)
    requires Joins(levels, stack, b, d, s, slot, l) && i < |l.body.items|
    ensures var t := l.off + ItemPos(l.body, i); t < |Flat(b)| && Flat(b)[t] == P(l.body.items[i])
  {
    hide FlatTree, FlatL, GoodBody, Rank, Sorted, Sound;
    var f := Frame(Before(0), slot);
    SoundShape(l.body, d - |stack|, s, stack == []);
    PathPush(levels, stack, b, d, s, f, l);
    InFlat(levels + [l], stack + [f], b, d, s, |stack|);
    ItemIs(l.body, i);
    hide Flat, ItemPos, PathOk, Sound, Under;
  }

  lemma {:induction false} JoinsLeaf(
      levels: seq<Level>, stack: seq<Frame>, b: Body, d: nat, s: Slots, slot: Slot, l: Level)
    requires Joins(levels, stack, b, d, s, slot, l) && d == |stack|
    ensures l.body.kids == []
  {
    SoundShape(l.body, 0, s, stack == []);
  }

  /** The seek ends in this node. */
  lemma {:induction false} SeekStops(
      levels: seq<Level>, stack: seq<Frame>, b: Body, d: nat, s: Slots, slot: Slot, l: Level, ix: LastIndex)
    requires Joins(levels, stack, b, d, s, slot, l) && Resting(ix, l.body)
    ensures RestsAt(levels + [l], stack + [Frame(ix, slot)], b, d, s)
    ensures forall dir ::
      TopOk(l.body, ix, dir)
      && GapAt(levels + [l], stack + [Frame(ix, slot)], dir, b, d, s) == l.off + GapIn(l.body, ix, dir)
  {
    PathPush(levels, stack, b, d, s, Frame(ix, slot), l);
    hide PathOk, Sound, Under, Flat, ItemPos, KidPos;
  }

  lemma {:induction false} SeekHit(
      levels: seq<Level>, stack: seq<Frame>, b: Body, d: nat, s: Slots, slot: Slot, l: Level, to: SeekTo, i: nat)
    requires Joins(levels, stack, b, d, s, slot, l) && Sorted(Flat(b)) && !to.Last?
    requires Falls(l.body.items, to.key, true, i)
    ensures var st, lv := stack + [Frame(if to.Exclude? then AtItem(i) else Seeked(i), slot)], levels + [l];
      RestsAt(lv, st, b, d, s)
      && Reached(to, Flat(b), GapAt(lv, st, Forward, b, d, s), GapAt(lv, st, Backward, b, d, s))
  {
    hide Flat, FlatTree, FlatL, GoodBody, Rank, Sorted, Sound, PathOk, KidPos, ItemPos, Under;
    JoinedItem(levels, stack, b, d, s, slot, l, i);
    SortedHit(Flat(b), l.off + ItemPos(l.body, i), to.key);
    JoinsShape(levels, stack, b, d, s, slot, l);
    SeekStops(levels, stack, b, d, s, slot, l, if to.Exclude? then AtItem(i) else Seeked(i));
    hide Joins, Cut, Sorted, Flat, ItemPos, KidPos, RestsAt, GapAt;
  }

  lemma {:induction false} SeekMiss(
      levels: seq<Level>, stack: seq<Frame>, b: Body, d: nat, s: Slots, slot: Slot, l: Level, to: SeekTo, i: nat)
    requires Joins(levels, stack, b, d, s, slot, l) && Sorted(Flat(b)) && Encloses(Flat(b), l, to) && d == |stack|
    requires i <= |l.body.items|
    requires if to.Last? then i == |l.body.items| else Falls(l.body.items, to.key, false, i)
    ensures var st, lv := stack + [Frame(Before(i), slot)], levels + [l];
      RestsAt(lv, st, b, d, s)
      && Reached(to, Flat(b), GapAt(lv, st, Forward, b, d, s), GapAt(lv, st, Backward, b, d, s))
  {
    hide Joins, Flat, ItemPos, KidPos, RestsAt, GapAt, Rank, Sorted, Cut;
    JoinsLeaf(levels, stack, b, d, s, slot, l);
    LeafPositions(l.body);
    if i < |l.body.items| {
      JoinedItem(levels, stack, b, d, s, slot, l, i);
    }
    if i > 0 {
      JoinedItem(levels, stack, b, d, s, slot, l, i - 1);
    }
    SeekStops(levels, stack, b, d, s, slot, l, Before(i));
    if !to.Last? {
      SortedGap(Flat(b), l.off + i, to.key);
    }
  }

  lemma {:induction false} JoinsDown(
      levels: seq<Level>, stack: seq<Frame>, b: Body, d: nat, s: Slots, slot: Slot, l: Level, i: nat)
    requires Joins(levels, stack, b, d, s, slot, l) && |stack| < d && i <= |l.body.items|
    ensures |l.body.kids| == |l.body.items| + 1 && |l.body.items| <= ORDER
    ensures slot.NodeSlot? && |slot.children| == ORDER_CHILD && slot.children[i].Some? && slot.children[i].value in s
    ensures var k := Level(l.body.kids[i].body, l.off + KidPos(l.body, i));
      Joins(levels + [l], stack + [Frame(Descend(i), slot)], b, d, s, s[slot.children[i].value], k)
  {
    SoundShape(l.body, d - |stack|, s, stack == []);
    assert Stored(l.body.kids[i], s) && Sound(l.body.kids[i].body, d - |stack| - 1, s, false);
    hide Sound, Flat, ItemPos, KidPos;
    PathPush(levels, stack, b, d, s, Frame(Descend(i), slot), l);
    hide PathOk;
  }

  lemma {:induction false} EnclosesDown(
      levels: seq<Level>, stack: seq<Frame>, b: Body, d: nat, s: Slots, slot: Slot, l: Level, to: SeekTo, i: nat)
    requires Joins(levels, stack, b, d, s, slot, l) && Encloses(Flat(b), l, to) && |l.body.kids| == |l.body.items| + 1
    requires i <= |l.body.items|
    requires if to.Last? then i == |l.body.items| else Falls(l.body.items, to.key, false, i)
    ensures Encloses(Flat(b), Level(l.body.kids[i].body, l.off + KidPos(l.body, i)), to)
  {
    hide Joins, Flat, ItemPos, KidPos, Rank;
    KidIs(l.body, i);
    if i < |l.body.items| {
      JoinedItem(levels, stack, b, d, s, slot, l, i);
    }
    if i > 0 {
      JoinedItem(levels, stack, b, d, s, slot, l, i - 1);
    }
  }

  lemma {:induction false} SeekOk(
      levels: seq<Level>, stack: seq<Frame>, b: Body, d: nat, s: Slots, slot: Slot, l: Level, to: SeekTo, at: bool,
      i: nat)
    requires Joins(levels, stack, b, d, s, slot, l) && Encloses(Flat(b), l, to) && Sorted(Flat(b))
    requires i <= |l.body.items|
    requires if to.Last? then !at && i == |l.body.items| else Falls(l.body.items, to.key, at, i)
    ensures at || d == |stack| ==>
      var st, lv := stack + [Frame(if !at then Before(i) else if to.Exclude? then AtItem(i) else Seeked(i), slot)],
        levels + [l];
      RestsAt(lv, st, b, d, s)
      && Reached(to, Flat(b), GapAt(lv, st, Forward, b, d, s), GapAt(lv, st, Backward, b, d, s))
    ensures !at && |stack| < d ==>
      && |l.body.kids| == |l.body.items| + 1 && |l.body.items| <= ORDER
      && slot.NodeSlot? && |slot.children| == ORDER_CHILD && slot.children[i].Some? && slot.children[i].value in s
      && var k := Level(l.body.kids[i].body, l.off + KidPos(l.body, i));
        Joins(levels + [l], stack + [Frame(Descend(i), slot)], b, d, s, s[slot.children[i].value], k)
        && Encloses(Flat(b), k, to)
  {
    hide RestsAt, GapAt, Reached, Encloses, Sorted, Flat, KidPos, Falls;
    if at {
      SeekHit(levels, stack, b, d, s, slot, l, to, i);
    } else if d == |stack| {
      SeekMiss(levels, stack, b, d, s, slot, l, to, i);
    } else {
      JoinsDown(levels, stack, b, d, s, slot, l, i);
      EnclosesDown(levels, stack, b, d, s, slot, l, to, i);
    }
  }
}
