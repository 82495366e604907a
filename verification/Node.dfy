/**
 Storage slots and one B-tree node in memory. The arrays of a node are inline values of fixed
 length in the program, so they are sequence fields of fixed length here; a filled entry is
 `Some`. This file holds the moves inside one node; `BTreeNode` builds the tree operations on it.
 */
module NodeArrays {
  import opened Keys
  import opened Batch
  import opened Tree

  /** Value tables seen through the log writer: a map from live addresses to what they hold. */
  class Store {
    var slots: Slots
    /** Size tier an entry goes to; the low byte of an address is its tier. */
    const tierOf: Slot -> nat

    constructor (tierOf: Slot -> nat)
      ensures slots == map[] && this.tierOf == tierOf
    {
      slots := map[];
      this.tierOf := tierOf;
    }

    /** Some free slot of a tier. Which one is the value table's business. */
    method NextFree(tier: nat) returns (a: Addr)
      requires tier < 256
      ensures a !in slots && a % 256 == tier && a >= 256
    {
      a := 256 + tier;
      while a in slots
        invariant a % 256 == tier && a >= 256
        decreases set x | x in slots && x >= a
      {
        ghost var rest := set x | x in slots && x >= a + 256;
        assert rest < set x | x in slots && x >= a by {
          assert a in (set x | x in slots && x >= a) && a !in rest;
        }
        a := a + 256;
      }
    }

    /** `Column::write_new_value_plan`. */
    method WriteNew(x: Slot) returns (a: Addr)
      modifies this
      ensures a !in old(slots) && a >= 256 && a % 256 == tierOf(x) % 256 && slots == old(slots)[a := x]
    {
      a := NextFree(tierOf(x) % 256);
      slots := slots[a := x];
    }

    /** `Column::write_existing_value_plan` with a Set: in place, or moved to another tier. */
    method WriteExisting(a: Addr, x: Slot) returns (r: Option<Addr>)
      requires a in slots
      modifies this
      ensures r.None? <==> a % 256 == tierOf(x) % 256
      ensures r.None? ==> slots == old(slots)[a := x]
      ensures r.Some? ==> r.value !in old(slots) && r.value >= 256 && slots == (old(slots) - {a})[r.value := x]
    {
      if a % 256 == tierOf(x) % 256 {
        slots := slots[a := x];
        return None;
      }
      Remove(a);
      var b := WriteNew(x);
      r := Some(b);
    }

    /** `Column::write_existing_value_plan` with a Dereference. */
    method Remove(a: Addr)
      requires a in slots
      modifies this
      ensures slots == old(slots) - {a}
    {
      slots := slots - {a};
    }
  }

  function Nones<T>(n: nat): (r: seq<Option<T>>)
    ensures |r| == n && forall i :: 0 <= i < n ==> r[i] == None
  {
    seq(n, i => None)
  }

  /** From `from` on, filled entries come before empty ones. */
  ghost predicate Packed<T>(s: seq<Option<T>>, from: nat) {
    forall i, j :: from <= i <= j < |s| && s[i].None? ==> s[j].None?
  }

  /** Shift the filled entries from `from` on one place right, leaving a gap. */
  method OpenGap<T>(s: seq<Option<T>>, from: nat) returns (r: seq<Option<T>>)
    requires from < |s| && Packed(s, from) && s[|s| - 1].None?
    ensures r == s[..from] + [None] + s[from..|s| - 1]
  {
    var i := from;
    var current := s[i];
    r := s[i := None];
    while current.Some?
      invariant from <= i < |s| && |r| == |s| && current == s[i]
      invariant r[from] == None
      invariant forall j :: 0 <= j < from ==> r[j] == s[j]
      invariant forall j :: from < j <= i ==> r[j] == s[j - 1]
      invariant forall j :: i < j < |s| ==> r[j] == s[j]
      decreases |s| - i
    {
      i := i + 1;
      if i == |s| {
        break;
      }
      current, r := r[i], r[i := current];
    }
    var t := s[..from] + [None] + s[from..|s| - 1];
    forall j | 0 <= j < |s|
      ensures r[j] == t[j]
    {
      assert j > i ==> s[j - 1] == None && s[j] == None;
    }
  }

  /** Shift the filled entries after `from` one place left, into the empty entry at `from`. */
  method CloseGap<T>(s: seq<Option<T>>, from: nat) returns (r: seq<Option<T>>)
    requires from < |s| && Packed(s, from + 1) && s[from].None?
    ensures r == s[..from] + s[from + 1..] + [None]
  {
    var i := from;
    r := s;
    while i < |s| - 1
      invariant from <= i <= |s| - 1 && |r| == |s|
      invariant r[i] == None
      invariant forall j :: 0 <= j < from ==> r[j] == s[j]
      invariant forall j :: from <= j < i ==> r[j] == s[j + 1]
      invariant forall j :: i < j < |s| ==> r[j] == s[j]
    {
      r := r[i := r[i + 1]][i + 1 := None];
      if r[i].None? {
        assert forall j :: i + 1 <= j < |s| ==> s[j] == None;
        break;
      }
      i := i + 1;
    }
  }

  /** What a split moves out of an array: the tail, with one entry put in at `insert.0`. */
  ghost function Tail<T>(s: seq<Option<T>>, start: nat, insert: Option<(nat, T)>): seq<Option<T>>
    requires start <= |s| && (insert.Some? ==> start <= insert.value.0 <= |s|)
  {
    if insert.None? then s[start..]
    else s[start..insert.value.0] + [Some(insert.value.1)] + s[insert.value.0..]
  }

  /** `t` at offset `lead` of an otherwise empty array of length `n`. */
  function Spread<T>(t: seq<Option<T>>, lead: nat, n: nat): (r: seq<Option<T>>)
    ensures |r| == n
  {
    seq(n, j => if lead <= j < lead + |t| then t[j - lead] else None)
  }

  /** Move the entries from `start` on to a fresh array, `base` places to the left. */
  method MoveTail<T>(s: seq<Option<T>>, base: nat, start: nat, insert: Option<(nat, T)>)
      returns (left: seq<Option<T>>, right: seq<Option<T>>)
    requires 1 <= base <= start <= |s| && (insert.Some? ==> start <= insert.value.0 <= |s|)
    ensures left == s[..start] + Nones(|s| - start)
    ensures right == Spread(Tail(s, start, insert), start - base, |s|)
  {
    hide Spread, Tail, Nones, Emptied;
    left := s;
    right := Nones(|s|);
    var offset := 0;
    MoveStart(s, base, start, insert);
    MoveEnd(s, start, insert);
    for i := start to |s|
      invariant |left| == |right| == |s| && left == Emptied(s, start, i)
      invariant offset == if insert.Some? && insert.value.0 < i then 1 else 0
      invariant right == Spread(Tail(s, start, insert)[..i + offset - start], start - base, |s|)
    {
      EmptiedMore(s, start, i);
      TailAt(s, start, insert, i);
      var x := left[i];
      left := left[i := None];
      if insert.Some? && insert.value.0 == i {
        SpreadMore(Tail(s, start, insert), i - start, start - base, |s|);
        right := right[i - base := Some(insert.value.1)];
        offset := 1;
      }
      SpreadMore(Tail(s, start, insert), i + offset - start, start - base, |s|);
      right := right[i + offset - base := x];
    }
    if insert.Some? && offset == 0 {
      SpreadMore(Tail(s, start, insert), |s| - start, start - base, |s|);
      right := right[insert.value.0 - base := Some(insert.value.1)];
    }
  }

  /** The entries from `start` up to `i` are taken out. */
  function Emptied<T>(s: seq<Option<T>>, start: nat, i: nat): (r: seq<Option<T>>)
    requires start <= i <= |s|
  {
    s[..start] + Nones(i - start) + s[i..]
  }

  lemma EmptiedMore<T>(s: seq<Option<T>>, start: nat, i: nat)
    requires start <= i < |s|
    ensures |Emptied(s, start, i)| == |s| && Emptied(s, start, i)[i] == s[i]
    ensures Emptied(s, start, i)[i := None] == Emptied(s, start, i + 1)
  {
  }

  lemma MoveStart<T>(s: seq<Option<T>>, base: nat, start: nat, insert: Option<(nat, T)>)
    requires 1 <= base <= start <= |s| && (insert.Some? ==> start <= insert.value.0 <= |s|)
    ensures Emptied(s, start, start) == s && Nones(|s|) == Spread(Tail(s, start, insert)[..0], start - base, |s|)
  {
  }

  lemma MoveEnd<T>(s: seq<Option<T>>, start: nat, insert: Option<(nat, T)>)
    requires start <= |s| && (insert.Some? ==> start <= insert.value.0 <= |s|)
    ensures var t := Tail(s, start, insert);
      && |t| == |s| - start + (if insert.Some? then 1 else 0) && t[..|t|] == t
      && (insert.Some? && insert.value.0 == |s| ==> t[|s| - start] == Some(insert.value.1))
    ensures Emptied(s, start, |s|) == s[..start] + Nones(|s| - start)
  {
  }

  lemma SpreadMore<T>(t: seq<Option<T>>, k: nat, lead: nat, n: nat)
    requires k < |t| && lead + k < n
    ensures Spread(t[..k], lead, n)[lead + k := t[k]] == Spread(t[..k + 1], lead, n)
  {
  }

  lemma TailAt<T>(s: seq<Option<T>>, start: nat, insert: Option<(nat, T)>, i: nat)
    requires start <= i < |s| && (insert.Some? ==> start <= insert.value.0 <= |s|)
    ensures var t, n := Tail(s, start, insert), i - start + (if insert.Some? && insert.value.0 <= i then 1 else 0);
      && n < |t| && t[n] == s[i]
      && (insert.Some? && insert.value.0 == i ==> t[i - start] == Some(insert.value.1))
  {
  }

  class Node {
    var separators: seq<Option<Sep>>
    var children: seq<Option<Addr>>
    var changed: bool

    /** The arrays hold exactly these separators and child addresses, in order. */
    ghost predicate Holds(seps: seq<Sep>, kids: seq<Addr>)
      reads this
    {
      && |seps| <= ORDER && |kids| <= ORDER_CHILD
      && separators == Pad(seps, ORDER) && children == Pad(kids, ORDER_CHILD)
    }

    ghost predicate Shows(b: Body)
      reads this
    {
      Holds(Seps(b.items), Roots(b.kids))
    }

    constructor Default()
      ensures Holds([], []) && changed
    {
      separators := Pad([], ORDER);
      children := Pad([], ORDER_CHILD);
      changed := true;
    }

    constructor FromSlot(x: Slot)
      requires x.NodeSlot?
      ensures separators == x.separators && children == x.children && !changed
    {
      separators := x.separators;
      children := x.children;
      changed := false;
    }

    method SetSeparator(at: nat, sep: Sep)
      requires at < |separators|
      modifies this
      ensures separators == old(separators)[at := Some(sep)] && children == old(children) && changed
    {
      changed := true;
      separators := separators[at := Some(sep)];
    }

    method RemoveSeparator(at: nat) returns (sep: Option<Sep>)
      requires at < |separators|
      modifies this
      ensures separators == old(separators)[at := None] && children == old(children) && changed
      ensures sep == old(separators)[at]
    {
      changed := true;
      sep := separators[at];
      separators := separators[at := None];
    }

    method SetChild(at: nat, child: Addr)
      requires at < |children|
      modifies this
      ensures children == old(children)[at := Some(child)] && separators == old(separators) && changed
    {
      changed := true;
      children := children[at := Some(child)];
    }

    method RemoveChild(at: nat) returns (child: Option<Addr>)
      requires at < |children|
      modifies this
      ensures children == old(children)[at := None] && separators == old(separators) && changed
      ensures child == old(children)[at]
    {
      changed := true;
      child := children[at];
      children := children[at := None];
    }

    method ShiftFrom(from: nat, hasChild: bool, withLeftChild: bool)
      requires from < |separators| && Packed(separators, from) && separators[|separators| - 1].None?
      requires var c := if withLeftChild then from else from + 1;
        hasChild ==> c < |children| && Packed(children, c) && children[|children| - 1].None?
      modifies this
      ensures changed
      ensures separators == old(separators)[..from] + [None] + old(separators)[from..|old(separators)| - 1]
      ensures var c := if withLeftChild then from else from + 1;
        children
        == if hasChild then old(children)[..c] + [None] + old(children)[c..|old(children)| - 1] else old(children)
    {
      changed := true;
      separators := OpenGap(separators, from);
      if hasChild {
        children := OpenGap(children, if withLeftChild then from else from + 1);
      }
    }

    method RemoveFrom(from: nat, hasChild: bool, withLeftChild: bool)
      requires from < |separators| && Packed(separators, from + 1) && separators[from].None?
      requires var c := if withLeftChild then from else from + 1;
        hasChild ==> c < |children| && Packed(children, c + 1) && children[c].None?
      modifies this
      ensures changed
      ensures separators == old(separators)[..from] + old(separators)[from + 1..] + [None]
      ensures var c := if withLeftChild then from else from + 1;
        children == if hasChild then old(children)[..c] + old(children)[c + 1..] + [None] else old(children)
    {
      changed := true;
      separators := CloseGap(separators, from);
      if hasChild {
        children := CloseGap(children, if withLeftChild then from else from + 1);
      }
    }

    method NumberSeparator() returns (n: nat)
      requires |separators| == ORDER
      ensures n <= ORDER && (forall i :: 0 <= i < n ==> separators[i].Some?) && (n < ORDER ==> separators[n].None?)
    {
      n := 0;
      while n < ORDER && separators[n].Some?
        invariant n <= ORDER && forall i :: 0 <= i < n ==> separators[i].Some?
      {
        n := n + 1;
      }
    }

    method LastSeparatorIndex() returns (r: Option<nat>)
      requires |separators| == ORDER
      ensures r.None? ==> forall i :: 0 <= i < ORDER ==> separators[i].None?
      ensures r.Some? ==>
        r.value < ORDER && separators[r.value].Some? && forall i :: r.value < i < ORDER ==> separators[i].None?
    {
      var i: int := ORDER;
      while i > 0
        invariant 0 <= i <= ORDER && forall j :: i <= j < ORDER ==> separators[j].None?
      {
        i := i - 1;
        if separators[i].Some? {
          return Some(i);
        }
      }
      r := None;
    }

    /** Where a key falls: its own separator, or the first bigger one. */
    method Position(key: Bytes, ghost seps: seq<Sep>) returns (at: bool, i: nat)
      requires |seps| <= ORDER && separators == Pad(seps, ORDER)
      ensures i <= |seps| && (at ==> i < |seps| && seps[i].key == key)
      ensures forall j :: 0 <= j < i ==> Rank(seps[j].key) < Rank(key)
      ensures !at && i < |seps| ==> Rank(key) < Rank(seps[i].key)
    {
      i := 0;
      while i < ORDER && separators[i].Some?
        invariant i <= |seps|
        invariant forall j :: 0 <= j < i ==> Rank(seps[j].key) < Rank(key)
      {
        CompareIsRank(key, separators[i].value.key);
        match Compare(key, separators[i].value.key) {
          case Greater =>
          case Less => return false, i;
          case Equal => return true, i;
        }
        i := i + 1;
      }
      at := false;
    }

    /** Move everything from separator `at` on to a new right sibling. */
    method Split(at: nat, skipLeftChild: bool, insertRight: Option<(nat, Sep)>, insertRightChild: Option<(nat, Addr)>,
        hasChild: bool) returns (right: Node)
      requires |separators| == ORDER && |children| == ORDER_CHILD && 1 <= at < ORDER
      requires insertRight.Some? ==> at <= insertRight.value.0 <= ORDER
      requires insertRightChild.Some? ==> !skipLeftChild && at <= insertRightChild.value.0 <= ORDER
      modifies this
      ensures fresh(right) && right.changed && changed
      ensures separators == old(separators)[..at] + Nones(ORDER - at)
      ensures right.separators == Spread(Tail(old(separators), at, insertRight), 0, ORDER)
      ensures !hasChild ==> children == old(children) && right.children == Pad([], ORDER_CHILD)
      ensures hasChild ==>
        children == old(children)[..ChildStart(at, skipLeftChild)] + Nones(ORDER_CHILD - ChildStart(at, skipLeftChild))
      ensures hasChild ==> var c := ChildStart(at, skipLeftChild);
        right.children == Spread(Tail(old(children), c, After(insertRightChild)), c - at, ORDER_CHILD)
    {
      right := new Node.Default();
      changed := true;
      var sepTail;
      separators, sepTail := MoveTail(separators, at, at, insertRight);
      right.separators := sepTail;
      if hasChild {
        var childTail;
        children, childTail := MoveTail(children, at, ChildStart(at, skipLeftChild), After(insertRightChild));
        right.children := childTail;
      }
    }

    /**
     Put a separator, with the child to its right above the leaves, at position `i`. A full node
     is split around the middle of the nine: `up` goes to the parent, `right` is the new sibling.
     */
    method Place(i: nat, sep: Sep, child: Option<Addr>, ghost seps: seq<Sep>, ghost kids: seq<Addr>)
        returns (up: Option<Sep>, right: Node?)
      requires Holds(seps, kids) && i <= |seps| && Fits(seps, kids, child)
      modifies this
      ensures changed
      ensures |seps| < ORDER ==> up.None? && Holds(Wide(seps, i, sep), WideKids(kids, i, child))
      ensures |seps| == ORDER ==>
        && up == Some(Wide(seps, i, sep)[MIDDLE]) && right != null && fresh(right) && right.changed
        && Holds(Wide(seps, i, sep)[..MIDDLE], Head(WideKids(kids, i, child)))
        && right.Holds(Wide(seps, i, sep)[MIDDLE + 1..], Rest(WideKids(kids, i, child)))
    {
      if separators[ORDER - 1].Some? {
        if i == MIDDLE {
          right := PlaceMiddle(sep, child, seps, kids);
          up := Some(sep);
        } else if i < MIDDLE {
          up, right := PlaceLeft(i, sep, child, seps, kids);
        } else {
          up, right := PlaceRight(i, sep, child, seps, kids);
        }
      } else {
        right := null;
        up := None;
        PlaceHere(i, sep, child, seps, kids);
      }
    }

    method PlaceHere(i: nat, sep: Sep, child: Option<Addr>, ghost seps: seq<Sep>, ghost kids: seq<Addr>)
      requires Holds(seps, kids) && i <= |seps| < ORDER && Fits(seps, kids, child)
      modifies this
      ensures changed && Holds(Wide(seps, i, sep), WideKids(kids, i, child))
    {
      PadPacked(seps, ORDER, i);
      PadPacked(kids, ORDER_CHILD, i + 1);
      ShiftFrom(i, child.Some?, false);
      SetSeparator(i, sep);
      PadWiden(seps, i, sep, ORDER);
      if child.Some? {
        SetChild(i + 1, child.value);
        PadWiden(kids, i + 1, child.value, ORDER_CHILD);
      }
    }

    method PlaceMiddle(sep: Sep, child: Option<Addr>, ghost seps: seq<Sep>, ghost kids: seq<Addr>) returns (right: Node)
      requires Holds(seps, kids) && |seps| == ORDER && Fits(seps, kids, child)
      modifies this
      ensures changed && fresh(right) && right.changed
      ensures Holds(Wide(seps, MIDDLE, sep)[..MIDDLE], Head(WideKids(kids, MIDDLE, child)))
      ensures right.Holds(Wide(seps, MIDDLE, sep)[MIDDLE + 1..], Rest(WideKids(kids, MIDDLE, child)))
    {
      right := Split(MIDDLE, true, None, None, child.Some?);
      if child.Some? {
        right.SetChild(0, child.value);
      }
      assert Wide(seps, MIDDLE, sep)[..MIDDLE] == seps[..MIDDLE];
      assert Wide(seps, MIDDLE, sep)[MIDDLE + 1..] == seps[MIDDLE..];
    }

    method PlaceLeft(i: nat, sep: Sep, child: Option<Addr>, ghost seps: seq<Sep>, ghost kids: seq<Addr>)
        returns (up: Option<Sep>, right: Node)
      requires Holds(seps, kids) && |seps| == ORDER && i < MIDDLE && Fits(seps, kids, child)
      modifies this
      ensures changed && fresh(right) && right.changed && up == Some(Wide(seps, i, sep)[MIDDLE])
      ensures Holds(Wide(seps, i, sep)[..MIDDLE], Head(WideKids(kids, i, child)))
      ensures right.Holds(Wide(seps, i, sep)[MIDDLE + 1..], Rest(WideKids(kids, i, child)))
    {
      right := Split(MIDDLE, false, None, None, child.Some?);
      up := RemoveSeparator(MIDDLE - 1);
      ghost var s, k := seps[..MIDDLE - 1], if kids == [] then [] else kids[..MIDDLE];
      assert Holds(s, k);
      assert right.Holds(seps[MIDDLE..], if kids == [] then [] else kids[MIDDLE..]);
      PlaceHere(i, sep, child, s, k);
      WideLeft(seps, kids, i, sep, child);
    }

    method PlaceRight(i: nat, sep: Sep, child: Option<Addr>, ghost seps: seq<Sep>, ghost kids: seq<Addr>)
        returns (up: Option<Sep>, right: Node)
      requires Holds(seps, kids) && |seps| == ORDER && MIDDLE < i <= ORDER && Fits(seps, kids, child)
      modifies this
      ensures changed && fresh(right) && right.changed && up == Some(Wide(seps, i, sep)[MIDDLE])
      ensures Holds(Wide(seps, i, sep)[..MIDDLE], Head(WideKids(kids, i, child)))
      ensures right.Holds(Wide(seps, i, sep)[MIDDLE + 1..], Rest(WideKids(kids, i, child)))
    {
      hide Flat, FlatTree, FlatL, Rank, Nones;
      right := Split(MIDDLE + 1, false, Some((i, sep)), if child.Some? then Some((i, child.value)) else None,
      child.Some?);
      up := RemoveSeparator(MIDDLE);
      assert Wide(seps, i, sep)[..MIDDLE] == seps[..MIDDLE];
      assert Wide(seps, i, sep)[MIDDLE + 1..] == seps[MIDDLE + 1..i] + [sep] + seps[i..];
    }
  }

  // ----- Moves between siblings

  /** The last separator and the child to its right leave a node. */
  method TakeLast(
      node: Node, hasChild: bool, ghost seps: seq<Sep>, ghost kids: seq<Addr>) returns (sep: Sep, child: Option<Addr>)
    requires node.Holds(seps, kids) && |seps| > 0 && (if hasChild then |kids| == |seps| + 1 else kids == [])
    modifies node
    ensures node.changed && sep == seps[|seps| - 1] && child == (if hasChild then Some(kids[|seps|]) else None)
    ensures node.Holds(seps[..|seps| - 1], if hasChild then kids[..|seps|] else [])
  {
    var last := node.LastSeparatorIndex();
    assert node.separators[|seps| - 1].Some? && last.value == |seps| - 1;
    child := None;
    if hasChild {
      child := node.RemoveChild(last.value + 1);
    }
    var x := node.RemoveSeparator(last.value);
    sep := x.value;
  }

  /** A separator and the child to its left enter a node in front. */
  method PushFront(node: Node, sep: Sep, child: Option<Addr>, ghost seps: seq<Sep>, ghost kids: seq<Addr>)
    requires node.Holds(seps, kids) && |seps| < ORDER && Fits(seps, kids, child)
    modifies node
    ensures node.changed && node.Holds([sep] + seps, if child.Some? then [child.value] + kids else [])
  {
    node.ShiftFrom(0, child.Some?, true);
    if child.Some? {
      node.SetChild(0, child.value);
    }
    node.SetSeparator(0, sep);
  }

  /** The first separator and the child to its left leave a node. */
  method TakeFirst(
      node: Node, hasChild: bool, ghost seps: seq<Sep>, ghost kids: seq<Addr>) returns (sep: Sep, child: Option<Addr>)
    requires node.Holds(seps, kids) && |seps| > 0 && (if hasChild then |kids| == |seps| + 1 else kids == [])
    modifies node
    ensures node.changed && sep == seps[0] && child == (if hasChild then Some(kids[0]) else None)
    ensures node.Holds(seps[1..], if hasChild then kids[1..] else [])
  {
    child := None;
    if hasChild {
      child := node.RemoveChild(0);
    }
    var x := node.RemoveSeparator(0);
    sep := x.value;
    node.RemoveFrom(0, hasChild, true);
  }

  /** A separator and the child to its right enter a node at the end. */
  method PushBack(node: Node, sep: Sep, child: Option<Addr>, ghost seps: seq<Sep>, ghost kids: seq<Addr>)
    requires node.Holds(seps, kids) && |seps| < ORDER && Fits(seps, kids, child)
    modifies node
    ensures node.changed && node.Holds(seps + [sep], if child.Some? then kids + [child.value] else [])
  {
    var last := node.NumberSeparator();
    assert node.separators[|seps|].None? && last == |seps|;
    node.SetSeparator(last, sep);
    if child.Some? {
      node.SetChild(last + 1, child.value);
    }
  }

  /** Everything of the right sibling, behind the separator that parted the two, enters the left one. */
  method Absorb(left: Node, sep: Sep, right: Node, hasChild: bool, ghost ls: seq<Sep>, ghost lk: seq<Addr>,
      ghost rs: seq<Sep>, ghost rk: seq<Addr>)
    requires left != right && left.Holds(ls, lk) && right.Holds(rs, rk) && |ls| + 1 + |rs| <= ORDER
    requires if hasChild then |lk| == |ls| + 1 && |rk| == |rs| + 1 else lk == [] && rk == []
    modifies left, right
    ensures left.changed && left.Holds(ls + [sep] + rs, lk + rk)
  {
    var i := left.NumberSeparator();
    assert left.separators[|ls|].None? && i == |ls|;
    PadAppend(ls, sep, ORDER);
    left.SetSeparator(i, sep);
    i := i + 1;
    var len := right.NumberSeparator();
    assert right.separators[|rs|].None? && len == |rs|;
    var k := 0;
    assert ls + [sep] + rs[..0] == ls + [sep] && lk + rk[..0] == lk;
    while k < len
      invariant k <= len && i == |ls| + 1 + k && left.changed
      invariant |right.separators| == ORDER && forall j :: k <= j < len ==> right.separators[j] == Some(rs[j])
      invariant |right.children| == ORDER_CHILD && forall j :: k <= j < |rk| ==> right.children[j] == Some(rk[j])
      invariant left.separators == Pad(ls + [sep] + rs[..k], ORDER)
      invariant left.children == Pad(if hasChild then lk + rk[..k] else [], ORDER_CHILD)
    {
      Extended(ls + [sep], rs, k, ORDER);
      if hasChild {
        Extended(lk, rk, k, ORDER_CHILD);
      }
      MoveOne(left, i, right, k, hasChild);
      i := i + 1;
      k := k + 1;
    }
    assert rs[..k] == rs;
    if hasChild {
      var child := right.RemoveChild(k);
      Extended(lk, rk, k, ORDER_CHILD);
      left.SetChild(i, child.value);
      assert rk[..k + 1] == rk;
    }
  }

  lemma PadAppend<T>(s: seq<T>, x: T, n: nat)
    requires |s| < n
    ensures Pad(s, n)[|s| := Some(x)] == Pad(s + [x], n)
  {
  }

  /** One separator, and the child before it, from one node to another. */
  method MoveOne(left: Node, i: nat, right: Node, k: nat, hasChild: bool)
    requires left != right && i < |left.separators| && k < |right.separators| && right.separators[k].Some?
    requires hasChild ==> i < |left.children| && k < |right.children| && right.children[k].Some?
    modifies left, right
    ensures left.changed && left.separators == old(left.separators)[i := old(right.separators)[k]]
    ensures right.separators == old(right.separators)[k := None]
    ensures left.children == if hasChild then old(left.children)[i := old(right.children)[k]] else old(left.children)
    ensures right.children == if hasChild then old(right.children)[k := None] else old(right.children)
  {
    if hasChild {
      var child := right.RemoveChild(k);
      left.SetChild(i, child.value);
    }
    var x := right.RemoveSeparator(k);
    left.SetSeparator(i, x.value);
  }

  lemma Extended<T>(a: seq<T>, b: seq<T>, k: nat, n: nat)
    requires k < |b| && |a| + k < n
    ensures Pad(a + b[..k], n)[|a| + k := Some(b[k])] == Pad(a + b[..k + 1], n)
  {
    PadAppend(a + b[..k], b[k], n);
    assert a + b[..k] + [b[k]] == a + b[..k + 1];
  }

  lemma WideLeft(seps: seq<Sep>, kids: seq<Addr>, i: nat, sep: Sep, child: Option<Addr>)
    requires |seps| == ORDER && i < MIDDLE && Fits(seps, kids, child)
    ensures Wide(seps, i, sep)[..MIDDLE] == Wide(seps[..MIDDLE - 1], i, sep)
    ensures Wide(seps, i, sep)[MIDDLE + 1..] == seps[MIDDLE..]
    ensures Head(WideKids(kids, i, child)) == WideKids(if kids == [] then [] else kids[..MIDDLE], i, child)
    ensures Rest(WideKids(kids, i, child)) == if kids == [] then [] else kids[MIDDLE..]
  {
  }

  lemma PadPacked<T>(s: seq<T>, n: nat, from: nat)
    ensures Packed(Pad(s, n), from) && (|s| < n ==> Pad(s, n)[n - 1].None?)
  {
  }

  /** Opening a gap in a padded array and filling it inserts an element. */
  lemma PadWiden<T>(s: seq<T>, i: nat, x: T, n: nat)
    requires i <= |s| < n
    ensures (Pad(s, n)[..i] + [None] + Pad(s, n)[i..n - 1])[i := Some(x)] == Pad(s[..i] + [x] + s[i..], n)
  {
    var t := (Pad(s, n)[..i] + [None] + Pad(s, n)[i..n - 1])[i := Some(x)];
    forall j | 0 <= j < n
      ensures t[j] == Pad(s[..i] + [x] + s[i..], n)[j]
    {
      assert j > i ==> t[j] == Pad(s, n)[j - 1];
    }
  }

  ghost predicate Fits(seps: seq<Sep>, kids: seq<Addr>, child: Option<Addr>) {
    if child.None? then kids == [] else |kids| == |seps| + 1
  }

  /** The nine separators of a full node that takes one more. */
  function Wide(seps: seq<Sep>, i: nat, sep: Sep): seq<Sep>
    requires i <= |seps|
  {
    seps[..i] + [sep] + seps[i..]
  }

  function WideKids(kids: seq<Addr>, i: nat, child: Option<Addr>): seq<Addr>
    requires child.Some? ==> i < |kids|
  {
    if child.None? then kids else kids[..i + 1] + [child.value] + kids[i + 1..]
  }

  function Head(kids: seq<Addr>): seq<Addr> {
    if |kids| < MIDDLE + 1 then kids else kids[..MIDDLE + 1]
  }

  function Rest(kids: seq<Addr>): seq<Addr> {
    if |kids| < MIDDLE + 1 then [] else kids[MIDDLE + 1..]
  }

  function ChildStart(at: nat, skipLeftChild: bool): nat {
    if skipLeftChild then at + 1 else at
  }

  /** A new child goes to the right of the separator it comes with. */
  function After(insert: Option<(nat, Addr)>): Option<(nat, Addr)> {
    if insert.Some? then Some((insert.value.0 + 1, insert.value.1)) else None
  }
}
