/**
 Keys and values are byte strings. Ordered columns compare keys as Rust compares slices:
 byte by byte, a proper prefix first. `Rank` embeds that order into the reals, so that every
 ordering argument of the project is linear arithmetic.
 */
module Keys {
  type Byte = x: int | 0 <= x < 256
  type Bytes = seq<Byte>

  datatype Option<+T> = None | Some(value: T)

  datatype Ordering = Less | Equal | Greater

  function Compare(a: Bytes, b: Bytes): Ordering {
    CompareFrom(a, b, 0)
  }

  function CompareFrom(a: Bytes, b: Bytes, i: nat): Ordering
    requires i <= |a| && i <= |b|
    decreases |a| - i
  {
    if i == |a| then (if i == |b| then Equal else Less)
    else if i == |b| then Greater
    else if a[i] < b[i] then Less
    else if a[i] > b[i] then Greater
    else CompareFrom(a, b, i + 1)
  }

  ghost function Rank(a: Bytes): real {
    RankFrom(a, 0)
  }

  ghost function RankFrom(a: Bytes, i: nat): (r: real)
    requires i <= |a|
    ensures 0.0 <= r < 1.0
    decreases |a| - i
  {
    if i == |a| then 0.0 else ((a[i] as real) + 1.0 + RankFrom(a, i + 1)) / 257.0
  }

  lemma {:induction false} CompareIsRankFrom(a: Bytes, b: Bytes, i: nat)
    requires i <= |a| && i <= |b|
    ensures CompareFrom(a, b, i) ==
      if RankFrom(a, i) < RankFrom(b, i) then Less else if RankFrom(a, i) > RankFrom(b, i) then Greater else Equal
    ensures RankFrom(a, i) == RankFrom(b, i) ==> a[i..] == b[i..]
    decreases |a| - i
  {
    if i < |a| && i < |b| {
      CompareIsRankFrom(a, b, i + 1);
      if a[i] == b[i] {
        assert a[i..] == [a[i]] + a[i + 1..] && b[i..] == [b[i]] + b[i + 1..];
      } else if a[i] < b[i] {
        assert a[i] as real + 1.0 <= b[i] as real;
      } else {
        assert b[i] as real + 1.0 <= a[i] as real;
      }
    }
  }

  /** The slice order is the order of the ranks, and no two keys share a rank. */
  lemma CompareIsRank(a: Bytes, b: Bytes)
    ensures Compare(a, b) == if Rank(a) < Rank(b) then Less else if Rank(a) > Rank(b) then Greater else Equal
    ensures Rank(a) == Rank(b) <==> a == b
    ensures 0.0 <= Rank(a) < 1.0
  {
    CompareIsRankFrom(a, b, 0);
  }

  // ----- What the order is

  /** `a` comes before `b`: where they first differ its byte is smaller, or it ends there. */
  ghost predicate Before(a: Bytes, b: Bytes) {
    exists n :: SplitsAt(a, b, n)
  }

  ghost predicate SplitsAt(a: Bytes, b: Bytes, n: int) {
    0 <= n <= |a| && n < |b| && a[..n] == b[..n] && (n == |a| || a[n] < b[n])
  }

  lemma {:induction false} CompareSplits(a: Bytes, b: Bytes, i: nat) returns (n: nat)
    requires i <= |a| && i <= |b| && a[..i] == b[..i]
    ensures CompareFrom(a, b, i) == Less ==> SplitsAt(a, b, n)
    ensures CompareFrom(a, b, i) == Greater ==> SplitsAt(b, a, n)
    ensures CompareFrom(a, b, i) == Equal ==> a == b
    decreases |a| - i
  {
    n := i;
    if i < |a| && i < |b| && a[i] == b[i] {
      assert a[..i + 1] == a[..i] + [a[i]] && b[..i + 1] == b[..i] + [b[i]];
      n := CompareSplits(a, b, i + 1);
    } else if i == |a| && i == |b| {
      assert a[..i] == a && b[..i] == b;
    }
  }

  /** Two keys cannot each come before the other, nor a key before itself. */
  lemma {:induction false} SplitsOneWay(a: Bytes, b: Bytes, n: int, m: int)
    requires SplitsAt(a, b, n)
    ensures !SplitsAt(b, a, m) && a != b
  {
  }

  /** `Compare` is the order of byte slices: decided at the first difference, a proper prefix first. */
  lemma {:induction false} CompareIsSliceOrder(a: Bytes, b: Bytes)
    ensures Compare(a, b) == Less <==> Before(a, b)
    ensures Compare(a, b) == Greater <==> Before(b, a)
    ensures Compare(a, b) == Equal <==> a == b
  {
    hide CompareFrom, SplitsAt;
    NothingFirst(a, b);
    var n := CompareSplits(a, b, 0);
    if Before(a, b) {
      var k :| SplitsAt(a, b, k);
      SplitsOneWay(a, b, k, n);
    }
    if Before(b, a) {
      var k :| SplitsAt(b, a, k);
      SplitsOneWay(b, a, k, n);
    }
    if a == b {
      CompareIsRank(a, b);
    }
  }

  lemma NothingFirst(a: Bytes, b: Bytes)
    ensures a[..0] == b[..0]
  {
  }

  /** And so is the order of the ranks. */
  lemma RankIsSliceOrder(a: Bytes, b: Bytes)
    ensures Rank(a) < Rank(b) <==> Before(a, b)
  {
    hide Before, Rank, Compare;
    CompareIsRank(a, b);
    CompareIsSliceOrder(a, b);
  }
}
