/** Fixed-width little endian integers, as `to_le_bytes` and `from_le_bytes`. */
module LittleEndian {
  import opened Keys

  const U32_LIMIT := 0x1_0000_0000
  const U64_LIMIT := 0x1_0000_0000_0000_0000

  function Limit(width: nat): (r: nat)
    ensures r >= 1
  {
    if width == 0 then 1 else 256 * Limit(width - 1)
  }

  function LE(n: nat, width: nat): (b: Bytes)
    ensures |b| == width
  {
    if width == 0 then [] else [n % 256] + LE(n / 256, width - 1)
  }

  function FromLE(b: Bytes): nat {
    if b == [] then 0 else b[0] + 256 * FromLE(b[1..])
  }

  lemma {:induction false} Decoded(n: nat, width: nat)
    requires n < Limit(width)
    ensures FromLE(LE(n, width)) == n
  {
    if width > 0 {
      Decoded(n / 256, width - 1);
      assert LE(n, width)[1..] == LE(n / 256, width - 1);
    }
  }

  /** Bytes are what their number is written as. */
  lemma {:induction false} Encoded(b: Bytes)
    ensures FromLE(b) < Limit(|b|) && LE(FromLE(b), |b|) == b
  {
    if b != [] {
      Encoded(b[1..]);
      LowDigit(b[0], FromLE(b[1..]));
      assert b == [b[0]] + b[1..];
    }
  }

  lemma LowDigit(d: Byte, n: nat)
    ensures (d + 256 * n) % 256 == d && (d + 256 * n) / 256 == n
  {
  }

  /** Byte `i` is the digit of 256 to the power of `i`: the lowest comes first. */
  lemma {:induction false} Digit(n: nat, width: nat, i: nat)
    requires i < width
    ensures LE(n, width)[i] == n / Limit(i) % 256
  {
    if i > 0 {
      Digit(n / 256, width - 1, i - 1);
      assert LE(n, width)[i] == LE(n / 256, width - 1)[i - 1];
      ByteLess(n, Limit(i - 1));
    }
  }

  lemma {:induction false} ByteLess(n: nat, m: nat)
    requires m > 0
    ensures n / 256 / m == n / (256 * m)
  {
    var q, r := n / 256 / m, n / 256 % m;
    assert n / 256 == q * m + r;
    assert n == q * (256 * m) + (256 * r + n % 256);
    QuotientIs(n, 256 * m, q, 256 * r + n % 256);
  }

  lemma {:induction false} QuotientIs(n: nat, m: nat, q: nat, r: nat)
    requires m > 0 && n == q * m + r && r < m
    ensures n / m == q
  {
    var d := n / m - q;
    assert d * m == r - n % m;
    assert d >= 1 ==> d * m >= m;
    assert d <= -1 ==> d * m + m <= 0;
  }

  lemma Widths()
    ensures Limit(2) == 0x1_0000 && Limit(4) == U32_LIMIT && Limit(8) == U64_LIMIT
  {
    assert Limit(1) == 256;
    assert Limit(3) == 0x100_0000;
    assert Limit(5) == 0x100_0000_0000;
    assert Limit(6) == 0x1_0000_0000_0000;
    assert Limit(7) == 0x100_0000_0000_0000;
  }

  lemma U64RoundTrip(n: nat)
    requires n < U64_LIMIT
    ensures FromLE(LE(n, 8)) == n
  {
    Widths();
    Decoded(n, 8);
  }

  lemma U32RoundTrip(n: nat)
    requires n < U32_LIMIT
    ensures FromLE(LE(n, 4)) == n
  {
    Widths();
    Decoded(n, 4);
  }
}
