/**
 Index entries: an address and as much of the key prefix as fits, packed into 64 bits. Chunk
 number and entry together hold the first 50 bits of the key, whatever the size of the index.
 Words are numbers below 2^64; a left shift drops what leaves the word, and the or of two
 fields that do not overlap is their sum.
 */
module IndexEntry {
  import opened Keys

  const WORD := 0x1_0000_0000_0000_0000
  const MIN_INDEX_BITS := 16
  /** The largest size whose addresses leave room for a bit of the key. */
  const MAX_INDEX_BITS := 49
  const CHUNK_ENTRIES := 64
  const CHUNK_ENTRIES_BITS := 6
  const SIZE_TIERS_BITS := 8
  /** 2 to the power of the two constants above. */
  const LOST := 0x4000

  // ----- Shifts

  function Pow2(n: nat): (r: nat)
    ensures r > 0
  {
    if n == 0 then 1 else 2 * Pow2(n - 1)
  }

  lemma {:induction false} Pow2Add(m: nat, n: nat)
    ensures Pow2(m + n) == Pow2(m) * Pow2(n)
  {
    if m > 0 {
      Pow2Add(m - 1, n);
      assert m + n - 1 == m - 1 + n;
    }
  }

  lemma Pow2Of1()
    ensures Pow2(1) == 2
  {
  }

  lemma Pow2Values()
    ensures Pow2(14) == LOST && Pow2(16) == 0x1_0000 && Pow2(32) == 0x1_0000_0000 && Pow2(64) == WORD
  {
    hide Pow2;
    Pow2Of1();
    Pow2Add(1, 1);
    Pow2Add(2, 2);
    Pow2Add(4, 4);
    Pow2Add(2, 4);
    Pow2Add(8, 6);
    Pow2Add(8, 8);
    Pow2Add(16, 16);
    Pow2Add(32, 32);
  }

  function Shl(x: nat, n: nat): nat {
    x * Pow2(n) % WORD
  }

  function Shr(x: nat, n: nat): nat {
    DivNat(x, Pow2(n));
    x / Pow2(n)
  }

  lemma MulMore(a: nat, d: nat)
    requires a > 0
    ensures a * d >= d
  {
    assert a * d == (a - 1) * d + d;
  }

  lemma DivNat(x: nat, d: nat)
    requires d > 0
    ensures x / d >= 0
  {
    var q := x / d;
    assert x == q * d + x % d;
  }

  // ----- Entries

  predicate GoodBits(bits: nat) {
    MIN_INDEX_BITS <= bits <= MAX_INDEX_BITS
  }

  function AddressBits(bits: nat): nat {
    bits + CHUNK_ENTRIES_BITS + SIZE_TIERS_BITS
  }

  /** One more than the largest address. */
  function AddressLimit(bits: nat): nat {
    Pow2(AddressBits(bits))
  }

  /** Bits of the key prefix that an entry keeps (`Entry::extract_key`). */
  function ExtractKey(prefix: nat, bits: nat): nat {
    Shr(Shl(prefix, bits), AddressBits(bits))
  }

  function NewEntry(address: nat, partial: nat, bits: nat): nat
    requires address < AddressLimit(bits)
  {
    Shl(partial, AddressBits(bits)) + address
  }

  function AddressOf(entry: nat, bits: nat): nat {
    entry % AddressLimit(bits)
  }

  function PartialKey(entry: nat, bits: nat): nat {
    Shr(entry, AddressBits(bits))
  }

  function ChunkIndex(prefix: nat, bits: nat): nat
    requires bits <= 64
  {
    Shr(prefix, 64 - bits)
  }

  /** The entry of a key at an address. */
  function EntryFor(prefix: nat, address: nat, bits: nat): nat
    requires address < AddressLimit(bits)
  {
    NewEntry(address, ExtractKey(prefix, bits), bits)
  }

  function RecoverKeyPrefix(chunk: nat, entry: nat, bits: nat): nat
    requires GoodBits(bits)
  {
    var k := 64 - AddressBits(bits);
    Shl(chunk, 64 - bits) + Shl(PartialKey(entry, bits), 64 - k - bits)
  }

  /** What is left of a prefix when only its first 50 bits are known. */
  function First50(prefix: nat): nat {
    prefix - prefix % LOST
  }

  // ----- Laws

  lemma {:induction false} OneQuotient(d: nat, q: nat, s: nat, e: nat, t: nat)
    requires q * d + s == e * d + t && s < d && t < d
    ensures q == e && s == t
  {
    if q < e {
      MulStep(q, e, d);
    } else if e < q {
      MulStep(e, q, d);
    }
  }

  lemma MulStep(q: nat, e: nat, d: nat)
    requires q < e
    ensures e * d >= q * d + d
  {
    MulMore(e - q, d);
    assert (e - q) * d == e * d - q * d;
  }

  lemma {:induction false} DivIs(x: nat, d: nat, q: nat, s: nat)
    requires d > 0 && x == q * d + s && s < d
    ensures x / d == q && x % d == s
  {
    assert x == x / d * d + x % d;
    OneQuotient(d, q, s, x / d, x % d);
  }

  lemma {:induction false} DivSame(r: nat, k: nat, m: nat)
    requires k > 0 && m > 0
    ensures k * m > 0 && r * k / (k * m) == r / m
  {
    var q, s := r / m, r % m;
    MulMore(k, m);
    Spread(q, m, s, k);
    assert r * k == q * (k * m) + s * k;
    MulMore(m - s, k);
    assert (m - s) * k == k * m - s * k;
    DivIs(r * k, k * m, q, s * k);
  }

  lemma Spread(q: nat, m: nat, s: nat, k: nat)
    ensures (q * m + s) * k == q * (k * m) + s * k
  {
    assert (q * m + s) * k == q * m * k + s * k;
    assert q * m * k == q * (m * k);
  }

  lemma {:induction false} DivTwice(x: nat, m: nat, n: nat)
    requires m > 0 && n > 0
    ensures m * n > 0 && x / (m * n) == x / m / n
  {
    DivNat(x, m);
    var a, t := x / m, x % m;
    DivNat(a, n);
    var b, s := a / n, a % n;
    MulMore(m, n);
    Spread(b, n, s, m);
    MulStep(s, n, m);
    hide *;
    assert x == b * (m * n) + (s * m + t);
    DivIs(x, m * n, b, s * m + t);
  }

  lemma Multiple(k: nat, m: nat)
    requires m > 0
    ensures k * m % m == 0 && k * m / m == k
  {
    DivIs(k * m, m, k, 0);
  }

  lemma {:induction false} Quotient(x: nat, low: nat, up: nat)
    requires low > 0 && x < low * up
    ensures x / low < up
  {
    var q := x / low;
    assert q * low <= x;
    if up < q {
      MulStep(up, q, low);
    }
  }

  lemma Sizes(bits: nat)
    requires GoodBits(bits)
    ensures var low := Pow2(64 - bits); low % LOST == 0 && low * Pow2(bits) == WORD && low == Pow2(50 - bits) * LOST
    ensures AddressLimit(bits) == Pow2(bits) * LOST && Pow2(50 - bits) * AddressLimit(bits) == WORD
  {
    Pow2Values();
    Pow2Add(64 - bits, bits);
    Pow2Add(50 - bits, 14);
    Pow2Add(bits, 14);
    Multiple(Pow2(50 - bits), LOST);
    assert AddressBits(bits) == bits + 14 && 50 - bits + 14 == 64 - bits;
    Spread(Pow2(50 - bits), LOST, 0, Pow2(bits));
  }

  /** Shifting left and back keeps the low part of a word. */
  lemma {:induction false} ShiftBack(prefix: nat, low: nat, up: nat)
    requires low > 0 && up > 0 && low * up == WORD
    ensures prefix * up % WORD / (up * LOST) == prefix % low / LOST
  {
    var c, r := prefix / low, prefix % low;
    Spread(c, low, r, up);
    assert up * low == WORD;
    MulMore(low - r, up);
    assert (low - r) * up == low * up - r * up;
    DivIs(prefix * up, WORD, c, r * up);
    DivSame(r, up, LOST);
  }

  /** How an index of any size cuts a prefix: chunk number above, partial key in the middle, 14 bits lost. */
  lemma {:induction false} Parts(prefix: nat, bits: nat)
    requires GoodBits(bits) && prefix < WORD
    ensures var low := Pow2(64 - bits); ChunkIndex(prefix, bits) == prefix / low && prefix / low < Pow2(bits)
    ensures ExtractKey(prefix, bits) == prefix % Pow2(64 - bits) / LOST && ExtractKey(prefix, bits) < Pow2(50 - bits)
  {
    var low, up := Pow2(64 - bits), Pow2(bits);
    Sizes(bits);
    Quotient(prefix, low, up);
    ShiftBack(prefix, low, up);
    Quotient(prefix % low, LOST, Pow2(50 - bits));
  }

  /** An entry gives back its address and its part of the key. */
  lemma {:induction false} EntryReads(prefix: nat, address: nat, bits: nat)
    requires GoodBits(bits) && prefix < WORD && address < AddressLimit(bits)
    ensures AddressOf(EntryFor(prefix, address, bits), bits) == address
    ensures PartialKey(EntryFor(prefix, address, bits), bits) == ExtractKey(prefix, bits)
    ensures EntryFor(prefix, address, bits) < WORD
    ensures EntryFor(prefix, address, bits) == ExtractKey(prefix, bits) * AddressLimit(bits) + address
  {
    hide Pow2;
    var pk, d, n := ExtractKey(prefix, bits), AddressLimit(bits), Pow2(50 - bits);
    Parts(prefix, bits);
    Sizes(bits);
    hide ExtractKey, Pow2;
    MulStep(pk, n, d);
    PackedReads(pk, d, address);
  }

  lemma {:induction false} PackedReads(pk: nat, d: nat, address: nat)
    requires address < d && pk * d + d <= WORD
    ensures var e := pk * d % WORD + address; e == pk * d + address && e < WORD && e / d == pk && e % d == address
  {
    DivIs(pk * d, WORD, 0, pk * d);
    DivIs(pk * d + address, d, pk, address);
  }

  /** Chunk number and entry give back the first 50 bits of the key, at every index size. */
  lemma {:induction false} PrefixRecovered(prefix: nat, address: nat, bits: nat)
    requires GoodBits(bits) && prefix < WORD && address < AddressLimit(bits)
    ensures RecoverKeyPrefix(ChunkIndex(prefix, bits), EntryFor(prefix, address, bits), bits) == First50(prefix)
  {
    EntryReads(prefix, address, bits);
    Parts(prefix, bits);
    Sizes(bits);
    Pow2Values();
    hide EntryFor, ExtractKey, ChunkIndex, PartialKey;
    var low := Pow2(64 - bits);
    PrefixPut(prefix, low);
    assert 64 - (64 - AddressBits(bits)) - bits == 14;
  }

  lemma {:induction false} PrefixPut(prefix: nat, low: nat)
    requires low > 0 && low % LOST == 0 && prefix < WORD
    ensures prefix / low * low % WORD + prefix % low / LOST * LOST % WORD == First50(prefix)
  {
    var c, r := prefix / low, prefix % low;
    assert prefix == c * low + r;
    DivIs(c * low, WORD, 0, c * low);
    DivIs(r / LOST * LOST, WORD, 0, r / LOST * LOST);
    LowBits(prefix, low);
  }

  /** Cutting at a multiple of 2^14 leaves the lowest 14 bits alone. */
  lemma {:induction false} LowBits(x: nat, low: nat)
    requires low > 0 && low % LOST == 0
    ensures x % low % LOST == x % LOST
  {
    var c, r, m := x / low, x % low, low / LOST;
    assert x == c * low + r && low == m * LOST;
    Spread(m, LOST, 0, c);
    assert c * low == c * m * LOST;
    DivIs(x, LOST, c * m + r / LOST, r % LOST);
  }

  /** The recovered prefix goes to the same chunk and makes the same entry as the key itself, at any size. */
  lemma {:induction false} Reinserted(prefix: nat, bits: nat)
    requires GoodBits(bits) && prefix < WORD
    ensures First50(prefix) < WORD && ChunkIndex(First50(prefix), bits) == ChunkIndex(prefix, bits)
    ensures ExtractKey(First50(prefix), bits) == ExtractKey(prefix, bits)
  {
    var q, low := First50(prefix), Pow2(64 - bits);
    Parts(prefix, bits);
    Parts(q, bits);
    Sizes(bits);
    hide ExtractKey, ChunkIndex, Pow2;
    CutFirst50(prefix, low);
  }

  lemma {:induction false} CutFirst50(prefix: nat, low: nat)
    requires low > 0 && low % LOST == 0
    ensures First50(prefix) / low == prefix / low && First50(prefix) % low / LOST == prefix % low / LOST
  {
    LowBits(prefix, low);
    var c, r := prefix / low, prefix % low;
    DivNat(prefix, low);
    DivIs(First50(prefix), low, c, r - r % LOST);
    DivIs(r - r % LOST, LOST, r / LOST, 0);
  }

  // ----- Whole keys

  predicate IsKey(k: Bytes) {
    |k| == 32
  }

  /** Big endian bytes. */
  function FromBE(b: Bytes): nat {
    if b == [] then 0 else FromBE(b[..|b| - 1]) * 256 + b[|b| - 1]
  }

  function ToBE(n: nat, width: nat): (b: Bytes)
    ensures |b| == width
  {
    if width == 0 then [] else ToBE(n / 256, width - 1) + [n % 256]
  }

  lemma {:induction false} BERoundTrip(b: Bytes)
    ensures ToBE(FromBE(b), |b|) == b
  {
    if b != [] {
      BERoundTrip(b[..|b| - 1]);
    }
  }

  /** The first eight bytes of a key, most significant first (`index_from_partial`). */
  function PrefixOf(k: Bytes): (p: nat)
    requires IsKey(k)
    ensures p < WORD
  {
    BELimit(k[..8]);
    Pow2Values();
    FromBE(k[..8])
  }

  lemma {:induction false} BELimit(b: Bytes)
    ensures FromBE(b) < Pow2(8 * |b|)
  {
    if b != [] {
      BELimit(b[..|b| - 1]);
      Pow2Add(8, 8 * (|b| - 1));
      assert Pow2(8) == 256;
    }
  }

  /** A key put together from its index entry and the 26 bytes its slot stores. */
  function WholeKey(chunk: nat, entry: nat, bits: nat, partial: Bytes): Bytes
    requires GoodBits(bits) && |partial| == 26
  {
    ToBE(RecoverKeyPrefix(chunk, entry, bits), 8)[..6] + partial
  }

  lemma {:induction false} SixBytes(k: Bytes)
    requires IsKey(k)
    ensures ToBE(First50(PrefixOf(k)), 8)[..6] == k[..6]
  {
    hide ToBE, FromBE, First50, PrefixOf;
    TwoBytesLess(k);
    BERoundTrip(k[..6]);
    TopBytes(First50(PrefixOf(k)));
  }

  lemma {:induction false} TwoBytesLess(k: Bytes)
    requires IsKey(k)
    ensures First50(PrefixOf(k)) / 256 / 256 == FromBE(k[..6])
  {
    hide FromBE;
    var p := PrefixOf(k);
    LastByte(k[..8]);
    LastByte(k[..7]);
    assert k[..8][..7] == k[..7] && k[..7][..6] == k[..6];
    assert p == FromBE(k[..7]) * 256 + k[7];
    assert p / 256 / 256 == FromBE(k[..6]);
    DropLow(p);
  }

  lemma LastByte(b: Bytes)
    requires b != []
    ensures FromBE(b) == FromBE(b[..|b| - 1]) * 256 + b[|b| - 1]
  {
  }

  lemma DropLow(p: nat)
    ensures First50(p) / 256 / 256 == p / 256 / 256
  {
  }

  lemma {:induction false} TopBytes(n: nat)
    ensures ToBE(n, 8)[..6] == ToBE(n / 256 / 256, 6)
  {
    assert ToBE(n, 8) == ToBE(n / 256, 7) + [n % 256];
    assert ToBE(n / 256, 7) == ToBE(n / 256 / 256, 6) + [n / 256 % 256];
  }

  /** The index entry and the stored 26 bytes give back the whole key. */
  lemma {:induction false} KeyRecovered(k: Bytes, address: nat, bits: nat)
    requires IsKey(k) && GoodBits(bits) && address < AddressLimit(bits)
    ensures WholeKey(ChunkIndex(PrefixOf(k), bits), EntryFor(PrefixOf(k), address, bits), bits, k[6..]) == k
  {
    PrefixRecovered(PrefixOf(k), address, bits);
    SixBytes(k);
    hide First50, PrefixOf, ToBE, RecoverKeyPrefix;
    assert k == k[..6] + k[6..];
  }
}
