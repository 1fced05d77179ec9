/**
 * The key/value bucket shared by every id mapping, and the eight-byte form in which rows are kept.
 * A stored row is a string of eight characters below 256, one for each byte.
 */
module Bucket {
  import opened Decimal
  import opened RowId

  type Store = map<string, string>

  const COUNTER_KEY := "currentRow"

  /** Put without looking at the error: the engine refuses an empty key and leaves the bucket alone. */
  function Put(b: Store, k: string, v: string): Store {
    if k == "" then b else b[k := v]
  }

  function Delete(b: Store, k: string): Store {
    b - {k}
  }

  function RowKey(n: int): (k: string) {
    "row-" + FormatInt(n)
  }

  /** `width` bytes of n, most significant first. */
  function BigEndian(n: nat, width: nat): (s: string)
    ensures |s| == width
  {
    if width == 0 then "" else BigEndian(n / 256, width - 1) + [(n % 256) as char]
  }

  function FromBigEndian(s: string): nat {
    if s == "" then 0 else 256 * FromBigEndian(s[..|s| - 1]) + s[|s| - 1] as nat
  }

  /** binary.BigEndian.PutUint64(_, uint64(n)) for an int64 n. */
  function EncodeRow(n: int): (s: string)
    ensures |s| == 8
  {
    BigEndian(ToUint64(n), 8)
  }

  /** int64(binary.BigEndian.Uint64(s)): reads the first eight bytes as two's complement. */
  function DecodeRow(s: string): (n: int)
    requires |s| >= 8
  {
    ToInt64(FromBigEndian(s[..8]))
  }

  function ToUint64(n: int): nat {
    n % 0x1_0000_0000_0000_0000
  }

  function ToInt64(n: int): int {
    if ToUint64(n) > MAX_INT64 then ToUint64(n) - 0x1_0000_0000_0000_0000 else ToUint64(n)
  }

  function Pow256(k: nat): (p: nat)
    ensures p > 0
  {
    if k == 0 then 1 else 256 * Pow256(k - 1)
  }

  lemma {:induction false} BigEndianReadsBack(n: nat, width: nat)
    requires n < Pow256(width)
    ensures FromBigEndian(BigEndian(n, width)) == n
  {
    if width > 0 {
      BigEndianReadsBack(n / 256, width - 1);
      var s := BigEndian(n, width);
      assert s[..|s| - 1] == BigEndian(n / 256, width - 1);
    }
  }

  lemma DivTwice(n: nat, d: nat)
    requires d > 0
    ensures (n / 256) / d == n / (256 * d)
  {
    var q := n / (256 * d);
    var r := n % (256 * d);
    assert n == (256 * d) * q + r;
    assert n / 256 == d * q + r / 256 by {
      assert n == 256 * (d * q) + r;
    }
    assert r / 256 < d;
    QuotientIs(n / 256, d, q, r / 256);
  }

  lemma FactorsCompare(d: nat, a: nat, b: nat)
    requires d * a < d * b
    ensures a < b
  {
  }

  lemma QuotientIs(x: nat, d: nat, q: nat, r: nat)
    requires d > 0 && x == d * q + r && r < d
    ensures x / d == q
  {
    var m := x / d;
    assert x == d * m + x % d;
    assert d * (m + 1) == d * m + d && d * (q + 1) == d * q + d;
    FactorsCompare(d, q, m + 1);
    FactorsCompare(d, m, q + 1);
  }

  /** The i-th byte from the left is the i-th digit of n in base 256, from the most significant one. */
  lemma {:induction false} BigEndianBytes(n: nat, width: nat, i: nat)
    requires i < width
    ensures BigEndian(n, width)[i] as nat == (n / Pow256(width - 1 - i)) % 256
  {
    if i < width - 1 {
      BigEndianBytes(n / 256, width - 1, i);
      DivTwice(n, Pow256(width - 2 - i));
    }
  }

  lemma EightBytes(u: nat)
    requires u < 0x1_0000_0000_0000_0000
    ensures u < Pow256(8)
  {
  }

  lemma WrapsAround(n: int)
    requires MIN_INT64 <= n <= MAX_INT64
    ensures ToInt64(ToUint64(n)) == n
  {
  }

  /** Every int64, negative ones included, survives being stored. */
  lemma DecodeEncode(n: int)
    requires MIN_INT64 <= n <= MAX_INT64
    ensures DecodeRow(EncodeRow(n)) == n
  {
    var u := ToUint64(n);
    EightBytes(u);
    BigEndianReadsBack(u, 8);
    WrapsAround(n);
    assert EncodeRow(n)[..8] == EncodeRow(n);
  }

  lemma RowKeyInjective(m: int, n: int)
    requires RowKey(m) == RowKey(n)
    ensures m == n
  {
    assert RowKey(m)[4..] == FormatInt(m) && RowKey(n)[4..] == FormatInt(n);
    FormatIntInjective(m, n);
  }

  /** Row keys hold no colon and are never the counter's key. */
  lemma RowKeyShape(n: int)
    ensures ':' !in RowKey(n) && RowKey(n) != COUNTER_KEY && "row-" <= RowKey(n)
  {
    FormatIntChars(n);
    assert RowKey(n)[0] == 'r';
  }
}
