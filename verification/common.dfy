/** Small shared datatypes, bytes, and the fixed-width little-endian encoding. */
module Common {
  datatype Option<+T> = None | Some(value: T)

  datatype Result<+T, +E> = Ok(value: T) | Err(error: E)

  type byte = n: int | 0 <= n < 256

  const U32_LIMIT := 0x1_0000_0000
  const U64_LIMIT := 0x1_0000_0000_0000_0000

  type u32 = n: int | 0 <= n < U32_LIMIT
  type u64 = n: int | 0 <= n < U64_LIMIT

  function Pow256(width: nat): (p: nat)
    ensures p > 0
  {
    if width == 0 then 1 else 256 * Pow256(width - 1)
  }

  /** `n.to_le_bytes()` for an integer type of `width` bytes. */
  function LittleEndian(n: nat, width: nat): (b: seq<byte>)
    ensures |b| == width
  {
    if width == 0 then [] else [n % 256] + LittleEndian(n / 256, width - 1)
  }

  /** `from_le_bytes`. */
  function FromLittleEndian(b: seq<byte>): (n: nat)
    ensures n < Pow256(|b|)
  {
    if b == [] then 0 else b[0] + 256 * FromLittleEndian(b[1..])
  }

  lemma {:induction false} LittleEndianRoundTrip(n: nat, width: nat)
    requires n < Pow256(width)
    ensures FromLittleEndian(LittleEndian(n, width)) == n
  {
    if width > 0 {
      LittleEndianRoundTrip(n / 256, width - 1);
      assert LittleEndian(n, width)[1..] == LittleEndian(n / 256, width - 1);
    }
  }

  /** Byte `i` is the `i`-th least significant one. */
  lemma {:induction false} LittleEndianAt(n: nat, width: nat, i: nat)
    requires i < width
    ensures LittleEndian(n, width)[i] == (n / Pow256(i)) % 256
  {
    if i > 0 {
      LittleEndianAt(n / 256, width - 1, i - 1);
      assert LittleEndian(n, width)[i] == LittleEndian(n / 256, width - 1)[i - 1];
      DivTwice(n, 256, Pow256(i - 1));
    }
  }

  lemma DivTwice(n: nat, a: nat, b: nat)
    requires a > 0 && b > 0
    ensures a * b > 0 && (n / a) / b == n / (a * b)
  {
    var m := n / a;
    var q, r := m / b, m % b;
    MulPositive(a, b);
    DivMod(n, a);
    DivMod(m, b);
    assert a * m == a * (b * q + r) == a * (b * q) + a * r;
    MulAssociates(a, b, q);
    MulLe(a, r, b - 1);
    assert a * (b - 1) == a * b - a;
    DivUnique(n, a * b, q, a * r + n % a);
  }

  lemma MulPositive(a: nat, b: nat)
    requires a > 0 && b > 0
    ensures a * b > 0
  {
  }

  lemma DivMod(n: nat, d: nat)
    requires d > 0
    ensures n == d * (n / d) + n % d && n % d < d
  {
  }

  lemma MulAssociates(a: nat, b: nat, c: nat)
    ensures a * (b * c) == (a * b) * c
  {
  }

  lemma MulLe(a: nat, x: nat, y: nat)
    requires x <= y
    ensures a * x <= a * y
  {
  }

  lemma DivUnique(n: nat, d: nat, q: nat, r: nat)
    requires d > 0 && n == d * q + r && r < d
    ensures n / d == q
  {
    var k := n / d;
    DivMod(n, d);
    assert d * (q + 1) == d * q + d && d * (k + 1) == d * k + d;
    if k > q {
      MulLe(d, q + 1, k);
    } else if k < q {
      MulLe(d, k + 1, q);
    }
  }

  /** Reading a word and writing it again gives the same bytes. */
  lemma {:induction false} FromLittleEndianRoundTrip(b: seq<byte>)
    ensures LittleEndian(FromLittleEndian(b), |b|) == b
  {
    if b != [] {
      FromLittleEndianRoundTrip(b[1..]);
      var rest := FromLittleEndian(b[1..]);
      assert (b[0] + 256 * rest) / 256 == rest && (b[0] + 256 * rest) % 256 == b[0];
      assert b == [b[0]] + b[1..];
    }
  }

  lemma WordWidths()
    ensures Pow256(2) == 0x1_0000 && Pow256(4) == U32_LIMIT && Pow256(8) == U64_LIMIT
  {
    assert Pow256(1) == 256;
    assert Pow256(2) == 0x1_0000;
    assert Pow256(3) == 0x100_0000;
    assert Pow256(4) == U32_LIMIT;
    assert Pow256(6) == 256 * (256 * Pow256(4));
  }

  /** Two words of the same width with the same encoding are equal. */
  lemma LittleEndianInjective(m: nat, n: nat, width: nat)
    requires m < Pow256(width) && n < Pow256(width)
    requires LittleEndian(m, width) == LittleEndian(n, width)
    ensures m == n
  {
    LittleEndianRoundTrip(m, width);
    LittleEndianRoundTrip(n, width);
  }

  function Max(a: int, b: int): int {
    if a > b then a else b
  }

  function Min(a: int, b: int): int {
    if a < b then a else b
  }
}
