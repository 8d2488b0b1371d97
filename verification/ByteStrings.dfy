/** Byte strings and fixed-width big-endian numbers, as hashed by the fingerprints. */
module ByteStrings {

  newtype Byte = b: int | 0 <= b < 256

  type Bytes = seq<Byte>

  // ---------- Big-endian numbers ----------

  function Pow256(width: nat): nat {
    if width == 0 then 1 else 256 * Pow256(width - 1)
  }

  /** The low `width` bytes of `n`, most significant first. */
  function BigEndian(n: nat, width: nat): (r: Bytes)
    ensures |r| == width
  {
    if width == 0 then [] else BigEndian(n / 256, width - 1) + [(n % 256) as Byte]
  }

  lemma {:induction false} BigEndianInjective(a: nat, b: nat, width: nat)
    requires a < Pow256(width) && b < Pow256(width) && BigEndian(a, width) == BigEndian(b, width)
    ensures a == b
  {
    if width > 0 {
      var x, y := BigEndian(a / 256, width - 1), BigEndian(b / 256, width - 1);
      SplitEqual(x, [(a % 256) as Byte], y, [(b % 256) as Byte]);
      assert [(a % 256) as Byte][0] == [(b % 256) as Byte][0];
      BigEndianInjective(a / 256, b / 256, width - 1);
    }
  }

  lemma Associate(a: Bytes, b: Bytes, c: Bytes)
    ensures a + b + c == a + (b + c)
  {
  }

  lemma SplitEqual(a: Bytes, x: Bytes, b: Bytes, y: Bytes)
    requires a + x == b + y && |a| == |b|
    ensures a == b && x == y
  {
    assert (a + x)[..|a|] == a && (b + y)[..|b|] == b;
    assert (a + x)[|a|..] == x && (b + y)[|b|..] == y;
  }

  /** The number a byte string writes. */
  function ValueOf(s: Bytes): nat {
    if s == [] then 0 else 256 * ValueOf(s[..|s| - 1]) + s[|s| - 1] as nat
  }

  /** Every byte string is the encoding of a number that fits its width. */
  lemma {:induction false} BigEndianCovers(s: Bytes)
    ensures ValueOf(s) < Pow256(|s|) && BigEndian(ValueOf(s), |s|) == s
    decreases |s|
  {
    if s != [] {
      var front, last := s[..|s| - 1], s[|s| - 1];
      BigEndianCovers(front);
      assert ValueOf(s) / 256 == ValueOf(front) && ValueOf(s) % 256 == last as nat;
      assert s == front + [last];
    }
  }
}
