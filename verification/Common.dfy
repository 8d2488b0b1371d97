/** Small shared vocabulary: optional values, results, blank strings and the checked decimal. */
module Common {

  datatype Option<+T> = None | Some(value: T)

  datatype Result<+T, +E> = Ok(value: T) | Err(error: E)

  /** Unicode White_Space, the set trimmed by the source's string trimming. */
  predicate IsWhitespace(c: char) {
    || '\t' <= c <= '\r'
    || c == ' '
    || c in {'\U{85}', '\U{A0}', '\U{1680}', '\U{2028}', '\U{2029}', '\U{202F}', '\U{205F}', '\U{3000}'}
    || '\U{2000}' <= c <= '\U{200A}'
  }

  /** A string whose trimmed form is empty. */
  predicate IsBlank(s: string) {
    forall i :: 0 <= i < |s| ==> IsWhitespace(s[i])
  }

  predicate Distinct<T(==)>(s: seq<T>) {
    forall i, j :: 0 <= i < j < |s| ==> s[i] != s[j]
  }

  lemma DistinctSnoc<T>(s: seq<T>, x: T)
    ensures Distinct(s + [x]) <==> Distinct(s) && x !in s
  {
    var t := s + [x];
    if Distinct(t) {
      assert forall i, j :: 0 <= i < j < |s| ==> t[i] == s[i] && t[j] == s[j] && t[i] != t[j];
      assert forall i :: 0 <= i < |s| ==> t[i] == s[i] && t[i] != t[|s|];
    }
  }

  /** Distinctness is a matter of counting the members. */
  lemma {:induction false} DistinctByCount<T>(s: seq<T>)
    ensures Distinct(s) <==> |set x | x in s| == |s|
    ensures |set x | x in s| <= |s|
  {
    if s == [] {
      assert (set x | x in s) == {};
    } else {
      var rest, last := s[..|s| - 1], s[|s| - 1];
      DistinctByCount(rest);
      assert s == rest + [last];
      DistinctSnoc(rest, last);
      assert (set x | x in s) == (set x | x in rest) + {last};
    }
  }

  lemma Pick<T>(s: set<T>) returns (x: T)
    requires s != {}
    ensures x in s
  {
    x :| x in s;
  }

  /** Some member of a non-empty set. */
  ghost function Any<T>(s: set<T>): (x: T)
    requires s != {}
    ensures x in s
  {
    var x :| x in s;
    x
  }

  /** Take any member: callers must be right whichever it is. */
  method PickAny<T(==)>(s: set<T>) returns (x: T)
    requires s != {}
    ensures x in s
  {
    x :| x in s;
  }

  /** The sequence without its element at `k`. */
  function Without<T>(s: seq<T>, k: nat): seq<T>
    requires k < |s|
  {
    s[..k] + s[k + 1..]
  }

  /** In a permutation, the head of one sequence sits somewhere in the other and the rests are permutations. */
  lemma PermutationHead<T>(a: seq<T>, b: seq<T>) returns (k: nat)
    requires a != [] && multiset(a) == multiset(b)
    ensures k < |b| && b[k] == a[0]
    ensures multiset(a[1..]) == multiset(Without(b, k))
  {
    assert a[0] in multiset(b);
    k :| 0 <= k < |b| && b[k] == a[0];
    assert a == [a[0]] + a[1..];
    assert b == b[..k] + [b[k]] + b[k + 1..];
    assert multiset(a[1..]) == multiset(a) - multiset{a[0]};
    assert multiset(Without(b, k)) == multiset(b) - multiset{b[k]};
  }
}

/** Fixed-range decimals: exact arithmetic whose checked operations fail outside the range. */
module Decimals {
  import opened Common

  /** The largest representable magnitude, 2^96 - 1. */
  const MAX: real := 79228162514264337593543950335.0

  predicate Representable(x: real) {
    -MAX <= x <= MAX
  }

  type Decimal = x: real | Representable(x) witness 0.0

  function Checked(x: real): Option<Decimal> {
    if Representable(x) then Some(x) else None
  }

  function CheckedAdd(a: Decimal, b: Decimal): Option<Decimal> {
    Checked(a + b)
  }

  function CheckedSub(a: Decimal, b: Decimal): Option<Decimal> {
    Checked(a - b)
  }

  function CheckedMul(a: Decimal, b: Decimal): Option<Decimal> {
    Checked(a * b)
  }

  function CheckedDiv(a: Decimal, b: Decimal): Option<Decimal> {
    if b == 0.0 then None else Checked(a / b)
  }
}

/** The few facts about products of reals the proofs lean on. */
module RealArithmetic {

  lemma ProductSign(a: real, b: real)
    ensures a >= 0.0 && b >= 0.0 ==> a * b >= 0.0
    ensures a <= 0.0 && b <= 0.0 ==> a * b >= 0.0
    ensures a >= 0.0 && b <= 0.0 ==> a * b <= 0.0
    ensures a <= 0.0 && b >= 0.0 ==> a * b <= 0.0
    ensures b == 0.0 ==> a * b == 0.0
  {
  }

  /** A product with a positive factor is zero only through the other. */
  lemma ProductZero(a: real, b: real)
    requires a > 0.0
    ensures b > 0.0 ==> a * b > 0.0
    ensures b == 0.0 <==> a * b == 0.0
  {
  }

  /** Products of non-negative factors grow with each factor. */
  lemma ProductBound(a: real, b: real, x: real, y: real)
    requires 0.0 <= a <= x && 0.0 <= b <= y
    ensures a * b <= x * y
  {
    ProductSign(a, y - b);
    assert a * (y - b) == a * y - a * b;
    ProductSign(x - a, y);
    assert (x - a) * y == x * y - a * y;
  }

  /** A part of a whole: scaling a non-negative amount by at most one. */
  lemma PartOfWhole(whole: real, part: real)
    requires whole >= 0.0 && 0.0 <= part <= 1.0
    ensures 0.0 <= whole * part <= whole
  {
    ProductSign(whole, part);
    ProductSign(whole, 1.0 - part);
    assert whole * (1.0 - part) == whole - whole * part;
  }

  /** A common non-zero factor cancels. */
  lemma Cancel(x: real, y: real, factor: real)
    requires factor != 0.0 && x * factor == y * factor
    ensures x == y
  {
    assert (x - y) * factor == 0.0;
  }

  /** Scaling by a positive factor keeps every comparison. */
  lemma Scale(a: real, b: real, factor: real)
    requires factor > 0.0
    ensures a <= b <==> a * factor <= b * factor
    ensures a >= b <==> a * factor >= b * factor
  {
    assert (b - a) * factor == b * factor - a * factor;
    ProductSign(b - a, factor);
    if a < b {
      assert (b - a) * factor > 0.0;
    }
    if a > b {
      assert (b - a) * factor < 0.0;
    }
  }
}
