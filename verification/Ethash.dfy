/** Conversion between an Ethash difficulty and its target boundary,
    parity-ethereum/ethash/src/lib.rs. Both directions are `f(x) = 2^256 / x`. */
module Ethash {
  import opened Prelude

  /** A 256-bit unsigned integer on which the conversion does not panic. */
  type NonZeroU256 = x: int | 1 <= x < TWO_256 witness 1

  /** `difficulty_to_boundary_aux`; the quotient always fits the result type. */
  function Convert(x: NonZeroU256): NonZeroU256 {
    if x == 1 then
      TWO_256 - 1
    else
      QuotientAtLeast(TWO_256, x, 1);
      DivideAntitone(TWO_256, 2, x);
      TWO_256 / x
  }

  lemma MulCancel(a: int, b: int, c: int)
    requires 0 <= c && a * c < b * c
    ensures a < b
  {
  }

  /** `q` is at most `n / x` exactly when `q * x` is at most `n`. */
  lemma QuotientAtLeast(n: nat, x: int, q: int)
    requires 1 <= x
    ensures q <= n / x <==> q * x <= n
  {
    var p := n / x;
    assert n == p * x + n % x && (p + 1) * x == p * x + x;
    if q * x <= n {
      MulCancel(q, p + 1, x);
    }
    if q <= p {
      assert (p - q) * x >= 0;
      assert (p - q) * x == p * x - q * x;
    }
  }

  lemma DivideAntitone(n: nat, a: int, b: int)
    requires 1 <= a <= b
    ensures 0 <= n / b <= n / a
  {
    var q := n / b;
    QuotientAtLeast(n, b, q);
    QuotientAtLeast(n, b, 0);
    MulLe(a, b, q);
    assert q * a == a * q <= b * q == q * b;
    QuotientAtLeast(n, a, q);
  }

  /** Up to the square root of `n`, dividing `n` twice returns the argument. */
  lemma DivideTwice(n: nat, root: nat, x: int)
    requires n == root * root
    requires 1 <= x <= root
    ensures root <= n / x && n / (n / x) == x
  {
    var y := n / x;
    MulLe(x, root, root);
    assert root * x == x * root;
    QuotientAtLeast(n, x, root);
    QuotientAtLeast(n, x, y);
    QuotientAtLeast(n, x, y + 1);
    assert x * y == y * x;
    QuotientAtLeast(n, y, x);
    Distribute(x, y);
    QuotientAtLeast(n, y, x + 1);
  }

  lemma Distribute(x: int, y: int)
    ensures (y + 1) * x == x * y + x && (x + 1) * y == x * y + y
  {
  }

  /** Dividing `n` three times is dividing it once. */
  lemma DivideThrice(n: nat, x: int)
    requires 1 <= x <= n
    ensures n / x >= 1 && n / (n / x) >= x && n / (n / (n / x)) == n / x
  {
    QuotientAtLeast(n, x, 1);
    var y := n / x;
    QuotientAtLeast(n, x, y);
    QuotientAtLeast(n, y, x);
    var z := n / y;
    DivideAntitone(n, x, z);
    QuotientAtLeast(n, y, z);
    QuotientAtLeast(n, z, y);
  }

  /** Every difficulty from 1 to 2^128 survives the trip to its boundary and back. */
  lemma RoundTrip(x: NonZeroU256)
    requires x <= TWO_128
    ensures Convert(Convert(x)) == x
  {
    if x == 1 {
      QuotientAtLeast(TWO_256, TWO_256 - 1, 1);
      QuotientAtLeast(TWO_256, TWO_256 - 1, 2);
    } else {
      DivideTwice(TWO_256, TWO_128, x);
    }
  }

  /** Beyond 2^128 the trip can lose the difficulty, but one conversion already
      normalises: on every non-zero 256-bit value three conversions equal one. */
  lemma ThreeConversionsAreOne(x: NonZeroU256)
    ensures Convert(Convert(Convert(x))) == Convert(x)
  {
    var y := Convert(x);
    if x == 1 || y == 1 {
      RoundTrip(1);
    } else {
      DivideThrice(TWO_256, x);
      QuotientAtLeast(TWO_256, y, x);
      assert TWO_256 / y >= x >= 2;
    }
  }

  /** The exact set of values that survive: those that are some value's image. */
  lemma RoundTripExactlyOnImage(x: NonZeroU256)
    ensures Convert(Convert(x)) == x <==> exists d: NonZeroU256 :: Convert(d) == x
  {
    if d: NonZeroU256 :| Convert(d) == x {
      ThreeConversionsAreOne(d);
    }
  }

  /** The same as a test on the value: the trip comes back exactly if the remainder of 2^256 is
      smaller than the quotient, or the value is the largest one. */
  lemma RoundTripTest(x: NonZeroU256)
    ensures Convert(Convert(x)) == x <==> TWO_256 % x < TWO_256 / x || x == TWO_256 - 1
  {
    var q, r := TWO_256 / x, TWO_256 % x;
    assert TWO_256 == q * x + r;
    if x == 1 {
      RoundTrip(1);
    } else if q == 1 {
      assert r == TWO_256 - x;
    } else {
      QuotientAtLeast(TWO_256, x, 1);
      QuotientAtLeast(TWO_256, q, x);
      QuotientAtLeast(TWO_256, q, x + 1);
      assert (x + 1) * q == x * q + q;
    }
  }

  /** Above 2^128 the trip can fail: 2^256 - 2 comes back as 2^256 - 1. */
  lemma RoundTripFailsAboveRoot()
    ensures Convert(Convert(TWO_256 - 2)) == TWO_256 - 1
  {
    QuotientAtLeast(TWO_256, TWO_256 - 2, 1);
    QuotientAtLeast(TWO_256, TWO_256 - 2, 2);
  }
}
