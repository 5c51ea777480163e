/** The order on 256-bit hashes, src/crypto/hash.rs. The rest of the project writes a
    hash as the number its 32 bytes spell in big-endian order; this module shows that
    nothing is lost by it: equality, `cmp` and the numbers used by sortition agree. */
module HashOrder {
  import opened Prelude

  newtype Byte = b: int | 0 <= b < 256
  type H256 = s: seq<Byte> | |s| == 32 witness seq(32, _ => 0)

  datatype Ordering = Less | Equal | Greater

  function Pow256(n: nat): (r: nat)
    ensures r >= 1
  {
    if n == 0 then 1 else 256 * Pow256(n - 1)
  }

  /** `U256::from_big_endian` / `u128::from_be_bytes`. */
  function FromBigEndian(s: seq<Byte>): nat {
    if s == [] then 0 else 256 * FromBigEndian(s[..|s| - 1]) + s[|s| - 1] as int
  }

  function CompareNumbers(a: nat, b: nat): Ordering {
    if a < b then Less else if a == b then Equal else Greater
  }

  /** `Ord for H256`: the high 16 bytes decide, then the low 16 bytes. */
  function Compare(a: H256, b: H256): Ordering {
    var higher := CompareNumbers(FromBigEndian(a[0..16]), FromBigEndian(b[0..16]));
    if higher == Equal then
      CompareNumbers(FromBigEndian(a[16..32]), FromBigEndian(b[16..32]))
    else
      higher
  }

  lemma {:induction false} ValueBound(s: seq<Byte>)
    ensures FromBigEndian(s) < Pow256(|s|)
  {
    if s != [] {
      ValueBound(s[..|s| - 1]);
    }
  }

  lemma {:induction false} ValueOfConcat(a: seq<Byte>, b: seq<Byte>)
    ensures FromBigEndian(a + b) == FromBigEndian(a) * Pow256(|b|) + FromBigEndian(b)
  {
    if b == [] {
      assert a + b == a;
    } else {
      var front := b[..|b| - 1];
      ValueOfConcat(a, front);
      assert (a + b)[..|a + b| - 1] == a + front;
      ScaleProduct(FromBigEndian(a), Pow256(|front|));
    }
  }

  lemma ScaleProduct(x: int, y: int)
    ensures 256 * (x * y) == x * (256 * y)
  {
  }

  lemma {:induction false} ValueInjective(a: seq<Byte>, b: seq<Byte>)
    requires |a| == |b| && FromBigEndian(a) == FromBigEndian(b)
    ensures a == b
  {
    if a != [] {
      ValueInjective(a[..|a| - 1], b[..|b| - 1]);
      assert a == a[..|a| - 1] + [a[|a| - 1]] && b == b[..|b| - 1] + [b[|b| - 1]];
    }
  }

  lemma HigherDigitDecides(a1: nat, a0: nat, b1: nat, b0: nat, base: nat)
    requires a0 < base && b0 < base && a1 < b1
    ensures a1 * base + a0 < b1 * base + b0
  {
    MulLe(a1 + 1, b1, base);
    assert (a1 + 1) * base == a1 * base + base;
  }

  /** Comparing high digits first compares the numbers. */
  lemma CompareByDigits(a1: nat, a0: nat, b1: nat, b0: nat, base: nat)
    requires a0 < base && b0 < base
    ensures CompareNumbers(a1 * base + a0, b1 * base + b0) ==
            if a1 == b1 then CompareNumbers(a0, b0) else CompareNumbers(a1, b1)
  {
    if a1 < b1 {
      HigherDigitDecides(a1, a0, b1, b0, base);
    } else if b1 < a1 {
      HigherDigitDecides(b1, b0, a1, a0, base);
    }
  }

  lemma SplitInHalves(a: H256)
    ensures FromBigEndian(a) == FromBigEndian(a[0..16]) * Pow256(16) + FromBigEndian(a[16..32])
    ensures FromBigEndian(a[16..32]) < Pow256(16)
  {
    assert a == a[0..16] + a[16..32];
    ValueOfConcat(a[0..16], a[16..32]);
    ValueBound(a[16..32]);
  }

  /** `cmp` is the order of the big-endian numbers, and it identifies equal hashes. */
  lemma CompareIsNumeric(a: H256, b: H256)
    ensures Compare(a, b) == CompareNumbers(FromBigEndian(a), FromBigEndian(b))
    ensures Compare(a, b) == Equal <==> a == b
  {
    hide FromBigEndian, Pow256;
    SplitInHalves(a);
    SplitInHalves(b);
    CompareByDigits(FromBigEndian(a[0..16]), FromBigEndian(a[16..32]),
                    FromBigEndian(b[0..16]), FromBigEndian(b[16..32]), Pow256(16));
    if FromBigEndian(a) == FromBigEndian(b) {
      ValueInjective(a, b);
    }
  }

  /** The bytes differ first at `i`, and `a` has the smaller one there. */
  ghost predicate BelowAt(a: seq<Byte>, b: seq<Byte>, i: int) {
    0 <= i < |a| == |b| && a[..i] == b[..i] && a[i] < b[i]
  }

  /** The order of the numbers is the order of the bytes, the first one that differs deciding. */
  lemma {:induction false} NumericIsBytewise(a: seq<Byte>, b: seq<Byte>)
    requires |a| == |b|
    ensures FromBigEndian(a) < FromBigEndian(b) <==> exists i :: BelowAt(a, b, i)
  {
    if a != [] {
      var a', b', x, y := a[..|a| - 1], b[..|b| - 1], a[|a| - 1], b[|b| - 1];
      NumericIsBytewise(a', b');
      if FromBigEndian(a') == FromBigEndian(b') {
        ValueInjective(a', b');
        assert x < y ==> BelowAt(a, b, |a| - 1);
      }
      if i :| BelowAt(a', b', i) {
        assert a[..i] == a'[..i] && b[..i] == b'[..i];
        assert BelowAt(a, b, i);
      }
      if i :| BelowAt(a, b, i) {
        if i < |a| - 1 {
          assert a'[..i] == a[..i] && b'[..i] == b[..i];
          assert BelowAt(a', b', i);
        }
      }
    }
  }
}
