/** The outcome of a call that may revert; usable with `:-`. */
module Transactions {
  datatype Tx<+T> = Revert | Commit(value: T)
  {
    predicate IsFailure() {
      Revert?
    }

    function PropagateFailure<U>(): Tx<U>
      requires Revert?
    {
      Revert
    }

    function Extract(): T
      requires Commit?
    {
      value
    }
  }

  /** Solidity's `require(condition)`. */
  function Require(condition: bool): Tx<()> {
    if condition then Commit(()) else Revert
  }
}

/** 256-bit machine words: what the EVM's unchecked operators return. */
module Words {
  const TWO_256: nat := 0x1_00000000_00000000_00000000_00000000_00000000_00000000_00000000_00000000
  const TWO_255: int := 0x80000000_00000000_00000000_00000000_00000000_00000000_00000000_00000000
  const MAX_UINT256: uint256 := TWO_256 - 1

  type uint256 = x: int | 0 <= x < TWO_256
  type int256 = x: int | -TWO_255 <= x < TWO_255

  /** `uint256` arithmetic is modulo 2^256. */
  function Wrap(x: int): uint256 {
    x % TWO_256
  }

  /** `int256` arithmetic is two's complement. */
  function WrapSigned(x: int): int256 {
    (x + TWO_255) % TWO_256 - TWO_255
  }

  /** The integer quotient rounded toward zero. */
  function Truncate(a: int, b: int): int
    requires b != 0
  {
    if a >= 0 then a / b else -((-a) / b)
  }

  function Abs(x: int): nat {
    if x < 0 then -x else x
  }

  lemma AbsProduct(a: int, b: int)
    ensures Abs(a * b) == Abs(a) * Abs(b)
  {
    assert (-a) * b == -(a * b) && a * (-b) == -(a * b) && (-a) * (-b) == a * b;
    if a >= 0 && b >= 0 {
      assert a * b >= 0;
    } else if a < 0 && b < 0 {
      assert (-a) * (-b) >= 0;
    } else if a < 0 {
      assert (-a) * b >= 0;
    } else {
      assert a * (-b) >= 0;
    }
  }

  lemma MultipleAtLeast(a: nat, x: nat)
    requires x >= 1
    ensures a * x >= a
  {
    assert a * x == a * (x - 1) + a;
  }

  lemma AtLeastTwice(a: nat, x: nat)
    requires a >= 2
    ensures a * x >= 2 * x
  {
    assert a * x == 2 * x + (a - 2) * x;
  }

  /** Two quotients that both leave less than one divisor over are equal. */
  lemma UniqueQuotient(a: int, b: int, q: int)
    requires a != 0 && Abs(a * b - a * q) < Abs(a)
    ensures b == q
  {
    if b != q {
      assert a * b - a * q == a * (b - q);
      AbsProduct(a, b - q);
      MultipleAtLeast(Abs(a), Abs(b - q));
      assert false;
    }
  }

  /** EVM SDIV: rounds toward zero, and the one quotient that does not fit wraps. */
  function SignedDiv(a: int256, b: int256): int256
    requires b != 0
  {
    WrapSigned(Truncate(a, b))
  }
}

module SafeMathUint256 {
  import opened Transactions
  import opened Words

  /** The guard divides the wrapped product; it accepts exactly the products that fit. */
  function Mul(a: uint256, b: uint256): (r: Tx<uint256>)
    ensures r.Commit? <==> a * b < TWO_256
    ensures r.Commit? ==> r.value == a * b
  {
    WrappedProductDetectsOverflow(a, b);
    var c := Wrap(a * b);
    if a == 0 || c / a == b then Commit(c) else Revert
  }

  function Add(a: uint256, b: uint256): (r: Tx<uint256>)
    ensures r.Commit? <==> a + b < TWO_256
    ensures r.Commit? ==> r.value == a + b
  {
    var c := Wrap(a + b);
    if c >= a then Commit(c) else Revert
  }

  function Sub(a: uint256, b: uint256): (r: Tx<uint256>)
    ensures r.Commit? <==> b <= a
    ensures r.Commit? ==> r.value == a - b
  {
    if b <= a then Commit(Wrap(a - b)) else Revert
  }

  function IsMultipleOf(a: uint256, b: uint256): bool
    requires b != 0
  {
    a % b == 0
  }

  lemma WrappedProductDetectsOverflow(a: uint256, b: uint256)
    ensures a != 0 ==> (Wrap(a * b) / a == b <==> a * b < TWO_256)
    ensures 0 <= a * b
  {
    if a != 0 {
      var c := Wrap(a * b);
      var k := (a * b) / TWO_256;
      assert c == a * b - k * TWO_256;
      if a * b < TWO_256 {
        UniqueQuotient(a, b, c / a);
      }
    }
  }
}

module SafeMathInt256 {
  import opened Transactions
  import opened Words

  predicate Fits(x: int) {
    -TWO_255 <= x < TWO_255
  }

  function Mul(a: int256, b: int256): Tx<int256> {
    var c := WrapSigned(a * b);
    if a == 0 || SignedDiv(c, a) == b then Commit(c) else Revert
  }

  function Sub(a: int256, b: int256): (r: Tx<int256>)
    ensures r.Commit? <==> Fits(a - b)
    ensures r.Commit? ==> r.value == a - b
  {
    if (a >= 0 && b >= WrapSigned(a - (TWO_255 - 1))) || (a < 0 && b <= WrapSigned(a - (-TWO_255)))
    then Commit(WrapSigned(a - b)) else Revert
  }

  function Add(a: int256, b: int256): (r: Tx<int256>)
    ensures r.Commit? <==> Fits(a + b)
    ensures r.Commit? ==> r.value == a + b
  {
    if (a >= 0 && b <= WrapSigned((TWO_255 - 1) - a)) || (a < 0 && b >= WrapSigned((-TWO_255) - a))
    then Commit(WrapSigned(a + b)) else Revert
  }

  lemma NatRemainder(c: nat, a: int)
    requires a != 0
    ensures 0 <= a * (c / a) <= c
    ensures c - a * (c / a) < Abs(a)
  {
    var d := c / a;
    assert c == a * d + c % a;
    if a * d < 0 {
      AbsProduct(a, d);
      MultipleAtLeast(Abs(a), Abs(d));
      assert false;
    }
  }

  /** Truncated division leaves less than one divisor over. */
  lemma TruncateRemainder(c: int, a: int)
    requires a != 0
    ensures Abs(c - a * Truncate(c, a)) < Abs(a)
    ensures Abs(a * Truncate(c, a)) <= Abs(c)
  {
    NatRemainder(Abs(c), a);
    if c < 0 {
      var d := (-c) / a;
      assert a * (-d) == -(a * d);
    }
  }

  lemma FittingProductAccepted(a: int256, b: int256)
    requires Fits(a * b)
    ensures Mul(a, b) == Commit(a * b)
  {
    hide Truncate, WrapSigned;
    var c: int := a * b;
    FittingStays(c);
    if a != 0 {
      TruncateRemainder(c, a);
      UniqueQuotient(a, b, Truncate(c, a));
      FittingStays(b);
    }
  }

  lemma FittingStays(x: int)
    requires Fits(x)
    ensures WrapSigned(x) == x
  {
  }

  lemma AcceptedProductFits(a: int256, b: int256)
    requires a != 0 && Mul(a, b).Commit?
    ensures Fits(a * b) || (a == -1 && b == -TWO_255)
  {
    var c := WrapSigned(a * b);
    QuotientFitsUnlessMinimum(c, a);
    TruncateRemainder(c, a);
    hide Truncate;
    if Fits(Truncate(c, a)) {
      assert Truncate(c, a) == b;
    }
  }

  /** int256 multiplication is exact, but for the single pair (-1, INT256_MIN). */
  lemma MulExactExceptMinusOneMin(a: int256, b: int256)
    ensures Mul(a, b).Commit? <==> Fits(a * b) || (a == -1 && b == -TWO_255)
    ensures Fits(a * b) ==> Mul(a, b) == Commit(a * b)
  {
    if Fits(a * b) {
      FittingProductAccepted(a, b);
    } else if Mul(a, b).Commit? {
      AcceptedProductFits(a, b);
    } else if a == -1 && b == -TWO_255 {
      MulFalseAccept();
    }
  }

  /** Only INT256_MIN / -1 has a quotient that does not fit. */
  lemma QuotientFitsUnlessMinimum(c: int, a: int)
    requires a != 0 && Fits(c)
    ensures Fits(Truncate(c, a)) || (c == -TWO_255 && a == -1)
  {
    TruncateRemainder(c, a);
    var q := Truncate(c, a);
    if a == -1 {
      assert q == -c;
    } else if a == 1 {
      assert q == c;
    } else {
      AbsProduct(a, q);
      AtLeastTwice(Abs(a), Abs(q));
    }
  }

  /** The false accept: the guard lets the wrapped product of -1 and INT256_MIN through. */
  lemma MulFalseAccept()
    ensures Mul(-1, -TWO_255) == Commit(-TWO_255)
    ensures -1 * -TWO_255 != -TWO_255
  {
    assert SignedDiv(-TWO_255, -1) == -TWO_255;
  }
}
