/**
 * Integer widths of the interpreter's storage, and the JavaScript integer
 * operators the interpreter relies on, written out over unbounded integers.
 */
module Words {

  /** An element of a `Uint8Array` (RAM, the registers V): every store keeps it modulo 256. */
  type Byte = b: int | 0 <= b < 0x100

  /** An element of a `Uint16Array` (the call stack). */
  type Word16 = w: int | 0 <= w < 0x1_0000

  /** A four-bit field of an instruction word. */
  type Nibble = n: int | 0 <= n < 0x10

  /** A twelve-bit field of an instruction word. */
  type Addr12 = a: int | 0 <= a < 0x1000

  function Pow2(k: nat): (p: nat)
    ensures p >= 1
  {
    if k == 0 then 1 else 2 * Pow2(k - 1)
  }

  /**
   * JavaScript's `%` truncates toward zero, so a negative dividend gives a
   * non-positive remainder. The sign, the bound and `b` dividing `a - r`
   * together leave exactly one value.
   */
  function JsRem(a: int, b: int): (r: int)
    requires b > 0
    ensures -b < r < b
    ensures a >= 0 ==> 0 <= r
    ensures a <= 0 ==> r <= 0
    ensures (a - r) % b == 0
  {
    RemainderDivides(if a >= 0 then a else -a, b);
    if a >= 0 then a % b else -((-a) % b)
  }

  /** JavaScript's remainder is zero exactly when `b` divides `a`, and agrees with `%` on a non-negative `a`. */
  lemma JsRemZero(a: int, b: int)
    requires b > 0
    ensures JsRem(a, b) == 0 <==> a % b == 0
    ensures a >= 0 ==> JsRem(a, b) == a % b
  {
    var r := JsRem(a, b);
    if a % b == 0 && r != 0 {
      var q, q' := a / b, (a - r) / b;
      assert a == q * b;
      assert a - r == q' * b;
      assert r == (q - q') * b;
      NonzeroMultiple(q - q', b);
    }
    if r == 0 {
      assert a % b == (a - r) % b;
    }
  }

  /** `a - a % b` is a multiple of `b`, and so is its negation. */
  lemma RemainderDivides(a: int, b: int)
    requires b > 0
    ensures (a - a % b) % b == 0 && (a % b - a) % b == 0
  {
    var q := a / b;
    assert a - a % b == q * b;
    assert a % b - a == (-q) * b;
    MultipleRem(q, b);
    MultipleRem(-q, b);
  }

  /** `b` divides every multiple of `b`. */
  lemma MultipleRem(q: int, b: int)
    requires b > 0
    ensures (q * b) % b == 0
  {
    DigitsUnique(q, 0, (q * b) / b, (q * b) % b, b);
  }

  /** Two-digit numerals in base `b` are equal only digit by digit. */
  lemma DigitsUnique(a1: int, a0: int, b1: int, b0: int, b: int)
    requires b > 0 && 0 <= a0 < b && 0 <= b0 < b
    requires a1 * b + a0 == b1 * b + b0
    ensures a1 == b1 && a0 == b0
  {
    NonzeroMultiple(a1 - b1, b);
  }

  /** Dividing by `b` and then by `c` is dividing by `b * c`; the remainder splits the same way. */
  lemma DivModNest(a: nat, b: nat, c: nat)
    requires b > 0 && c > 0
    ensures (a / b) / c == a / (b * c)
    ensures a % (b * c) == b * ((a / b) % c) + a % b
  {
    var q, r := a / b, a % b;
    var q2, r2 := q / c, q % c;
    assert a == b * q + r && q == c * q2 + r2;
    assert a == q2 * (b * c) + (b * r2 + r) by {
      assert b * q == b * (c * q2) + b * r2;
      assert b * (c * q2) == q2 * (b * c);
    }
    assert b * r2 + r < b * c by {
      assert b * r2 <= b * (c - 1);
    }
    DigitsUnique(q2, b * r2 + r, a / (b * c), a % (b * c), b * c);
  }

  /** A nonzero multiple of a positive `b` is at least `b` away from 0. */
  lemma NonzeroMultiple(d: int, b: int)
    requires b > 0
    ensures d > 0 ==> d * b >= b
    ensures d < 0 ==> d * b <= -b
    decreases if d < 0 then -d else d
  {
    if d > 1 {
      NonzeroMultiple(d - 1, b);
      assert d * b == (d - 1) * b + b;
    } else if d < -1 {
      NonzeroMultiple(d + 1, b);
      assert d * b == (d + 1) * b - b;
    }
  }

  datatype BitOp = AndOp | OrOp | XorOp

  function Combine(op: BitOp, p: bool, q: bool): bool
  {
    match op
    case AndOp => p && q
    case OrOp => p || q
    case XorOp => p != q
  }

  /** The bit `a % 2` as a boolean. */
  function Low(a: int): bool
  {
    a % 2 == 1
  }

  /** The `k` low bits of `op` applied bit by bit to `a` and `b`, least significant bit first. */
  function Bitwise(op: BitOp, a: nat, b: nat, k: nat): (r: nat)
    ensures r < Pow2(k)
    decreases k
  {
    if k == 0 then 0
    else (if Combine(op, Low(a), Low(b)) then 1 else 0) + 2 * Bitwise(op, a / 2, b / 2, k - 1)
  }

  /** JavaScript `a & b` on two bytes. */
  function BitAnd(a: Byte, b: Byte): Byte
  {
    Bitwise(AndOp, a, b, 8)
  }

  /** JavaScript `a | b` on two bytes. */
  function BitOr(a: Byte, b: Byte): Byte
  {
    Bitwise(OrOp, a, b, 8)
  }

  /** JavaScript `a ^ b` on two bytes. */
  function BitXor(a: Byte, b: Byte): Byte
  {
    Bitwise(XorOp, a, b, 8)
  }
}
