/** Fixed-width unsigned integers of the interpreter (`u8`, 4-bit fields, `u16`)
    and the bitwise operators it applies to bytes. The bitwise operators are
    defined bit by bit on integers, least-significant bit first. */
module Bytes {

  /** An unsigned 8-bit value (`u8`). */
  type Byte = b: int | 0 <= b < 0x100

  /** A 4-bit field of an opcode; also a register or key index. */
  type Nibble = n: int | 0 <= n < 0x10

  /** An unsigned 16-bit value (`u16`). */
  type Word = w: int | 0 <= w < 0x1_0000

  function Pow2(k: nat): (r: nat)
    ensures r >= 1
  {
    if k == 0 then 1 else 2 * Pow2(k - 1)
  }

  datatype BitOp = OrOp | AndOp | XorOp

  function Combine(op: BitOp, p: bool, q: bool): bool {
    match op
    case OrOp => p || q
    case AndOp => p && q
    case XorOp => p != q
  }

  /** The low `width` bits of `a` and `b` combined pairwise by `op`. */
  function Bitwise(op: BitOp, a: nat, b: nat, width: nat): (r: nat)
    ensures r < Pow2(width)
    decreases width
  {
    if width == 0 then 0
    else (if Combine(op, a % 2 == 1, b % 2 == 1) then 1 else 0) + 2 * Bitwise(op, a / 2, b / 2, width - 1)
  }

  /** The bitwise OR of two bytes. */
  function BitOr(a: Byte, b: Byte): Byte {
    Bitwise(OrOp, a, b, 8)
  }

  /** The bitwise AND of two bytes. */
  function BitAnd(a: Byte, b: Byte): Byte {
    Bitwise(AndOp, a, b, 8)
  }

  /** The bitwise exclusive OR of two bytes. */
  function BitXor(a: Byte, b: Byte): Byte {
    Bitwise(XorOp, a, b, 8)
  }

  /** Bit `k` of `b`, counting from the least-significant bit. */
  predicate Bit(b: Byte, k: nat)
    requires k < 8
  {
    (b / Pow2(k)) % 2 == 1
  }

  lemma {:induction false} BitwiseCommutes(op: BitOp, a: nat, b: nat, width: nat)
    ensures Bitwise(op, a, b, width) == Bitwise(op, b, a, width)
    decreases width
  {
    if width > 0 {
      BitwiseCommutes(op, a / 2, b / 2, width - 1);
    }
  }

  /** Masking a second time by `b` changes nothing: `a & b` has no bit outside `b`. */
  lemma {:induction false} AndKeepsMask(a: nat, b: nat, width: nat)
    ensures Bitwise(AndOp, Bitwise(AndOp, a, b, width), b, width) == Bitwise(AndOp, a, b, width)
    ensures Bitwise(AndOp, a, b, width) <= b
    decreases width
  {
    if width > 0 {
      AndKeepsMask(a / 2, b / 2, width - 1);
    }
  }

  /** Every bit of `a` survives in `a | b`. */
  lemma {:induction false} OrAbsorbs(a: nat, b: nat, width: nat)
    requires a < Pow2(width)
    ensures Bitwise(AndOp, Bitwise(OrOp, a, b, width), a, width) == a
    decreases width
  {
    if width > 0 {
      OrAbsorbs(a / 2, b / 2, width - 1);
    }
  }

  /** XOR with the same operand twice is the identity. */
  lemma {:induction false} XorInverse(a: nat, b: nat, width: nat)
    requires a < Pow2(width)
    ensures Bitwise(XorOp, Bitwise(XorOp, a, b, width), b, width) == a
    decreases width
  {
    if width > 0 {
      XorInverse(a / 2, b / 2, width - 1);
    }
  }

  /** `a & b` has no bit outside either operand. */
  lemma AndMasks(a: Byte, b: Byte)
    ensures BitAnd(BitAnd(a, b), a) == BitAnd(a, b)
    ensures BitAnd(BitAnd(a, b), b) == BitAnd(a, b)
    ensures BitAnd(a, b) <= a && BitAnd(a, b) <= b
  {
    var r := BitAnd(a, b);
    AndKeepsMask(a, b, 8);
    AndKeepsMask(b, a, 8);
    BitwiseCommutes(AndOp, a, b, 8);
    assert r == Bitwise(AndOp, b, a, 8);
    assert BitAnd(r, a) == Bitwise(AndOp, Bitwise(AndOp, b, a, 8), a, 8);
  }

  /** Every bit of either operand is set in `a | b`. */
  lemma OrKeepsBits(a: Byte, b: Byte)
    ensures BitAnd(BitOr(a, b), a) == a
    ensures BitAnd(BitOr(a, b), b) == b
  {
    var r := BitOr(a, b);
    OrAbsorbs(a, b, 8);
    OrAbsorbs(b, a, 8);
    BitwiseCommutes(OrOp, a, b, 8);
    assert r == Bitwise(OrOp, b, a, 8);
    assert BitAnd(r, b) == Bitwise(AndOp, Bitwise(OrOp, b, a, 8), b, 8);
  }

  /** XOR with `b` undoes XOR with `b`. */
  lemma XorTwice(a: Byte, b: Byte)
    ensures BitXor(BitXor(a, b), b) == a
  {
    XorInverse(a, b, 8);
  }
}
