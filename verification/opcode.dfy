/** Instruction words: the split of a 16-bit opcode into four nibbles, the
    immediates carried in its low bits, and the decoding of the nibble
    pattern into an instruction (src/cpu.rs, `CPU::execute`). */
module Opcode {
  import opened Bytes
  import opened Outcomes

  /** A 12-bit address immediate `nnn`. */
  type Addr = a: int | 0 <= a < 0x1000

  datatype Nibbles = Nibbles(n0: Nibble, n1: Nibble, n2: Nibble, n3: Nibble)

  /** The opcode whose nibbles, most significant first, are `n`. */
  function Join(n: Nibbles): Word {
    0x1000 * n.n0 + 0x100 * n.n1 + 0x10 * n.n2 + n.n3
  }

  /** The byte operand `kk` held in the last two nibbles. */
  function ByteOf(n: Nibbles): Byte {
    0x10 * n.n2 + n.n3
  }

  /** The address operand `nnn` held in the last three nibbles. */
  function AddrOf(n: Nibbles): Addr {
    0x100 * n.n1 + 0x10 * n.n2 + n.n3
  }

  /** The four nibbles of an opcode, most significant first: each is the
      opcode masked to one hex digit and shifted down. */
  function Split(opcode: Word): (n: Nibbles)
    ensures Join(n) == opcode
  {
    var high3 := opcode / 0x10;
    var high2 := opcode / 0x100;
    var high1 := opcode / 0x1000;
    DivMod16(opcode, high3, opcode % 0x10);
    DivOfDiv16(opcode, 0x10, high2);
    DivMod16(high3, high2, high3 % 0x10);
    DivOfDiv16(opcode, 0x100, high1);
    DivMod16(high2, high1, high2 % 0x10);
    Nibbles(high1, high2 % 0x10, high3 % 0x10, opcode % 0x10)
  }

  /** Dividing by `16 * d` is dividing by `d` and then by 16. */
  lemma DivOfDiv16(a: nat, d: nat, q: nat)
    requires d == 0x10 || d == 0x100
    requires q == a / (0x10 * d)
    ensures q == (a / d) / 0x10
  {
    if d == 0x10 {
      assert a / 0x100 == (a / 0x10) / 0x10;
    } else {
      assert a / 0x1000 == (a / 0x100) / 0x10;
    }
  }

  /** Splitting undoes joining: the nibble split is a bijection. */
  lemma SplitJoin(n: Nibbles)
    ensures Split(Join(n)) == n
  {
    var op := Join(n);
    var high3 := 0x100 * n.n0 + 0x10 * n.n1 + n.n2;
    var high2 := 0x10 * n.n0 + n.n1;
    DivMod16(op, high3, n.n3);
    DivMod16(high3, high2, n.n2);
    DivMod16(high2, n.n0, n.n1);
    assert op / 0x100 == high2;
  }

  lemma DivMod16(a: int, q: int, r: int)
    requires 0 <= r < 0x10 && a == 0x10 * q + r
    ensures a / 0x10 == q && a % 0x10 == r
  {
  }

  /** The low byte `nn`: the opcode masked to its last two hex digits. */
  function LowByte(opcode: Word): (nn: Byte)
    ensures nn == ByteOf(Split(opcode))
  {
    var n := Split(opcode);
    LowByteOf(opcode, 0x10 * n.n0 + n.n1, ByteOf(n));
    opcode % 0x100
  }

  /** The address `nnn`: the opcode masked to its last three hex digits. */
  function LowAddr(opcode: Word): (nnn: Addr)
    ensures nnn == AddrOf(Split(opcode))
    ensures opcode == 0x1000 * Split(opcode).n0 + nnn
  {
    var n := Split(opcode);
    LowAddrOf(opcode, n.n0, AddrOf(n));
    opcode % 0x1000
  }

  lemma LowByteOf(a: int, q: int, r: int)
    requires 0 <= r < 0x100 && a == 0x100 * q + r
    ensures a % 0x100 == r
  {
  }

  lemma LowAddrOf(a: int, q: int, r: int)
    requires 0 <= r < 0x1000 && a == 0x1000 * q + r
    ensures a % 0x1000 == r
  {
  }

  /** The instructions of the machine, named by their assembler mnemonics.
      `x` and `y` are register indices, `kk` a byte, `nnn` an address and
      `n` a sprite height. SHR and SHL keep the `y` field they ignore. */
  datatype Instr =
    | Cls                               // 00E0
    | Ret                               // 00EE
    | Sys(nnn: Addr)                    // 0nnn
    | Jp(nnn: Addr)                     // 1nnn
    | Call(nnn: Addr)                   // 2nnn
    | SeByte(x: Nibble, kk: Byte)       // 3xkk
    | SneByte(x: Nibble, kk: Byte)      // 4xkk
    | SeReg(x: Nibble, y: Nibble)       // 5xy0
    | LdByte(x: Nibble, kk: Byte)       // 6xkk
    | AddByte(x: Nibble, kk: Byte)      // 7xkk
    | LdReg(x: Nibble, y: Nibble)       // 8xy0
    | Or(x: Nibble, y: Nibble)          // 8xy1
    | And(x: Nibble, y: Nibble)         // 8xy2
    | Xor(x: Nibble, y: Nibble)         // 8xy3
    | AddReg(x: Nibble, y: Nibble)      // 8xy4
    | Sub(x: Nibble, y: Nibble)         // 8xy5
    | Shr(x: Nibble, y: Nibble)         // 8xy6
    | Subn(x: Nibble, y: Nibble)        // 8xy7
    | Shl(x: Nibble, y: Nibble)         // 8xyE
    | SneReg(x: Nibble, y: Nibble)      // 9xy0
    | LdI(nnn: Addr)                    // Annn
    | JpV0(nnn: Addr)                   // Bnnn
    | Rnd(x: Nibble, kk: Byte)          // Cxkk
    | Drw(x: Nibble, y: Nibble, n: Nibble) // Dxyn
    | Skp(x: Nibble)                    // Ex9E
    | Sknp(x: Nibble)                   // ExA1
    | LdVxDt(x: Nibble)                 // Fx07
    | LdVxK(x: Nibble)                  // Fx0A
    | LdDtVx(x: Nibble)                 // Fx15
    | LdStVx(x: Nibble)                 // Fx18
    | AddI(x: Nibble)                   // Fx1E
    | LdF(x: Nibble)                    // Fx29
    | LdB(x: Nibble)                    // Fx33
    | LdIVx(x: Nibble)                  // Fx55
    | LdVxI(x: Nibble)                  // Fx65

  /** The nibble patterns tried in order; the first match wins and an
      opcode no pattern matches decodes to `None`. */
  function Decode(opcode: Word): (r: Option<Instr>)
    ensures r.None? <==> Unlisted(Split(opcode))
  {
    LookupRejectsUnlisted(Split(opcode), LowByte(opcode), LowAddr(opcode));
    Lookup(Split(opcode), LowByte(opcode), LowAddr(opcode))
  }

  /** The table itself, given the nibbles and the two immediates. */
  function Lookup(n: Nibbles, nn: Byte, nnn: Addr): Option<Instr> {
    var x, y := n.n1, n.n2;
    match (n.n0, x, y, n.n3)
    case (0x0, 0x0, 0xE, 0x0) => Some(Cls)
    case (0x0, 0x0, 0xE, 0xE) => Some(Ret)
    case (0x0, _, _, _) => Some(Sys(nnn))
    case (0x1, _, _, _) => Some(Jp(nnn))
    case (0x2, _, _, _) => Some(Call(nnn))
    case (0x3, _, _, _) => Some(SeByte(x, nn))
    case (0x4, _, _, _) => Some(SneByte(x, nn))
    case (0x5, _, _, 0x0) => Some(SeReg(x, y))
    case (0x6, _, _, _) => Some(LdByte(x, nn))
    case (0x7, _, _, _) => Some(AddByte(x, nn))
    case (0x8, _, _, 0x0) => Some(LdReg(x, y))
    case (0x8, _, _, 0x1) => Some(Or(x, y))
    case (0x8, _, _, 0x2) => Some(And(x, y))
    case (0x8, _, _, 0x3) => Some(Xor(x, y))
    case (0x8, _, _, 0x4) => Some(AddReg(x, y))
    case (0x8, _, _, 0x5) => Some(Sub(x, y))
    case (0x8, _, _, 0x6) => Some(Shr(x, y))
    case (0x8, _, _, 0x7) => Some(Subn(x, y))
    case (0x8, _, _, 0xE) => Some(Shl(x, y))
    case (0x9, _, _, 0x0) => Some(SneReg(x, y))
    case (0xA, _, _, _) => Some(LdI(nnn))
    case (0xB, _, _, _) => Some(JpV0(nnn))
    case (0xC, _, _, _) => Some(Rnd(x, nn))
    case (0xD, _, _, _) => Some(Drw(x, y, n.n3))
    case (0xE, _, 0x9, 0xE) => Some(Skp(x))
    case (0xE, _, 0xA, 0x1) => Some(Sknp(x))
    case (0xF, _, 0x0, 0x7) => Some(LdVxDt(x))
    case (0xF, _, 0x0, 0xA) => Some(LdVxK(x))
    case (0xF, _, 0x1, 0x5) => Some(LdDtVx(x))
    case (0xF, _, 0x1, 0x8) => Some(LdStVx(x))
    case (0xF, _, 0x1, 0xE) => Some(AddI(x))
    case (0xF, _, 0x2, 0x9) => Some(LdF(x))
    case (0xF, _, 0x3, 0x3) => Some(LdB(x))
    case (0xF, _, 0x5, 0x5) => Some(LdIVx(x))
    case (0xF, _, 0x6, 0x5) => Some(LdVxI(x))
    case _ => None
  }

  /** Decoding the opcode that nibbles `n` make is looking `n` up. */
  lemma DecodeJoin(n: Nibbles)
    ensures Decode(Join(n)) == Lookup(n, ByteOf(n), AddrOf(n))
  {
    SplitJoin(n);
  }

  /** The nibble patterns outside the table, listed by leading nibble:
      5xy_, 8xy_ and 9xy_ with an unused last nibble, and Ex__ and Fx__
      with an unused low byte. */
  predicate Unlisted(n: Nibbles) {
    match n.n0
    case 0x5 => n.n3 != 0x0
    case 0x8 => !(n.n3 <= 0x7 || n.n3 == 0xE)
    case 0x9 => n.n3 != 0x0
    case 0xE => !((n.n2, n.n3) == (0x9, 0xE) || (n.n2, n.n3) == (0xA, 0x1))
    case 0xF =>
      var low := ByteOf(n);
      !(low == 0x07 || low == 0x0A || low == 0x15 || low == 0x18 || low == 0x1E
        || low == 0x29 || low == 0x33 || low == 0x55 || low == 0x65)
    case _ => false
  }

  /** The decoder rejects an opcode exactly when its nibbles are outside
      the table. */
  lemma DecodeRejectsUnlisted(n: Nibbles)
    ensures Decode(Join(n)).None? <==> Unlisted(n)
  {
    SplitJoin(n);
  }

  /** Only the nibbles select a row of the table, so the rows it lacks are
      the same whatever the immediates. */
  lemma LookupRejectsUnlisted(n: Nibbles, nn: Byte, nnn: Addr)
    ensures Lookup(n, nn, nnn).None? <==> Unlisted(n)
  {
  }

  /** The nibbles of an instruction with a 12-bit address operand. */
  function AddrNibbles(n0: Nibble, nnn: Addr): (n: Nibbles)
    ensures AddrOf(n) == nnn
  {
    var high := nnn / 0x10;
    DivMod16(nnn, high, nnn % 0x10);
    DivOfDiv16(nnn, 0x10, nnn / 0x100);
    DivMod16(high, nnn / 0x100, high % 0x10);
    Nibbles(n0, nnn / 0x100, high % 0x10, nnn % 0x10)
  }

  /** The nibbles of an instruction with a register and a byte operand. */
  function ByteNibbles(n0: Nibble, x: Nibble, kk: Byte): (n: Nibbles)
    ensures ByteOf(n) == kk
  {
    Nibbles(n0, x, kk / 0x10, kk % 0x10)
  }

  /** The nibbles the assembler writes for an instruction. */
  function Assemble(ins: Instr): Nibbles {
    match ins
    case Cls => Nibbles(0x0, 0x0, 0xE, 0x0)
    case Ret => Nibbles(0x0, 0x0, 0xE, 0xE)
    case Sys(nnn) => AddrNibbles(0x0, nnn)
    case Jp(nnn) => AddrNibbles(0x1, nnn)
    case Call(nnn) => AddrNibbles(0x2, nnn)
    case SeByte(x, kk) => ByteNibbles(0x3, x, kk)
    case SneByte(x, kk) => ByteNibbles(0x4, x, kk)
    case SeReg(x, y) => Nibbles(0x5, x, y, 0x0)
    case LdByte(x, kk) => ByteNibbles(0x6, x, kk)
    case AddByte(x, kk) => ByteNibbles(0x7, x, kk)
    case LdReg(x, y) => Nibbles(0x8, x, y, 0x0)
    case Or(x, y) => Nibbles(0x8, x, y, 0x1)
    case And(x, y) => Nibbles(0x8, x, y, 0x2)
    case Xor(x, y) => Nibbles(0x8, x, y, 0x3)
    case AddReg(x, y) => Nibbles(0x8, x, y, 0x4)
    case Sub(x, y) => Nibbles(0x8, x, y, 0x5)
    case Shr(x, y) => Nibbles(0x8, x, y, 0x6)
    case Subn(x, y) => Nibbles(0x8, x, y, 0x7)
    case Shl(x, y) => Nibbles(0x8, x, y, 0xE)
    case SneReg(x, y) => Nibbles(0x9, x, y, 0x0)
    case LdI(nnn) => AddrNibbles(0xA, nnn)
    case JpV0(nnn) => AddrNibbles(0xB, nnn)
    case Rnd(x, kk) => ByteNibbles(0xC, x, kk)
    case Drw(x, y, n) => Nibbles(0xD, x, y, n)
    case Skp(x) => Nibbles(0xE, x, 0x9, 0xE)
    case Sknp(x) => Nibbles(0xE, x, 0xA, 0x1)
    case LdVxDt(x) => Nibbles(0xF, x, 0x0, 0x7)
    case LdVxK(x) => Nibbles(0xF, x, 0x0, 0xA)
    case LdDtVx(x) => Nibbles(0xF, x, 0x1, 0x5)
    case LdStVx(x) => Nibbles(0xF, x, 0x1, 0x8)
    case AddI(x) => Nibbles(0xF, x, 0x1, 0xE)
    case LdF(x) => Nibbles(0xF, x, 0x2, 0x9)
    case LdB(x) => Nibbles(0xF, x, 0x3, 0x3)
    case LdIVx(x) => Nibbles(0xF, x, 0x5, 0x5)
    case LdVxI(x) => Nibbles(0xF, x, 0x6, 0x5)
  }

  /** The opcode of an instruction. */
  function Encode(ins: Instr): Word {
    Join(Assemble(ins))
  }

  /** An instruction the decoder can produce: a SYS whose address is 0x0E0
      or 0x0EE is shadowed by CLS and RET, which are matched first. */
  predicate Canonical(ins: Instr) {
    ins.Sys? ==> ins.nnn != 0x0E0 && ins.nnn != 0x0EE
  }

  /** Every canonical instruction survives encoding and decoding. */
  lemma DecodeEncode(ins: Instr)
    requires Canonical(ins)
    ensures Decode(Encode(ins)) == Some(ins)
  {
    SplitJoin(Assemble(ins));
    LookupAssemble(ins);
  }

  /** Every opcode the decoder accepts is the encoding of what it decodes to,
      and that instruction is canonical. */
  lemma EncodeDecode(opcode: Word)
    ensures Decode(opcode).Some? ==> Encode(Decode(opcode).value) == opcode
    ensures Decode(opcode).Some? ==> Canonical(Decode(opcode).value)
  {
    AssembleLookup(Split(opcode));
  }

  /** The table finds every canonical instruction at its own nibbles. */
  lemma LookupAssemble(ins: Instr)
    requires Canonical(ins)
    ensures var n := Assemble(ins);
      Lookup(n, ByteOf(n), AddrOf(n)) == Some(ins)
  {
  }

  /** Whatever the table finds at some nibbles is canonical and assembles
      back to those nibbles. */
  lemma AssembleLookup(n: Nibbles)
    ensures var r := Lookup(n, ByteOf(n), AddrOf(n));
      r.Some? ==> Assemble(r.value) == n && Canonical(r.value)
  {
    ByteNibblesOf(n);
    AddrNibblesOf(n);
    var r := Lookup(n, ByteOf(n), AddrOf(n));
    if r.Some? {
      assert Assemble(r.value) == n;
    }
  }

  lemma ByteNibblesOf(n: Nibbles)
    ensures ByteNibbles(n.n0, n.n1, ByteOf(n)) == n
  {
    DivMod16(0x10 * n.n2 + n.n3, n.n2, n.n3);
  }

  lemma AddrNibblesOf(n: Nibbles)
    ensures AddrNibbles(n.n0, AddrOf(n)) == n
  {
    var high := 0x10 * n.n1 + n.n2;
    DivMod16(0x10 * high + n.n3, high, n.n3);
    DivMod16(high, n.n1, n.n2);
  }
}
