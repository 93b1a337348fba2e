/** The interpreter proper (src/cpu.rs): memory, registers, the call stack,
    the key-wait state, and one step of fetch, decode and execute. Every
    operation is a pure function from a machine to a machine; conditions
    the Rust interpreter aborts on are `Err` results. The random byte of
    RND is a parameter. */
module Cpu {
  import opened Bytes
  import opened Outcomes
  import opened Opcode
  import Video
  import Input
  import Audio
  import Sprite

  const OPCODE_LENGTH: nat := 2
  const SPRITE_LENGTH: nat := 5
  const RAM_SIZE: nat := 4096
  const ROM_SIZE: nat := 3584
  const PROGRAM_START: nat := 0x200

  /** The flag register. */
  const VF: Nibble := 0xF

  type Ram = s: seq<Byte> | |s| == RAM_SIZE witness seq(4096, _ => 0)
  type Registers = s: seq<Byte> | |s| == 16 witness seq(16, _ => 0)
  type Stack = s: seq<nat> | |s| == 16 witness seq(16, _ => 0)
  type StackPointer = sp: int | 0 <= sp <= 16

  /** `pc` is an unbounded address: a jump with offset may carry it past the
      end of memory. `keyRegister` is the register a pending key wait will
      fill. */
  datatype Machine = Machine(
    ram: Ram,
    pc: nat,
    v: Registers,
    i: Word,
    stack: Stack,
    sp: StackPointer,
    keypad: Input.Keypad,
    keyRegister: Option<Nibble>,
    timers: Audio.Timers,
    display: Video.Display)

  // ---------------------------------------------------------------------
  // Construction

  /** `bytes` written into `ram` from address `at` on. */
  function Blit(ram: Ram, at: nat, bytes: seq<Byte>): (r: Ram)
    requires at + |bytes| <= RAM_SIZE
    ensures forall k :: 0 <= k < |bytes| ==> r[at + k] == bytes[k]
    ensures forall a :: 0 <= a < RAM_SIZE && !(at <= a < at + |bytes|) ==> r[a] == ram[a]
  {
    ram[..at] + bytes + ram[at + |bytes|..]
  }

  /** The program buffer: the first ROM_SIZE bytes of the image, padded with
      zeros; the rest of a longer image is dropped. */
  function RomBuffer(image: seq<Byte>): (b: seq<Byte>)
    ensures |b| == ROM_SIZE
    ensures forall k :: 0 <= k < ROM_SIZE ==> b[k] == (if k < |image| then image[k] else 0)
  {
    if |image| >= ROM_SIZE then image[..ROM_SIZE] else image + seq(ROM_SIZE - |image|, _ => 0)
  }

  /** Initial memory: the font at address 0 and the program buffer at
      PROGRAM_START, which it fills to the end of memory. */
  function InitialRam(image: seq<Byte>): (ram: Ram)
    ensures forall a :: 0 <= a < |Video.FONT_SET| ==> ram[a] == Video.FONT_SET[a]
    ensures forall a :: |Video.FONT_SET| <= a < PROGRAM_START ==> ram[a] == 0
    ensures forall k :: 0 <= k < |image| && k < ROM_SIZE ==> ram[PROGRAM_START + k] == image[k]
    ensures forall a :: PROGRAM_START + |image| <= a < RAM_SIZE ==> ram[a] == 0
  {
    var withFont := Blit(seq(RAM_SIZE, _ => 0), 0, Video.FONT_SET);
    assert PROGRAM_START + ROM_SIZE == RAM_SIZE;
    Blit(withFont, PROGRAM_START, RomBuffer(image))
  }

  /** A machine with `image` loaded, ready to run it from PROGRAM_START. */
  function New(image: seq<Byte>): (m: Machine)
    ensures m.ram == InitialRam(image)
    ensures m.pc == PROGRAM_START && m.i == 0 && m.sp == 0
    ensures forall r :: 0 <= r < 16 ==> m.v[r] == 0 && m.stack[r] == 0
    ensures m.keyRegister.None?
    ensures m.timers.delay == 0 && m.timers.sound == 0
    ensures Video.Dark(m.display.cells) && !m.display.update
    ensures m.keypad.lastReleased.None? && forall k :: 0 <= k < 16 ==> !m.keypad.pressed[k]
  {
    Machine(
      InitialRam(image), PROGRAM_START, seq(16, _ => 0), 0, seq(16, _ => 0), 0,
      Input.New(), None, Audio.New(), Video.New())
  }

  // ---------------------------------------------------------------------
  // Fetch and the program counter

  /** The big-endian instruction word at `pc`. */
  function Fetch(ram: Ram, pc: nat): (r: Result<Word>)
    ensures r.Ok? <==> pc + 1 < RAM_SIZE
    ensures r.Err? ==> r.fault == FetchOutOfRange(pc)
    ensures r.Ok? ==> r.value / 0x100 == ram[pc] && r.value % 0x100 == ram[pc + 1]
  {
    if pc + 1 < RAM_SIZE then Ok(ram[pc] as int * 0x100 + ram[pc + 1]) else Err(FetchOutOfRange(pc))
  }

  /** Moves to the next instruction: a skip whose condition fails. */
  function Next(m: Machine): (r: Machine)
    ensures Skipped(m, r, false)
  {
    m.(pc := m.pc + OPCODE_LENGTH)
  }

  /** Moves over the next instruction when `condition` holds. */
  function SkipIf(m: Machine, condition: bool): (r: Machine)
    ensures Skipped(m, r, condition)
  {
    m.(pc := m.pc + if condition then 2 * OPCODE_LENGTH else OPCODE_LENGTH)
  }

  /** `r` is `m` with only the program counter moved: over the next
      instruction when `condition` holds, to the next one otherwise. */
  predicate Skipped(m: Machine, r: Machine, condition: bool) {
    && r == m.(pc := r.pc)
    && (condition ==> r.pc == m.pc + 2 * OPCODE_LENGTH)
    && (!condition ==> r.pc == m.pc + OPCODE_LENGTH)
  }

  /** Registers other than `x` and `y` agree. */
  predicate OthersKept(a: Registers, b: Registers, x: Nibble, y: Nibble) {
    forall j :: 0 <= j < 16 && j != x && j != y ==> b[j] == a[j]
  }

  /** `r` is `m` with the registers replaced and the program counter advanced. */
  predicate RegistersOnly(m: Machine, r: Machine) {
    r == m.(v := r.v, pc := m.pc + OPCODE_LENGTH)
  }

  // ---------------------------------------------------------------------
  // Flow control

  /** 0nnn, SYS: the machine-code routine is ignored. */
  function OpSys(m: Machine, nnn: Addr): (r: Machine)
    ensures r == m.(pc := m.pc + OPCODE_LENGTH)
  {
    Next(m)
  }

  /** 00E0, CLS. */
  function OpCls(m: Machine): (r: Machine)
    ensures Video.Dark(r.display.cells) && r.display.update
    ensures r == m.(display := r.display, pc := m.pc + OPCODE_LENGTH)
  {
    Next(m.(display := Video.Clear(m.display)))
  }

  /** 00EE, RET: pops the return address; an empty stack is a fault. */
  function OpRet(m: Machine): (r: Result<Machine>)
    ensures r.Err? <==> m.sp == 0
    ensures r.Err? ==> r.fault == StackUnderflow
    ensures r.Ok? ==> r.value == m.(sp := m.sp - 1, pc := m.stack[m.sp - 1])
  {
    if m.sp == 0 then Err(StackUnderflow)
    else
      var sp := m.sp - 1;
      Ok(m.(sp := sp, pc := m.stack[sp]))
  }

  /** 1nnn, JP. */
  function OpJp(m: Machine, nnn: Addr): (r: Machine)
    ensures r == m.(pc := nnn)
  {
    m.(pc := nnn)
  }

  /** 2nnn, CALL: pushes the address of the next instruction and jumps; a
      full stack is a fault. */
  function OpCall(m: Machine, nnn: Addr): (r: Result<Machine>)
    ensures r.Err? <==> m.sp == 16
    ensures r.Err? ==> r.fault == StackOverflow
    ensures r.Ok? ==> && r.value.pc == nnn
                      && r.value.sp == m.sp + 1
                      && r.value.stack[m.sp] == m.pc + OPCODE_LENGTH
                      && (forall j :: 0 <= j < 16 && j != m.sp ==> r.value.stack[j] == m.stack[j])
                      && r.value == m.(pc := nnn, sp := m.sp + 1, stack := r.value.stack)
  {
    if m.sp == 16 then Err(StackOverflow)
    else
      var stack := m.stack[m.sp := m.pc + OPCODE_LENGTH];
      Ok(m.(stack := stack, sp := m.sp + 1, pc := nnn))
  }

  /** 3xkk, SE Vx, byte. */
  function OpSeByte(m: Machine, x: Nibble, kk: Byte): (r: Machine)
    ensures Skipped(m, r, m.v[x] == kk)
  {
    SkipIf(m, m.v[x] == kk)
  }

  /** 4xkk, SNE Vx, byte. */
  function OpSneByte(m: Machine, x: Nibble, kk: Byte): (r: Machine)
    ensures Skipped(m, r, m.v[x] != kk)
  {
    SkipIf(m, m.v[x] != kk)
  }

  /** 5xy0, SE Vx, Vy. */
  function OpSeReg(m: Machine, x: Nibble, y: Nibble): (r: Machine)
    ensures Skipped(m, r, m.v[x] == m.v[y])
  {
    SkipIf(m, m.v[x] == m.v[y])
  }

  /** 9xy0, SNE Vx, Vy. */
  function OpSneReg(m: Machine, x: Nibble, y: Nibble): (r: Machine)
    ensures Skipped(m, r, m.v[x] != m.v[y])
  {
    SkipIf(m, m.v[x] != m.v[y])
  }

  /** Bnnn, JP V0, addr: the target is not reduced to twelve bits. */
  function OpJpV0(m: Machine, nnn: Addr): (r: Machine)
    ensures r == m.(pc := nnn + m.v[0])
    ensures r.pc <= 0xFFF + 0xFF
  {
    m.(pc := nnn + m.v[0x0])
  }

  // ---------------------------------------------------------------------
  // Register arithmetic

  /** 6xkk, LD Vx, byte. */
  function OpLdByte(m: Machine, x: Nibble, kk: Byte): (r: Machine)
    ensures r.v[x] == kk && OthersKept(m.v, r.v, x, x) && RegistersOnly(m, r)
  {
    Next(m.(v := m.v[x := kk]))
  }

  /** 7xkk, ADD Vx, byte: wraps around, leaves VF alone. */
  function OpAddByte(m: Machine, x: Nibble, kk: Byte): (r: Machine)
    ensures (r.v[x] as int - m.v[x] - kk) % 0x100 == 0
    ensures m.v[x] + kk < 0x100 ==> r.v[x] == m.v[x] + kk
    ensures OthersKept(m.v, r.v, x, x) && RegistersOnly(m, r)
  {
    Next(m.(v := m.v[x := (m.v[x] as int + kk) % 0x100]))
  }

  /** 8xy0, LD Vx, Vy. */
  function OpLdReg(m: Machine, x: Nibble, y: Nibble): (r: Machine)
    ensures r.v[x] == m.v[y] && OthersKept(m.v, r.v, x, x) && RegistersOnly(m, r)
  {
    Next(m.(v := m.v[x := m.v[y]]))
  }

  /** 8xy1, OR Vx, Vy: every bit set in either operand is set in Vx. */
  function OpOr(m: Machine, x: Nibble, y: Nibble): (r: Machine)
    ensures r.v[x] == BitOr(m.v[x], m.v[y])
    ensures BitAnd(r.v[x], m.v[x]) == m.v[x] && BitAnd(r.v[x], m.v[y]) == m.v[y]
    ensures OthersKept(m.v, r.v, x, x) && RegistersOnly(m, r)
  {
    var a, b := m.v[x], m.v[y];
    var c := BitOr(a, b);
    OrKeepsBits(a, b);
    var v := m.v[x := c];
    assert v[x] == c;
    Next(m.(v := v))
  }

  /** 8xy2, AND Vx, Vy: Vx keeps no bit outside either operand. */
  function OpAnd(m: Machine, x: Nibble, y: Nibble): (r: Machine)
    ensures r.v[x] == BitAnd(m.v[x], m.v[y])
    ensures BitAnd(r.v[x], m.v[x]) == r.v[x] && BitAnd(r.v[x], m.v[y]) == r.v[x]
    ensures OthersKept(m.v, r.v, x, x) && RegistersOnly(m, r)
  {
    var a, b := m.v[x], m.v[y];
    var c := BitAnd(a, b);
    AndMasks(a, b);
    var v := m.v[x := c];
    assert v[x] == c;
    Next(m.(v := v))
  }

  /** 8xy3, XOR Vx, Vy: XOR with Vy again gives back the old Vx. */
  function OpXor(m: Machine, x: Nibble, y: Nibble): (r: Machine)
    ensures r.v[x] == BitXor(m.v[x], m.v[y])
    ensures x != y ==> BitXor(r.v[x], m.v[y]) == m.v[x]
    ensures OthersKept(m.v, r.v, x, x) && RegistersOnly(m, r)
  {
    var a, b := m.v[x], m.v[y];
    var c := BitXor(a, b);
    XorTwice(a, b);
    var v := m.v[x := c];
    assert v[x] == c;
    Next(m.(v := v))
  }

  /** 8xy4, ADD Vx, Vy: VF is the carry out of bit 7 and is written last,
      so it is what VF holds even when x is F. */
  function OpAddReg(m: Machine, x: Nibble, y: Nibble): (r: Machine)
    ensures r.v[VF] == (if m.v[x] as int + m.v[y] > 0xFF then 1 else 0)
    ensures x != VF ==> r.v[x] as int + 0x100 * (r.v[VF] as int) == m.v[x] as int + m.v[y]
    ensures OthersKept(m.v, r.v, x, VF) && RegistersOnly(m, r)
  {
    var sum: int := m.v[x] as int + m.v[y];
    var v := m.v[x := sum % 0x100];
    Next(m.(v := v[VF := if sum > 0xFF then 1 else 0]))
  }

  /** 8xy5, SUB Vx, Vy: VF is 1 exactly when Vx > Vy, and is written before
      the difference, so when x is F the difference is what remains. */
  function OpSub(m: Machine, x: Nibble, y: Nibble): (r: Machine)
    ensures x != VF ==> r.v[VF] == (if m.v[x] > m.v[y] then 1 else 0)
    ensures (r.v[x] as int + m.v[y]) % 0x100 == m.v[x]
    ensures m.v[x] >= m.v[y] ==> r.v[x] == m.v[x] - m.v[y]
    ensures OthersKept(m.v, r.v, x, VF) && RegistersOnly(m, r)
  {
    var a, b := m.v[x], m.v[y];
    var v := m.v[VF := if a > b then 1 else 0];
    Next(m.(v := v[x := (a as int - b) % 0x100]))
  }

  /** 8xy6, SHR Vx: VF is the bit shifted out; Vy plays no part. */
  function OpShr(m: Machine, x: Nibble, y: Nibble): (r: Machine)
    ensures x != VF ==> r.v[VF] == m.v[x] % 2
    ensures 2 * r.v[x] as int + m.v[x] % 2 == m.v[x]
    ensures OthersKept(m.v, r.v, x, VF) && RegistersOnly(m, r)
  {
    var a := m.v[x];
    var v := m.v[VF := a % 2];
    Next(m.(v := v[x := a / 2]))
  }

  /** 8xy7, SUBN Vx, Vy: Vx = Vy - Vx, VF is 1 exactly when Vy > Vx, and
      is written before the difference. */
  function OpSubn(m: Machine, x: Nibble, y: Nibble): (r: Machine)
    ensures x != VF ==> r.v[VF] == (if m.v[y] > m.v[x] then 1 else 0)
    ensures (r.v[x] as int + m.v[x]) % 0x100 == m.v[y]
    ensures m.v[y] >= m.v[x] ==> r.v[x] == m.v[y] - m.v[x]
    ensures OthersKept(m.v, r.v, x, VF) && RegistersOnly(m, r)
  {
    var a, b := m.v[x], m.v[y];
    var v := m.v[VF := if b > a then 1 else 0];
    Next(m.(v := v[x := (b as int - a) % 0x100]))
  }

  /** 8xyE, SHL Vx: VF is the bit shifted out of bit 7; Vy plays no part. */
  function OpShl(m: Machine, x: Nibble, y: Nibble): (r: Machine)
    ensures x != VF ==> r.v[VF] == m.v[x] / 0x80
    ensures r.v[x] as int + 0x100 * (m.v[x] as int / 0x80) == 2 * m.v[x] as int
    ensures OthersKept(m.v, r.v, x, VF) && RegistersOnly(m, r)
  {
    var a := m.v[x];
    var v := m.v[VF := a / 0x80];
    Next(m.(v := v[x := (2 * a as int) % 0x100]))
  }

  /** Cxkk, RND Vx, byte: `random` is the generated byte; the result has
      no bit outside the mask `kk`. */
  function OpRnd(m: Machine, x: Nibble, kk: Byte, random: Byte): (r: Machine)
    ensures r.v[x] == BitAnd(random, kk)
    ensures r.v[x] <= kk && BitAnd(r.v[x], kk) == r.v[x]
    ensures OthersKept(m.v, r.v, x, x) && RegistersOnly(m, r)
  {
    var c := BitAnd(random, kk);
    AndMasks(random, kk);
    var v := m.v[x := c];
    assert v[x] == c;
    Next(m.(v := v))
  }

  // ---------------------------------------------------------------------
  // Index register and memory

  /** Annn, LD I, addr. */
  function OpLdI(m: Machine, nnn: Addr): (r: Machine)
    ensures r == m.(i := nnn, pc := m.pc + OPCODE_LENGTH)
  {
    Next(m.(i := nnn))
  }

  /** Fx1E, ADD I, Vx: a sum beyond sixteen bits is a fault; VF is untouched. */
  function OpAddI(m: Machine, x: Nibble): (r: Result<Machine>)
    ensures r.Err? <==> m.i as int + m.v[x] > 0xFFFF
    ensures r.Err? ==> r.fault == IndexOverflow
    ensures r.Ok? ==> r.value == m.(i := m.i as int + m.v[x], pc := m.pc + OPCODE_LENGTH)
  {
    var sum: int := m.i as int + m.v[x];
    if sum > 0xFFFF then Err(IndexOverflow) else Ok(Next(m.(i := sum)))
  }

  /** Fx29, LD F, Vx: I addresses the font glyph of digit Vx, which lies
      inside the font when Vx is a digit. */
  function OpLdF(m: Machine, x: Nibble): (r: Machine)
    ensures r.i == SPRITE_LENGTH * m.v[x] as int
    ensures m.v[x] < 16 ==> r.i + SPRITE_LENGTH <= |Video.FONT_SET|
    ensures r == m.(i := r.i, pc := m.pc + OPCODE_LENGTH)
  {
    Next(m.(i := m.v[x] as int * SPRITE_LENGTH))
  }

  /** Fx33, LD B, Vx: the three decimal digits of Vx, most significant
      first, at I, I+1 and I+2; memory past the end is a fault. */
  function OpLdB(m: Machine, x: Nibble): (r: Result<Machine>)
    ensures r.Err? <==> m.i + 2 >= RAM_SIZE
    ensures r.Err? ==> r.fault == RamOutOfRange(m.i, 3)
    ensures r.Ok? ==> var ram := r.value.ram;
      && ram[m.i] <= 9 && ram[m.i + 1] <= 9 && ram[m.i + 2] <= 9
      && 100 * ram[m.i] as int + 10 * ram[m.i + 1] as int + ram[m.i + 2] == m.v[x]
      && (forall a :: 0 <= a < RAM_SIZE && !(m.i <= a <= m.i + 2) ==> ram[a] == m.ram[a])
      && r.value == m.(ram := ram, pc := m.pc + OPCODE_LENGTH)
  {
    if m.i + 2 >= RAM_SIZE then Err(RamOutOfRange(m.i, 3))
    else
      var vx := m.v[x];
      var ram := m.ram[m.i := vx / 100][m.i + 1 := (vx % 100) / 10][m.i + 2 := vx % 10];
      Ok(Next(m.(ram := ram)))
  }

  /** The writes `ram[i + vi] = v[vi]` for `vi` from `vi` up to `x`, in order. */
  function StoreRegisters(ram: Ram, i: nat, v: Registers, vi: nat, x: Nibble): (r: Ram)
    requires i + x < RAM_SIZE && vi <= x + 1
    ensures forall k :: vi <= k <= x ==> r[i + k] == v[k]
    ensures forall a :: 0 <= a < RAM_SIZE && !(i + vi <= a <= i + x) ==> r[a] == ram[a]
    decreases x + 1 - vi
  {
    if vi > x then ram else StoreRegisters(ram[i + vi := v[vi]], i, v, vi + 1, x)
  }

  /** The reads `v[vi] = ram[i + vi]` for `vi` from `vi` up to `x`, in order. */
  function LoadRegisters(v: Registers, ram: Ram, i: nat, vi: nat, x: Nibble): (r: Registers)
    requires i + x < RAM_SIZE && vi <= x + 1
    ensures forall k :: vi <= k <= x ==> r[k] == ram[i + k]
    ensures forall k :: 0 <= k < 16 && !(vi <= k <= x) ==> r[k] == v[k]
    decreases x + 1 - vi
  {
    if vi > x then v else LoadRegisters(v[vi := ram[i + vi]], ram, i, vi + 1, x)
  }

  /** Fx55, LD [I], Vx: V0 to Vx inclusive to memory from I on; I is not
      changed and memory past the end is a fault. */
  function OpLdIVx(m: Machine, x: Nibble): (r: Result<Machine>)
    ensures r.Err? <==> m.i + x >= RAM_SIZE
    ensures r.Err? ==> r.fault == RamOutOfRange(m.i, x + 1)
    ensures r.Ok? ==> && (forall k :: 0 <= k <= x ==> r.value.ram[m.i + k] == m.v[k])
                      && (forall a :: 0 <= a < RAM_SIZE && !(m.i <= a <= m.i + x) ==> r.value.ram[a] == m.ram[a])
                      && r.value == m.(ram := r.value.ram, pc := m.pc + OPCODE_LENGTH)
  {
    if m.i + x >= RAM_SIZE then Err(RamOutOfRange(m.i, x + 1))
    else Ok(Next(m.(ram := StoreRegisters(m.ram, m.i, m.v, 0, x))))
  }

  /** Fx65, LD Vx, [I]: V0 to Vx inclusive from memory at I on; registers
      above x and I are not changed, and memory past the end is a fault. */
  function OpLdVxI(m: Machine, x: Nibble): (r: Result<Machine>)
    ensures r.Err? <==> m.i + x >= RAM_SIZE
    ensures r.Err? ==> r.fault == RamOutOfRange(m.i, x + 1)
    ensures r.Ok? ==> && (forall k :: 0 <= k <= x ==> r.value.v[k] == m.ram[m.i + k])
                      && (forall k :: x < k < 16 ==> r.value.v[k] == m.v[k])
                      && RegistersOnly(m, r.value)
  {
    if m.i + x >= RAM_SIZE then Err(RamOutOfRange(m.i, x + 1))
    else Ok(Next(m.(v := LoadRegisters(m.v, m.ram, m.i, 0, x))))
  }

  // ---------------------------------------------------------------------
  // Sprites

  /** Dxyn, DRW Vx, Vy, n: XORs the n-byte sprite at I onto the display at
      (Vx, Vy), wrapping at the edges; VF records whether a lit pixel was
      switched off. A sprite reaching past the end of memory is a fault. */
  function OpDrw(m: Machine, x: Nibble, y: Nibble, n: Nibble): (r: Result<Machine>)
    ensures r.Err? <==> n > 0 && m.i + n > RAM_SIZE
    ensures r.Err? ==> r.fault == RamOutOfRange(m.i, n)
    ensures r.Ok? ==> forall cy, cx :: 0 <= cy < Video.HEIGHT && 0 <= cx < Video.WIDTH ==>
      r.value.display.cells[cy][cx] == (m.display.cells[cy][cx] != Sprite.Flips(m.ram, m.i, n, m.v[x], m.v[y], 0, cx, cy))
    ensures r.Ok? ==> r.value.display.update == (m.display.update || n > 0)
    ensures r.Ok? ==> r.value.v[VF] == (if Sprite.Collides(m.display.cells, m.ram, m.i, n, m.v[x], m.v[y], 0) then 1 else 0)
    ensures r.Ok? ==> OthersKept(m.v, r.value.v, VF, VF)
    ensures r.Ok? && n == 0 ==> r.value.v[VF] == 0 && r.value.display == m.display
    ensures r.Ok? ==> r.value == m.(v := r.value.v, display := r.value.display, pc := m.pc + OPCODE_LENGTH)
  {
    if n > 0 && m.i + n > RAM_SIZE then Err(RamOutOfRange(m.i, n))
    else
      var (display, vf) := Sprite.DrawRows(m.display, m.ram, m.i, n, m.v[x], m.v[y], 0, false);
      var v := m.v[VF := if vf then 1 else 0];
      assert v[VF] == (if vf then 1 else 0);
      Ok(Next(m.(display := display, v := v)))
  }

  // ---------------------------------------------------------------------
  // Keys and timers

  /** Ex9E, SKP Vx: a register value that names no key is a fault. */
  function OpSkp(m: Machine, x: Nibble): (r: Result<Machine>)
    ensures r.Err? <==> m.v[x] >= 16
    ensures r.Err? ==> r.fault == KeyOutOfRange(m.v[x])
    ensures r.Ok? ==> Skipped(m, r.value, m.keypad.pressed[m.v[x]])
  {
    if m.v[x] >= 16 then Err(KeyOutOfRange(m.v[x])) else Ok(SkipIf(m, m.keypad.pressed[m.v[x]]))
  }

  /** ExA1, SKNP Vx: a register value that names no key is a fault. */
  function OpSknp(m: Machine, x: Nibble): (r: Result<Machine>)
    ensures r.Err? <==> m.v[x] >= 16
    ensures r.Err? ==> r.fault == KeyOutOfRange(m.v[x])
    ensures r.Ok? ==> Skipped(m, r.value, !m.keypad.pressed[m.v[x]])
  {
    if m.v[x] >= 16 then Err(KeyOutOfRange(m.v[x])) else Ok(SkipIf(m, !m.keypad.pressed[m.v[x]]))
  }

  /** Fx07, LD Vx, DT. */
  function OpLdVxDt(m: Machine, x: Nibble): (r: Machine)
    ensures r.v[x] == m.timers.delay && OthersKept(m.v, r.v, x, x) && RegistersOnly(m, r)
  {
    Next(m.(v := m.v[x := m.timers.delay]))
  }

  /** Fx0A, LD Vx, K: records the register that the next key release fills. */
  function OpLdVxK(m: Machine, x: Nibble): (r: Machine)
    ensures r == m.(keyRegister := Some(x), pc := m.pc + OPCODE_LENGTH)
  {
    Next(m.(keyRegister := Some(x)))
  }

  /** Fx15, LD DT, Vx. */
  function OpLdDtVx(m: Machine, x: Nibble): (r: Machine)
    ensures r == m.(timers := m.timers.(delay := m.v[x]), pc := m.pc + OPCODE_LENGTH)
  {
    Next(m.(timers := m.timers.(delay := m.v[x])))
  }

  /** Fx18, LD ST, Vx. */
  function OpLdStVx(m: Machine, x: Nibble): (r: Machine)
    ensures r == m.(timers := m.timers.(sound := m.v[x]), pc := m.pc + OPCODE_LENGTH)
  {
    Next(m.(timers := m.timers.(sound := m.v[x])))
  }

  // ---------------------------------------------------------------------
  // Dispatch and the step

  /** Instructions that set the program counter themselves. */
  predicate ControlsPc(ins: Instr) {
    || ins.Ret? || ins.Jp? || ins.Call? || ins.JpV0?
    || ins.SeByte? || ins.SneByte? || ins.SeReg? || ins.SneReg?
    || ins.Skp? || ins.Sknp?
  }

  /** Instructions that can fault. */
  predicate MayFault(ins: Instr) {
    || ins.Ret? || ins.Call? || ins.Drw? || ins.Skp? || ins.Sknp?
    || ins.AddI? || ins.LdB? || ins.LdIVx? || ins.LdVxI?
  }

  /** Executes one decoded instruction. */
  function Exec(m: Machine, ins: Instr, random: Byte): (r: Result<Machine>)
    ensures r.Ok? && !ControlsPc(ins) ==> r.value.pc == m.pc + OPCODE_LENGTH
    ensures r.Err? ==> MayFault(ins)
    ensures r.Err? ==> !r.fault.UnknownOpcode? && !r.fault.FetchOutOfRange? && !r.fault.TimerUnderflow?
    ensures r.Ok? ==> r.value.keypad == m.keypad
    ensures r.Ok? && !ins.LdVxK? ==> r.value.keyRegister == m.keyRegister
    ensures r.Ok? && !ins.Call? ==> r.value.stack == m.stack
  {
    match ins
    case Cls => Ok(OpCls(m))
    case Ret => OpRet(m)
    case Sys(nnn) => Ok(OpSys(m, nnn))
    case Jp(nnn) => Ok(OpJp(m, nnn))
    case Call(nnn) => OpCall(m, nnn)
    case SeByte(x, kk) => Ok(OpSeByte(m, x, kk))
    case SneByte(x, kk) => Ok(OpSneByte(m, x, kk))
    case SeReg(x, y) => Ok(OpSeReg(m, x, y))
    case LdByte(x, kk) => Ok(OpLdByte(m, x, kk))
    case AddByte(x, kk) => Ok(OpAddByte(m, x, kk))
    case LdReg(x, y) => Ok(OpLdReg(m, x, y))
    case Or(x, y) => Ok(OpOr(m, x, y))
    case And(x, y) => Ok(OpAnd(m, x, y))
    case Xor(x, y) => Ok(OpXor(m, x, y))
    case AddReg(x, y) => Ok(OpAddReg(m, x, y))
    case Sub(x, y) => Ok(OpSub(m, x, y))
    case Shr(x, y) => Ok(OpShr(m, x, y))
    case Subn(x, y) => Ok(OpSubn(m, x, y))
    case Shl(x, y) => Ok(OpShl(m, x, y))
    case SneReg(x, y) => Ok(OpSneReg(m, x, y))
    case LdI(nnn) => Ok(OpLdI(m, nnn))
    case JpV0(nnn) => Ok(OpJpV0(m, nnn))
    case Rnd(x, kk) => Ok(OpRnd(m, x, kk, random))
    case Drw(x, y, n) => OpDrw(m, x, y, n)
    case Skp(x) => OpSkp(m, x)
    case Sknp(x) => OpSknp(m, x)
    case LdVxDt(x) => Ok(OpLdVxDt(m, x))
    case LdVxK(x) => Ok(OpLdVxK(m, x))
    case LdDtVx(x) => Ok(OpLdDtVx(m, x))
    case LdStVx(x) => Ok(OpLdStVx(m, x))
    case AddI(x) => OpAddI(m, x)
    case LdF(x) => Ok(OpLdF(m, x))
    case LdB(x) => OpLdB(m, x)
    case LdIVx(x) => OpLdIVx(m, x)
    case LdVxI(x) => OpLdVxI(m, x)
  }

  /** Decodes and executes one opcode; an opcode no pattern matches is a
      fault. */
  function Execute(m: Machine, opcode: Word, random: Byte): (r: Result<Machine>)
    ensures r == Err(UnknownOpcode(opcode)) <==> Decode(opcode).None?
  {
    match Decode(opcode)
    case None => Err(UnknownOpcode(opcode))
    case Some(ins) => Exec(m, ins, random)
  }

  /** One step of the interpreter loop once the host events are taken in
      and the pacing lets it run. A program counter at or past the end of
      memory stalls the machine. A pending key wait is resolved from the
      keypad's latch, and nothing else happens until it is. Otherwise the
      timers count down and one instruction is fetched and executed. */
  function Step(m: Machine, random: Byte): (r: Result<Machine>)
    ensures m.pc >= RAM_SIZE ==> r == Ok(m)
    ensures m.pc < RAM_SIZE && m.keyRegister.Some? ==>
      && r.Ok?
      && r.value.pc == m.pc && r.value.timers == m.timers
      && r.value.keypad == m.keypad.(lastReleased := None)
    ensures m.pc < RAM_SIZE && m.keyRegister.Some? && m.keypad.lastReleased.None? ==> r == Ok(m)
    ensures m.pc < RAM_SIZE && m.keyRegister.Some? && m.keypad.lastReleased.Some? ==>
      && r.value.keyRegister.None?
      && r.value.v[m.keyRegister.value] == m.keypad.lastReleased.value
      && OthersKept(m.v, r.value.v, m.keyRegister.value, m.keyRegister.value)
      && r.value == m.(v := r.value.v, keyRegister := None, keypad := r.value.keypad)
    ensures m.pc < RAM_SIZE && m.keyRegister.None? && Audio.Tick(m.timers).Err? ==> r == Err(TimerUnderflow)
    ensures m.pc + 1 == RAM_SIZE && m.keyRegister.None? && Audio.Tick(m.timers).Ok? ==> r == Err(FetchOutOfRange(m.pc))
    ensures r.Ok? && r.value.timers != m.timers ==> m.pc < RAM_SIZE && m.keyRegister.None?
  {
    if m.pc >= RAM_SIZE then Ok(m)
    else
      match m.keyRegister
      case Some(register) =>
        var (lastReleased, keypad) := Input.ConsumeLastReleased(m.keypad);
        (match lastReleased
         case Some(key) => Ok(m.(v := m.v[register := key], keyRegister := None, keypad := keypad))
         case None => Ok(m.(keypad := keypad)))
      case None =>
        var timers :- Audio.Tick(m.timers);
        var opcode :- Fetch(m.ram, m.pc);
        Execute(m.(timers := timers), opcode, random)
  }
}
