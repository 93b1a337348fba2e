/** Properties that relate several operations of the interpreter: calls
    and returns, stores and loads, repeated draws, the dispatch order of
    the decoder, the font, and the key wait across two steps. */
module Properties {
  import opened Bytes
  import opened Outcomes
  import opened Opcode
  import opened Cpu
  import Video
  import Input
  import Audio
  import Sprite

  // ---------------------------------------------------------------------
  // Subroutines

  /** A CALL followed by a RET resumes after the CALL with the stack
      pointer restored; only the pushed slot of the stack differs. */
  lemma CallThenReturn(m: Machine, nnn: Addr, random: Byte)
    requires m.sp < 16
    ensures Exec(m, Call(nnn), random).Ok?
    ensures var called := Exec(m, Call(nnn), random).value;
      Exec(called, Ret, random) == Ok(m.(pc := m.pc + OPCODE_LENGTH, stack := m.stack[m.sp := m.pc + OPCODE_LENGTH]))
  {
    var called := Exec(m, Call(nnn), random).value;
    assert called.stack == m.stack[m.sp := m.pc + OPCODE_LENGTH];
  }

  /** The stack holds sixteen return addresses: a CALL with all of them
      in use and a RET with none both fault, whatever the instruction
      would otherwise do. */
  lemma StackBounds(m: Machine, nnn: Addr, random: Byte)
    ensures m.sp == 16 ==> Exec(m, Call(nnn), random) == Err(StackOverflow)
    ensures m.sp == 0 ==> Exec(m, Ret, random) == Err(StackUnderflow)
    ensures 0 < m.sp < 16 ==> Exec(m, Call(nnn), random).Ok? && Exec(m, Ret, random).Ok?
  {
  }

  // ---------------------------------------------------------------------
  // Memory

  /** Storing V0..Vx at I and loading them back from the same I gives the
      registers back unchanged, and neither instruction moves I. */
  lemma StoreThenLoad(m: Machine, x: Nibble)
    requires m.i + x < RAM_SIZE
    ensures OpLdIVx(m, x).Ok?
    ensures var stored := OpLdIVx(m, x).value;
      && stored.i == m.i
      && OpLdVxI(stored, x).Ok?
      && OpLdVxI(stored, x).value.v == m.v
      && OpLdVxI(stored, x).value.i == m.i
  {
    var stored := OpLdIVx(m, x).value;
    var loaded := OpLdVxI(stored, x).value;
    assert forall k :: 0 <= k < 16 ==> loaded.v[k] == m.v[k] by {
      forall k | 0 <= k < 16
        ensures loaded.v[k] == m.v[k]
      {
        if k <= x {
          assert loaded.v[k] == stored.ram[m.i + k];
        }
      }
    }
  }

  /** The three digits BCD stores read back, most significant first, as
      the decimal value of Vx. */
  lemma DigitsOfRegister(m: Machine, x: Nibble)
    requires m.i + 2 < RAM_SIZE
    ensures OpLdB(m, x).Ok?
    ensures var ram := OpLdB(m, x).value.ram;
      && ram[m.i] == m.v[x] / 100
      && ram[m.i + 1] == (m.v[x] / 10) % 10
      && ram[m.i + 2] == m.v[x] % 10
  {
    var ram := OpLdB(m, x).value.ram;
    var vx := m.v[x] as int;
    assert 100 * ram[m.i] as int + 10 * ram[m.i + 1] as int + ram[m.i + 2] == vx;
    assert ram[m.i] <= 9 && ram[m.i + 1] <= 9 && ram[m.i + 2] <= 9;
  }

  // ---------------------------------------------------------------------
  // Drawing

  /** Drawing the same sprite twice at the same place restores the
      display, provided neither coordinate register is VF, which the first
      draw overwrites. The second draw reports a collision exactly when a
      lit pixel of the sprite landed on a cell that was dark before the
      first. */
  lemma DrawTwice(m: Machine, x: Nibble, y: Nibble, n: Nibble)
    requires x != VF && y != VF
    requires n == 0 || m.i + n <= RAM_SIZE
    ensures OpDrw(OpDrw(m, x, y, n).value, x, y, n).Ok?
    ensures OpDrw(OpDrw(m, x, y, n).value, x, y, n).value.display.cells == m.display.cells
    ensures OpDrw(OpDrw(m, x, y, n).value, x, y, n).value.v[VF] ==
      if exists yl, xl :: Sprite.Lit(m.ram, m.i, n, yl, xl) && !m.display.cells[Sprite.Row(m.v[y], yl)][Sprite.Col(m.v[x], xl)]
      then 1 else 0
  {
    var first := OpDrw(m, x, y, n).value;
    var second := OpDrw(first, x, y, n).value;
    assert first.v[x] == m.v[x] && first.v[y] == m.v[y];
    Video.GridsEqual(second.display.cells, m.display.cells);
    RedrawFlag(m, x, y, n);
  }

  /** The collision flag of the second of two identical draws. */
  lemma RedrawFlag(m: Machine, x: Nibble, y: Nibble, n: Nibble)
    requires x != VF && y != VF
    requires n == 0 || m.i + n <= RAM_SIZE
    ensures OpDrw(OpDrw(m, x, y, n).value, x, y, n).value.v[VF] ==
      if exists yl, xl :: Sprite.Lit(m.ram, m.i, n, yl, xl) && !m.display.cells[Sprite.Row(m.v[y], yl)][Sprite.Col(m.v[x], xl)]
      then 1 else 0
  {
    var first := OpDrw(m, x, y, n).value;
    var vx, vy := m.v[x], m.v[y];
    assert first.v[x] == vx && first.v[y] == vy && first.ram == m.ram && first.i == m.i;
    Sprite.CollidesSome(first.display.cells, m.ram, m.i, n, vx, vy, 0);
    forall yl, xl | Sprite.Lit(m.ram, m.i, n, yl, xl)
      ensures Sprite.Hits(first.display.cells, m.ram, m.i, n, vx, vy, yl, xl) == !m.display.cells[Sprite.Row(vy, yl)][Sprite.Col(vx, xl)]
    {
      Sprite.LitFlips(m.ram, m.i, n, vx, vy, yl, xl);
    }
  }

  /** On a dark display, drawing a sprite with a lit pixel a second time
      reports the collision. */
  lemma RedrawOnDarkCollides(m: Machine, x: Nibble, y: Nibble, n: Nibble, yl: nat, xl: nat)
    requires x != VF && y != VF
    requires Video.Dark(m.display.cells)
    requires n == 0 || m.i + n <= RAM_SIZE
    requires Sprite.Lit(m.ram, m.i, n, yl, xl)
    ensures OpDrw(OpDrw(m, x, y, n).value, x, y, n).value.v[VF] == 1
  {
    DrawTwice(m, x, y, n);
    assert !m.display.cells[Sprite.Row(m.v[y], yl)][Sprite.Col(m.v[x], xl)];
  }

  /** A sprite drawn onto a dark display, after CLS for instance, leaves
      VF at 0. */
  lemma DrawOnDarkDisplay(m: Machine, x: Nibble, y: Nibble, n: Nibble)
    requires Video.Dark(m.display.cells)
    requires n == 0 || m.i + n <= RAM_SIZE
    ensures OpDrw(m, x, y, n).value.v[VF] == 0
  {
    Sprite.DarkNeverCollides(m.display.cells, m.ram, m.i, n, m.v[x], m.v[y], 0);
  }

  /** The glyph address that LD F computes, on a machine whose memory
      still begins with the font, holds the glyph of the digit in Vx. */
  lemma FontDigit(m: Machine, x: Nibble)
    requires m.v[x] < 16
    requires forall a :: 0 <= a < |Video.FONT_SET| ==> m.ram[a] == Video.FONT_SET[a]
    ensures var r := OpLdF(m, x);
      forall k :: 0 <= k < Video.GLYPH_LENGTH ==> r.ram[r.i + k] == Video.Glyph(m.v[x])[k]
  {
  }

  /** A freshly loaded machine has the font in place, so LD F addresses
      real glyphs. */
  lemma NewHoldsFont(image: seq<Byte>, d: Nibble)
    ensures var m := New(image);
      forall k :: 0 <= k < Video.GLYPH_LENGTH ==> m.ram[Video.GLYPH_LENGTH * d + k] == Video.Glyph(d)[k]
  {
  }

  // ---------------------------------------------------------------------
  // Dispatch

  /** 00E0 and 00EE are matched before the 0nnn wildcard, and every other
      opcode with leading nibble 0 only moves on to the next instruction. */
  lemma SysOnlyAdvances(m: Machine, n: Nibbles, random: Byte)
    requires n.n0 == 0
    ensures n == Nibbles(0x0, 0x0, 0xE, 0x0) ==> Decode(Join(n)) == Some(Cls)
    ensures n == Nibbles(0x0, 0x0, 0xE, 0xE) ==> Decode(Join(n)) == Some(Ret)
    ensures n != Nibbles(0x0, 0x0, 0xE, 0x0) && n != Nibbles(0x0, 0x0, 0xE, 0xE) ==>
      Execute(m, Join(n), random) == Ok(m.(pc := m.pc + OPCODE_LENGTH))
  {
    DecodeJoin(n);
    if n != Nibbles(0x0, 0x0, 0xE, 0x0) && n != Nibbles(0x0, 0x0, 0xE, 0xE) {
      assert Decode(Join(n)) == Some(Sys(AddrOf(n)));
    }
  }

  /** Executing an opcode outside the table is the unknown-opcode fault,
      and no other opcode produces it. */
  lemma UnlistedFaults(m: Machine, n: Nibbles, random: Byte)
    ensures Execute(m, Join(n), random) == Err(UnknownOpcode(Join(n))) <==> Unlisted(n)
  {
    DecodeRejectsUnlisted(n);
  }

  /** The random byte matters only to RND: for any other instruction two
      different random bytes give the same outcome. */
  lemma RandomOnlyForRnd(m: Machine, ins: Instr, r1: Byte, r2: Byte)
    requires !ins.Rnd?
    ensures Exec(m, ins, r1) == Exec(m, ins, r2)
  {
  }

  // ---------------------------------------------------------------------
  // The step

  /** A jump with offset past the end of memory stalls the machine: every
      later step leaves it as it is. */
  lemma JumpPastEndStalls(m: Machine, nnn: Addr, random: Byte)
    requires nnn + m.v[0] >= RAM_SIZE
    ensures Step(OpJpV0(m, nnn), random) == Ok(OpJpV0(m, nnn))
  {
  }

  /** A machine whose next instruction, at `pc`, is `ins`, with no key
      wait pending and the sound timer silent. */
  predicate ReadyToRun(m: Machine, ins: Instr) {
    && m.pc + 1 < RAM_SIZE
    && m.ram[m.pc] as int * 0x100 + m.ram[m.pc + 1] == Encode(ins)
    && m.keyRegister.None?
    && m.timers.sound == 0
  }

  /** Fx0A at pc starts a key wait: the step records the register, moves
      pc on and counts the timers down like any other instruction. */
  lemma WaitStarts(m: Machine, x: Nibble, random: Byte)
    requires ReadyToRun(m, LdVxK(x))
    ensures Step(m, random) == Ok(m.(keyRegister := Some(x), pc := m.pc + OPCODE_LENGTH, timers := Audio.Tick(m.timers).value))
  {
    StepRuns(m, LdVxK(x), random);
  }

  /** The whole key wait: Fx0A at pc starts it, a release of the host key
      Z (keypad key A) fills the latch, and the next step copies the key
      into Vx, ends the wait and leaves pc and the timers as they were. */
  lemma KeyWait(m: Machine, x: Nibble, random: Byte)
    requires ReadyToRun(m, LdVxK(x))
    requires m.pc + OPCODE_LENGTH < RAM_SIZE
    ensures Step(m, random).Ok?
    ensures var waiting := Step(m, random).value;
      && waiting.keyRegister == Some(x)
      && waiting.pc == m.pc + OPCODE_LENGTH
      && var released := waiting.(keypad := Input.OnKey(waiting.keypad, Some(Input.Z), false));
         && Step(released, random).Ok?
         && Step(released, random).value.v[x] == 0xA
         && Step(released, random).value.keyRegister.None?
         && Step(released, random).value.pc == waiting.pc
         && Step(released, random).value.timers == waiting.timers
  {
    WaitStarts(m, x, random);
    ReleaseResumes(Step(m, random).value, x, random);
  }

  /** A machine waiting for a key into Vx, on the release of Z, loads the
      key A into Vx and ends the wait without moving pc or the timers. */
  lemma ReleaseResumes(waiting: Machine, x: Nibble, random: Byte)
    requires waiting.pc < RAM_SIZE && waiting.keyRegister == Some(x)
    ensures var released := waiting.(keypad := Input.OnKey(waiting.keypad, Some(Input.Z), false));
      && Step(released, random).Ok?
      && Step(released, random).value.v[x] == 0xA
      && Step(released, random).value.keyRegister.None?
      && Step(released, random).value.pc == waiting.pc
      && Step(released, random).value.timers == waiting.timers
  {
    var released := waiting.(keypad := Input.OnKey(waiting.keypad, Some(Input.Z), false));
    assert released.keypad.lastReleased == Some(0xA);
  }

  /** Because the end-of-memory stall is checked before the key wait, an
      Fx0A in the last two bytes of memory stalls the machine for good:
      no key release is ever consumed. */
  lemma KeyWaitAtEndStalls(m: Machine, x: Nibble, random: Byte, scancode: Option<Input.Scancode>, down: bool)
    requires ReadyToRun(m, LdVxK(x))
    requires m.pc + OPCODE_LENGTH == RAM_SIZE
    ensures Step(m, random).Ok?
    ensures var waiting := Step(m, random).value;
      var pressed := waiting.(keypad := Input.OnKey(waiting.keypad, scancode, down));
      && waiting.keyRegister == Some(x)
      && Step(pressed, random) == Ok(pressed)
  {
    WaitStarts(m, x, random);
  }

  /** One step of a machine that is not waiting for a key and whose
      timers count down without fault runs the instruction at pc. */
  lemma StepRuns(m: Machine, ins: Instr, random: Byte)
    requires m.pc + 1 < RAM_SIZE && m.keyRegister.None? && Audio.Tick(m.timers).Ok?
    requires m.ram[m.pc] as int * 0x100 + m.ram[m.pc + 1] == Encode(ins)
    requires Canonical(ins)
    ensures Step(m, random) == Exec(m.(timers := Audio.Tick(m.timers).value), ins, random)
  {
    StepFetches(m, Encode(ins), random);
    ExecuteEncoded(m.(timers := Audio.Tick(m.timers).value), ins, random);
  }

  /** Executing the encoding of an instruction runs that instruction. */
  lemma ExecuteEncoded(m: Machine, ins: Instr, random: Byte)
    requires Canonical(ins)
    ensures Execute(m, Encode(ins), random) == Exec(m, ins, random)
  {
    DecodeEncode(ins);
  }

  /** One step of a machine that is not waiting for a key and whose
      timers count down without fault executes the opcode at pc. */
  lemma StepFetches(m: Machine, opcode: Word, random: Byte)
    requires m.pc + 1 < RAM_SIZE && m.keyRegister.None? && Audio.Tick(m.timers).Ok?
    requires m.ram[m.pc] as int * 0x100 + m.ram[m.pc + 1] == opcode
    ensures Step(m, random) == Execute(m.(timers := Audio.Tick(m.timers).value), opcode, random)
  {
    assert Fetch(m.ram, m.pc) == Ok(opcode);
  }

  /** `LD V0, 5` at pc of a machine ready to run it. */
  lemma LoadFive(m: Machine, random: Byte)
    requires ReadyToRun(m, LdByte(0, 5))
    ensures Step(m, random) == Ok(OpLdByte(m.(timers := Audio.Tick(m.timers).value), 0, 5))
  {
    StepRuns(m, LdByte(0, 5), random);
  }

  /** `ADD V0, 3` at pc of a machine ready to run it. */
  lemma AddThree(m: Machine, random: Byte)
    requires ReadyToRun(m, AddByte(0, 3))
    ensures Step(m, random) == Ok(OpAddByte(m.(timers := Audio.Tick(m.timers).value), 0, 3))
  {
    StepRuns(m, AddByte(0, 3), random);
  }

  /** `LD V0, 5; ADD V0, 3` at pc leaves 8 in V0 after two steps. */
  lemma LoadThenAdd(m: Machine, random: Byte)
    requires ReadyToRun(m, LdByte(0, 5))
    requires m.pc + 3 < RAM_SIZE && m.ram[m.pc + 2] as int * 0x100 + m.ram[m.pc + 3] == Encode(AddByte(0, 3))
    ensures Step(m, random).Ok? && Step(Step(m, random).value, random).Ok?
    ensures var m2 := Step(Step(m, random).value, random).value;
      m2.v[0] == 8 && m2.pc == m.pc + 4
  {
    LoadFive(m, random);
    var m1 := Step(m, random).value;
    assert m1.ram == m.ram && m1.pc == m.pc + 2 && m1.v[0] == 5;
    assert ReadyToRun(m1, AddByte(0, 3));
    AddThree(m1, random);
  }

  /** Running the two-instruction program `LD V0, 5; ADD V0, 3` from a
      fresh machine leaves 8 in V0 and pc just past the program. */
  lemma AddProgram(random: Byte)
    ensures var m0 := New([0x60, 0x05, 0x70, 0x03]);
      && Step(m0, random).Ok?
      && Step(Step(m0, random).value, random).Ok?
      && var m2 := Step(Step(m0, random).value, random).value;
         m2.v[0] == 8 && m2.pc == PROGRAM_START + 4
  {
    var m0 := New([0x60, 0x05, 0x70, 0x03]);
    assert ReadyToRun(m0, LdByte(0, 5)) by {
      assert m0.ram[0x200] == 0x60 && m0.ram[0x201] == 0x05;
      assert Encode(LdByte(0, 5)) == 0x6005;
    }
    assert m0.ram[m0.pc + 2] as int * 0x100 + m0.ram[m0.pc + 3] == Encode(AddByte(0, 3)) by {
      assert m0.ram[0x202] == 0x70 && m0.ram[0x203] == 0x03;
      assert Encode(AddByte(0, 3)) == 0x7003;
    }
    LoadThenAdd(m0, random);
  }

  // ---------------------------------------------------------------------
  // Address bounds

  /** The largest program counter a step can produce: a Bnnn jump to 0xFFF
      with 0xFF in V0. */
  const PC_LIMIT: nat := 0xFFF + 0xFF

  /** The program counter and every return address stay small: the
      addresses the source keeps as `usize` never come near its limit. */
  predicate Bounded(m: Machine) {
    m.pc <= PC_LIMIT && forall j :: 0 <= j < 16 ==> m.stack[j] <= RAM_SIZE
  }

  /** A new machine is bounded. */
  lemma NewBounded(image: seq<Byte>)
    ensures Bounded(New(image))
  {
  }

  /** An instruction executed from inside memory leaves a machine whose
      return addresses were in memory bounded. */
  lemma ExecBounded(m: Machine, ins: Instr, random: Byte)
    requires m.pc + 1 < RAM_SIZE
    requires forall j :: 0 <= j < 16 ==> m.stack[j] <= RAM_SIZE
    ensures Exec(m, ins, random).Ok? ==> Bounded(Exec(m, ins, random).value)
  {
    if ControlsPc(ins) {
      ControlBounded(m, ins, random);
    }
  }

  /** The instructions that set the program counter keep it within
      PC_LIMIT, and CALL pushes an address inside memory. */
  lemma ControlBounded(m: Machine, ins: Instr, random: Byte)
    requires ControlsPc(ins)
    requires m.pc + 1 < RAM_SIZE
    requires forall j :: 0 <= j < 16 ==> m.stack[j] <= RAM_SIZE
    ensures Exec(m, ins, random).Ok? ==> Bounded(Exec(m, ins, random).value)
  {
    var r := Exec(m, ins, random);
    if r.Ok? {
      if ins.Ret? {
        assert r == OpRet(m);
      } else if ins.Jp? {
        assert r == Ok(OpJp(m, ins.nnn));
      } else if ins.Call? {
        assert r == OpCall(m, ins.nnn);
      } else if ins.JpV0? {
        assert r == Ok(OpJpV0(m, ins.nnn));
      } else {
        assert r.value.pc <= m.pc + 2 * OPCODE_LENGTH;
      }
    }
  }

  /** Every step keeps a machine bounded, so from `New` on the program
      counter never exceeds PC_LIMIT and no return address exceeds
      RAM_SIZE. */
  lemma StepBounded(m: Machine, random: Byte)
    requires Bounded(m)
    ensures Step(m, random).Ok? ==> Bounded(Step(m, random).value)
  {
    if m.pc + 1 < RAM_SIZE && m.keyRegister.None? && Audio.Tick(m.timers).Ok? {
      var ticked := m.(timers := Audio.Tick(m.timers).value);
      var opcode := m.ram[m.pc] as int * 0x100 + m.ram[m.pc + 1];
      StepFetches(m, opcode, random);
      if Decode(opcode).Some? {
        ExecBounded(ticked, Decode(opcode).value, random);
      }
    }
  }
}
