# CHIP-8 interpreter core in Dafny

This project models the virtual machine at the heart of a CHIP-8 interpreter
written in Rust. The machine state is one immutable datatype, `Cpu.Machine`:
- 4096 bytes of memory
- the program counter
- sixteen 8-bit registers V0..VF
- the 16-bit index register I
- a sixteen-slot call stack and its pointer
- the keypad
- the register a pending key wait will fill
- the delay and sound counters
- the 64x32 framebuffer with its redraw flag

Every operation is a pure function from state to state.

The modules follow the program's files:

- `Bytes` holds `u8` and `u16` as integer subtypes. It defines `&`, `|` and
  `^` bit by bit.
- `Outcomes` holds `Option`, `Result` and the `Fault` kinds.
- `Opcode` covers:
  - splitting an opcode into nibbles and its immediates (`nn`, `nnn`);
  - the decode table, tried in the source's order;
  - an assembler that decoding inverts.
- `Video` covers the framebuffer, `set`, `clear`, the redraw flag and the
  80-byte font.
- `Sprite` holds the two loops of DRW. Next to them are two descriptions that
  do not run the loops: which cells a sprite toggles, and whether it collides.
- `Input` covers the scancode table, the pressed flags, the one-slot
  last-released latch, `on_key` and `consume_last_released`.
- `Audio` covers the two counters and `tick`.
- `Cpu` covers:
  - initial memory;
  - fetch;
  - one handler per instruction;
  - dispatch (`Execute`);
  - one interpreter step (`Step`).
- `Properties` holds lemmas that span several operations.

Every place where the Rust code would panic is an explicit `Err(fault)`:
- an unknown opcode;
- a fetch at pc 4095 reading past memory;
- a memory access at I+k past the end, by DRW, Fx33, Fx55 or Fx65;
- CALL with sixteen frames in use;
- RET with none;
- SKP or SKNP with a register value that names no key;
- the `u8` underflow in `Audio::tick`;
- the `u16` overflow of `I += Vx` in Fx1E.

The last two are the checked arithmetic of a debug build. The model treats
both as faults.

Some behaviour of the code differs from the usual account of CHIP-8. The
model follows the code:
- **Timers.** The counters move only on steps that execute an instruction
  (src/cpu.rs:134-139). A stalled step or a key-wait step leaves them alone.
  `Audio::tick` never decrements `sound`. When `sound` is positive it
  decrements `delay` a second time, and that underflows once `delay` has run
  down (src/audio.rs:13-21). `Audio.Tick` models exactly that.
- **Stack and Fx1E.** CALL on a full stack, RET on an empty one and an Fx1E
  sum past sixteen bits each panic in the code: an index out of bounds, a
  `usize` underflow and a `u16` overflow that a debug build checks. The
  model reports a fault.
- **Stall before key wait.** The end-of-memory stall is tested before the key
  wait. So an Fx0A in the last two bytes of memory stalls the machine for
  good, and no key release is ever consumed (`Properties.KeyWaitAtEndStalls`).

The random byte of Cxkk is a parameter of `Exec`, `Execute` and `Step`. The
program image is a parameter of `Cpu.New`: what the file read delivered. It is
cut to 3584 bytes, as the source's read buffer cuts it.

## Model

| member | source | states |
|---|---|---|
| Bytes.AndMasks | src/cpu.rs:316-319 | the bitwise AND of two bytes has no bit outside either operand: masking it again by either is a no-op, and it is at most each operand |
| Bytes.OrKeepsBits | src/cpu.rs:308-311 | every bit of either operand is set in their bitwise OR |
| Bytes.XorTwice | src/cpu.rs:324-327 | XOR with the same byte twice gives back the original |
| Opcode.Split | src/cpu.rs:149-154 | the four nibbles of an opcode recombine, most significant first, to the opcode |
| Opcode.SplitJoin | src/cpu.rs:149-154 | splitting the opcode that four nibbles make gives those nibbles back |
| Opcode.LowByte | src/cpu.rs:160 | `nn` is the low byte, made of the last two nibbles |
| Opcode.LowAddr | src/cpu.rs:161 | `nnn` is the low twelve bits, made of the last three nibbles; the opcode is the first nibble times 0x1000 plus `nnn` |
| Opcode.DecodeJoin | src/cpu.rs:149-198 | decoding the opcode that four nibbles make is looking those nibbles up in the table, with `nn` and `nnn` taken from their last two and three |
| Opcode.DecodeEncode | src/cpu.rs:163-198 | every instruction the table can produce decodes back from its opcode |
| Opcode.EncodeDecode | src/cpu.rs:163-198 | every opcode the table accepts is the encoding of what it decodes to, and that instruction is one the table can produce (a SYS never shadows CLS or RET) |
| Opcode.Decode | src/cpu.rs:149-199 | decoding fails exactly when the opcode's nibbles form one of the patterns outside the table (5xy_, 8xy_, 9xy_ with unused last nibble; Ex__, Fx__ with unused low byte) |
| Opcode.LookupRejectsUnlisted | src/cpu.rs:163-199 | the table has no row exactly for those patterns, whatever the immediates, since only the nibbles select a row |
| Opcode.DecodeRejectsUnlisted | src/cpu.rs:163-199 | decoding fails exactly for the patterns outside the table (5xy_, 8xy_, 9xy_ with unused last nibble; Ex__, Fx__ with unused low byte) |
| Video.Glyph | src/video.rs:13-30 | the glyph of digit d is the five font bytes from 5d, which lie inside the 80-byte table |
| Video.New | src/video.rs:56-60 | a new display is dark and not marked for redrawing |
| Video.Set | src/video.rs:90-99 | only cell (x mod 64, y mod 32) can change; it becomes old XOR fill; the result is fill AND old; with fill false the grid is unchanged; the display is always marked for redrawing |
| Video.Clear | src/video.rs:101-109 | every cell is dark and the display is marked for redrawing |
| Video.Present | src/video.rs:63-88 | the renderer repaints exactly when the flag is set, and leaves it cleared and the cells as they were |
| Video.SetTwice | src/video.rs:90-99 | setting the same pixel twice restores the grid; the second call collides exactly when fill holds and the pixel was dark before the first |
| Video.ClearTwice | src/video.rs:101-109 | clearing twice is the same as clearing once |
| Video.ClearPresentsOnce | src/video.rs:63-109 | after a clear the renderer repaints once and then not again |
| Audio.New | src/audio.rs:9-11 | both counters start at zero |
| Audio.Tick | src/audio.rs:13-21 | sound is never changed; with sound silent delay drops by one, stopping at zero; with sound running the tick succeeds exactly when delay is at least 2 and then drops it by 2; otherwise it is the underflow fault |
| Audio.SilentCountdown | src/audio.rs:14-16 | with sound silent, k ticks take delay down by k and hold it at zero |
| Audio.SoundingCountdown | src/audio.rs:13-21 | with sound running, k ticks succeed exactly when delay is at least 2k, leaving delay - 2k; otherwise they end in the underflow fault |
| Input.KeyMapping | src/input.rs:12-36 | a scancode has a key exactly when it is one of the sixteen in the table |
| Input.ScancodeOf | src/input.rs:12-36 | every key 0..15 is the image of some table scancode |
| Input.MappingInjective | src/input.rs:12-36 | no two table scancodes share a key |
| Input.New | src/input.rs:44-49 | no key is pressed and the latch is empty |
| Input.ConsumeLastReleased | src/input.rs:59-63 | returns the latch, empties it and leaves the pressed flags alone |
| Input.ConsumeTwice | src/input.rs:59-63 | a second consume right after the first returns nothing |
| Input.OnKey | src/input.rs:65-75 | an absent or unmapped scancode changes nothing; a mapped one sets that key's flag to `down` and leaves the other keys alone; a release latches the key, replacing an unconsumed one; a latch naming a key stays in range |
| Sprite.DrawRow | src/cpu.rs:437-441 | each cell ends up XORed with whether the row's lit pixels toggle it an odd number of times; the collision flag is the old flag or-ed with whether a lit pixel met a lit cell; the display is marked for redrawing whenever a pixel is set |
| Sprite.DrawRows | src/cpu.rs:433-442 | the same for the whole sprite: cells XORed with the sprite's toggles, collision exactly when some lit pixel meets a lit cell |
| Sprite.RowCollidesSome | src/cpu.rs:437-441 | a sprite row collides exactly when one of its lit pixels lands on a lit cell |
| Sprite.CollidesSome | src/cpu.rs:433-442 | a sprite collides exactly when one of its lit pixels lands on a lit cell |
| Sprite.RowFlipsSome | src/cpu.rs:437-441 | a sprite row toggles a cell exactly when one of its lit pixels lands on it, since eight pixels never wrap onto the same column |
| Sprite.FlipsSome | src/cpu.rs:433-442 | a sprite toggles a cell exactly when one of its lit pixels lands on it, since fifteen rows never wrap onto the same display row |
| Sprite.DarkNeverCollides | src/cpu.rs:433-444 | a sprite drawn on a dark display never collides |
| Cpu.RomBuffer | src/cpu.rs:81-82 | the program buffer holds the image's first 3584 bytes, padded with zeros |
| Cpu.InitialRam | src/cpu.rs:70-92 | memory holds the font from address 0, zeros up to 0x200, the image from 0x200 and zeros after it |
| Cpu.New | src/cpu.rs:70-107 | the new machine has that memory, pc at 0x200, all registers, I, the stack, the stack pointer and the counters zero, no key wait, a dark display and an idle keypad |
| Cpu.Fetch | src/cpu.rs:137 | the fetch succeeds exactly when pc + 1 is inside memory; its high byte is `ram[pc]` and its low byte `ram[pc+1]` |
| Cpu.Next | src/cpu.rs:203-205 | pc moves on by 2 and nothing else changes: a skip whose condition fails |
| Cpu.SkipIf | src/cpu.rs:207-213 | pc moves on by 4 when the condition holds and by 2 otherwise; nothing else changes |
| Cpu.OpSys | src/cpu.rs:218-220 | SYS only moves to the next instruction |
| Cpu.OpCls | src/cpu.rs:225-228 | the display goes dark and is marked; only the display and pc change |
| Cpu.OpRet | src/cpu.rs:235-238 | faults exactly when the stack is empty; otherwise pops the top return address into pc |
| Cpu.OpJp | src/cpu.rs:243-245 | only pc changes; it becomes nnn |
| Cpu.OpCall | src/cpu.rs:253-257 | faults exactly when sixteen frames are in use; otherwise pushes pc + 2, leaves the other slots alone and jumps to nnn |
| Cpu.OpSeByte | src/cpu.rs:262-264 | skips the next instruction exactly when Vx = kk; nothing else changes |
| Cpu.OpSneByte | src/cpu.rs:269-271 | skips exactly when Vx differs from kk |
| Cpu.OpSeReg | src/cpu.rs:276-278 | skips exactly when Vx = Vy |
| Cpu.OpSneReg | src/cpu.rs:394-396 | skips exactly when Vx differs from Vy |
| Cpu.OpJpV0 | src/cpu.rs:409-411 | pc becomes nnn + V0, not reduced to twelve bits, so it can reach past memory (at most 0xFFF + 0xFF) |
| Cpu.OpLdByte | src/cpu.rs:283-286 | Vx becomes kk; no other register changes |
| Cpu.OpAddByte | src/cpu.rs:291-295 | Vx becomes Vx + kk modulo 256, which is the plain sum when that fits in a byte; VF and the other registers are untouched |
| Cpu.OpLdReg | src/cpu.rs:300-303 | Vx becomes Vy; no other register changes |
| Cpu.OpOr | src/cpu.rs:308-311 | Vx becomes Vx OR Vy, which keeps every bit of both |
| Cpu.OpAnd | src/cpu.rs:316-319 | Vx becomes Vx AND Vy, which has no bit outside either |
| Cpu.OpXor | src/cpu.rs:324-327 | Vx becomes Vx XOR Vy; XOR with Vy again would give back the old Vx |
| Cpu.OpAddReg | src/cpu.rs:334-339 | VF is 1 exactly when the sum exceeds 255; for x other than F, Vx plus 256 times VF is the true sum; VF is written last, so it survives when x is F |
| Cpu.OpSub | src/cpu.rs:346-352 | VF is 1 exactly when Vx > Vy (unless x is F, where the difference overwrites it); Vx + Vy wraps back to the old Vx |
| Cpu.OpShr | src/cpu.rs:359-364 | for x other than F, VF is the low bit of Vx; twice the new Vx plus that bit is the old Vx; Vy plays no part |
| Cpu.OpSubn | src/cpu.rs:371-377 | for x other than F, VF is 1 exactly when Vy > Vx; the new Vx plus the old Vx wraps to Vy |
| Cpu.OpShl | src/cpu.rs:384-389 | for x other than F, VF is the top bit of Vx; the new Vx plus 256 times that bit is twice the old Vx; Vy plays no part |
| Cpu.OpLdI | src/cpu.rs:401-404 | I becomes nnn; nothing else but pc changes |
| Cpu.OpRnd | src/cpu.rs:418-421 | Vx is the random byte masked by kk, and so has no bit outside kk |
| Cpu.OpAddI | src/cpu.rs:497-500 | faults exactly when I + Vx exceeds sixteen bits; otherwise I becomes the sum and VF is untouched |
| Cpu.OpLdF | src/cpu.rs:505-508 | I becomes 5 Vx, and for a digit Vx the glyph at I lies inside the font |
| Cpu.OpLdB | src/cpu.rs:517-524 | faults exactly when I+2 is past memory; otherwise writes three digits, each at most 9, with 100 d0 + 10 d1 + d2 = Vx, leaving the rest of memory and I alone |
| Cpu.StoreRegisters | src/cpu.rs:532-534 | memory at I+k holds Vk for k in the range, and no other address changes |
| Cpu.LoadRegisters | src/cpu.rs:545-547 | Vk holds memory at I+k for k in the range, and no other register changes |
| Cpu.OpLdIVx | src/cpu.rs:529-537 | faults exactly when I+x is past memory; otherwise memory I..I+x holds V0..Vx, the rest of memory is unchanged and I stays |
| Cpu.OpLdVxI | src/cpu.rs:542-550 | faults exactly when I+x is past memory; otherwise V0..Vx hold memory I..I+x, registers above x and I are unchanged |
| Cpu.OpDrw | src/cpu.rs:426-446 | faults exactly when the sprite reaches past memory; otherwise each cell is XORed with whether the sprite toggles it, VF is 1 exactly when a lit pixel met a lit cell, and no other register changes |
| Cpu.OpSkp | src/cpu.rs:451-453 | faults exactly when Vx names no key; otherwise skips exactly when key Vx is pressed |
| Cpu.OpSknp | src/cpu.rs:458-460 | faults exactly when Vx names no key; otherwise skips exactly when key Vx is not pressed |
| Cpu.OpLdVxDt | src/cpu.rs:465-468 | Vx becomes the delay counter; no other register changes |
| Cpu.OpLdVxK | src/cpu.rs:473-476 | records x as the register the key wait fills and moves on |
| Cpu.OpLdDtVx | src/cpu.rs:481-484 | the delay counter becomes Vx, the sound counter is untouched |
| Cpu.OpLdStVx | src/cpu.rs:489-492 | the sound counter becomes Vx, the delay counter is untouched |
| Cpu.Exec | src/cpu.rs:163-198 | every instruction that does not set pc itself moves pc on by 2; only the instructions that can fault do; none reports an unknown opcode, a fetch fault or a timer fault; the keypad, the stack except under CALL, and the key wait except under Fx0A are untouched |
| Cpu.Execute | src/cpu.rs:163-200 | the unknown-opcode fault is raised exactly when the decode table has no match |
| Cpu.Step | src/cpu.rs:125-141 | pc at or past the end of memory stalls; a key wait consumes the latch, fills the register when the latch holds a key, and otherwise changes nothing; pc and the counters are untouched while waiting; otherwise a counter fault or a fetch fault at pc 4095 is reported; the counters change only on steps that execute |
| Properties.CallThenReturn | src/cpu.rs:235-257 | CALL then RET resumes at the old pc + 2 with the stack pointer restored; only the pushed slot differs |
| Properties.StackBounds | src/cpu.rs:235-257 | CALL with sixteen frames in use and RET with none fault; in between both succeed |
| Properties.StoreThenLoad | src/cpu.rs:529-550 | Fx55 then Fx65 with the same I and x leaves every register as it was, and I is never moved |
| Properties.DigitsOfRegister | src/cpu.rs:517-524 | the three digits Fx33 stores are the hundreds, tens and ones of Vx |
| Properties.DrawTwice | src/cpu.rs:426-446 | drawing the same sprite twice at the same place restores the display, when neither coordinate register is VF; the second draw sets VF to 1 exactly when a lit pixel of the sprite lands on a cell that was dark before the first |
| Properties.RedrawOnDarkCollides | src/cpu.rs:426-446 | on a dark display, the second draw of a sprite with a lit pixel sets VF to 1 |
| Properties.DrawOnDarkDisplay | src/cpu.rs:426-446 | a sprite drawn on a dark display leaves VF at 0 |
| Properties.FontDigit | src/cpu.rs:505-508 | with the font in memory, the five bytes at the I that Fx29 computes are the glyph of Vx |
| Properties.NewHoldsFont | src/cpu.rs:72-74 | a newly loaded machine holds every glyph at 5d |
| Properties.SysOnlyAdvances | src/cpu.rs:163-166 | among the opcodes whose first nibble is 0, 00E0 and 00EE decode to CLS and RET ahead of the 0nnn wildcard; every other one, 0000 included, only moves pc on by 2 |
| Properties.UnlistedFaults | src/cpu.rs:163-199 | executing an opcode outside the table is the unknown-opcode fault, and no listed opcode gives it |
| Properties.RandomOnlyForRnd | src/cpu.rs:418-421 | the random byte affects only Cxkk |
| Properties.JumpPastEndStalls | src/cpu.rs:125-127 | after a Bnnn whose target lies past memory every step leaves the machine unchanged |
| Properties.StepFetches | src/cpu.rs:134-139 | a step with no key wait, a fault-free countdown and pc + 1 inside memory executes the big-endian word at pc with the counters already ticked, whatever that word is |
| Properties.StepRuns | src/cpu.rs:134-139 | a step with no key wait and a fault-free countdown, at a pc holding the encoding of an instruction, runs that instruction with the counters already ticked |
| Properties.WaitStarts | src/cpu.rs:473-476 | the step that runs Fx0A records the register, moves pc on and ticks the counters |
| Properties.KeyWait | src/cpu.rs:129-133 | after Fx0A and a release of the Z host key, the next step puts 0xA into Vx, ends the wait and leaves pc and the counters alone |
| Properties.ReleaseResumes | src/cpu.rs:129-133 | a machine waiting for a key, on a release of the Z host key, puts 0xA into the waiting register, ends the wait and leaves pc and the counters alone |
| Properties.KeyWaitAtEndStalls | src/cpu.rs:125-133 | an Fx0A in the last two bytes of memory leaves the machine stalled whatever key events follow |
| Properties.LoadThenAdd | src/cpu.rs:283-295 | `LD V0, 5` followed by `ADD V0, 3` at any pc with no key wait and a silent sound counter leaves V0 = 8 and pc 4 further on after two steps |
| Properties.AddProgram | src/cpu.rs:283-295 | the program `60 05 70 03` run from a new machine leaves V0 = 8 and pc = 0x204 after two steps |
| Properties.NewBounded | src/cpu.rs:94-107 | a new machine has pc and every stack entry within the bounds below |
| Properties.StepBounded | src/cpu.rs:125-139 | a step keeps pc at most 0xFFF + 0xFF and every stack entry at most 4096, so the `usize` fields never approach their limit |
| Properties.ExecBounded | src/cpu.rs:163-198 | an instruction executed from a pc whose fetch succeeds keeps those bounds |
| Properties.ControlBounded | src/cpu.rs:203-257 | the skips, RET, JP, CALL and Bnnn keep pc within 0xFFF + 0xFF, and CALL pushes at most 4096 |

## Left out

- SDL event polling, the Quit event and `Keypad::listen` (src/cpu.rs:111-119,
  src/input.rs:51-57). They are host I/O. `Input.OnKey` takes the scancode and
  direction that `listen` passes on.
- Window and canvas creation in `Display::new` and the drawing in
  `Display::draw` are rendering. Only the redraw flag is modelled, as
  `Video.Present`. `Step` does not call it. The source draws at the start of
  every tick, which changes no machine state other than that flag.
- `Timer::skip` (src/cpu.rs:44-63) is wall-clock pacing with floating point.
  `Step` is one step the pacing lets through.
- File opening and reading in `CPU::new` are I/O, and so is the `println!` of
  the path and of each opcode. A short read is whatever image is passed.
- The random number generator of Cxkk is a foreign call. The random byte is a
  parameter.
- The tone behind a running sound counter is audio output. Only the counter
  is modelled.
- src/main.rs (argument handling and the run loop) is not part of this model.
- Memory and pixels written before a fault are not kept. DRW, Fx33 and Fx55
  write some cells or bytes before the panic, and the process then stops. A
  fault carries no machine state.
- Cpu.OpAddI: models the checked `u16` addition of a debug build as a fault.
  A release build would wrap I modulo 65536 instead.
- `pc` and the stack entries are `usize` in the source and unbounded naturals
  here. No wrap-around is lost: from a new machine, pc never exceeds
  0xFFF + 0xFF and no stack entry exceeds 4096 (`Properties.StepBounded`).
