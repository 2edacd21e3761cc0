/** The stack probe: its 43 bytes decoded and run on a stack that ends at a guard region. */
module StackProbe {
  import opened Basics
  import Traps

  type u64 = x: int | 0 <= x < TWO_64

  const TWO_64: int := 0x1_0000_0000_0000_0000
  const PAGE: nat := 4096

  const HEAD: seq<byte> := [0x49, 0x89, 0xc3]
  const GROW: seq<byte> := [0x48, 0x81, 0xec, 0x00, 0x10, 0x00, 0x00]
  const TOUCH: seq<byte> := [0x48, 0x85, 0x64, 0x24, 0x08]
  const SHRINK: seq<byte> := [0x49, 0x81, 0xeb, 0x00, 0x10, 0x00, 0x00]
  const COMPARE: seq<byte> := [0x49, 0x81, 0xfb, 0x00, 0x10, 0x00, 0x00]
  const TAIL: seq<byte> := [0x48, 0x01, 0xc4, 0xc3]

  const BINARY: seq<byte> :=
    HEAD + (GROW + (TOUCH + (SHRINK + (COMPARE + ([0x77, 0xe4] + ([0x4c, 0x29, 0xdc] + (TOUCH + TAIL)))))))

  const TRAP_SITES: seq<Traps.TrapSite> := [
    Traps.TrapSite(10, Traps.StackOverflow),
    Traps.TrapSite(34, Traps.StackOverflow)]

  // ---- Decoding the few x86-64 instructions it is made of ----

  datatype Instr =
    | Mov(dst: nat, src: nat)
    | Add(dst: nat, src: nat)
    | Sub(dst: nat, src: nat)
    | SubImm(reg: nat, imm: int)
    | CmpImm(reg: nat, imm: int)
    | TestStack(reg: nat, disp: int)
    | Ja(rel: int)
    | Ret

  datatype Decoded = Decoded(instr: Instr, len: nat)

  const RAX: nat := 0
  const RSP: nat := 4
  const R11: nat := 11

  function Signed8(b: byte): int { if b < 0x80 then b else b - 0x100 }

  /** Four bytes, least significant first, as a signed number. */
  function Signed32(b0: byte, b1: byte, b2: byte, b3: byte): int {
    (b0 as int) + 0x100 * (b1 as int) + 0x1_0000 * (b2 as int) + 0x100_0000 * Signed8(b3)
  }

  /** `REX.W` with its `R` and `B` bits, an opcode and a `ModRM` byte, or one of the two short forms. */
  function Decode(code: seq<byte>, pc: nat): Option<Decoded> {
    if pc >= |code| then None
    else if code[pc] == 0xc3 then Some(Decoded(Ret, 1))
    else if code[pc] == 0x77 && pc + 1 < |code| then Some(Decoded(Ja(Signed8(code[pc + 1])), 2))
    else if 0x48 <= code[pc] < 0x50 && pc + 2 < |code| then DecodeWide(code, pc)
    else None
  }

  function DecodeWide(code: seq<byte>, pc: nat): Option<Decoded>
    requires pc + 2 < |code| && 0x48 <= code[pc] < 0x50
  {
    var op, modrm := code[pc + 1], code[pc + 2];
    var reg := modrm / 8 % 8 + 8 * (code[pc] / 4 % 2);
    var rm := modrm % 8 + 8 * (code[pc] % 2);
    if modrm / 64 == 3 then
      if op == 0x89 then Some(Decoded(Mov(rm, reg), 3))
      else if op == 0x01 then Some(Decoded(Add(rm, reg), 3))
      else if op == 0x29 then Some(Decoded(Sub(rm, reg), 3))
      else if op == 0x81 && pc + 7 <= |code| then
        var imm := Signed32(code[pc + 3], code[pc + 4], code[pc + 5], code[pc + 6]);
        if modrm / 8 % 8 == 5 then Some(Decoded(SubImm(rm, imm), 7))
        else if modrm / 8 % 8 == 7 then Some(Decoded(CmpImm(rm, imm), 7))
        else None
      else None
    else if op == 0x85 && modrm / 64 == 1 && rm == RSP && pc + 4 < |code| && code[pc + 3] == 0x24 then
      Some(Decoded(TestStack(reg, Signed8(code[pc + 4])), 5))
    else None
  }

  /** The instructions of `code`, read one after the other, start at `pcs`. */
  predicate InstructionsAt(code: seq<byte>, pcs: seq<nat>) {
    && pcs != [] && pcs[0] == 0
    && forall k | 0 <= k < |pcs| ::
         var d := Decode(code, pcs[k]);
         d.Some? && pcs[k] + d.value.len == if k + 1 < |pcs| then pcs[k + 1] else |code|
  }

  // ---- Running ----

  datatype Status = Running | Returned | Faulted(addr: int) | Undefined

  datatype Flags = Flags(carry: bool, zero: bool)

  /** Registers, the two flags `ja` reads while they are known, and the addresses touched so far. */
  datatype Cpu = Cpu(rax: u64, rsp: u64, r11: u64, flags: Option<Flags>, pc: nat, status: Status, touched: seq<int>) {
    function Reg(r: nat): u64 {
      if r == RAX then rax else if r == RSP then rsp else if r == R11 then r11 else 0
    }

    function Set(r: nat, v: u64): Cpu {
      if r == RAX then this.(rax := v) else if r == RSP then this.(rsp := v) else if r == R11 then this.(r11 := v)
      else this.(status := Undefined)
    }

    /** The result of an operation, wrapped, and its flags. */
    function Arith(r: nat, v: int): Cpu {
      Set(r, v % TWO_64).(flags := Some(Flags(v != v % TWO_64, v % TWO_64 == 0)))
    }
  }

  /** One instruction. Memory below `floor` is the guard: touching it faults at that instruction. */
  function Step(c: Cpu, floor: int): Cpu {
    var d := Decode(BINARY, c.pc);
    if !c.status.Running? then c
    else if d.None? then c.(status := Undefined)
    else Execute(c, c.(pc := c.pc + d.value.len), d.value.instr, floor)
  }

  /** What `test` finds in memory is not modelled, so it leaves the flags unknown. */
  function Execute(c: Cpu, next: Cpu, instr: Instr, floor: int): Cpu {
    match instr
    case Mov(dst, src) => next.Set(dst, c.Reg(src))
    case Add(dst, src) => next.Arith(dst, c.Reg(dst) + c.Reg(src))
    case Sub(dst, src) => next.Arith(dst, c.Reg(dst) - c.Reg(src))
    case SubImm(reg, imm) => next.Arith(reg, c.Reg(reg) - imm % TWO_64)
    case CmpImm(reg, imm) =>
      next.(flags := Some(Flags(c.Reg(reg) < imm % TWO_64, c.Reg(reg) == imm % TWO_64)))
    case TestStack(_, disp) =>
      var addr := (c.rsp + disp) % TWO_64;
      if addr < floor then c.(status := Faulted(addr)) else next.(touched := c.touched + [addr], flags := None)
    case Ja(rel) =>
      if c.flags.None? || next.pc + rel < 0 then c.(status := Undefined)
      else if c.flags.value.carry || c.flags.value.zero then next
      else next.(pc := next.pc + rel)
    case Ret => next.(status := Returned)
  }

  function Steps(c: Cpu, floor: int, n: nat): Cpu
    decreases n
  {
    if n == 0 then c else Steps(Step(c, floor), floor, n - 1)
  }

  lemma {:induction false} StepsAdd(c: Cpu, floor: int, m: nat, n: nat)
    ensures Steps(Steps(c, floor, m), floor, n) == Steps(c, floor, m + n)
    decreases m
  {
    if m > 0 {
      StepsAdd(Step(c, floor), floor, m - 1, n);
    }
  }

  lemma {:induction false} StoppedStays(c: Cpu, floor: int, n: nat)
    requires !c.status.Running?
    ensures Steps(c, floor, n) == c
  {
    if n > 0 {
      StoppedStays(c, floor, n - 1);
    }
  }

  // ---- What the bytes say ----

  /** The instructions the listing beside the bytes gives. */
  function Listing(pc: nat): Option<Decoded> {
    if pc == 0 then Some(Decoded(Mov(R11, RAX), 3))
    else if pc == 3 then Some(Decoded(SubImm(RSP, 0x1000), 7))
    else if pc == 10 then Some(Decoded(TestStack(RSP, 8), 5))
    else if pc == 15 then Some(Decoded(SubImm(R11, 0x1000), 7))
    else if pc == 22 then Some(Decoded(CmpImm(R11, 0x1000), 7))
    else if pc == 29 then Some(Decoded(Ja(-28), 2))
    else if pc == 31 then Some(Decoded(Sub(RSP, R11), 3))
    else if pc == 34 then Some(Decoded(TestStack(RSP, 8), 5))
    else if pc == 39 then Some(Decoded(Add(RSP, RAX), 3))
    else if pc == 42 then Some(Decoded(Ret, 1))
    else None
  }

  /** The seven bytes of an instruction with a four-byte operand of 4096. */
  predicate PageOperand(code: seq<byte>, pc: nat, rex: byte, modrm: byte) {
    && pc + 7 <= |code|
    && code[pc] == rex && code[pc + 1] == 0x81 && code[pc + 2] == modrm
    && code[pc + 3] == 0x00 && code[pc + 4] == 0x10 && code[pc + 5] == 0x00 && code[pc + 6] == 0x00
  }

  lemma PageOperands()
    ensures PageOperand(BINARY, 3, 0x48, 0xec)
    ensures PageOperand(BINARY, 15, 0x49, 0xeb)
    ensures PageOperand(BINARY, 22, 0x49, 0xfb)
  {
  }

  lemma DecodesPageOperand(code: seq<byte>, pc: nat, rex: byte, modrm: byte)
    requires PageOperand(code, pc, rex, modrm) && (rex == 0x48 || rex == 0x49)
    ensures modrm == 0xec && rex == 0x48 ==> Decode(code, pc) == Some(Decoded(SubImm(RSP, 0x1000), 7))
    ensures modrm == 0xeb && rex == 0x49 ==> Decode(code, pc) == Some(Decoded(SubImm(R11, 0x1000), 7))
    ensures modrm == 0xfb && rex == 0x49 ==> Decode(code, pc) == Some(Decoded(CmpImm(R11, 0x1000), 7))
  {
  }

  lemma Decodes(pc: nat)
    requires Listing(pc).Some?
    ensures Decode(BINARY, pc) == Listing(pc)
  {
    if pc == 3 || pc == 15 || pc == 22 {
      PageOperands();
      hide PageOperand, Decode;
      DecodesPageOperand(BINARY, 3, 0x48, 0xec);
      DecodesPageOperand(BINARY, 15, 0x49, 0xeb);
      DecodesPageOperand(BINARY, 22, 0x49, 0xfb);
    }
  }

  const STARTS: seq<nat> := [0, 3, 10, 15, 22, 29, 31, 34, 39, 42]

  /** The 43 bytes are the listing and nothing else. */
  lemma BytesAreListing()
    ensures |BINARY| == 43 && InstructionsAt(BINARY, STARTS)
    ensures forall k | 0 <= k < |STARTS| :: Decode(BINARY, STARTS[k]) == Listing(STARTS[k])
  {
    assert |BINARY| == 43;
    ListingIsGapless();
    forall k | 0 <= k < |STARTS|
      ensures Decode(BINARY, STARTS[k]) == Listing(STARTS[k])
    {
      Decodes(STARTS[k]);
    }
    hide Decode, Listing;
  }

  lemma ListingIsGapless()
    ensures forall k | 0 <= k < |STARTS| ::
              Listing(STARTS[k]).Some? &&
              STARTS[k] + Listing(STARTS[k]).value.len == if k + 1 < |STARTS| then STARTS[k + 1] else 43
  {
  }

  /** The declared trap sites are the instructions that touch the stack, and no others. */
  lemma TrapSitesAreTouches(k: nat)
    requires k < |STARTS|
    ensures Decode(BINARY, STARTS[k]).Some?
    ensures Decode(BINARY, STARTS[k]).value.instr.TestStack? <==>
            Traps.TrapSite(STARTS[k], Traps.StackOverflow) in TRAP_SITES
  {
    BytesAreListing();
    hide Decode;
    assert TRAP_SITES[0].offset == 10 && TRAP_SITES[1].offset == 34;
  }

  // ---- One round, the end, and the whole loop ----

  predicate AtHead(c: Cpu) { c.status.Running? && c.pc == 3 && PAGE <= c.r11 <= c.rsp }

  lemma RoundFaults(c: Cpu, floor: int)
    requires AtHead(c) && c.rsp - PAGE + 8 < floor
    ensures var e := Steps(c, floor, 2); e.status == Faulted(c.rsp - PAGE + 8) && e.pc == 10
  {
    Decodes(3);
    Decodes(10);
    hide Decode;
    var c1 := Step(c, floor);
    assert c1.rsp == c.rsp - PAGE && c1.pc == 10;
    assert Steps(c, floor, 2) == Steps(c1, floor, 1) == Step(c1, floor);
  }

  /** The state a round leaves behind. */
  function Next(c: Cpu): Cpu
    requires AtHead(c)
  {
    var left := c.r11 - PAGE;
    c.(rsp := c.rsp - PAGE, r11 := left, touched := c.touched + [c.rsp - PAGE + 8],
       flags := Some(Flags(left < PAGE, left == PAGE)), pc := if left > PAGE then 3 else 31)
  }

  lemma RoundTouches(c: Cpu, floor: int)
    requires AtHead(c) && c.rsp - PAGE + 8 >= floor
    ensures Steps(c, floor, 5) == Next(c)
  {
    hide Step, Steps;
    TouchedOnce(c, floor);
    Compares(Steps(c, floor, 3), floor);
    StepsAdd(c, floor, 3, 2);
  }

  lemma Compares(c: Cpu, floor: int)
    requires c.status.Running? && c.pc == 22
    ensures Steps(c, floor, 2) ==
            c.(flags := Some(Flags(c.r11 < PAGE, c.r11 == PAGE)), pc := if c.r11 > PAGE then 3 else 31)
  {
    Decodes(22);
    Decodes(29);
    hide Decode;
    var c1 := Step(c, floor);
    assert Steps(c, floor, 2) == Steps(c1, floor, 1) == Step(c1, floor);
  }

  lemma TouchedOnce(c: Cpu, floor: int)
    requires AtHead(c) && c.rsp - PAGE + 8 >= floor
    ensures Steps(c, floor, 3) ==
            c.(rsp := c.rsp - PAGE, r11 := c.r11 - PAGE, touched := c.touched + [c.rsp - PAGE + 8],
               flags := Some(Flags(false, c.r11 == PAGE)), pc := 22)
  {
    Decodes(3);
    Decodes(10);
    Decodes(15);
    hide Decode;
    var c1 := Step(c, floor);
    assert c1.rsp == c.rsp - PAGE && c1.pc == 10;
    var c2 := Step(c1, floor);
    assert c2 == c1.(touched := c.touched + [c.rsp - PAGE + 8], flags := None, pc := 15);
    assert Steps(c, floor, 3) == Steps(c1, floor, 2) == Steps(c2, floor, 1) == Step(c2, floor);
  }

  predicate AtEnd(c: Cpu) { c.status.Running? && c.pc == 31 && c.r11 <= c.rsp && c.rsp - c.r11 + 8 < TWO_64 }

  lemma EndFaults(c: Cpu, floor: int)
    requires AtEnd(c) && c.rsp - c.r11 + 8 < floor
    ensures var e := Steps(c, floor, 2); e.status == Faulted(c.rsp - c.r11 + 8) && e.pc == 34
  {
    Decodes(31);
    Decodes(34);
    hide Decode;
    var c1 := Step(c, floor);
    assert c1.rsp == c.rsp - c.r11 && c1.pc == 34;
    assert Steps(c, floor, 2) == Steps(c1, floor, 1) == Step(c1, floor);
  }

  lemma EndReturns(c: Cpu, floor: int)
    requires AtEnd(c) && c.rsp - c.r11 + 8 >= floor
    ensures var e := Steps(c, floor, 4);
            && e.status == Returned && e.rax == c.rax
            && e.rsp == (c.rsp - c.r11 + c.rax) % TWO_64
            && e.touched == c.touched + [c.rsp - c.r11 + 8]
  {
    Decodes(31); Decodes(34); Decodes(39); Decodes(42);
    hide Decode;
    var c1 := Step(c, floor);
    assert c1.rsp == c.rsp - c.r11 && c1.pc == 34;
    var c2 := Step(c1, floor);
    assert c2 == c1.(touched := c.touched + [c.rsp - c.r11 + 8], flags := None, pc := 39);
    var c3 := Step(c2, floor);
    var c4 := Step(c3, floor);
    assert Steps(c, floor, 4) == Steps(c1, floor, 3) == Steps(c2, floor, 2) == Steps(c3, floor, 1) == c4;
  }

  /** The addresses the loop touches, entered with `r11` bytes of frame left below `rsp`. */
  function Touches(rsp: int, r11: int): (t: seq<int>)
    requires PAGE <= r11 <= rsp
    ensures |t| >= 2
    decreases r11
  {
    [rsp - PAGE + 8] + if r11 - PAGE > PAGE then Touches(rsp - PAGE, r11 - PAGE) else [rsp - r11 + 8]
  }

  lemma TouchesUnfold(rsp: int, r11: int)
    requires 2 * PAGE < r11 <= rsp
    ensures Touches(rsp, r11) == [rsp - PAGE + 8] + Touches(rsp - PAGE, r11 - PAGE)
  {
  }

  /** They go down page by page, and the last one, at most a page further, is the lowest slot. */
  lemma {:induction false} TouchesAt(rsp: int, r11: int, k: nat)
    requires PAGE <= r11 <= rsp && k < |Touches(rsp, r11)|
    ensures var t := Touches(rsp, r11);
            && t[k] == rsp + 8 - (if k + 1 < |t| then 0x1000 * (k + 1) else r11)
            && 0x1000 * (|t| - 1) <= r11 <= 0x1000 * |t|
    decreases r11
  {
    if r11 - PAGE > PAGE {
      var u := Touches(rsp - PAGE, r11 - PAGE);
      TouchesAt(rsp - PAGE, r11 - PAGE, if k == 0 then 0 else k - 1);
      hide Touches;
      TouchesUnfold(rsp, r11);
      assert k > 0 ==> ([rsp - PAGE + 8] + u)[k] == u[k - 1];
    }
  }

  /** A touch within a page below the floor has faulted, at a declared trap site. */
  predicate Overflowed(e: Cpu, floor: int) {
    && e.status.Faulted? && floor - PAGE <= e.status.addr < floor
    && Traps.TrapSite(e.pc, Traps.StackOverflow) in TRAP_SITES
  }

  /** If the frame ends at or above the floor the loop returns having touched it; else it overflows. */
  predicate Probed(c: Cpu, e: Cpu, floor: int)
    requires PAGE <= c.r11 <= c.rsp
  {
    if c.rsp - c.r11 + 8 >= floor then
      && e.status == Returned && e.rax == c.rax
      && e.rsp == (c.rsp - c.r11 + c.rax) % TWO_64
      && e.touched == c.touched + Touches(c.rsp, c.r11)
    else Overflowed(e, floor)
  }

  lemma RoundThenLoop(c: Cpu, e: Cpu, floor: int)
    requires AtHead(c) && c.r11 - PAGE > PAGE && Probed(Next(c), e, floor)
    ensures Probed(c, e, floor)
  {
    hide Touches, Overflowed;
    TouchedOn(c.touched, c.rsp, c.r11);
  }

  lemma TouchedOn(s: seq<int>, rsp: int, r11: int)
    requires 2 * PAGE < r11 <= rsp
    ensures s + [rsp - PAGE + 8] + Touches(rsp - PAGE, r11 - PAGE) == s + Touches(rsp, r11)
  {
    hide Touches;
    TouchesUnfold(rsp, r11);
    Regroup(s, rsp - PAGE + 8, Touches(rsp - PAGE, r11 - PAGE), Touches(rsp, r11));
  }

  lemma Regroup(s: seq<int>, x: int, t: seq<int>, u: seq<int>)
    requires u == [x] + t
    ensures s + [x] + t == s + u
  {
  }

  lemma RoundThenEnd(c: Cpu, floor: int) returns (n: nat)
    requires AtHead(c) && c.r11 - PAGE <= PAGE && c.rsp - PAGE + 8 >= floor
    ensures Probed(c, Steps(Next(c), floor, n), floor)
  {
    hide Step, Steps;
    var last := c.rsp - c.r11 + 8;
    if last < floor {
      n := 2;
      assert TRAP_SITES[1].offset == 34;
      EndFaults(Next(c), floor);
    } else {
      n := 4;
      EndReturns(Next(c), floor);
      assert c.touched + [c.rsp - PAGE + 8] + [last] == c.touched + ([c.rsp - PAGE + 8] + [last]);
    }
  }

  lemma {:induction false} LoopProbes(c: Cpu, floor: int) returns (n: nat)
    requires AtHead(c) && c.rsp + 8 >= floor
    ensures Probed(c, Steps(c, floor, n), floor)
    decreases c.r11
  {
    hide Step, Steps, Touches;
    if c.rsp - PAGE + 8 < floor {
      n := 2;
      RoundFaults(c, floor);
      assert TRAP_SITES[0].offset == 10;
    } else {
      RoundTouches(c, floor);
      if c.r11 - PAGE > PAGE {
        n := LoopProbes(Next(c), floor);
        RoundThenLoop(c, Steps(Next(c), floor, n), floor);
      } else {
        n := RoundThenEnd(c, floor);
      }
      StepsAdd(c, floor, 5, n);
      n := 5 + n;
    }
  }

  // ---- The probe as the compiler calls it ----

  /** Entered with the frame size in `rax`, anything in `r11`, and the return address at `rsp`. */
  function Entered(rax: u64, rsp: u64, r11: u64): Cpu {
    Cpu(rax, rsp, r11, None, 0, Running, [])
  }

  lemma HeadReached(rax: u64, rsp: u64, r11: u64, floor: int)
    ensures Steps(Entered(rax, rsp, r11), floor, 1) == Entered(rax, rsp, rax).(pc := 3)
  {
  }

  /** For a frame of a page or more, on a stack that ends at `floor`: if the frame fits, the probe returns
      with `rsp` as it was, having touched the frame down to its lowest slot in strides of at most a page;
      if not, it faults within a page below the floor, at an offset declared to be a stack overflow. */
  lemma ProbeIsCorrect(rax: u64, rsp: u64, r11: u64, floor: int) returns (n: nat)
    requires PAGE <= rax <= rsp && floor <= rsp
    ensures var e := Steps(Entered(rax, rsp, r11), floor, n);
            if rsp - rax + 8 >= floor then e.status == Returned && e.rsp == rsp && e.touched == Touches(rsp, rax)
            else Overflowed(e, floor)
  {
    hide Steps, Touches;
    var head := Entered(rax, rsp, rax).(pc := 3);
    HeadReached(rax, rsp, r11, floor);
    n := LoopProbes(head, floor);
    StepsAdd(Entered(rax, rsp, r11), floor, 1, n);
    n := 1 + n;
  }

  /** A frame that does not fit is reported: the fault lies where the manifest, with the probe loaded at
      `base` as its `i`-th function, records a stack overflow. */
  lemma OverflowIsReported(
      rax: u64, rsp: u64, r11: u64, floor: int, manifest: seq<Traps.FunctionSpec>, i: nat, base: nat) returns (n: nat)
    requires PAGE <= rax <= rsp && rsp - rax + 8 < floor <= rsp
    requires i < |manifest| && manifest[i] == Traps.FunctionSpec(base, |BINARY|, Some(TRAP_SITES))
    ensures var e := Steps(Entered(rax, rsp, r11), floor, n);
            e.status.Faulted? && Traps.HasTrap(manifest, base + e.pc, Traps.StackOverflow)
  {
    n := ProbeIsCorrect(rax, rsp, r11, floor);
    hide Steps;
    var e := Steps(Entered(rax, rsp, r11), floor, n);
    var k :| 0 <= k < |TRAP_SITES| && TRAP_SITES[k] == Traps.TrapSite(e.pc, Traps.StackOverflow);
    assert |BINARY| == 43;
    assert Traps.SiteAt(manifest, base + e.pc, i, k);
  }

  function Page(a: int): int { a / PAGE }

  predicate TouchesPage(t: seq<int>, page: int) {
    exists k | 0 <= k < |t| :: Page(t[k]) == page
  }

  lemma NoPageBetween(low: int, a: int, high: int)
    requires 0 <= low <= a <= high <= low + PAGE
    ensures Page(a) == Page(low) || Page(a) == Page(high)
  {
  }

  lemma TouchesPageCons(x: int, t: seq<int>, page: int)
    ensures TouchesPage([x] + t, page) <==> Page(x) == page || TouchesPage(t, page)
  {
    hide Page;
    assert ([x] + t)[0] == x;
    forall k | 0 <= k < |t|
      ensures ([x] + t)[k + 1] == t[k]
    {
    }
    if TouchesPage(t, page) {
      var k :| 0 <= k < |t| && Page(t[k]) == page;
      assert Page(([x] + t)[k + 1]) == page;
    }
  }

  lemma {:induction false} PageTouched(rsp: int, r11: int, a: int)
    requires PAGE <= r11 <= rsp && rsp - r11 + 8 <= a <= rsp + 8
    ensures Page(a) == Page(rsp + 8) || TouchesPage(Touches(rsp, r11), Page(a))
    decreases r11
  {
    hide Page, TouchesPage;
    var first, last := rsp - PAGE + 8, rsp - r11 + 8;
    TouchesPageCons(first, if r11 - PAGE > PAGE then Touches(rsp - PAGE, r11 - PAGE) else [last], Page(a));
    if a >= first {
      NoPageBetween(first, a, rsp + 8);
    } else if r11 - PAGE > PAGE {
      PageTouched(rsp - PAGE, r11 - PAGE, a);
    } else {
      NoPageBetween(last, a, first);
      TouchesPageCons(last, [], Page(a));
      assert [last] + [] == [last];
    }
  }

  /** Every page that holds part of the frame is touched, or is the page of the return address. */
  lemma NoPageSkipped(rsp: int, rax: int, a: int)
    requires PAGE <= rax <= rsp && rsp - rax + 8 <= a <= rsp
    ensures Page(a) == Page(rsp) || TouchesPage(Touches(rsp, rax), Page(a))
  {
    PageTouched(rsp, rax, a);
  }

  ghost predicate Returns(rax: u64, rsp: u64, r11: u64, floor: int) {
    exists n: nat :: Steps(Entered(rax, rsp, r11), floor, n).status == Returned
  }

  /** Whatever frame of `rax` bytes fits, the probe returns. */
  ghost predicate AcceptsWhatFits(rax: u64) {
    forall rsp: u64, r11: u64, floor: int ::
      rax <= rsp && floor <= rsp && rsp - rax + 8 >= floor ==> Returns(rax, rsp, r11, floor)
  }

  /** A page is exactly the least frame the probe is right for: below it, some frame that fits is refused,
      because the first touch is a whole page down. */
  lemma ProbeNeedsAPage(rax: u64)
    ensures AcceptsWhatFits(rax) <==> rax >= PAGE
  {
    if rax >= PAGE {
      forall rsp: u64, r11: u64, floor: int | rax <= rsp && floor <= rsp && rsp - rax + 8 >= floor
        ensures Returns(rax, rsp, r11, floor)
      {
        var n := ProbeIsCorrect(rax, rsp, r11, floor);
      }
    } else {
      var floor := if rax < 8 then PAGE else PAGE - rax + 8;
      forall n: nat
        ensures Steps(Entered(rax, PAGE, 0), floor, n).status != Returned
      {
        SmallFrameFaults(rax, floor, n);
      }
      assert !Returns(rax, PAGE, 0, floor);
    }
  }

  lemma SmallFrameFaults(rax: u64, floor: int, n: nat)
    requires 8 < floor
    ensures Steps(Entered(rax, PAGE, 0), floor, n).status != Returned
  {
    var c := Entered(rax, PAGE, 0);
    Decodes(0); Decodes(3); Decodes(10);
    hide Decode;
    var c1 := Step(c, floor);
    var c2 := Step(c1, floor);
    assert c2.rsp == 0 && c2.pc == 10;
    var c3 := Step(c2, floor);
    assert c3.status == Faulted(8);
    if n == 1 {
      assert Steps(c, floor, 1) == c1;
    } else if n == 2 {
      assert Steps(c, floor, 2) == Steps(c1, floor, 1) == c2;
    } else if n > 2 {
      assert Steps(c, floor, n) == Steps(c1, floor, n - 1) == Steps(c2, floor, n - 2) == Steps(c3, floor, n - 3);
      StoppedStays(c3, floor, n - 3);
    }
  }
}
