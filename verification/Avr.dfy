/** The part of the AVR (AVRxt) instruction set that the core's interrupt routines use.

Meaning of each instruction: AVR Instruction Set Manual (DS40002198), entry of that name. */
module Avr {
  import opened Bits

  type Mem = s: seq<byte> | |s| == 0x1_0000 witness seq(0x1_0000, _ => 0)
  type Regs = s: seq<byte> | |s| == 32 witness seq(32, _ => 0)
  type Reg = n: nat | n < 32
  type PairReg = n: nat | n < 31

  datatype Sreg = Sreg(c: bool, z: bool, n: bool, v: bool, s: bool, h: bool, t: bool, i: bool)

  function Byte(bits: seq<bool>): (x: nat)
    ensures x < Pow2(|bits|)
  {
    if bits == [] then 0 else B(bits[0]) + 2 * Byte(bits[1..])
  }

  function Flags(f: Sreg): seq<bool> { [f.c, f.z, f.n, f.v, f.s, f.h, f.t, f.i] }

  /** SREG as the byte that `in rd, 0x3F` reads. */
  function Pack(f: Sreg): byte {
    assert Pow2(8) == 256;
    Byte(Flags(f))
  }

  /** What `out 0x3F, rd` makes of a byte. */
  function Unpack(x: byte): Sreg {
    Sreg(Bit(x, 0), Bit(x, 1), Bit(x, 2), Bit(x, 3), Bit(x, 4), Bit(x, 5), Bit(x, 6), Bit(x, 7))
  }

  lemma {:induction false} BitOfByte(bits: seq<bool>, k: nat)
    requires k < |bits|
    ensures Bit(Byte(bits), k) == bits[k]
  {
    assert Byte(bits) / 2 == Byte(bits[1..]);
    if k != 0 { BitOfByte(bits[1..], k - 1); }
  }

  lemma UnpackPack(f: Sreg)
    ensures Unpack(Pack(f)) == f
  {
    forall k: nat | k < 8
      ensures Bit(Pack(f), k) == Flags(f)[k]
    {
      BitOfByte(Flags(f), k);
    }
  }

  /** One received frame as the pair RXDATAH, RXDATAL presents it. */
  datatype RxWord = RxWord(hi: byte, lo: byte)
  datatype Store = Store(addr: word, value: byte)

  /** The I/O space: plain registers, the receive FIFO of the USART at `usart`, and every store in order. */
  datatype Io = Io(usart: word, regs: Mem, rx: seq<RxWord>, log: seq<Store>)

  predicate IsIo(a: word) { a < 0x1000 }

  function IoRead(io: Io, a: word): byte {
    if a == io.usart && io.rx != [] then io.rx[0].lo
    else if a == io.usart + 1 && io.rx != [] then io.rx[0].hi
    else if a == io.usart + 4 then OrByte(AndByte(io.regs[a], 0x7F), if io.rx != [] then 0x80 else 0)
    else io.regs[a]
  }

  /** Reading RXDATAL takes the front frame out of the FIFO. */
  function IoAfterRead(io: Io, a: word): Io {
    if a == io.usart && io.rx != [] then io.(rx := io.rx[1..]) else io
  }

  /** Flag registers are cleared by writing ones: STATUS of the USART, INTFLAGS of the VPORTs. */
  predicate IsFlags(io: Io, a: word) { a == io.usart + 4 || (a < 0x1C && a % 4 == 3) }
  function WrittenFlags(old_: byte, v: byte): byte { old_ - AndByte(old_, v) }

  function IoWrite(io: Io, a: word, v: byte): Io {
    io.(regs := io.regs[a := if IsFlags(io, a) then WrittenFlags(io.regs[a], v) else v], log := io.log + [Store(a, v)])
  }

  datatype World = World(mem: Mem, io: Io)

  function Peek(w: World, a: word): byte { if IsIo(a) then IoRead(w.io, a) else w.mem[a] }
  function AfterPeek(w: World, a: word): World { if IsIo(a) then w.(io := IoAfterRead(w.io, a)) else w }
  function Poke(w: World, a: word, v: byte): World {
    if IsIo(a) then w.(io := IoWrite(w.io, a, v)) else w.(mem := w.mem[a := v])
  }

  /** The stack is kept apart from data memory: equal stacks stand for equal SP and equal bytes above it. */
  datatype Stack = Empty | Top(x: byte, below: Stack)

  datatype Cpu = Cpu(r: Regs, f: Sreg, stack: Stack, w: World)

  datatype Ptr = X | Y | Z

  function Low(p: Ptr): PairReg { match p case X => 26 case Y => 28 case Z => 30 }
  function Pair(r: Regs, d: PairReg): word { Word(r[d + 1], r[d]) }
  function SetPair(r: Regs, d: PairReg, x: word): Regs { r[d := Lo(x)][d + 1 := Hi(x)] }

  function Plus(x: word, k: byte): word { if x + k < 0x1_0000 then x + k else x + k - 0x1_0000 }
  function Minus(x: word, k: byte): word { if x >= k then x - k else x - k + 0x1_0000 }
  function Sum(a: byte, b: byte, c: bool): byte {
    var x := a + b + B(c); if x < 256 then x else x - 256
  }
  function Diff(a: byte, b: byte, c: bool): byte {
    var x := a - b - B(c); if x >= 0 then x else x + 256
  }
  function Nibble(a: byte): byte { a % 16 }

  function AddFlags(f: Sreg, a: byte, b: byte, c: bool): Sreg {
    var x := Sum(a, b, c);
    var v := (a >= 128) == (b >= 128) && (a >= 128) != (x >= 128);
    Sreg(a + b + B(c) >= 256, x == 0, x >= 128, v, (x >= 128) != v, Nibble(a) + Nibble(b) + B(c) >= 16, f.t, f.i)
  }

  function SubFlags(f: Sreg, a: byte, b: byte, c: bool, z: bool): Sreg {
    var x := Diff(a, b, c);
    var v := (a >= 128) != (b >= 128) && (a >= 128) != (x >= 128);
    Sreg(a < b + B(c), x == 0 && z, x >= 128, v, (x >= 128) != v, Nibble(a) < Nibble(b) + B(c), f.t, f.i)
  }

  function LogicFlags(f: Sreg, x: byte): Sreg {
    f.(z := x == 0, n := x >= 128, v := false, s := x >= 128)
  }

  function ShiftFlags(f: Sreg, a: byte): Sreg {
    f.(c := Odd(a), z := Half(a) == 0, n := false, v := Odd(a), s := Odd(a))
  }

  /** ADIW, SBIW: a carry or borrow `c` out of bit 15 on the way from a to x. */
  function WordFlags(f: Sreg, c: bool, a: word, x: word): Sreg {
    var n := x >= 0x8000;
    var v := !c && (a >= 0x8000) != n;
    f.(c := c, z := x == 0, n := n, v := v, s := n != v)
  }

  /** Where a program counter can be: `off` instructions past label `piece` of the routine, out of it by RETI,
      or at the label of the code that polls. */
  datatype Pc = At(piece: nat, off: nat) | Returned | PollDone

  datatype Instr =
    | Push(d: Reg) | Pop(d: Reg) | InSreg(d: Reg) | OutSreg(d: Reg) | InIo(d: Reg, a: byte) | OutIo(a: byte, d: Reg)
    | Ldi(d: Reg, k: byte) | Mov(d: Reg, s: Reg) | Movw(p: PairReg, q: PairReg)
    | Add(d: Reg, s: Reg) | Adc(d: Reg, s: Reg) | Subi(d: Reg, k: byte) | Sbci(d: Reg, k: byte)
    | Adiw(p: PairReg, k: byte) | Sbiw(p: PairReg, k: byte) | Cp(d: Reg, s: Reg) | Lsr(d: Reg)
    | Andi(d: Reg, k: byte) | Ori(d: Reg, k: byte) | OrR(d: Reg, s: Reg) | Clr(d: Reg)
    | Ldd(d: Reg, x: Ptr, o: byte) | LdInc(d: Reg, x: Ptr) | Std(x: Ptr, o: byte, s: Reg)
    | Set | Clt | Cbi(a: byte, b: nat)
    | Rjmp(to: Pc) | Jmp(to: Pc) | Breq(to: Pc) | Brcs(to: Pc) | Brts(to: Pc)
    | Cpse(d: Reg, s: Reg) | Sbrc(d: Reg, b: nat) | Icall | Reti

  /** An instruction that always goes on to the next one. */
  predicate Straight(i: Instr) {
    !(i.Rjmp? || i.Jmp? || i.Breq? || i.Brcs? || i.Brts? || i.Cpse? || i.Sbrc? || i.Icall? || i.Reti?)
  }

  predicate AllStraight(b: seq<Instr>) { forall k :: 0 <= k < |b| ==> Straight(b[k]) }

  predicate StraightAt(ps: seq<seq<Instr>>, l: nat, n: nat) {
    l + n <= |ps| && forall k :: l <= k < l + n ==> AllStraight(ps[k])
  }

  /** Parts with more than 8 kB of flash use JMP where smaller ones use RJMP. */
  function Jump(big: bool, to: Pc): Instr { if big then Jmp(to) else Rjmp(to) }

  function SetReg(s: Cpu, d: Reg, x: byte): Cpu { s.(r := s.r[d := x]) }
  function DoPop(s: Cpu, d: Reg): Cpu {
    match s.stack
    case Empty => s
    case Top(x, below) => s.(r := s.r[d := x], stack := below)
  }
  function DoAdd(s: Cpu, d: Reg, a: byte, b: byte, c: bool): Cpu {
    s.(r := s.r[d := Sum(a, b, c)], f := AddFlags(s.f, a, b, c))
  }
  function DoSub(s: Cpu, d: Reg, a: byte, b: byte, c: bool, z: bool): Cpu {
    s.(r := s.r[d := Diff(a, b, c)], f := SubFlags(s.f, a, b, c, z))
  }
  function DoLogic(s: Cpu, d: Reg, x: byte): Cpu { s.(r := s.r[d := x], f := LogicFlags(s.f, x)) }
  function DoLsr(s: Cpu, d: Reg): Cpu { s.(r := s.r[d := Half(s.r[d])], f := ShiftFlags(s.f, s.r[d])) }
  function DoAdiw(s: Cpu, d: PairReg, k: byte): Cpu {
    var a := Pair(s.r, d);
    s.(r := SetPair(s.r, d, Plus(a, k)), f := WordFlags(s.f, a + k >= 0x1_0000, a, Plus(a, k)))
  }
  function DoSbiw(s: Cpu, d: PairReg, k: byte): Cpu {
    var a := Pair(s.r, d);
    s.(r := SetPair(s.r, d, Minus(a, k)), f := WordFlags(s.f, a < k, a, Minus(a, k)))
  }
  function DoLoad(s: Cpu, d: Reg, a: word): Cpu { s.(r := s.r[d := Peek(s.w, a)], w := AfterPeek(s.w, a)) }
  function DoStore(s: Cpu, a: word, v: byte): Cpu { s.(w := Poke(s.w, a, v)) }
  function DoMovw(s: Cpu, d: PairReg, r: PairReg): Cpu {
    s.(r := s.r[d := s.r[r]][d + 1 := s.r[r + 1]])
  }
  function Bump(s: Cpu, p: Ptr): Cpu { s.(r := SetPair(s.r, Low(p), Plus(Pair(s.r, Low(p)), 1))) }
  function ClearBit(x: byte, b: nat): (y: byte) { if b < 8 && Bit(x, b) then Cleared(x, Pow2(b)) else x }
  function Cleared(x: byte, m: nat): byte { if x >= m then x - m else x }
  function ClearIoBit(w: World, a: byte, b: nat): World {
    w.(io := w.io.(regs := w.io.regs[a := ClearBit(w.io.regs[a], b)]))
  }

  function Do(i: Instr, s: Cpu): Cpu {
    match i
    case Push(d) => s.(stack := Top(s.r[d], s.stack))
    case Pop(d) => DoPop(s, d)
    case InSreg(d) => SetReg(s, d, Pack(s.f))
    case OutSreg(d) => s.(f := Unpack(s.r[d]))
    case InIo(d, a) => SetReg(s, d, s.w.io.regs[a])
    case OutIo(a, d) => DoStore(s, a, s.r[d])
    case Ldi(d, k) => SetReg(s, d, k)
    case Mov(d, r) => SetReg(s, d, s.r[r])
    case Movw(d, r) => DoMovw(s, d, r)
    case Add(d, r) => DoAdd(s, d, s.r[d], s.r[r], false)
    case Adc(d, r) => DoAdd(s, d, s.r[d], s.r[r], s.f.c)
    case Subi(d, k) => DoSub(s, d, s.r[d], k, false, true)
    case Sbci(d, k) => DoSub(s, d, s.r[d], k, s.f.c, s.f.z)
    case Adiw(d, k) => DoAdiw(s, d, k)
    case Sbiw(d, k) => DoSbiw(s, d, k)
    case Cp(d, r) => s.(f := SubFlags(s.f, s.r[d], s.r[r], false, true))
    case Lsr(d) => DoLsr(s, d)
    case Andi(d, k) => DoLogic(s, d, AndByte(s.r[d], k))
    case Ori(d, k) => DoLogic(s, d, OrByte(s.r[d], k))
    case OrR(d, r) => DoLogic(s, d, OrByte(s.r[d], s.r[r]))
    case Clr(d) => DoLogic(s, d, 0)
    case Ldd(d, p, q) => DoLoad(s, d, Plus(Pair(s.r, Low(p)), q))
    case LdInc(d, p) => DoLoad(Bump(s, p), d, Pair(s.r, Low(p)))
    case Std(p, q, r) => DoStore(s, Plus(Pair(s.r, Low(p)), q), s.r[r])
    case Set => s.(f := s.f.(t := true))
    case Clt => s.(f := s.f.(t := false))
    case Cbi(a, b) => s.(w := ClearIoBit(s.w, a, b))
    case _ => s
  }

  /** The first n instructions of a straight block. */
  function Exec(b: seq<Instr>, n: nat, s: Cpu): Cpu
    requires n <= |b|
    decreases n
  {
    if n == 0 then s else Do(b[n - 1], Exec(b, n - 1, s))
  }

  function ExecAll(b: seq<Instr>, s: Cpu): Cpu { Exec(b, |b|, s) }

  /** A routine as the pieces of code between its labels, and what calling the function at an address does. */
  datatype Program = Program(pieces: seq<seq<Instr>>, call: (word, Cpu) -> Cpu)
  datatype Machine = Machine(pc: Pc, cpu: Cpu, called: seq<word>)

  /** Words of flash an instruction takes. */
  function Width(i: Instr): nat { if i.Jmp? then 2 else 1 }

  function Words(b: seq<Instr>): nat { if b == [] then 0 else Width(b[0]) + Words(b[1..]) }

  /** One instruction; past the last one of a piece the machine is at the next label.
      A machine that has left the routine stays as it is. */
  function Step(p: Program, m: Machine): Machine {
    match m.pc
    case At(l, k) =>
      if l >= |p.pieces| then m
      else if k >= |p.pieces[l]| then m.(pc := At(l + 1, 0))
      else Execute(p, m, p.pieces[l][k], At(l, k + 1), At(l, k + 2))
    case _ => m
  }

  function Execute(p: Program, m: Machine, i: Instr, next: Pc, skip: Pc): Machine {
    var s := m.cpu;
    match i
    case Rjmp(to) => m.(pc := to)
    case Jmp(to) => m.(pc := to)
    case Breq(to) => m.(pc := if s.f.z then to else next)
    case Brcs(to) => m.(pc := if s.f.c then to else next)
    case Brts(to) => m.(pc := if s.f.t then to else next)
    case Cpse(d, r) => m.(pc := if s.r[d] == s.r[r] then skip else next)
    case Sbrc(d, b) => m.(pc := if Bit(s.r[d], b) then next else skip)
    case Icall => Machine(next, p.call(Pair(s.r, 30), s), m.called + [Pair(s.r, 30)])
    case Reti => m.(pc := Returned)
    case _ => m.(pc := next, cpu := Do(i, s))
  }

  function Run(p: Program, m: Machine, n: nat): Machine
    decreases n
  {
    if n == 0 then m else Run(p, Step(p, m), n - 1)
  }

  // What a run loads from data memory.

  /** The addresses that an instruction loads from. */
  function Loads(i: Instr, s: Cpu): seq<word> {
    match i
    case Ldd(_, x, o) => [Plus(Pair(s.r, Low(x)), o)]
    case LdInc(_, x) => [Pair(s.r, Low(x))]
    case _ => []
  }

  /** ... and that the next step does. What a called function loads is not recorded. */
  function StepLoads(p: Program, m: Machine): seq<word> {
    match m.pc
    case At(l, k) => if l < |p.pieces| && k < |p.pieces[l]| then Loads(p.pieces[l][k], m.cpu) else []
    case _ => []
  }

  function RunLoads(p: Program, m: Machine, n: nat): seq<word>
    decreases n
  {
    if n == 0 then [] else StepLoads(p, m) + RunLoads(p, Step(p, m), n - 1)
  }

  /** m comes to m' with exactly these loads on the way, in this order. */
  ghost predicate Comes(p: Program, m: Machine, a: seq<word>, m': Machine) {
    exists n: nat :: Run(p, m, n) == m' && RunLoads(p, m, n) == a
  }

  ghost predicate Reaches(p: Program, m: Machine, m': Machine) {
    exists a :: Comes(p, m, a, m')
  }

  lemma {:induction false} RunAdd(p: Program, m: Machine, a: nat, b: nat)
    ensures Run(p, m, a + b) == Run(p, Run(p, m, a), b)
    ensures RunLoads(p, m, a + b) == RunLoads(p, m, a) + RunLoads(p, Run(p, m, a), b)
    decreases a
  {
    hide Step, StepLoads;
    if a == 0 {
      assert [] + RunLoads(p, m, b) == RunLoads(p, m, b);
    } else {
      var m1 := Step(p, m);
      RunAdd(p, m1, a - 1, b);
      assert Run(p, m, a) == Run(p, m1, a - 1) && Run(p, m, a + b) == Run(p, m1, a - 1 + b);
      Concat(StepLoads(p, m), RunLoads(p, m1, a - 1), RunLoads(p, Run(p, m1, a - 1), b));
    }
  }

  lemma ComesTrans(p: Program, m: Machine, a: seq<word>, m1: Machine, b: seq<word>, m2: Machine)
    requires Comes(p, m, a, m1) && Comes(p, m1, b, m2)
    ensures Comes(p, m, a + b, m2)
  {
    var n: nat :| Run(p, m, n) == m1 && RunLoads(p, m, n) == a;
    var k: nat :| Run(p, m1, k) == m2 && RunLoads(p, m1, k) == b;
    RunAdd(p, m, n, k);
  }

  /** Going on without loads. */
  lemma ComesOn(p: Program, m: Machine, a: seq<word>, m1: Machine, m2: Machine)
    requires Comes(p, m, a, m1) && Comes(p, m1, [], m2)
    ensures Comes(p, m, a, m2)
  {
    ComesTrans(p, m, a, m1, [], m2);
    assert a + [] == a;
  }

  lemma ReachesTrans(p: Program, a: Machine, b: Machine, c: Machine)
    requires Reaches(p, a, b) && Reaches(p, b, c)
    ensures Reaches(p, a, c)
  {
    var x :| Comes(p, a, x, b);
    var y :| Comes(p, b, y, c);
    ComesTrans(p, a, x, b, y, c);
  }

  lemma ComesStep(p: Program, m: Machine)
    ensures Comes(p, m, StepLoads(p, m), Step(p, m))
  {
    assert Run(p, m, 1) == Step(p, m);
    assert RunLoads(p, m, 1) == StepLoads(p, m) + RunLoads(p, Step(p, m), 0);
  }

  lemma ComesSelf(p: Program, m: Machine)
    ensures Comes(p, m, [], m) && Reaches(p, m, m)
  {
    assert Run(p, m, 0) == m && RunLoads(p, m, 0) == [];
    assert Comes(p, m, [], m);
  }

  /** The loads of the first n instructions of a straight block. */
  function ExecLoads(b: seq<Instr>, n: nat, s: Cpu): seq<word>
    requires n <= |b|
    decreases n
  {
    if n == 0 then [] else ExecLoads(b, n - 1, s) + Loads(b[n - 1], Exec(b, n - 1, s))
  }

  predicate LoadsNothing(b: seq<Instr>) { forall k :: 0 <= k < |b| ==> !b[k].Ldd? && !b[k].LdInc? }

  predicate SilentAt(ps: seq<seq<Instr>>, l: nat, n: nat) {
    l + n <= |ps| && forall k :: l <= k < l + n ==> LoadsNothing(ps[k])
  }

  lemma {:induction false} NoLoads(b: seq<Instr>, n: nat, s: Cpu)
    requires n <= |b| && forall k :: 0 <= k < n ==> !b[k].Ldd? && !b[k].LdInc?
    ensures ExecLoads(b, n, s) == []
    decreases n
  {
    hide Exec;
    if n != 0 {
      NoLoads(b, n - 1, s);
      assert Loads(b[n - 1], Exec(b, n - 1, s)) == [];
    }
  }

  lemma StepStraight(p: Program, m: Machine, l: nat, k: nat)
    requires m.pc == At(l, k) && l < |p.pieces| && k < |p.pieces[l]| && Straight(p.pieces[l][k])
    ensures Step(p, m) == m.(pc := At(l, k + 1), cpu := Do(p.pieces[l][k], m.cpu))
    ensures StepLoads(p, m) == Loads(p.pieces[l][k], m.cpu)
  {
    hide Do, Loads;
  }

  /** The first n instructions of a straight piece. */
  lemma {:induction false} ComesInto(p: Program, m: Machine, l: nat, n: nat)
    requires m.pc == At(l, 0) && l < |p.pieces| && n <= |p.pieces[l]| && AllStraight(p.pieces[l])
    ensures Comes(p, m, ExecLoads(p.pieces[l], n, m.cpu), m.(pc := At(l, n), cpu := Exec(p.pieces[l], n, m.cpu)))
    decreases n
  {
    hide Comes, Step, StepLoads, Loads, Do;
    if n == 0 {
      ComesSelf(p, m);
    } else {
      ComesInto(p, m, l, n - 1);
      var m1 := m.(pc := At(l, n - 1), cpu := Exec(p.pieces[l], n - 1, m.cpu));
      StepStraight(p, m1, l, n - 1);
      ComesStep(p, m1);
      ComesTrans(p, m, ExecLoads(p.pieces[l], n - 1, m.cpu), m1, StepLoads(p, m1), Step(p, m1));
    }
  }

  /** A straight piece runs from its label to the next one. */
  lemma ComesNext(p: Program, m: Machine, l: nat)
    requires m.pc == At(l, 0) && l < |p.pieces| && AllStraight(p.pieces[l])
    ensures Comes(p, m, ExecLoads(p.pieces[l], |p.pieces[l]|, m.cpu), m.(pc := At(l + 1, 0), cpu := ExecAll(p.pieces[l], m.cpu)))
  {
    hide Comes, Exec, ExecLoads, Do;
    var b := p.pieces[l];
    ComesInto(p, m, l, |b|);
    var m1 := m.(pc := At(l, |b|), cpu := Exec(b, |b|, m.cpu));
    ComesStep(p, m1);
    ComesOn(p, m, ExecLoads(b, |b|, m.cpu), m1, Step(p, m1));
  }

  lemma ComesSilently(p: Program, m: Machine, l: nat)
    requires m.pc == At(l, 0) && l < |p.pieces| && AllStraight(p.pieces[l]) && LoadsNothing(p.pieces[l])
    ensures Comes(p, m, [], m.(pc := At(l + 1, 0), cpu := ExecAll(p.pieces[l], m.cpu)))
  {
    ComesNext(p, m, l);
    NoLoads(p.pieces[l], |p.pieces[l]|, m.cpu);
  }

  lemma ReachesNext(p: Program, m: Machine, l: nat)
    requires m.pc == At(l, 0) && l < |p.pieces| && AllStraight(p.pieces[l])
    ensures Reaches(p, m, m.(pc := At(l + 1, 0), cpu := ExecAll(p.pieces[l], m.cpu)))
  {
    ComesNext(p, m, l);
  }

  // Control instructions, one step each; none of them loads.

  ghost predicate Goes(p: Program, m: Machine, m': Machine) { Comes(p, m, [], m') && Reaches(p, m, m') }

  predicate Here(p: Program, m: Machine, l: nat, k: nat, i: Instr) {
    m.pc == At(l, k) && l < |p.pieces| && k < |p.pieces[l]| && p.pieces[l][k] == i
  }

  lemma ReachesJump(p: Program, m: Machine, l: nat, k: nat, i: Instr)
    requires Here(p, m, l, k, i) && (i.Rjmp? || i.Jmp?)
    ensures Goes(p, m, m.(pc := i.to))
  {
    ComesStep(p, m);
  }

  lemma ReachesBranch(p: Program, m: Machine, l: nat, k: nat, i: Instr)
    requires Here(p, m, l, k, i) && (i.Brts? || i.Breq? || i.Brcs?)
    ensures var yes := if i.Brts? then m.cpu.f.t else if i.Breq? then m.cpu.f.z else m.cpu.f.c;
            Goes(p, m, m.(pc := if yes then i.to else At(l, k + 1)))
  {
    ComesStep(p, m);
  }

  lemma ReachesSkip(p: Program, m: Machine, l: nat, k: nat, i: Instr)
    requires Here(p, m, l, k, i) && (i.Cpse? || i.Sbrc?)
    ensures var yes := if i.Cpse? then m.cpu.r[i.d] == m.cpu.r[i.s] else !Bit(m.cpu.r[i.d], i.b);
            Goes(p, m, m.(pc := At(l, if yes then k + 2 else k + 1)))
  {
    ComesStep(p, m);
  }

  lemma ReachesCall(p: Program, m: Machine, l: nat, k: nat)
    requires Here(p, m, l, k, Icall)
    ensures var f := Pair(m.cpu.r, 30); Goes(p, m, Machine(At(l, k + 1), p.call(f, m.cpu), m.called + [f]))
  {
    ComesStep(p, m);
  }

  lemma ReachesReturn(p: Program, m: Machine, l: nat, k: nat)
    requires Here(p, m, l, k, Reti)
    ensures Goes(p, m, m.(pc := Returned))
  {
    ComesStep(p, m);
  }

  lemma ReachesEnd(p: Program, m: Machine, l: nat)
    requires l < |p.pieces| && m.pc == At(l, |p.pieces[l]|)
    ensures Goes(p, m, m.(pc := At(l + 1, 0)))
  {
    ComesStep(p, m);
  }

  /** n pieces one after the other. */
  function ExecPieces(ps: seq<seq<Instr>>, l: nat, n: nat, s: Cpu): Cpu
    requires l + n <= |ps|
    decreases n
  {
    if n == 0 then s else ExecAll(ps[l + n - 1], ExecPieces(ps, l, n - 1, s))
  }

  lemma {:induction false} ReachesPieces(p: Program, m: Machine, l: nat, n: nat)
    requires m.pc == At(l, 0) && l + n <= |p.pieces|
    requires forall k :: l <= k < l + n ==> AllStraight(p.pieces[k])
    ensures Reaches(p, m, m.(pc := At(l + n, 0), cpu := ExecPieces(p.pieces, l, n, m.cpu)))
    decreases n
  {
    hide Reaches, Comes, Exec, AllStraight;
    if n == 0 {
      ComesSelf(p, m);
    } else {
      ReachesPieces(p, m, l, n - 1);
      OnePieceMore(p, m, m.(pc := At(l + n - 1, 0), cpu := ExecPieces(p.pieces, l, n - 1, m.cpu)), l + n - 1);
    }
  }

  lemma OnePieceMore(p: Program, m: Machine, m1: Machine, l: nat)
    requires Reaches(p, m, m1) && m1.pc == At(l, 0) && l < |p.pieces| && AllStraight(p.pieces[l])
    ensures Reaches(p, m, m1.(pc := At(l + 1, 0), cpu := ExecAll(p.pieces[l], m1.cpu)))
  {
    hide Reaches, Comes, Exec;
    ReachesNext(p, m1, l);
    ReachesTrans(p, m, m1, m1.(pc := At(l + 1, 0), cpu := ExecAll(p.pieces[l], m1.cpu)));
  }

  lemma {:induction false} ComesPieces(p: Program, m: Machine, l: nat, n: nat)
    requires m.pc == At(l, 0) && StraightAt(p.pieces, l, n) && SilentAt(p.pieces, l, n)
    ensures Comes(p, m, [], m.(pc := At(l + n, 0), cpu := ExecPieces(p.pieces, l, n, m.cpu)))
    decreases n
  {
    hide Comes, Exec, AllStraight, LoadsNothing;
    if n == 0 {
      ComesSelf(p, m);
    } else {
      ComesPieces(p, m, l, n - 1);
      OneMoreSilently(p, m, m.(pc := At(l + n - 1, 0), cpu := ExecPieces(p.pieces, l, n - 1, m.cpu)), l + n - 1);
    }
  }

  lemma OneMoreSilently(p: Program, m: Machine, m1: Machine, l: nat)
    requires Comes(p, m, [], m1) && m1.pc == At(l, 0) && l < |p.pieces| && AllStraight(p.pieces[l]) && LoadsNothing(p.pieces[l])
    ensures Comes(p, m, [], m1.(pc := At(l + 1, 0), cpu := ExecAll(p.pieces[l], m1.cpu)))
  {
    hide Comes, Exec;
    ComesSilently(p, m1, l);
    ComesOn(p, m, [], m1, m1.(pc := At(l + 1, 0), cpu := ExecAll(p.pieces[l], m1.cpu)));
  }

  // Loads and stores whose address is known to be in RAM or in the I/O space.

  lemma LddRam(d: Reg, x: Ptr, o: byte, s: Cpu)
    requires 0x1000 <= Pair(s.r, Low(x)) && Pair(s.r, Low(x)) + o < 0x1_0000
    ensures Do(Ldd(d, x, o), s) == s.(r := s.r[d := s.w.mem[Pair(s.r, Low(x)) + o]])
  {
  }

  lemma LddIo(d: Reg, x: Ptr, o: byte, s: Cpu)
    requires Pair(s.r, Low(x)) + o < 0x1000
    ensures Do(Ldd(d, x, o), s) ==
            s.(r := s.r[d := IoRead(s.w.io, Pair(s.r, Low(x)) + o)],
               w := s.w.(io := IoAfterRead(s.w.io, Pair(s.r, Low(x)) + o)))
  {
  }

  lemma StdRam(x: Ptr, o: byte, d: Reg, s: Cpu)
    requires 0x1000 <= Pair(s.r, Low(x)) && Pair(s.r, Low(x)) + o < 0x1_0000
    ensures Do(Std(x, o, d), s) == s.(w := s.w.(mem := s.w.mem[Pair(s.r, Low(x)) + o := s.r[d]]))
  {
  }

  lemma StdIo(x: Ptr, o: byte, d: Reg, s: Cpu)
    requires Pair(s.r, Low(x)) + o < 0x1000
    ensures Do(Std(x, o, d), s) == s.(w := s.w.(io := IoWrite(s.w.io, Pair(s.r, Low(x)) + o, s.r[d])))
  {
  }

  // Short blocks written out.

  lemma Exec2(b: seq<Instr>, s: Cpu)
    requires |b| >= 2
    ensures Exec(b, 2, s) == Do(b[1], Do(b[0], s))
  {
    assert Exec(b, 1, s) == Do(b[0], s);
  }

  lemma Exec3(b: seq<Instr>, s: Cpu)
    requires |b| >= 3
    ensures Exec(b, 3, s) == Do(b[2], Do(b[1], Do(b[0], s)))
  {
    Exec2(b, s);
  }

  lemma Exec4(b: seq<Instr>, s: Cpu)
    requires |b| >= 4
    ensures Exec(b, 4, s) == Do(b[3], Do(b[2], Do(b[1], Do(b[0], s))))
  {
    Exec3(b, s);
  }

  lemma Exec5(b: seq<Instr>, s: Cpu)
    requires |b| >= 5
    ensures Exec(b, 5, s) == Do(b[4], Do(b[3], Do(b[2], Do(b[1], Do(b[0], s)))))
  {
    Exec4(b, s);
  }

  /** ADD of an index to the low byte of a pointer, ADC of zero to its high byte. */
  lemma AddIndex(d: PairReg, i: Reg, z: Reg, s: Cpu)
    requires s.r[z] == 0 && z != d && z != d + 1 && Pair(s.r, d) + s.r[i] < 0x1_0000
    ensures var t := Do(Adc(d + 1, z), Do(Add(d, i), s));
            && t == t.(w := s.w, stack := s.stack)
            && t.r == SetPair(s.r, d, Pair(s.r, d) + s.r[i])
            && t.f.t == s.f.t
  {
    var s1 := Do(Add(d, i), s);
    var t := Do(Adc(d + 1, z), s1);
    CarryIntoHigh(s.r[d + 1], s.r[d], s.r[i], s.f);
    assert t.r == s.r[d := s1.r[d]][d + 1 := t.r[d + 1]];
  }

  lemma CarryIntoHigh(hi: byte, lo: byte, i: byte, f: Sreg)
    requires Word(hi, lo) + i < 0x1_0000
    ensures Sum(lo, i, false) == Lo(Word(hi, lo) + i)
    ensures Sum(hi, 0, AddFlags(f, lo, i, false).c) == Hi(Word(hi, lo) + i)
  {
  }

  /** SUBI and SBCI of the two bytes of 0x10000 - k add k to a pointer. */
  lemma SubtractToAdd(d: PairReg, lo: byte, hi: byte, s: Cpu)
    requires Pair(s.r, d) + (0x1_0000 - Word(hi, lo)) < 0x1_0000
    ensures var t := Do(Sbci(d + 1, hi), Do(Subi(d, lo), s));
            && t == t.(w := s.w, stack := s.stack)
            && t.r == SetPair(s.r, d, Pair(s.r, d) + (0x1_0000 - Word(hi, lo)))
            && t.f.t == s.f.t
  {
    var s1 := Do(Subi(d, lo), s);
    var t := Do(Sbci(d + 1, hi), s1);
    BorrowFromHigh(s.r[d + 1], s.r[d], hi, lo, s.f);
    assert t.r == s.r[d := s1.r[d]][d + 1 := t.r[d + 1]];
  }

  lemma BorrowFromHigh(ah: byte, al: byte, bh: byte, bl: byte, f: Sreg)
    requires Word(ah, al) < Word(bh, bl)
    ensures Diff(al, bl, false) == Lo(Word(ah, al) + (0x1_0000 - Word(bh, bl)))
    ensures Diff(ah, bh, SubFlags(f, al, bl, false, true).c) == Hi(Word(ah, al) + (0x1_0000 - Word(bh, bl)))
  {
  }
}
