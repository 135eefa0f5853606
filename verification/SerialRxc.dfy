/** `_do_rxc`: the receive-complete interrupt in assembly, for every supported receive buffer size. */
module SerialRxc {
  import opened Bits
  import opened Avr
  import opened SerialObject
  import opened SerialAsm

  const ENTRY: seq<Instr> := [Push(18), InSreg(18), Push(18), Push(19), Push(24), Push(25), Push(28), Push(29)]
  const MODULE_IN_Y: seq<Instr> := [Ldd(28, Z, 8), Ldi(29, 0x08)]
  const READ: seq<Instr> := [Ldd(24, Y, 1), Ldd(25, Y, 0)]
  const ERRORS: seq<Instr> := [Andi(24, 0x46), Add(24, 24), Ldd(19, Z, 12), OrR(19, 24)]
  const HEAD: seq<Instr> := [Ldd(28, Z, 13), Ldi(24, 1), Add(24, 28)]
  const TAIL: seq<Instr> := [Ldd(18, Z, 14), Cp(18, 24)]
  const SLOT: seq<Instr> := [Add(28, 30), Mov(29, 31), Ldi(18, 0), Adc(29, 18)]
  const STORE: seq<Instr> := [Std(Y, 17, 25), Std(Z, 13, 24)]
  const STATE_BACK: seq<Instr> := [Std(Z, 12, 19)]
  const LEAVE: seq<Instr> := [Pop(29), Pop(28), Pop(25), Pop(24), Pop(19), Pop(18), OutSreg(18), Pop(18), Pop(31), Pop(30)]
  const FULL: seq<Instr> := [Ori(19, 0x40)]

  /** Parts whose start-of-frame detection corrupts data turn its interrupt off first. */
  function QuietSfd(sfd: bool): seq<Instr> { if sfd then [Ldd(18, Y, 6), Andi(18, 0xEF), Std(Y, 6, 18)] else [] }

  /** The same in terms of the world. */
  function SfdQuieted(sfd: bool, w: World): World
    requires w.io.usart < 0xFF0
  {
    if sfd then Poke(w, w.io.usart + CTRLB, AndByte(Peek(w, w.io.usart + CTRLB), 0xEF)) else w
  }

  /** Every register that is not on the stack is as it was, and Z still points at the object. */
  predicate Kept(a: Regs, b: Regs) {
    forall d :: 0 <= d < 32 && d !in [18, 19, 24, 25, 28, 29] ==> a[d] == b[d]
  }

  predicate Like(s: Cpu, t: Cpu) { Kept(s.r, t.r) && s.stack == t.stack }

  lemma ModuleDoes(b: seq<Instr>, s: Cpu)
    requires b == MODULE_IN_Y && 0x1000 <= Pair(s.r, 30) <= 0xFFCF
    ensures var t := Exec(b, 2, s);
            Like(s, t) && t.w == s.w && Pair(t.r, 28) == Word(8, s.w.mem[Pair(s.r, 30) + 8])
  {
    Exec2(b, s);
    LddRam(28, Z, 8, s);
  }

  lemma SfdDoes(b: seq<Instr>, sfd: bool, s: Cpu)
    requires b == QuietSfd(sfd) && Pair(s.r, 28) == s.w.io.usart <= 0x8F0
    ensures var t := Exec(b, |b|, s);
            Like(s, t) && t.w == SfdQuieted(sfd, s.w) && Pair(t.r, 28) == Pair(s.r, 28)
  {
    if sfd { QuietDoes(b, s); }
  }

  lemma QuietDoes(b: seq<Instr>, s: Cpu)
    requires b == [Ldd(18, Y, 6), Andi(18, 0xEF), Std(Y, 6, 18)] && Pair(s.r, 28) == s.w.io.usart <= 0x8F0
    ensures var t := Exec(b, 3, s); var u := s.w.io.usart;
            Like(s, t) && t.w == Poke(s.w, u + CTRLB, AndByte(Peek(s.w, u + CTRLB), 0xEF)) && Pair(t.r, 28) == u
  {
    Exec3(b, s);
    LddIo(18, Y, 6, s);
    StdIo(Y, 6, 18, Do(Andi(18, 0xEF), Do(Ldd(18, Y, 6), s)));
  }

  lemma ReadDoes(b: seq<Instr>, s: Cpu)
    requires b == READ && Pair(s.r, 28) == s.w.io.usart <= 0x8F0
    ensures var t := Exec(b, 2, s); var u := s.w.io.usart;
            && Like(s, t) && t.w == AfterPeek(s.w, u + RXDATAL)
            && t.r[24] == Peek(s.w, u + RXDATAH) && t.r[25] == Peek(s.w, u + RXDATAL)
  {
    Exec2(b, s);
    LddIo(24, Y, 1, s);
    LddIo(25, Y, 0, Do(Ldd(24, Y, 1), s));
  }

  lemma ErrorsDo(b: seq<Instr>, s: Cpu)
    requires b == ERRORS && 0x1000 <= Pair(s.r, 30) <= 0xFFCF
    ensures var t := Exec(b, 4, s);
            && Like(s, t) && t.w == s.w && t.r[25] == s.r[25]
            && t.r[24] == 2 * AndByte(s.r[24], 0x46)
            && t.r[19] == OrByte(s.w.mem[Pair(s.r, 30) + 12], 2 * AndByte(s.r[24], 0x46))
  {
    Exec4(b, s);
    LddRam(19, Z, 12, Do(Add(24, 24), Do(Andi(24, 0x46), s)));
  }

  /** SBRC looks at bit 2 of the shifted bits, which is the parity error bit of RXDATAH. */
  lemma ParityBit(h: byte)
    ensures Bit(2 * AndByte(h, 0x46), 2) == Bit(h, 1)
  {
    var x := And(h, 0x46);
    assert 2 * x / 2 == x;
    BitAnd(h, 0x46, 1);
    assert Bit(0x46, 1);
  }

  lemma HeadDoes(b: seq<Instr>, s: Cpu)
    requires b == HEAD && 0x1000 <= Pair(s.r, 30) <= 0xFFCF
    ensures var t := Exec(b, 3, s); var head := s.w.mem[Pair(s.r, 30) + 13];
            && Like(s, t) && t.w == s.w && t.r[25] == s.r[25] && t.r[19] == s.r[19]
            && t.r[28] == head && t.r[24] == if head == 255 then 0 else head + 1
  {
    Exec3(b, s);
    LddRam(28, Z, 13, s);
  }

  lemma TailDoes(b: seq<Instr>, s: Cpu)
    requires b == TAIL && 0x1000 <= Pair(s.r, 30) <= 0xFFCF
    ensures var t := Exec(b, 2, s);
            && Like(s, t) && t.w == s.w && t.r[19] == s.r[19] && t.r[24] == s.r[24] && t.r[25] == s.r[25] && t.r[28] == s.r[28]
            && t.f.z == (s.w.mem[Pair(s.r, 30) + 14] == s.r[24])
  {
    Exec2(b, s);
    LddRam(18, Z, 14, s);
  }

  lemma CarryIntoHighSwapped(hi: byte, lo: byte, i: byte, f: Sreg)
    requires Word(hi, lo) + i < 0x1_0000
    ensures Word(Sum(hi, 0, AddFlags(f, i, lo, false).c), Sum(i, lo, false)) == Word(hi, lo) + i
  {
  }

  lemma SlotDoes(b: seq<Instr>, s: Cpu)
    requires b == SLOT && Pair(s.r, 30) + s.r[28] < 0x1_0000
    ensures var t := Exec(b, 4, s);
            && Like(s, t) && t.w == s.w && t.r[24] == s.r[24] && t.r[25] == s.r[25] && t.r[19] == s.r[19]
            && Pair(t.r, 28) == Pair(s.r, 30) + s.r[28]
  {
    Exec4(b, s);
    CarryIntoHighSwapped(s.r[31], s.r[30], s.r[28], s.f);
  }

  lemma StoreDoes(b: seq<Instr>, s: Cpu)
    requires b == STORE && 0x1000 <= Pair(s.r, 30) <= 0xFFCF && 0x1000 <= Pair(s.r, 28) <= 0xFFEE
    ensures var t := Exec(b, 2, s);
            && Like(s, t) && t.r == s.r
            && t.w == s.w.(mem := s.w.mem[Pair(s.r, 28) + 17 := s.r[25]][Pair(s.r, 30) + 13 := s.r[24]])
  {
    Exec2(b, s);
    StdRam(Y, 17, 25, s);
    StdRam(Z, 13, 24, Do(Std(Y, 17, 25), s));
  }

  lemma StateDoes(b: seq<Instr>, s: Cpu)
    requires b == STATE_BACK && 0x1000 <= Pair(s.r, 30) <= 0xFFCF
    ensures Exec(b, 1, s) == s.(w := s.w.(mem := s.w.mem[Pair(s.r, 30) + 12 := s.r[19]]))
  {
    StdRam(Z, 12, 19, s);
    assert Exec(b, 1, s) == Do(Std(Z, 12, 19), s);
  }

  lemma FullDoes(b: seq<Instr>, s: Cpu)
    requires b == FULL
    ensures var t := Exec(b, 1, s);
            Like(s, t) && t.w == s.w && t.r[19] == OrByte(s.r[19], 0x40)
  {
    assert Exec(b, 1, s) == Do(Ori(19, 0x40), s);
  }

  lemma EntryDoes(b: seq<Instr>, s: Cpu)
    requires b == ENTRY
    ensures Exec(b, 8, s) == s.(r := s.r[18 := Pack(s.f)],
      stack := Top(s.r[29], Top(s.r[28], Top(s.r[25], Top(s.r[24], Top(s.r[19], Top(Pack(s.f), Top(s.r[18], s.stack))))))))
  {
    Exec5(b, s);
    assert Exec(b, 8, s) == Do(Push(29), Do(Push(28), Do(Push(25), Exec(b, 5, s))));
  }

  lemma LeaveDoes(b: seq<Instr>, s: Cpu, f: Sreg, r: Regs, rest: Stack)
    requires b == LEAVE
    requires s.stack == Top(r[29], Top(r[28], Top(r[25], Top(r[24], Top(r[19], Top(Pack(f), Top(r[18], Top(r[31], Top(r[30], rest)))))))))
    ensures var t := Exec(b, 10, s);
            && t.f == f && t.stack == rest && t.w == s.w
            && t.r == s.r[29 := r[29]][28 := r[28]][25 := r[25]][24 := r[24]][19 := r[19]][18 := Pack(f)][18 := r[18]][31 := r[31]][30 := r[30]]
  {
    Exec5(b, s);
    UnpackPack(f);
    assert Exec(b, 10, s) == Do(Pop(30), Do(Pop(31), Do(Pop(18), Do(OutSreg(18), Do(Pop(18), Exec(b, 5, s))))));
  }

  // Labels.
  const DO_RXC := At(2, 0)
  const END_RXC := At(14, 0)
  const BUFF_FULL_RXC := At(17, 0)

  /** The interrupt stub of UART0.cpp followed by _do_rxc. */
  function Pieces(o: Obj, big: bool, sfd: bool): seq<seq<Instr>> {
    [ Stub(o.base),
      [Jump(big, DO_RXC)],
      ENTRY,
      MODULE_IN_Y, QuietSfd(sfd), READ, ERRORS,
      [Sbrc(24, 2), Rjmp(END_RXC)],
      HEAD, Wrap(24, o.rx), TAIL,
      [Breq(BUFF_FULL_RXC)],
      SLOT, STORE,
      STATE_BACK,
      LEAVE,
      [Reti],
      FULL,
      [Rjmp(END_RXC)] ]
  }

  ghost predicate Text(ps: seq<seq<Instr>>, o: Obj, sfd: bool) {
    && |ps| == 19 && ps[0] == Stub(o.base) && ps[2] == ENTRY && ps[3] == MODULE_IN_Y && ps[4] == QuietSfd(sfd) && ps[5] == READ && ps[6] == ERRORS
    && ps[8] == HEAD && ps[9] == Wrap(24, o.rx) && ps[10] == TAIL && ps[12] == SLOT && ps[13] == STORE
    && ps[14] == STATE_BACK && ps[15] == LEAVE && ps[17] == FULL
  }

  ghost predicate Shape(ps: seq<seq<Instr>>, big: bool) {
    && |ps| == 19 && ps[1] == [Jump(big, DO_RXC)] && ps[7] == [Sbrc(24, 2), Rjmp(END_RXC)] && ps[11] == [Breq(BUFF_FULL_RXC)]
    && ps[16] == [Reti] && ps[18] == [Rjmp(END_RXC)]
    && StraightAt(ps, 0, 1) && StraightAt(ps, 2, 5) && StraightAt(ps, 8, 3) && StraightAt(ps, 12, 4) && StraightAt(ps, 17, 1)
  }

  predicate AtObject(o: Obj, s: Cpu) { ValidObj(o, s.w) && Pair(s.r, 30) == o.base }

  // The routine on one CPU state, path by path.

  function UpToErrors(ps: seq<seq<Instr>>, s: Cpu): Cpu
    requires |ps| == 19
  {
    ExecAll(ps[6], ExecAll(ps[5], ExecAll(ps[4], ExecAll(ps[3], s))))
  }

  function UpToTail(ps: seq<seq<Instr>>, t: Cpu): Cpu
    requires |ps| == 19
  {
    ExecAll(ps[10], ExecAll(ps[9], ExecAll(ps[8], t)))
  }

  function Middle(ps: seq<seq<Instr>>, t: Cpu): Cpu
    requires |ps| == 19
  {
    if Bit(t.r[24], 2) then t
    else
      var t' := UpToTail(ps, t);
      if t'.f.z then ExecAll(ps[17], t') else ExecAll(ps[13], ExecAll(ps[12], t'))
  }

  function Body(ps: seq<seq<Instr>>, s: Cpu): Cpu
    requires |ps| == 19
  {
    ExecAll(ps[14], Middle(ps, UpToErrors(ps, s)))
  }

  lemma LikeTrans(a: Cpu, b: Cpu, c: Cpu)
    requires Like(a, b) && Like(b, c)
    ensures Like(a, c) && Pair(c.r, 30) == Pair(a.r, 30)
  {
  }

  /** Quieting start-of-frame detection touches neither memory nor the receive FIFO. */
  lemma SfdKeeps(o: Obj, sfd: bool, w: World)
    requires ValidObj(o, w)
    ensures var w' := SfdQuieted(sfd, w);
            ValidObj(o, w') && w'.mem == w.mem && w'.io.usart == w.io.usart <= 0x8F0 && 0x1000 <= o.base <= 0xFFCF
  {
  }

  lemma ErrorsCollected(ps: seq<seq<Instr>>, o: Obj, sfd: bool, s: Cpu)
    requires Text(ps, o, sfd) && AtObject(o, s)
    ensures var t := UpToErrors(ps, s); var w := SfdQuieted(sfd, s.w); var u := w.io.usart;
            && Like(s, t) && Pair(t.r, 30) == o.base && ValidObj(o, w) && t.w == AfterPeek(w, u + RXDATAL)
            && t.r[25] == Peek(w, u + RXDATAL) && t.r[24] == 2 * AndByte(Peek(w, u + RXDATAH), 0x46)
            && t.r[19] == OrByte(s.w.mem[o.base + 12], t.r[24])
  {
    hide Exec, SfdQuieted, AndByte, OrByte;
    SfdKeeps(o, sfd, s.w);
    ModuleDoes(ps[3], s);
    var s1 := ExecAll(ps[3], s);
    SfdDoes(ps[4], sfd, s1);
    var s2 := ExecAll(ps[4], s1);
    LikeTrans(s, s1, s2);
    ReadDoes(ps[5], s2);
    var s3 := ExecAll(ps[5], s2);
    LikeTrans(s, s2, s3);
    ErrorsDo(ps[6], s3);
    LikeTrans(s, s3, ExecAll(ps[6], s3));
  }

  lemma NextComputed(ps: seq<seq<Instr>>, o: Obj, sfd: bool, t: Cpu)
    requires Text(ps, o, sfd) && 0x1000 <= o.base <= 0xFFCF && Pair(t.r, 30) == o.base && t.w.mem[o.base + 13] < Bytes(o.rx)
    ensures var t' := ExecAll(ps[9], ExecAll(ps[8], t)); var head := t.w.mem[o.base + 13];
            && Like(t, t') && Pair(t'.r, 30) == o.base && t'.w == t.w && t'.r[25] == t.r[25] && t'.r[19] == t.r[19]
            && t'.r[28] == head && t'.r[24] == Next(o.rx, head)
  {
    HeadDoes(ps[8], t);
    var t1 := ExecAll(ps[8], t);
    WrapDoes(ps[9], 24, o.rx, t.w.mem[o.base + 13], t1);
    LikeTrans(t, t1, ExecAll(ps[9], t1));
  }

  lemma TailCompared(ps: seq<seq<Instr>>, o: Obj, sfd: bool, t: Cpu)
    requires Text(ps, o, sfd) && 0x1000 <= o.base <= 0xFFCF && Pair(t.r, 30) == o.base && t.w.mem[o.base + 13] < Bytes(o.rx)
    ensures var t' := UpToTail(ps, t); var head := t.w.mem[o.base + 13];
            && Like(t, t') && Pair(t'.r, 30) == o.base && t'.w == t.w && t'.r[25] == t.r[25] && t'.r[19] == t.r[19]
            && t'.r[28] == head && t'.r[24] == Next(o.rx, head)
            && t'.f.z == (t.w.mem[o.base + 14] == Next(o.rx, head))
  {
    NextComputed(ps, o, sfd, t);
    var t2 := ExecAll(ps[9], ExecAll(ps[8], t));
    TailDoes(ps[10], t2);
    LikeTrans(t, t2, ExecAll(ps[10], t2));
  }

  /** The byte goes into the slot at the head, and the head moves on. */
  lemma Stored(ps: seq<seq<Instr>>, o: Obj, sfd: bool, t: Cpu)
    requires Text(ps, o, sfd) && 0x1000 <= o.base && o.base + 17 + t.r[28] < 0x1_0000 && o.base <= 0xFFCF && Pair(t.r, 30) == o.base
    ensures var t' := ExecAll(ps[13], ExecAll(ps[12], t));
            && Like(t, t') && Pair(t'.r, 30) == o.base && t'.r[19] == t.r[19]
            && t'.w == t.w.(mem := t.w.mem[o.base + 17 + t.r[28] := t.r[25]][o.base + 13 := t.r[24]])
  {
    SlotDoes(ps[12], t);
    var t1 := ExecAll(ps[12], t);
    StoreDoes(ps[13], t1);
    LikeTrans(t, t1, ExecAll(ps[13], t1));
  }

  /** The three ways through the middle: parity error, ring full, byte stored. */
  lemma MiddleDoes(ps: seq<seq<Instr>>, o: Obj, sfd: bool, w: World, t: Cpu)
    requires Text(ps, o, sfd) && ValidObj(o, w) && o.base <= 0xFFCF && Pair(t.r, 30) == o.base
    requires var u := w.io.usart; var hi := Peek(w, u + RXDATAH);
             && t.w == AfterPeek(w, u + RXDATAL) && t.r[25] == Peek(w, u + RXDATAL)
             && t.r[24] == 2 * AndByte(hi, 0x46) && t.r[19] == OrByte(w.mem[o.base + 12], t.r[24])
    ensures var t' := Middle(ps, t);
            && Like(t, t') && Pair(t'.r, 30) == o.base
            && t'.w == RxCompleteIrq(o, w) && t'.r[19] == CollectErrors(o, w, w.mem[o.base + 12])
  {
    ParityBit(Peek(w, w.io.usart + RXDATAH));
    hide Exec, Or, And, Kept;
    if !Bit(t.r[24], 2) {
      TailCompared(ps, o, sfd, t);
      var t1 := UpToTail(ps, t);
      if t1.f.z {
        FullDoes(ps[17], t1);
        LikeTrans(t, t1, ExecAll(ps[17], t1));
      } else {
        Stored(ps, o, sfd, t1);
        LikeTrans(t, t1, Middle(ps, t));
      }
    }
  }

  lemma BodyDoes(ps: seq<seq<Instr>>, o: Obj, sfd: bool, s: Cpu)
    requires Text(ps, o, sfd) && AtObject(o, s)
    ensures var w := SfdQuieted(sfd, s.w); var w' := RxCompleteIrq(o, w);
            && ValidObj(o, w) && Like(s, Body(ps, s))
            && Body(ps, s).w == w'.(mem := w'.mem[o.base + STATE := CollectErrors(o, w, s.w.mem[o.base + STATE])])
  {
    SfdKeeps(o, sfd, s.w);
    ErrorsCollected(ps, o, sfd, s);
    var t := UpToErrors(ps, s);
    MiddleDoes(ps, o, sfd, SfdQuieted(sfd, s.w), t);
    var t1 := Middle(ps, t);
    LikeTrans(s, t, t1);
    StateDoes(ps[14], t1);
  }

  // The machine follows those paths.

  lemma EntryRuns(p: Program, big: bool, m: Machine)
    requires Shape(p.pieces, big) && m.pc == At(0, 0)
    ensures Reaches(p, m, m.(pc := At(3, 0), cpu := ExecAll(p.pieces[2], ExecAll(p.pieces[0], m.cpu))))
  {
    hide Exec, Comes, Reaches, AllStraight;
    var s1 := ExecAll(p.pieces[0], m.cpu);
    var m1, m2 := Machine(At(1, 0), s1, m.called), Machine(DO_RXC, s1, m.called);
    ReachesNext(p, m, 0);
    ReachesJump(p, m1, 1, 0, Jump(big, DO_RXC));
    ReachesTrans(p, m, m1, m2);
    ReachesNext(p, m2, 2);
    ReachesTrans(p, m, m2, Machine(At(3, 0), ExecAll(p.pieces[2], s1), m.called));
  }

  lemma ErrorsRun(p: Program, big: bool, m: Machine)
    requires Shape(p.pieces, big) && m.pc == At(3, 0)
    ensures Reaches(p, m, m.(pc := At(7, 0), cpu := UpToErrors(p.pieces, m.cpu)))
  {
    ReachesPieces(p, m, 3, 4);
    assert ExecPieces(p.pieces, 3, 2, m.cpu) == ExecAll(p.pieces[4], ExecAll(p.pieces[3], m.cpu));
  }

  lemma ParityRuns(p: Program, big: bool, m: Machine)
    requires Shape(p.pieces, big) && m.pc == At(7, 0)
    ensures Reaches(p, m, m.(pc := if Bit(m.cpu.r[24], 2) then END_RXC else At(8, 0)))
  {
    ReachesSkip(p, m, 7, 0, Sbrc(24, 2));
    if Bit(m.cpu.r[24], 2) {
      var m1 := m.(pc := At(7, 1));
      ReachesJump(p, m1, 7, 1, Rjmp(END_RXC));
      ReachesTrans(p, m, m1, m.(pc := END_RXC));
    } else {
      var m1 := m.(pc := At(7, 2));
      ReachesEnd(p, m1, 7);
      ReachesTrans(p, m, m1, m.(pc := At(8, 0)));
    }
  }

  lemma TailRuns(p: Program, big: bool, m: Machine)
    requires Shape(p.pieces, big) && m.pc == At(8, 0)
    ensures Reaches(p, m, m.(pc := At(11, 0), cpu := UpToTail(p.pieces, m.cpu)))
  {
    ReachesPieces(p, m, 8, 3);
    assert ExecPieces(p.pieces, 8, 2, m.cpu) == ExecAll(p.pieces[9], ExecAll(p.pieces[8], m.cpu));
  }

  lemma FullRuns(p: Program, big: bool, m: Machine)
    requires Shape(p.pieces, big) && m.pc == At(11, 0) && m.cpu.f.z
    ensures Reaches(p, m, m.(pc := END_RXC, cpu := ExecAll(p.pieces[17], m.cpu)))
  {
    var m1 := m.(pc := BUFF_FULL_RXC);
    ReachesBranch(p, m, 11, 0, Breq(BUFF_FULL_RXC));
    ReachesNext(p, m1, 17);
    var m2 := m.(pc := At(18, 0), cpu := ExecAll(p.pieces[17], m.cpu));
    ReachesTrans(p, m, m1, m2);
    ReachesJump(p, m2, 18, 0, Rjmp(END_RXC));
    ReachesTrans(p, m, m2, m2.(pc := END_RXC));
  }

  lemma StoreRuns(p: Program, big: bool, m: Machine)
    requires Shape(p.pieces, big) && m.pc == At(11, 0) && !m.cpu.f.z
    ensures Reaches(p, m, m.(pc := END_RXC, cpu := ExecAll(p.pieces[13], ExecAll(p.pieces[12], m.cpu))))
  {
    var m1, m2 := m.(pc := At(11, 1)), m.(pc := At(12, 0));
    ReachesBranch(p, m, 11, 0, Breq(BUFF_FULL_RXC));
    ReachesEnd(p, m1, 11);
    ReachesTrans(p, m, m1, m2);
    ReachesPieces(p, m2, 12, 2);
    var m3 := m.(pc := END_RXC, cpu := ExecPieces(p.pieces, 12, 2, m.cpu));
    ReachesTrans(p, m, m2, m3);
  }

  lemma MiddleRuns(p: Program, big: bool, m: Machine)
    requires Shape(p.pieces, big) && m.pc == At(7, 0)
    ensures Reaches(p, m, m.(pc := END_RXC, cpu := Middle(p.pieces, m.cpu)))
  {
    ParityRuns(p, big, m);
    if !Bit(m.cpu.r[24], 2) {
      var m1 := m.(pc := At(8, 0));
      TailRuns(p, big, m1);
      var m2 := m.(pc := At(11, 0), cpu := UpToTail(p.pieces, m.cpu));
      ReachesTrans(p, m, m1, m2);
      if m2.cpu.f.z { FullRuns(p, big, m2); } else { StoreRuns(p, big, m2); }
      ReachesTrans(p, m, m2, m.(pc := END_RXC, cpu := Middle(p.pieces, m.cpu)));
    }
  }

  lemma ExitRuns(p: Program, big: bool, m: Machine)
    requires Shape(p.pieces, big) && m.pc == END_RXC
    ensures Reaches(p, m, m.(pc := Returned, cpu := ExecAll(p.pieces[15], ExecAll(p.pieces[14], m.cpu))))
  {
    ReachesPieces(p, m, 14, 2);
    var m1 := m.(pc := At(16, 0), cpu := ExecPieces(p.pieces, 14, 2, m.cpu));
    ReachesReturn(p, m1, 16, 0);
    ReachesTrans(p, m, m1, m1.(pc := Returned));
  }

  function Whole(ps: seq<seq<Instr>>, s: Cpu): Cpu
    requires |ps| == 19
  {
    ExecAll(ps[15], Body(ps, ExecAll(ps[2], ExecAll(ps[0], s))))
  }

  lemma WholeRuns(p: Program, big: bool, m: Machine)
    requires Shape(p.pieces, big) && m.pc == At(0, 0)
    ensures Reaches(p, m, m.(pc := Returned, cpu := Whole(p.pieces, m.cpu)))
  {
    var s2 := ExecAll(p.pieces[2], ExecAll(p.pieces[0], m.cpu));
    var m2 := m.(pc := At(3, 0), cpu := s2);
    EntryRuns(p, big, m);
    ErrorsRun(p, big, m2);
    var m3 := m.(pc := At(7, 0), cpu := UpToErrors(p.pieces, s2));
    ReachesTrans(p, m, m2, m3);
    MiddleRuns(p, big, m3);
    var m4 := m.(pc := END_RXC, cpu := Middle(p.pieces, m3.cpu));
    ReachesTrans(p, m, m3, m4);
    ExitRuns(p, big, m4);
    ReachesTrans(p, m, m4, m.(pc := Returned, cpu := Whole(p.pieces, m.cpu)));
  }

  lemma Restored(r: Regs, a: byte, b: byte, c: byte, r': Regs)
    requires Kept(r[30 := a][31 := b][18 := c], r')
    ensures r'[29 := r[29]][28 := r[28]][25 := r[25]][24 := r[24]][19 := r[19]][18 := c][18 := r[18]][31 := r[31]][30 := r[30]] == r
  {
  }

  /** What the interrupt does to memory and the USART: the C handler on the byte received, and _state. */
  function RxcEffect(o: Obj, sfd: bool, w: World): World
    requires ValidObj(o, w)
  {
    SfdKeeps(o, sfd, w);
    var w1 := SfdQuieted(sfd, w);
    var w2 := RxCompleteIrq(o, w1);
    w2.(mem := w2.mem[o.base + STATE := CollectErrors(o, w1, w.mem[o.base + STATE])])
  }

  lemma WholeDoes(ps: seq<seq<Instr>>, o: Obj, sfd: bool, s: Cpu)
    requires Text(ps, o, sfd) && ValidObj(o, s.w)
    ensures var w := ClearIoBit(s.w, 0x1F, 0);
            ValidObj(o, w) && Whole(ps, s) == s.(w := RxcEffect(o, sfd, w))
  {
    StubDoes(ps[0], o.base, s);
    var s1 := ExecAll(ps[0], s);
    EntryDoes(ps[2], s1);
    var s2 := ExecAll(ps[2], s1);
    BodyDoes(ps, o, sfd, s2);
    var s3 := Body(ps, s2);
    LeaveDoes(ps[15], s3, s.f, s.r, s.stack);
    Restored(s.r, Lo(o.base), Hi(o.base), Pack(s.f), s3.r);
  }

  lemma StraightPieces(ps: seq<seq<Instr>>, o: Obj, big: bool, sfd: bool)
    requires ps == Pieces(o, big, sfd)
    ensures StraightAt(ps, 0, 1) && StraightAt(ps, 2, 5)
  {
  }

  lemma MoreStraightPieces(ps: seq<seq<Instr>>, o: Obj, big: bool, sfd: bool)
    requires ps == Pieces(o, big, sfd)
    ensures StraightAt(ps, 8, 3) && StraightAt(ps, 12, 4) && StraightAt(ps, 17, 1)
  {
  }

  lemma TextOf(ps: seq<seq<Instr>>, o: Obj, big: bool, sfd: bool)
    requires ps == Pieces(o, big, sfd)
    ensures Text(ps, o, sfd)
  {
  }

  lemma ShapeOf(ps: seq<seq<Instr>>, o: Obj, big: bool, sfd: bool)
    requires ps == Pieces(o, big, sfd)
    ensures Shape(ps, big)
  {
    StraightPieces(ps, o, big, sfd);
    MoreStraightPieces(ps, o, big, sfd);
  }

  /** The receive interrupt, whichever of its three paths it takes: the effect of the C handler, the error bits in
      _state, and every register, SREG and the stack as they were. */
  lemma RxcInterrupt(p: Program, o: Obj, big: bool, sfd: bool, m: Machine)
    requires p.pieces == Pieces(o, big, sfd) && m.pc == At(0, 0) && ValidObj(o, m.cpu.w)
    ensures var w := ClearIoBit(m.cpu.w, 0x1F, 0);
            ValidObj(o, w) && Reaches(p, m, m.(pc := Returned, cpu := m.cpu.(w := RxcEffect(o, sfd, w))))
  {
    TextOf(p.pieces, o, big, sfd);
    ShapeOf(p.pieces, o, big, sfd);
    WholeDoes(p.pieces, o, sfd, m.cpu);
    WholeRuns(p, big, m);
  }

  /** Bit by bit what happens to _state. */
  lemma StateBits(o: Obj, w: World, state: byte)
    requires ValidObj(o, w)
    ensures var hi := Peek(w, w.io.usart + RXDATAH); var x := CollectErrors(o, w, state);
            var full := Next(o.rx, w.mem[o.base + RX_HEAD]) == w.mem[o.base + RX_TAIL];
            && Bit(x, 7) == (Bit(state, 7) || Bit(hi, 6))
            && Bit(x, 6) == (Bit(state, 6) || (!Bit(hi, 1) && full))
            && Bit(x, 3) == (Bit(state, 3) || Bit(hi, 2))
            && Bit(x, 2) == (Bit(state, 2) || Bit(hi, 1))
            && (forall k :: k in [0, 1, 4, 5] ==> Bit(x, k) == Bit(state, k))
  {
    var hi := Peek(w, w.io.usart + RXDATAH);
    var e := And(hi, 0x46);
    forall k: nat | k < 8
      ensures Bit(CollectErrors(o, w, state), k) ==
              (Bit(state, k) || (k > 0 && Bit(hi, k - 1) && Bit(0x46, k - 1)) ||
               (Bit(0x40, k) && !Bit(hi, 1) && Next(o.rx, w.mem[o.base + RX_HEAD]) == w.mem[o.base + RX_TAIL]))
    {
      BitOr(state, 2 * e, k);
      BitOr(OrByte(state, 2 * e), 0x40, k);
      assert 2 * e / 2 == e;
      if k > 0 { BitAnd(hi, 0x46, k - 1); }
    }
    MaskBits();
  }

  lemma MaskBits()
    ensures forall k: nat :: k < 8 ==> Bit(0x40, k) == (k == 6)
    ensures forall k: nat :: k < 8 ==> Bit(0x46, k) == (k == 6 || k == 2 || k == 1)
  {
    forall k: nat | k < 8
      ensures Bit(0x40, k) == (k == 6) && Bit(0x46, k) == (k == 6 || k == 2 || k == 1)
    {
      Masks();
      BitPow2(6, k);
      assert Byte([false, true, true, false, false, false, true, false]) == 0x46;
      BitOfByte([false, true, true, false, false, false, true, false], k);
    }
  }
}
