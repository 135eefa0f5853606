/** `_do_dre`: the data-register-empty interrupt in assembly, for every supported pair of buffer sizes. */
module SerialDre {
  import opened Bits
  import opened Avr
  import opened SerialObject
  import opened SerialAsm

  /** The offset of _tx_buffer added to X, as a subtraction where no ADIW reaches. */
  function AddOffset(rx: Size): seq<Instr> {
    match rx
    case S256 => [Subi(26, 0xEF), Sbci(27, 0xFE)]
    case S128 => [Subi(26, 0x6F), Sbci(27, 0xFF)]
    case S64 => [Subi(26, 0xAF), Sbci(27, 0xFF)]
    case S32 => [Adiw(26, 0x31)]
    case S16 => [Adiw(26, 0x21)]
  }

  const ENTRY: seq<Instr> := [Push(18), InSreg(18), Push(18), Push(24), Push(25), Push(26), Push(27), Set]
  const SETUP: seq<Instr> := [Push(28), Push(29), Ldi(18, 0), Ldd(28, Z, 8), Ldi(29, 0x08)]
  const LOAD: seq<Instr> := [Ldd(25, Z, 16), Movw(26, 30)]
  const ADDX: seq<Instr> := [Add(26, 25), Adc(27, 18)]
  const SEND: seq<Instr> := [Ldd(24, X, 0), Ldi(18, 0x40), Std(Y, 4, 18), Std(Y, 2, 24), Subi(25, 0xFF)]
  const COMPARE: seq<Instr> := [Ldd(24, Y, 5), Ldd(18, Z, 15)]
  const DISABLE: seq<Instr> := [Andi(24, 0xDF), Std(Y, 5, 24)]
  const FINISH: seq<Instr> := [Std(Z, 16, 25), Pop(29), Pop(28)]
  const LEAVE: seq<Instr> := [Pop(27), Pop(26), Pop(25), Pop(24), Pop(18), OutSreg(18), Pop(18), Pop(31), Pop(30)]

  /** Only the registers that the poll entry may clobber differ. */
  predicate Kept(a: Regs, b: Regs) {
    forall d :: 0 <= d < 32 && d != 18 && !(24 <= d <= 27) ==> a[d] == b[d]
  }

  /** s and t agree on everything but scratch registers and arithmetic flags. */
  predicate Like(s: Cpu, t: Cpu) {
    Kept(s.r, t.r) && s.stack == t.stack && s.f.t == t.f.t
  }

  lemma SetupDoes(b: seq<Instr>, s: Cpu)
    requires b == SETUP && 0x1000 <= Pair(s.r, 30) <= 0xFFCF
    ensures var t := Exec(b, 5, s);
            && t.r == s.r[18 := 0][28 := s.w.mem[Pair(s.r, 30) + 8]][29 := 8]
            && t.stack == Top(s.r[29], Top(s.r[28], s.stack)) && t.w == s.w && t.f == s.f
  {
    Exec5(b, s);
    LddRam(28, Z, 8, Do(Ldi(18, 0), Do(Push(29), Do(Push(28), s))));
  }

  /** X points `tail` bytes into the object, and r25 holds the tail. */
  lemma LoadDoes(b: seq<Instr>, s: Cpu, base: word)
    requires b == LOAD && base == Pair(s.r, 30) && 0x1000 <= base <= 0xFFCF
    ensures var t := Exec(b, 2, s);
            && Like(s, t) && t.w == s.w && t.r[18] == s.r[18]
            && t.r[25] == s.w.mem[base + 16] && Pair(t.r, 26) == base
  {
    Exec2(b, s);
    LddRam(25, Z, 16, s);
  }

  lemma AddDoes(b: seq<Instr>, s: Cpu)
    requires b == ADDX && s.r[18] == 0 && Pair(s.r, 26) + s.r[25] < 0x1_0000
    ensures var t := Exec(b, 2, s);
            && Like(s, t) && t.w == s.w
            && t.r[25] == s.r[25] && Pair(t.r, 26) == Pair(s.r, 26) + s.r[25]
  {
    Exec2(b, s);
    AddIndex(26, 25, 18, s);
  }

  /** X moves on to the character in _tx_buffer, whichever instructions do it. */
  lemma OffsetDoes(b: seq<Instr>, rx: Size, s: Cpu)
    requires b == AddOffset(rx) && Pair(s.r, 26) + 17 + Bytes(rx) < 0x1_0000
    ensures var t := Exec(b, |b|, s);
            && Like(s, t) && t.w == s.w
            && t.r[25] == s.r[25] && Pair(t.r, 26) == Pair(s.r, 26) + 17 + Bytes(rx)
  {
    match rx
    case S256 => SubtractPair(b, 0xEF, 0xFE, s);
    case S128 => SubtractPair(b, 0x6F, 0xFF, s);
    case S64 => SubtractPair(b, 0xAF, 0xFF, s);
    case S32 => AddPair(b, 0x31, s);
    case S16 => AddPair(b, 0x21, s);
  }

  lemma AddPair(b: seq<Instr>, k: byte, s: Cpu)
    requires b == [Adiw(26, k)] && Pair(s.r, 26) + k < 0x1_0000
    ensures var t := Exec(b, 1, s);
            && Like(s, t) && t.w == s.w
            && t.r[25] == s.r[25] && Pair(t.r, 26) == Pair(s.r, 26) + k
  {
    assert Exec(b, 1, s) == Do(Adiw(26, k), s);
  }

  lemma SubtractPair(b: seq<Instr>, lo: byte, hi: byte, s: Cpu)
    requires b == [Subi(26, lo), Sbci(27, hi)] && Pair(s.r, 26) + (0x1_0000 - Word(hi, lo)) < 0x1_0000
    ensures var t := Exec(b, 2, s);
            && Like(s, t) && t.w == s.w
            && t.r[25] == s.r[25] && Pair(t.r, 26) == Pair(s.r, 26) + (0x1_0000 - Word(hi, lo))
  {
    Exec2(b, s);
    SubtractToAdd(26, lo, hi, s);
  }

  lemma SendDoes(b: seq<Instr>, s: Cpu, u: word)
    requires b == SEND && 0x1000 <= Pair(s.r, 26) && Pair(s.r, 28) == u && u + 5 < 0x1000
    ensures var t := Exec(b, 5, s);
            && Like(s, t) && t.w == Poke(Poke(s.w, u + STATUS, 0x40), u + TXDATAL, s.w.mem[Pair(s.r, 26)])
            && t.r[25] == Diff(s.r[25], 0xFF, false)
  {
    Exec5(b, s);
    LddRam(24, X, 0, s);
    SendTwice(Do(Ldi(18, 0x40), Do(Ldd(24, X, 0), s)), u);
  }

  lemma SendTwice(s: Cpu, u: word)
    requires Pair(s.r, 28) == u && u + 5 < 0x1000 && s.r[18] == 0x40
    ensures Do(Std(Y, 2, 24), Do(Std(Y, 4, 18), s)) ==
            s.(w := Poke(Poke(s.w, u + STATUS, 0x40), u + TXDATAL, s.r[24]))
  {
    StdIo(Y, 4, 18, s);
    StdIo(Y, 2, 24, Do(Std(Y, 4, 18), s));
  }

  lemma CompareDoes(b: seq<Instr>, s: Cpu, u: word)
    requires b == COMPARE && Pair(s.r, 28) == u && u + 5 < 0x1000 && u == s.w.io.usart
    requires 0x1000 <= Pair(s.r, 30) <= 0xFFCF
    ensures var t := Exec(b, 2, s);
            && Like(s, t) && t.w == s.w
            && t.r[24] == Peek(s.w, u + CTRLA) && t.r[18] == s.w.mem[Pair(s.r, 30) + 15] && t.r[25] == s.r[25]
  {
    Exec2(b, s);
    LddIo(24, Y, 5, s);
    var s1 := Do(Ldd(24, Y, 5), s);
    hide Do, Exec, AndByte, OrByte;
    assert s1.w == s.w && Pair(s1.r, 30) == Pair(s.r, 30);
    LddRam(18, Z, 15, s1);
  }

  lemma DisableDoes(b: seq<Instr>, s: Cpu, u: word)
    requires b == DISABLE && Pair(s.r, 28) == u && u + 5 < 0x1000
    ensures var t := Exec(b, 2, s);
            && Like(s, t) && t.w == Poke(s.w, u + CTRLA, AndByte(s.r[24], 0xDF)) && t.r[25] == s.r[25]
  {
    Exec2(b, s);
    StdIo(Y, 5, 24, Do(Andi(24, 0xDF), s));
  }

  lemma FinishDoes(b: seq<Instr>, s: Cpu, rest: Stack, x: byte, y: byte)
    requires b == FINISH && 0x1000 <= Pair(s.r, 30) <= 0xFFCF && s.stack == Top(x, Top(y, rest))
    ensures Exec(b, 3, s) == s.(r := s.r[29 := x][28 := y], stack := rest,
                                w := Poke(s.w, Pair(s.r, 30) + TX_TAIL, s.r[25]))
  {
    Exec3(b, s);
    StdRam(Z, 16, 25, s);
  }

  // Labels.
  const DO_DRE := At(2, 0)
  const POLL_DRE := At(3, 0)
  const DONE_DRE_IRQ := At(12, 0)

  /** The interrupt stub of UART0.cpp followed by _do_dre. */
  function Pieces(o: Obj, big: bool): seq<seq<Instr>> {
    [ Stub(o.base),
      [Jump(big, DO_DRE)],
      ENTRY,
      SETUP, LOAD, ADDX, AddOffset(o.rx), SEND, Wrap(25, o.tx), COMPARE,
      [Cpse(18, 25), Rjmp(DONE_DRE_IRQ)],
      DISABLE,
      FINISH,
      [Brts(At(14, 0)), Jump(big, PollDone)],
      LEAVE,
      [Reti] ]
  }

  /** `brts .+4` or `brts .+2`: the branch skips exactly the jump that follows it. */
  lemma BrtsDisplacement(o: Obj, big: bool)
    ensures 2 * Words(Pieces(o, big)[13][1..]) == if big then 4 else 2
  {
    assert Pieces(o, big)[13][1..] == [Jump(big, PollDone)];
  }

  predicate KeptBelowY(a: Regs, b: Regs) {
    forall d :: 0 <= d < 32 && d != 18 && !(24 <= d <= 29) ==> a[d] == b[d]
  }

  predicate AtObject(o: Obj, s: Cpu) { ValidObj(o, s.w) && Pair(s.r, 30) == o.base }

  /** Between labels: Y is the USART, everything the caller wants back is kept or on the stack. */
  predicate Inside(o: Obj, s: Cpu, t: Cpu) {
    && KeptBelowY(s.r, t.r) && t.stack == Top(s.r[29], Top(s.r[28], s.stack)) && t.f.t == s.f.t
    && Pair(t.r, 28) == s.w.io.usart && Pair(t.r, 30) == o.base
  }

  lemma PiecesAreStraight(ps: seq<seq<Instr>>, o: Obj, big: bool)
    requires ps == Pieces(o, big)
    ensures StraightAt(ps, 0, 1) && StraightAt(ps, 2, 8) && StraightAt(ps, 11, 2) && StraightAt(ps, 14, 1)
  {
    EndsAreStraight(ps, o, big);
    forall k | 2 <= k < 10
      ensures AllStraight(ps[k])
    {
    }
  }

  lemma EndsAreStraight(ps: seq<seq<Instr>>, o: Obj, big: bool)
    requires ps == Pieces(o, big)
    ensures StraightAt(ps, 0, 1) && StraightAt(ps, 11, 2) && StraightAt(ps, 14, 1)
  {
  }

  /** From the poll label to X at the character to send. */
  lemma ToCharacter(b3: seq<Instr>, b4: seq<Instr>, b5: seq<Instr>, b6: seq<Instr>, o: Obj, s: Cpu)
    requires b3 == SETUP && b4 == LOAD && b5 == ADDX && b6 == AddOffset(o.rx) && AtObject(o, s)
    ensures var t := ExecAll(b6, ExecAll(b5, ExecAll(b4, ExecAll(b3, s)))); var tail := s.w.mem[o.base + 16];
            Inside(o, s, t) && t.w == s.w && t.r[25] == tail && Pair(t.r, 26) == TxBuffer(o) + tail
  {
    SetupDoes(b3, s);
    var s1 := ExecAll(b3, s);
    LoadDoes(b4, s1, o.base);
    var s2 := ExecAll(b4, s1);
    AddDoes(b5, s2);
    OffsetDoes(b6, o.rx, ExecAll(b5, s2));
  }

  lemma InsideLike(o: Obj, s: Cpu, t: Cpu, t': Cpu)
    requires Inside(o, s, t) && Like(t, t')
    ensures Inside(o, s, t')
  {
  }

  lemma SendFacts(o: Obj, w: World)
    requires ValidObj(o, w)
    ensures SendNext(o, w).mem == w.mem && SendNext(o, w).io.usart == w.io.usart <= 0x8F0
  {
  }

  lemma SendOut(b7: seq<Instr>, o: Obj, s: Cpu, t: Cpu)
    requires b7 == SEND && AtObject(o, s) && Inside(o, s, t)
    requires t.w == s.w && t.r[25] == s.w.mem[o.base + 16] && Pair(t.r, 26) == TxBuffer(o) + t.r[25]
    ensures var t' := ExecAll(b7, t);
            Inside(o, s, t') && t'.w == SendNext(o, s.w) && t'.r[25] == Diff(s.w.mem[o.base + 16], 0xFF, false)
  {
    hide Exec, Diff;
    SendDoes(b7, t, s.w.io.usart);
    InsideLike(o, s, t, ExecAll(b7, t));
  }

  lemma NextInSend(b8: seq<Instr>, o: Obj, s: Cpu, t: Cpu, i: byte)
    requires b8 == Wrap(25, o.tx) && Inside(o, s, t) && i < Bytes(o.tx) && t.r[25] == Diff(i, 0xFF, false)
    ensures var t' := ExecAll(b8, t); Inside(o, s, t') && t'.w == t.w && t'.r[25] == Next(o.tx, i)
  {
    hide Exec, Wrap, Next, Bytes;
    WrapDoes(b8, 25, o.tx, i, t);
  }

  /** The character goes out and r25 becomes the next tail. */
  lemma SendPart(b7: seq<Instr>, b8: seq<Instr>, o: Obj, s: Cpu, t: Cpu)
    requires b7 == SEND && b8 == Wrap(25, o.tx) && AtObject(o, s) && Inside(o, s, t)
    requires t.w == s.w && t.r[25] == s.w.mem[o.base + 16] && Pair(t.r, 26) == TxBuffer(o) + t.r[25]
    ensures var t' := ExecAll(b8, ExecAll(b7, t));
            Inside(o, s, t') && t'.w == SendNext(o, s.w) && t'.r[25] == Next(o.tx, s.w.mem[o.base + 16])
  {
    hide Exec, Wrap, Inside, SendNext, Diff, Next, Bytes;
    SendOut(b7, o, s, t);
    NextInSend(b8, o, s, ExecAll(b7, t), s.w.mem[o.base + 16]);
  }

  lemma ComparePart(b9: seq<Instr>, o: Obj, s: Cpu, t: Cpu)
    requires b9 == COMPARE && Inside(o, s, t) && t.w.io.usart == s.w.io.usart < 0xFF0 && 0x1000 <= o.base <= 0xFFCF
    ensures var t' := ExecAll(b9, t);
            && Inside(o, s, t') && t'.w == t.w && t'.r[25] == t.r[25]
            && t'.r[24] == Peek(t.w, t.w.io.usart + CTRLA) && t'.r[18] == t.w.mem[o.base + 15]
  {
    CompareDoes(b9, t, t.w.io.usart);
    InsideLike(o, s, t, ExecAll(b9, t));
  }

  lemma DisablePart(b11: seq<Instr>, o: Obj, s: Cpu, t: Cpu)
    requires b11 == DISABLE && Inside(o, s, t) && s.w.io.usart < 0xFF0
    ensures var t' := ExecAll(b11, t);
            Inside(o, s, t') && t'.w == Poke(t.w, s.w.io.usart + CTRLA, AndByte(t.r[24], 0xDF)) && t'.r[25] == t.r[25]
  {
    DisableDoes(b11, t, s.w.io.usart);
    InsideLike(o, s, t, ExecAll(b11, t));
  }

  lemma KeptWithY(a: Regs, b: Regs)
    requires KeptBelowY(a, b)
    ensures Kept(a, b[29 := a[29]][28 := a[28]])
  {
  }

  lemma FinishPart(b12: seq<Instr>, o: Obj, s: Cpu, t: Cpu)
    requires b12 == FINISH && Inside(o, s, t) && 0x1000 <= o.base <= 0xFFCF
    ensures var t' := ExecAll(b12, t);
            Like(s, t') && t'.w == Poke(t.w, o.base + TX_TAIL, t.r[25])
  {
    FinishDoes(b12, t, s.stack, s.r[29], s.r[28]);
    KeptWithY(s.r, t.r);
  }

  /** All of it on one CPU state: from the poll label to the branch on T. */
  function Common(ps: seq<seq<Instr>>, s: Cpu): Cpu
    requires |ps| == 16
  {
    var t := ExecAll(ps[9], ExecAll(ps[8], ExecAll(ps[7], ExecAll(ps[6], ExecAll(ps[5], ExecAll(ps[4], ExecAll(ps[3], s)))))));
    ExecAll(ps[12], if t.r[18] == t.r[25] then ExecAll(ps[11], t) else t)
  }

  ghost predicate Text(ps: seq<seq<Instr>>, o: Obj) {
    && |ps| == 16 && ps[3] == SETUP && ps[4] == LOAD && ps[5] == ADDX && ps[6] == AddOffset(o.rx) && ps[7] == SEND
    && ps[8] == Wrap(25, o.tx) && ps[9] == COMPARE && ps[11] == DISABLE && ps[12] == FINISH
  }

  lemma CommonDoes(ps: seq<seq<Instr>>, o: Obj, s: Cpu)
    requires Text(ps, o) && AtObject(o, s)
    ensures Like(s, Common(ps, s)) && Common(ps, s).w == TxDataEmptyIrq(o, s.w)
  {
    ToCharacter(ps[3], ps[4], ps[5], ps[6], o, s);
    var t4 := ExecAll(ps[6], ExecAll(ps[5], ExecAll(ps[4], ExecAll(ps[3], s))));
    SendPart(ps[7], ps[8], o, s, t4);
    var t6 := ExecAll(ps[8], ExecAll(ps[7], t4));
    SendFacts(o, s.w);
    ComparePart(ps[9], o, s, t6);
    var t7 := ExecAll(ps[9], t6);
    DisablePart(ps[11], o, s, t7);
    FinishPart(ps[12], o, s, if t7.r[18] == t7.r[25] then ExecAll(ps[11], t7) else t7);
  }

  /** The lengths and the control instructions of the routine, without its literal text. */
  ghost predicate Shape(ps: seq<seq<Instr>>, big: bool) {
    && |ps| == 16
    && StraightAt(ps, 0, 1) && StraightAt(ps, 2, 8) && StraightAt(ps, 11, 2) && StraightAt(ps, 14, 1)
    && ps[1] == [Jump(big, DO_DRE)] && ps[10] == [Cpse(18, 25), Rjmp(DONE_DRE_IRQ)]
    && ps[13] == [Brts(At(14, 0)), Jump(big, PollDone)] && ps[15] == [Reti]
  }

  lemma {:induction false} ExecPieces7(ps: seq<seq<Instr>>, s: Cpu)
    requires |ps| == 16
    ensures ExecPieces(ps, 3, 7, s) ==
            ExecAll(ps[9], ExecAll(ps[8], ExecAll(ps[7], Exec(ps[6], |ps[6]|,
                 ExecAll(ps[5], ExecAll(ps[4], ExecAll(ps[3], s)))))))
  {
    assert ExecPieces(ps, 3, 3, s) == ExecAll(ps[5], ExecAll(ps[4], ExecAll(ps[3], s)));
    assert ExecPieces(ps, 3, 5, s) == ExecAll(ps[7], ExecAll(ps[6], ExecPieces(ps, 3, 3, s)));
  }

  /** CPSE steps over the jump exactly when the ring has become empty. */
  lemma CompareBranch(p: Program, m: Machine)
    requires |p.pieces| == 16 && p.pieces[10] == [Cpse(18, 25), Rjmp(DONE_DRE_IRQ)] && m.pc == At(10, 0)
    ensures Reaches(p, m, m.(pc := if m.cpu.r[18] == m.cpu.r[25] then At(11, 0) else DONE_DRE_IRQ))
  {
    ReachesSkip(p, m, 10, 0, Cpse(18, 25));
    if m.cpu.r[18] == m.cpu.r[25] {
      var m1 := m.(pc := At(10, 2));
      ReachesEnd(p, m1, 10);
      ReachesTrans(p, m, m1, m.(pc := At(11, 0)));
    } else {
      var m1 := m.(pc := At(10, 1));
      ReachesJump(p, m1, 10, 1, Rjmp(DONE_DRE_IRQ));
      ReachesTrans(p, m, m1, m.(pc := DONE_DRE_IRQ));
    }
  }

  lemma CommonRuns(p: Program, big: bool, m: Machine)
    requires Shape(p.pieces, big) && m.pc == POLL_DRE
    ensures Reaches(p, m, m.(pc := At(13, 0), cpu := Common(p.pieces, m.cpu)))
  {
    var ps := p.pieces;
    ReachesPieces(p, m, 3, 7);
    ExecPieces7(ps, m.cpu);
    var m1 := m.(pc := At(10, 0), cpu := ExecPieces(ps, 3, 7, m.cpu));
    CompareBranch(p, m1);
    var m2 := m1.(pc := if m1.cpu.r[18] == m1.cpu.r[25] then At(11, 0) else DONE_DRE_IRQ);
    ReachesTrans(p, m, m1, m2);
    var m3 := m2.(pc := At(12, 0), cpu := if m1.cpu.r[18] == m1.cpu.r[25] then ExecAll(ps[11], m2.cpu) else m2.cpu);
    if m1.cpu.r[18] == m1.cpu.r[25] {
      ReachesNext(p, m2, 11);
      ReachesTrans(p, m, m2, m3);
    }
    ReachesNext(p, m3, 12);
    ReachesTrans(p, m, m3, m.(pc := At(13, 0), cpu := Common(ps, m.cpu)));
  }

  lemma ShapeOf(ps: seq<seq<Instr>>, o: Obj, big: bool)
    requires ps == Pieces(o, big)
    ensures Shape(ps, big) && Text(ps, o)
  {
    PiecesAreStraight(ps, o, big);
  }

  /** With T clear the branch falls through to the jump back to the poll. */
  lemma ExitByPoll(p: Program, big: bool, m: Machine)
    requires |p.pieces| == 16 && p.pieces[13] == [Brts(At(14, 0)), Jump(big, PollDone)] && m.pc == At(13, 0) && !m.cpu.f.t
    ensures Reaches(p, m, m.(pc := PollDone))
  {
    ReachesBranch(p, m, 13, 0, Brts(At(14, 0)));
    var m1 := m.(pc := At(13, 1));
    ReachesJump(p, m1, 13, 1, Jump(big, PollDone));
    ReachesTrans(p, m, m1, m.(pc := PollDone));
  }

  lemma PollRuns(p: Program, o: Obj, big: bool, m: Machine)
    requires Shape(p.pieces, big) && Text(p.pieces, o) && m.pc == POLL_DRE && AtObject(o, m.cpu) && !m.cpu.f.t
    ensures Reaches(p, m, m.(pc := PollDone, cpu := Common(p.pieces, m.cpu)))
  {
    CommonRuns(p, big, m);
    CommonDoes(p.pieces, o, m.cpu);
    var m1 := m.(pc := At(13, 0), cpu := Common(p.pieces, m.cpu));
    ExitByPoll(p, big, m1);
    ReachesTrans(p, m, m1, m1.(pc := PollDone));
  }

  /** Entered by the poll, with T clear: the effect of the C handler, Y, the stack and every register
      that the poll does not declare clobbered intact, and out by the poll exit. */
  lemma PollDre(p: Program, o: Obj, big: bool, m: Machine) returns (m': Machine)
    requires p.pieces == Pieces(o, big) && m.pc == POLL_DRE && AtObject(o, m.cpu) && !m.cpu.f.t
    ensures Reaches(p, m, m') && m'.pc == PollDone && m'.called == m.called
    ensures m'.cpu.w == TxDataEmptyIrq(o, m.cpu.w)
    ensures m'.cpu.stack == m.cpu.stack && Kept(m.cpu.r, m'.cpu.r)
  {
    ShapeOf(p.pieces, o, big);
    PollRuns(p, o, big, m);
    CommonDoes(p.pieces, o, m.cpu);
    m' := m.(pc := PollDone, cpu := Common(p.pieces, m.cpu));
  }

  lemma EntryDoes(b: seq<Instr>, s: Cpu)
    requires b == ENTRY
    ensures Exec(b, 8, s) == s.(r := s.r[18 := Pack(s.f)], f := s.f.(t := true),
      stack := Top(s.r[27], Top(s.r[26], Top(s.r[25], Top(s.r[24], Top(Pack(s.f), Top(s.r[18], s.stack)))))))
  {
    Exec5(b, s);
    assert Exec(b, 8, s) == Do(Set, Do(Push(27), Do(Push(26), Exec(b, 5, s))));
  }

  lemma LeaveDoes(b: seq<Instr>, s: Cpu, f: Sreg, r: Regs, rest: Stack)
    requires b == LEAVE
    requires s.stack == Top(r[27], Top(r[26], Top(r[25], Top(r[24], Top(Pack(f), Top(r[18], Top(r[31], Top(r[30], rest))))))))
    ensures var t := Exec(b, 9, s);
            && t.f == f && t.stack == rest && t.w == s.w
            && t.r == s.r[27 := r[27]][26 := r[26]][25 := r[25]][24 := r[24]][18 := Pack(f)][18 := r[18]][31 := r[31]][30 := r[30]]
  {
    Exec5(b, s);
    UnpackPack(f);
    assert Exec(b, 9, s) == Do(Pop(30), Do(Pop(31), Do(Pop(18), Do(OutSreg(18), Exec(b, 5, s)))));
  }

  /** From the vector to the poll label. */
  lemma EntryRuns(p: Program, big: bool, m: Machine)
    requires |p.pieces| == 16 && AllStraight(p.pieces[0]) && p.pieces[1] == [Jump(big, DO_DRE)]
    requires AllStraight(p.pieces[2]) && m.pc == At(0, 0)
    ensures Reaches(p, m, m.(pc := POLL_DRE, cpu := ExecAll(p.pieces[2], ExecAll(p.pieces[0], m.cpu))))
  {
    hide Exec, Comes, Reaches, AllStraight;
    var s1 := ExecAll(p.pieces[0], m.cpu);
    var m1, m2 := Machine(At(1, 0), s1, m.called), Machine(DO_DRE, s1, m.called);
    ReachesNext(p, m, 0);
    ReachesJump(p, m1, 1, 0, Jump(big, DO_DRE));
    ReachesTrans(p, m, m1, m2);
    ReachesNext(p, m2, 2);
    ReachesTrans(p, m, m2, Machine(POLL_DRE, ExecAll(p.pieces[2], s1), m.called));
  }

  /** With T set the branch skips that jump; the pops and RETI follow. */
  lemma ExitByReti(p: Program, b: Instr, m: Machine)
    requires |p.pieces| == 16 && p.pieces[13] == [Brts(At(14, 0)), b] && AllStraight(p.pieces[14])
    requires p.pieces[15] == [Reti] && m.pc == At(13, 0) && m.cpu.f.t
    ensures Reaches(p, m, m.(pc := Returned, cpu := ExecAll(p.pieces[14], m.cpu)))
  {
    var m1 := m.(pc := At(14, 0));
    ReachesBranch(p, m, 13, 0, Brts(At(14, 0)));
    ReachesNext(p, m1, 14);
    var m2 := m.(pc := At(15, 0), cpu := ExecAll(p.pieces[14], m.cpu));
    ReachesTrans(p, m, m1, m2);
    ReachesReturn(p, m2, 15, 0);
    ReachesTrans(p, m, m2, m2.(pc := Returned));
  }

  lemma Restored(r: Regs, a: byte, b: byte, c: byte, r': Regs)
    requires Kept(r[30 := a][31 := b][18 := c], r')
    ensures r'[27 := r[27]][26 := r[26]][25 := r[25]][24 := r[24]][18 := c][18 := r[18]][31 := r[31]][30 := r[30]] == r
  {
  }

  ghost predicate Ends(ps: seq<seq<Instr>>, o: Obj) {
    && |ps| == 16 && ps[0] == Stub(o.base)
    && ps[2] == ENTRY && ps[14] == LEAVE
  }

  /** The entry and the common part leave T set, and on the stack what the exit pops. */
  lemma CommonFromVector(ps: seq<seq<Instr>>, o: Obj, s: Cpu)
    requires Text(ps, o) && Ends(ps, o) && ValidObj(o, s.w)
    ensures var s2 := ExecAll(ps[2], ExecAll(ps[0], s)); var w := ClearIoBit(s.w, 0x1F, 0); var s3 := Common(ps, s2);
            && s3.f.t && ValidObj(o, w) && s3.w == TxDataEmptyIrq(o, w)
            && Kept(s.r[30 := Lo(o.base)][31 := Hi(o.base)][18 := Pack(s.f)], s3.r)
            && s3.stack == Top(s.r[27], Top(s.r[26], Top(s.r[25], Top(s.r[24], Top(Pack(s.f), Top(s.r[18], Top(s.r[31], Top(s.r[30], s.stack))))))))
  {
    StubDoes(ps[0], o.base, s);
    var s1 := ExecAll(ps[0], s);
    EntryDoes(ps[2], s1);
    CommonDoes(ps, o, ExecAll(ps[2], s1));
  }

  lemma WholeDoes(ps: seq<seq<Instr>>, o: Obj, s: Cpu)
    requires Text(ps, o) && Ends(ps, o) && ValidObj(o, s.w)
    ensures var w := ClearIoBit(s.w, 0x1F, 0);
            && ValidObj(o, w)
            && ExecAll(ps[14], Common(ps, ExecAll(ps[2], ExecAll(ps[0], s)))) == s.(w := TxDataEmptyIrq(o, w))
  {
    CommonFromVector(ps, o, s);
    var s3 := Common(ps, ExecAll(ps[2], ExecAll(ps[0], s)));
    LeaveDoes(ps[14], s3, s.f, s.r, s.stack);
    Restored(s.r, Lo(o.base), Hi(o.base), Pack(s.f), s3.r);
  }

  lemma WholeRuns(p: Program, o: Obj, big: bool, m: Machine)
    requires Shape(p.pieces, big) && Text(p.pieces, o) && Ends(p.pieces, o) && m.pc == At(0, 0) && ValidObj(o, m.cpu.w)
    ensures Reaches(p, m, m.(pc := Returned, cpu := ExecAll(p.pieces[14], Common(p.pieces, ExecAll(p.pieces[2], ExecAll(p.pieces[0], m.cpu))))))
  {
    var ps := p.pieces;
    EntryRuns(p, big, m);
    var m2 := m.(pc := POLL_DRE, cpu := ExecAll(ps[2], ExecAll(ps[0], m.cpu)));
    CommonRuns(p, big, m2);
    var m3 := m2.(pc := At(13, 0), cpu := Common(ps, m2.cpu));
    ReachesTrans(p, m, m2, m3);
    CommonFromVector(ps, o, m.cpu);
    ExitByReti(p, Jump(big, PollDone), m3);
    ReachesTrans(p, m, m3, m3.(pc := Returned, cpu := ExecAll(ps[14], m3.cpu)));
  }

  /** Entered as an interrupt: the effect of the C handler and nothing else.
      Every register, SREG and the stack are what they were. */
  lemma DreInterrupt(p: Program, o: Obj, big: bool, m: Machine)
    requires p.pieces == Pieces(o, big) && m.pc == At(0, 0) && ValidObj(o, m.cpu.w)
    ensures var w := ClearIoBit(m.cpu.w, 0x1F, 0);
            ValidObj(o, w) && Reaches(p, m, m.(pc := Returned, cpu := m.cpu.(w := TxDataEmptyIrq(o, w))))
  {
    ShapeOf(p.pieces, o, big);
    assert Ends(p.pieces, o);
    WholeDoes(p.pieces, o, m.cpu);
    WholeRuns(p, o, big, m);
  }
}
