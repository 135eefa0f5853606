/** `AttachedISR`, the dispatcher of pin interrupts in assembly, in the form that clears the flags last. */
module PinIsr {
  import opened Bits
  import opened Avr
  import opened PinLoop

  /** port_interrupt_handler: the flags that were set on entry are cleared at the end. */
  function PortInterruptHandler(q: Port, effect: Effect, x: Outcome): Outcome
    requires Enabled(q, x.w)
  {
    var flags := Peek(x.w, FlagsAt(q));
    var y := HandleFrom(flags, Table(q, x.w), effect, 0, x);
    y.(w := Poke(y.w, FlagsAt(q), flags))
  }

  const PROLOGUE: seq<Instr> := [Push(0), InSreg(0), Push(0), Push(1), Clr(1), Push(15), Push(17)]
  const FLAGS: seq<Instr> := [Add(16, 16), Subi(16, 253), Mov(26, 16), Ldi(27, 0), Ldd(15, X, 0)]
  const COPY: seq<Instr> := [Mov(17, 15)]
  const CLEAR: seq<Instr> := [Mov(26, 16), Ldi(27, 0), Std(X, 0, 15)]
  const EPILOGUE: seq<Instr> := [Pop(17), Pop(15), Pop(1), Pop(0), OutSreg(0), Pop(0), Pop(16)]

  // Labels.
  const ATTACHED_ISR := At(2, 0)
  const AINT_LOOP := At(10, 0)
  const AINT_END := At(18, 0)

  function Before(q: Port, big: bool): seq<seq<Instr>>
    requires q.number < 7
  {
    [ [Push(16), Ldi(16, 2 * q.number)],
      [Jump(big, ATTACHED_ISR)],
      PROLOGUE, PUSHES,
      [Ldi(26, Lo(q.intFunc)), Ldi(27, Hi(q.intFunc))],
      TABLE, FLAGS, TEST_X,
      [Breq(AINT_END)],
      COPY ]
  }

  const AFTER: seq<seq<Instr>> := [CLEAR, POPS, EPILOGUE, [Reti]]

  /** The stub of one port followed by AttachedISR. */
  function Pieces(q: Port, big: bool): seq<seq<Instr>>
    requires q.number < 7
  {
    Before(q, big) + LoopPieces(10, 17) + AFTER
  }

  lemma PrologueDoes(b: seq<Instr>, s: Cpu)
    requires b == PROLOGUE
    ensures var t := Exec(b, 7, s);
            && t.w == s.w && t.r == s.r[0 := Pack(s.f)][1 := 0]
            && t.stack == Top(s.r[17], Top(s.r[15], Top(s.r[1], Top(Pack(s.f), Top(s.r[0], s.stack)))))
  {
    Exec5(b, s);
    assert Exec(b, 7, s) == Do(Push(17), Do(Push(15), Exec(b, 5, s)));
  }

  lemma EpilogueDoes(b: seq<Instr>, s: Cpu, f: Sreg, r: Regs, rest: Stack)
    requires b == EPILOGUE
    requires s.stack == Top(r[17], Top(r[15], Top(r[1], Top(Pack(f), Top(r[0], Top(r[16], rest))))))
    ensures var t := Exec(b, 7, s);
            && t.w == s.w && t.stack == rest && t.f == f
            && t.r == s.r[17 := r[17]][15 := r[15]][1 := r[1]][0 := Pack(f)][0 := r[0]][16 := r[16]]
  {
    Exec5(b, s);
    UnpackPack(f);
    assert Exec(b, 7, s) == Do(Pop(16), Do(Pop(0), Exec(b, 5, s)));
  }

  lemma FlagsDo(b: seq<Instr>, s: Cpu, q: Port)
    requires b == FLAGS && s.r[16] == 2 * q.number && q.number < 7 && s.w.io.usart >= 0x20
    ensures var t := Exec(b, 5, s);
            && t.w == s.w && t.stack == s.stack && t.r[15] == Peek(s.w, FlagsAt(q)) && t.r[16] == FlagsAt(q)
            && t.r[..15] == s.r[..15] && Pair(t.r, 26) == FlagsAt(q) && Pair(t.r, 28) == Pair(s.r, 28)
  {
    Exec5(b, s);
    var s4 := Do(Ldi(27, 0), Do(Mov(26, 16), Do(Subi(16, 253), Do(Add(16, 16), s))));
    assert Pair(s4.r, 26) == FlagsAt(q);
    LddIo(15, X, 0, s4);
  }

  lemma CopyDoes(b: seq<Instr>, s: Cpu)
    requires b == COPY
    ensures Exec(b, 1, s) == s.(r := s.r[17 := s.r[15]])
  {
    assert Exec(b, 1, s) == Do(Mov(17, 15), s);
  }

  lemma ClearDoes(b: seq<Instr>, s: Cpu, q: Port)
    requires b == CLEAR && q.number < 7 && s.r[16] == FlagsAt(q)
    ensures var t := Exec(b, 3, s);
            && t.w == Poke(s.w, FlagsAt(q), s.r[15]) && t.stack == s.stack && t.r[..26] == s.r[..26]
  {
    Exec3(b, s);
    StdIo(X, 0, 15, Do(Ldi(27, 0), Do(Mov(26, 16), s)));
  }

  // All of it.

  ghost predicate Text(ps: seq<seq<Instr>>, q: Port) {
    && |ps| == 22 && LoopText(ps, 10, 17) && q.number < 7
    && ps[0] == [Push(16), Ldi(16, 2 * q.number)] && ps[2] == PROLOGUE && ps[3] == PUSHES
    && ps[4] == [Ldi(26, Lo(q.intFunc)), Ldi(27, Hi(q.intFunc))] && ps[5] == TABLE && ps[6] == FLAGS && ps[7] == TEST_X
    && ps[9] == COPY && ps[18] == CLEAR && ps[19] == POPS && ps[20] == EPILOGUE
  }

  ghost predicate Shape(ps: seq<seq<Instr>>, big: bool) {
    && |ps| == 22 && LoopShape(ps, 10) && ps[1] == [Jump(big, ATTACHED_ISR)] && ps[8] == [Breq(AINT_END)] && ps[21] == [Reti]
    && StraightAt(ps, 0, 1) && StraightAt(ps, 2, 6) && StraightAt(ps, 9, 1) && StraightAt(ps, 18, 3)
    && SilentAt(ps, 0, 1) && SilentAt(ps, 2, 3) && SilentAt(ps, 7, 1) && SilentAt(ps, 9, 1) && SilentAt(ps, 18, 3)
  }

  lemma PiecesAre(ps: seq<seq<Instr>>, q: Port, big: bool)
    requires q.number < 7 && ps == Pieces(q, big)
    ensures |ps| == 22 && ps[..10] == Before(q, big) && ps[10..18] == LoopPieces(10, 17) && ps[18..] == AFTER
  {
  }

  lemma TextOf(ps: seq<seq<Instr>>, q: Port, big: bool)
    requires q.number < 7 && ps == Pieces(q, big)
    ensures Text(ps, q)
  {
    PiecesAre(ps, q, big);
    LoopPiecesAre(ps, 10, 17);
    hide LoopText, LoopShape, LoopPieces;
    var a := Before(q, big);
    assert ps[0] == a[0] && ps[2] == a[2] && ps[3] == a[3] && ps[4] == a[4] && ps[5] == a[5] && ps[6] == a[6] && ps[7] == a[7] && ps[9] == a[9];
    assert ps[18] == AFTER[0] && ps[19] == AFTER[1] && ps[20] == AFTER[2];
  }

  lemma StraightText(ps: seq<seq<Instr>>, q: Port)
    requires Text(ps, q)
    ensures StraightAt(ps, 0, 1) && StraightAt(ps, 2, 6) && StraightAt(ps, 9, 1) && StraightAt(ps, 18, 3)
  {
    hide LoopText;
  }

  lemma SilentText(ps: seq<seq<Instr>>, q: Port)
    requires Text(ps, q)
    ensures SilentAt(ps, 0, 1) && SilentAt(ps, 2, 3) && SilentAt(ps, 7, 1) && SilentAt(ps, 9, 1) && SilentAt(ps, 18, 3)
  {
    hide LoopText;
  }

  lemma ShapeOf(ps: seq<seq<Instr>>, q: Port, big: bool)
    requires q.number < 7 && ps == Pieces(q, big)
    ensures Shape(ps, big)
  {
    PiecesAre(ps, q, big);
    LoopPiecesAre(ps, 10, 17);
    TextOf(ps, q, big);
    hide LoopText, LoopShape, LoopPieces, Text;
    StraightText(ps, q);
    SilentText(ps, q);
    assert ps[1] == ps[..10][1] && ps[8] == ps[..10][8] && ps[21] == ps[18..][3];
  }

  /** What lies on the stack while the loop runs. */
  function Frame(s: Cpu): Stack {
    Saved(s.r, 18, 32, Top(s.r[17], Top(s.r[15], Top(s.r[1], Top(Pack(s.f), Top(s.r[0], Top(s.r[16], s.stack)))))))
  }

  function Entered(ps: seq<seq<Instr>>, s: Cpu): Cpu
    requires |ps| == 22
  {
    ExecAll(ps[4], ExecAll(ps[3], ExecAll(ps[2], ExecAll(ps[0], s))))
  }

  lemma StubAndPrologue(ps: seq<seq<Instr>>, q: Port, s: Cpu)
    requires Text(ps, q)
    ensures var t := ExecAll(ps[2], ExecAll(ps[0], s));
            && t.w == s.w && t.r == s.r[16 := 2 * q.number][0 := Pack(s.f)][1 := 0]
            && t.stack == Top(s.r[17], Top(s.r[15], Top(s.r[1], Top(Pack(s.f), Top(s.r[0], Top(s.r[16], s.stack))))))
  {
    Exec2(ps[0], s);
    PrologueDoes(ps[2], ExecAll(ps[0], s));
  }

  lemma EnteredDoes(ps: seq<seq<Instr>>, q: Port, s: Cpu)
    requires Text(ps, q)
    ensures var t := Entered(ps, s);
            && t.w == s.w && t.stack == Frame(s) && t.r[16] == 2 * q.number && t.r[1] == 0 && t.r[2..16] == s.r[2..16]
            && Pair(t.r, 26) == q.intFunc
  {
    hide Exec, Saved;
    StubAndPrologue(ps, q, s);
    var s2 := ExecAll(ps[2], ExecAll(ps[0], s));
    PushesDo(ps[3], 14, s2);
    SavedSame(s2.r, s.r, 32, s2.stack);
    PointDoes(ps[4], q.intFunc, ExecAll(ps[3], s2));
    EnteredKeeps(s.r, 2 * q.number, Pack(s.f), Lo(q.intFunc), Hi(q.intFunc));
  }

  lemma EnteredKeeps(r: Regs, n: byte, f: byte, lo: byte, hi: byte)
    ensures r[16 := n][0 := f][1 := 0][26 := lo][27 := hi][2..16] == r[2..16]
  {
  }

  function Prepared(ps: seq<seq<Instr>>, s: Cpu): Cpu
    requires |ps| == 22
  {
    ExecAll(ps[9], ExecAll(ps[7], ExecAll(ps[6], ExecAll(ps[5], s))))
  }

  lemma Low15(a: Regs, b: Regs, c: Regs)
    requires a[..15] == b[..15] && b[..26] == c[..26]
    ensures a[2..15] == c[2..15] && a[1] == c[1]
  {
    assert a[2..15] == a[..15][2..] && b[2..15] == b[..15][2..] && b[2..15] == b[..26][2..15] && c[2..15] == c[..26][2..15];
    assert a[1] == a[..15][1] && b[1] == b[..15][1] && b[1] == b[..26][1] && c[1] == c[..26][1];
  }

  lemma PreparedDoes(ps: seq<seq<Instr>>, q: Port, s: Cpu)
    requires Text(ps, q) && Enabled(q, s.w) && Pair(s.r, 26) == q.intFunc && s.r[16] == 2 * q.number && s.r[1] == 0
    ensures var t := Prepared(ps, s); var flags := Peek(s.w, FlagsAt(q));
            && !ExecAll(ps[7], ExecAll(ps[6], ExecAll(ps[5], s))).f.z
            && t.w == s.w && t.stack == s.stack && t.r[15] == flags && t.r[17] == flags && t.r[16] == FlagsAt(q)
            && t.r[1] == 0 && t.r[2..15] == s.r[2..15] && Pair(t.r, 28) == Table(q, s.w)
  {
    TableDoes(ps[5], s, q);
    var s1 := ExecAll(ps[5], s);
    assert s1.r[16] == s1.r[..26][16] == s.r[..26][16];
    FlagsDo(ps[6], s1, q);
    var s2 := ExecAll(ps[6], s1);
    Low15(s2.r, s1.r, s.r);
    TestDoes(ps[7], s2);
    var s3 := ExecAll(ps[7], s2);
    Low26(s3.r, s2.r);
    CopyDoes(ps[9], s3);
    assert ExecAll(ps[9], s3).r[2..15] == s3.r[2..15];
  }

  lemma Low26(a: Regs, b: Regs)
    requires a[..26] == b[..26]
    ensures a[2..15] == b[2..15] && a[1] == b[1] && a[15] == b[15] && a[16] == b[16]
  {
    assert a[2..15] == a[..26][2..15] && b[2..15] == b[..26][2..15];
    assert a[1] == a[..26][1] && a[15] == a[..26][15] && a[16] == a[..26][16];
    assert b[1] == b[..26][1] && b[15] == b[..26][15] && b[16] == b[..26][16];
  }

  function Left(ps: seq<seq<Instr>>, t: Cpu): Cpu
    requires |ps| == 22
  {
    ExecAll(ps[20], ExecAll(ps[19], ExecAll(ps[18], t)))
  }

  /** The loop keeps what was put away in r15 and r16. */
  lemma LeftDoes(ps: seq<seq<Instr>>, q: Port, s: Cpu, t: Cpu)
    requires Text(ps, q) && t.stack == Frame(s) && t.r[16] == FlagsAt(q) && t.r[2..15] == s.r[2..15]
    ensures Left(ps, t) == s.(w := Poke(t.w, FlagsAt(q), t.r[15]))
  {
    ClearDoes(ps[18], t, q);
    var t1 := ExecAll(ps[18], t);
    Low26(t1.r, t.r);
    var rest := Top(s.r[17], Top(s.r[15], Top(s.r[1], Top(Pack(s.f), Top(s.r[0], Top(s.r[16], s.stack))))));
    PopsDo(ps[19], 14, t1, s.r, rest);
    var t2 := ExecAll(ps[19], t1);
    EpilogueDoes(ps[20], t2, s.f, s.r, s.stack);
    AllBack(s.r, t1.r, t2.r, Pack(s.f));
  }

  lemma AllBack(r: Regs, a: Regs, b: Regs, x: byte)
    requires a[2..15] == r[2..15] && forall d :: 0 <= d < 32 ==> b[d] == if d >= 18 then r[d] else a[d]
    ensures b[17 := r[17]][15 := r[15]][1 := r[1]][0 := x][0 := r[0]][16 := r[16]] == r
  {
    forall d | 2 <= d < 15
      ensures b[d] == r[d]
    {
      assert a[d] == a[2..15][d - 2] && r[d] == r[2..15][d - 2];
    }
  }

  lemma EntryRuns(p: Program, big: bool, m: Machine)
    requires Shape(p.pieces, big) && m.pc == At(0, 0)
    ensures Comes(p, m, [], m.(pc := At(5, 0), cpu := Entered(p.pieces, m.cpu)))
  {
    hide Comes, Reaches, Exec, LoopShape, AllStraight, LoadsNothing;
    var s1 := ExecAll(p.pieces[0], m.cpu);
    var m1, m2 := Machine(At(1, 0), s1, m.called), Machine(ATTACHED_ISR, s1, m.called);
    ComesSilently(p, m, 0);
    ReachesJump(p, m1, 1, 0, Jump(big, ATTACHED_ISR));
    ComesOn(p, m, [], m1, m2);
    ComesPieces(p, m2, 2, 3);
    assert ExecPieces(p.pieces, 2, 2, s1) == ExecAll(p.pieces[3], ExecAll(p.pieces[2], s1));
    ComesOn(p, m, [], m2, Machine(At(5, 0), ExecPieces(p.pieces, 2, 3, s1), m.called));
  }

  /** What is loaded on the way. */
  lemma PreparedLoads(ps: seq<seq<Instr>>, q: Port, s: Cpu)
    requires Text(ps, q) && Enabled(q, s.w) && Pair(s.r, 26) == q.intFunc && s.r[16] == 2 * q.number && s.r[1] == 0
    ensures ExecLoads(ps[5], |ps[5]|, s) == PointerAt(q)
    ensures ExecLoads(ps[6], |ps[6]|, ExecAll(ps[5], s)) == [FlagsAt(q)]
  {
    hide LoopText, ExecLoads, Exec;
    TableLoads(ps[5], s, q);
    TableDoes(ps[5], s, q);
    var s1 := ExecAll(ps[5], s);
    assert s1.r[16] == s1.r[..26][16] == s.r[..26][16];
    FlagsLoads(ps[6], s1, q);
  }

  lemma FlagsLoads(b: seq<Instr>, s: Cpu, q: Port)
    requires b == FLAGS && s.r[16] == 2 * q.number && q.number < 7
    ensures ExecLoads(b, 5, s) == [FlagsAt(q)]
  {
    Exec4(b, s);
    var s4 := Do(Ldi(27, 0), Do(Mov(26, 16), Do(Subi(16, 253), Do(Add(16, 16), s))));
    assert Pair(s4.r, 26) == FlagsAt(q) && Exec(b, 4, s) == s4;
    NoLoads(b, 4, s);
    assert Loads(b[4], s4) == [FlagsAt(q)];
    hide Do;
    assert ExecLoads(b, 5, s) == [] + [FlagsAt(q)];
  }

  lemma PreparedRuns(p: Program, big: bool, m: Machine)
    requires Shape(p.pieces, big) && m.pc == At(5, 0)
    requires !ExecAll(p.pieces[7], ExecAll(p.pieces[6], ExecAll(p.pieces[5], m.cpu))).f.z
    ensures var ps := p.pieces;
            Comes(p, m, ExecLoads(ps[5], |ps[5]|, m.cpu) + ExecLoads(ps[6], |ps[6]|, ExecAll(ps[5], m.cpu)),
                  m.(pc := AINT_LOOP, cpu := Prepared(ps, m.cpu)))
  {
    var ps := p.pieces;
    assert |ps| == 22 && StraightAt(ps, 5, 3) && SilentAt(ps, 7, 1);
    var s1, s2 := ExecAll(ps[5], m.cpu), ExecAll(ps[6], ExecAll(ps[5], m.cpu));
    var t := ExecAll(ps[7], s2);
    var a := ExecLoads(ps[5], |ps[5]|, m.cpu) + ExecLoads(ps[6], |ps[6]|, s1);
    LoadingRuns(p, m, 5, s1, s2);
    TestRuns(p, big, m.(pc := At(7, 0), cpu := s2), t);
    hide Comes, Shape, ExecLoads, Exec;
    ComesOn(p, m, a, m.(pc := At(7, 0), cpu := s2), m.(pc := AINT_LOOP, cpu := ExecAll(ps[9], t)));
  }

  lemma TestRuns(p: Program, big: bool, m: Machine, t: Cpu)
    requires Shape(p.pieces, big) && m.pc == At(7, 0) && t == ExecAll(p.pieces[7], m.cpu) && !t.f.z
    ensures Comes(p, m, [], m.(pc := AINT_LOOP, cpu := ExecAll(p.pieces[9], t)))
  {
    hide Comes, Exec;
    var m1, m2, m3 := m.(pc := At(8, 0), cpu := t), m.(pc := At(8, 1), cpu := t), m.(pc := At(9, 0), cpu := t);
    ComesSilently(p, m, 7);
    ReachesBranch(p, m1, 8, 0, Breq(AINT_END));
    ComesOn(p, m, [], m1, m2);
    ReachesEnd(p, m2, 8);
    ComesOn(p, m, [], m2, m3);
    ComesSilently(p, m3, 9);
    ComesOn(p, m, [], m3, m.(pc := AINT_LOOP, cpu := ExecAll(p.pieces[9], t)));
  }

  lemma ExitRuns(p: Program, big: bool, m: Machine)
    requires Shape(p.pieces, big) && m.pc == AINT_END
    ensures Comes(p, m, [], m.(pc := Returned, cpu := Left(p.pieces, m.cpu)))
  {
    hide Comes, Reaches, Exec, LoopShape, AllStraight, LoadsNothing;
    ComesPieces(p, m, 18, 3);
    assert ExecPieces(p.pieces, 18, 2, m.cpu) == ExecAll(p.pieces[19], ExecAll(p.pieces[18], m.cpu));
    var m1 := m.(pc := At(21, 0), cpu := ExecPieces(p.pieces, 18, 3, m.cpu));
    ReachesReturn(p, m1, 21, 0);
    ComesOn(p, m, [], m1, m1.(pc := Returned));
  }

  /** The registers as the loop finds them: the flags put away in r15, their address in r16. */
  function Put(q: Port, s: Cpu): Cpu
    requires q.number < 7
  {
    s.(stack := Frame(s), r := s.r[15 := Peek(s.w, FlagsAt(q))][16 := FlagsAt(q)])
  }

  lemma LoopStarts(ps: seq<seq<Instr>>, q: Port, s: Cpu)
    requires Text(ps, q) && Enabled(q, s.w)
    ensures var t1 := Entered(ps, s); var t := Prepared(ps, t1);
            && t.w == s.w && Looping(17, Peek(s.w, FlagsAt(q)), Table(q, s.w), 0, Put(q, s), t)
            && !ExecAll(ps[7], ExecAll(ps[6], ExecAll(ps[5], t1))).f.z
  {
    assert |ps| == 22;
    hide Exec, Text, Frame;
    EnteredDoes(ps, q, s);
    var t1 := Entered(ps, s);
    assert t1.r[2..15] == t1.r[2..16][..13] && s.r[2..15] == s.r[2..16][..13];
    PreparedDoes(ps, q, t1);
    SliceIs(Prepared(ps, t1).r, s.r);
  }

  lemma SliceIs(a: Regs, b: Regs)
    requires a[2..15] == b[2..15]
    ensures forall d :: 2 <= d < 15 ==> a[d] == b[d]
  {
    assert forall d :: 2 <= d < 15 ==> a[2..15][d - 2] == a[d] && b[2..15][d - 2] == b[d];
  }

  /** From the vector to the loop. */
  lemma ToLoop(p: Program, q: Port, big: bool, m: Machine)
    requires Text(p.pieces, q) && Shape(p.pieces, big) && m.pc == At(0, 0) && Enabled(q, m.cpu.w)
    ensures Comes(p, m, PointerAt(q) + [FlagsAt(q)], m.(pc := AINT_LOOP, cpu := Prepared(p.pieces, Entered(p.pieces, m.cpu))))
  {
    LoopStarts(p.pieces, q, m.cpu);
    EnteredDoes(p.pieces, q, m.cpu);
    EntryRuns(p, big, m);
    var m1 := m.(pc := At(5, 0), cpu := Entered(p.pieces, m.cpu));
    PreparedRuns(p, big, m1);
    PreparedLoads(p.pieces, q, m1.cpu);
    hide Text, Shape, Comes;
    var a := PointerAt(q) + [FlagsAt(q)];
    ComesTrans(p, m, [], m1, a, m.(pc := AINT_LOOP, cpu := Prepared(p.pieces, m1.cpu)));
    assert [] + a == a;
  }

  /** The dispatcher, for every flag byte and table: the handlers of the C loop in the same order with the same effect on
      the world, the flags cleared at the end, the interrupted context restored, and nothing loaded beside the pointer to
      the table, the flags and the entries of the set flags. */
  lemma AttachedIsr(p: Program, q: Port, big: bool, effect: Effect, m: Machine)
    requires q.number < 7 && p.pieces == Pieces(q, big) && KeepsAbi(p.call, effect)
    requires m.pc == At(0, 0) && Enabled(q, m.cpu.w)
    ensures var y := PortInterruptHandler(q, effect, Outcome(m.cpu.w, m.called));
            Comes(p, m, IsrLoads(q, m.cpu.w), Machine(Returned, m.cpu.(w := y.w), y.called))
  {
    hide Pieces, Exec, LoopText, LoopShape, StraightAt, SilentAt, Comes, EntriesRead;
    TextOf(p.pieces, q, big);
    ShapeOf(p.pieces, q, big);
    var flags, table := Peek(m.cpu.w, FlagsAt(q)), Table(q, m.cpu.w);
    ToLoop(p, q, big, m);
    LoopStarts(p.pieces, q, m.cpu);
    var m1 := m.(pc := AINT_LOOP, cpu := Prepared(p.pieces, Entered(p.pieces, m.cpu)));
    var m2, j := LoopRuns(p, 10, 17, effect, flags, table, 0, Put(q, m.cpu), m1);
    ComesTrans(p, m, PointerAt(q) + [FlagsAt(q)], m1, EntriesRead(flags, table, 0), m2);
    PutAway(q, m.cpu, m2.cpu);
    LeftDoes(p.pieces, q, m.cpu, m2.cpu);
    ExitRuns(p, big, m2);
    ComesOn(p, m, IsrLoads(q, m.cpu.w), m2, m2.(pc := Returned, cpu := Left(p.pieces, m2.cpu)));
  }

  lemma PutAway(q: Port, s: Cpu, t: Cpu)
    requires q.number < 7 && KeptBut(17, Put(q, s).r, t.r)
    ensures t.r[15] == Peek(s.w, FlagsAt(q)) && t.r[16] == FlagsAt(q) && t.r[2..15] == s.r[2..15]
  {
  }

  /** The flags that were read on entry are cleared, the others are as the handlers left them: a pin that changes again
      while handlers run is not called again. */
  lemma FlagsReadAreCleared(q: Port, effect: Effect, x: Outcome, k: nat)
    requires Enabled(q, x.w)
    ensures var flags := Peek(x.w, FlagsAt(q)); var y := HandleFrom(flags, Table(q, x.w), effect, 0, x);
            Bit(PortInterruptHandler(q, effect, x).w.io.regs[FlagsAt(q)], k) == (Bit(y.w.io.regs[FlagsAt(q)], k) && !Bit(flags, k))
  {
    hide HandleFrom, Table, And, Bit;
    var flags := Peek(x.w, FlagsAt(q));
    var y := HandleFrom(flags, Table(q, x.w), effect, 0, x);
    PokeFlags(q, y.w, flags);
    BitMinusAnd(y.w.io.regs[FlagsAt(q)], flags, k);
  }

  lemma PokeFlags(q: Port, w: World, flags: byte)
    requires q.number < 7
    ensures Poke(w, FlagsAt(q), flags).io.regs[FlagsAt(q)] == WrittenFlags(w.io.regs[FlagsAt(q)], flags)
  {
  }

  /** Apart from those flags the world is as the handlers left it. */
  lemma OnlyFlagsAreCleared(q: Port, effect: Effect, x: Outcome)
    requires Enabled(q, x.w)
    ensures var y := HandleFrom(Peek(x.w, FlagsAt(q)), Table(q, x.w), effect, 0, x);
            var z := PortInterruptHandler(q, effect, x);
            && z.called == y.called && z.w.mem == y.w.mem && z.w.io.rx == y.w.io.rx
            && (forall a :: 0 <= a < 0x1_0000 && a != FlagsAt(q) ==> z.w.io.regs[a] == y.w.io.regs[a])
  {
    hide HandleFrom, Table, Peek, WrittenFlags;
  }
}
