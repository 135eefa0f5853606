/** `AttachedISR` in the form that clears the flags before the handlers run; flags are shifted in r16, RAMPZ is saved. */
module PinIsrEarly {
  import opened Bits
  import opened Avr
  import opened PinLoop

  const RAMPZ: byte := 0x3B

  /** What this form does: the flags are written back first, and RAMPZ at the end. */
  function PortInterruptHandler(q: Port, effect: Effect, x: Outcome): Outcome
    requires Enabled(q, x.w)
  {
    var flags := Peek(x.w, FlagsAt(q));
    var y := HandleFrom(flags, Table(q, x.w), effect, 0, x.(w := Poke(x.w, FlagsAt(q), flags)));
    y.(w := Poke(y.w, RAMPZ, x.w.io.regs[RAMPZ]))
  }

  const PROLOGUE: seq<Instr> := [Push(0), InSreg(0), Push(0), InIo(0, RAMPZ), Push(0), Push(1), Clr(1)]
  const FLAGS: seq<Instr> := [Add(16, 16), Subi(16, 253), Mov(26, 16), Ldi(27, 0), Ldd(16, X, 0), Std(X, 0, 16)]
  const EPILOGUE: seq<Instr> := [Pop(1), Pop(0), OutIo(RAMPZ, 0), Pop(0), OutSreg(0), Pop(0), Pop(16)]

  // Labels.
  const ATTACHED_ISR := At(2, 0)
  const AINT_LOOP := At(9, 0)
  const AINT_END := At(17, 0)

  function Before(q: Port, big: bool): seq<seq<Instr>>
    requires q.number < 7
  {
    [ [Push(16), Ldi(16, 2 * q.number)],
      [Jump(big, ATTACHED_ISR)],
      PROLOGUE, PUSHES,
      [Ldi(26, Lo(q.intFunc)), Ldi(27, Hi(q.intFunc))],
      TABLE, FLAGS, TEST_X,
      [Breq(AINT_END)] ]
  }

  const AFTER: seq<seq<Instr>> := [POPS, EPILOGUE, [Reti]]

  /** The stub of one port followed by AttachedISR. */
  function Pieces(q: Port, big: bool): seq<seq<Instr>>
    requires q.number < 7
  {
    Before(q, big) + LoopPieces(9, 16) + AFTER
  }

  lemma PrologueDoes(b: seq<Instr>, s: Cpu)
    requires b == PROLOGUE
    ensures var t := Exec(b, 7, s); var z := s.w.io.regs[RAMPZ];
            && t.w == s.w && t.r == s.r[0 := z][1 := 0]
            && t.stack == Top(s.r[1], Top(z, Top(Pack(s.f), Top(s.r[0], s.stack))))
  {
    Exec5(b, s);
    assert Exec(b, 7, s) == Do(Clr(1), Do(Push(1), Exec(b, 5, s)));
  }

  lemma EpilogueDoes(b: seq<Instr>, s: Cpu, f: Sreg, r: Regs, z: byte, rest: Stack)
    requires b == EPILOGUE
    requires s.stack == Top(r[1], Top(z, Top(Pack(f), Top(r[0], Top(r[16], rest)))))
    ensures var t := Exec(b, 7, s);
            && t.w == Poke(s.w, RAMPZ, z) && t.stack == rest && t.f == f
            && t.r == s.r[1 := r[1]][0 := z][0 := Pack(f)][0 := r[0]][16 := r[16]]
  {
    Exec5(b, s);
    UnpackPack(f);
    assert Exec(b, 7, s) == Do(Pop(16), Do(Pop(0), Exec(b, 5, s)));
  }

  lemma FlagsDo(b: seq<Instr>, s: Cpu, q: Port)
    requires b == FLAGS && s.r[16] == 2 * q.number && q.number < 7 && s.w.io.usart >= 0x20
    ensures var t := Exec(b, 6, s); var flags := Peek(s.w, FlagsAt(q));
            && t.w == Poke(s.w, FlagsAt(q), flags) && t.stack == s.stack && t.r[16] == flags
            && t.r[..16] == s.r[..16] && t.r[17] == s.r[17] && Pair(t.r, 26) == FlagsAt(q) && Pair(t.r, 28) == Pair(s.r, 28)
  {
    Exec5(b, s);
    var s4 := Do(Ldi(27, 0), Do(Mov(26, 16), Do(Subi(16, 253), Do(Add(16, 16), s))));
    assert Pair(s4.r, 26) == FlagsAt(q);
    LddIo(16, X, 0, s4);
    var s5 := Do(Ldd(16, X, 0), s4);
    StdIo(X, 0, 16, s5);
    assert Exec(b, 6, s) == Do(Std(X, 0, 16), s5);
  }

  // All of it.

  ghost predicate Text(ps: seq<seq<Instr>>, q: Port) {
    && |ps| == 20 && LoopText(ps, 9, 16) && q.number < 7
    && ps[0] == [Push(16), Ldi(16, 2 * q.number)] && ps[2] == PROLOGUE && ps[3] == PUSHES
    && ps[4] == [Ldi(26, Lo(q.intFunc)), Ldi(27, Hi(q.intFunc))] && ps[5] == TABLE && ps[6] == FLAGS && ps[7] == TEST_X
    && ps[17] == POPS && ps[18] == EPILOGUE
  }

  ghost predicate Shape(ps: seq<seq<Instr>>, big: bool) {
    && |ps| == 20 && LoopShape(ps, 9) && ps[1] == [Jump(big, ATTACHED_ISR)] && ps[8] == [Breq(AINT_END)] && ps[19] == [Reti]
    && StraightAt(ps, 0, 1) && StraightAt(ps, 2, 6) && StraightAt(ps, 17, 2)
    && SilentAt(ps, 0, 1) && SilentAt(ps, 2, 3) && SilentAt(ps, 7, 1) && SilentAt(ps, 17, 2)
  }

  lemma PiecesAre(ps: seq<seq<Instr>>, q: Port, big: bool)
    requires q.number < 7 && ps == Pieces(q, big)
    ensures |ps| == 20 && ps[..9] == Before(q, big) && ps[9..17] == LoopPieces(9, 16) && ps[17..] == AFTER
  {
  }

  lemma TextOf(ps: seq<seq<Instr>>, q: Port, big: bool)
    requires q.number < 7 && ps == Pieces(q, big)
    ensures Text(ps, q)
  {
    PiecesAre(ps, q, big);
    LoopPiecesAre(ps, 9, 16);
    hide LoopText, LoopShape, LoopPieces;
    var a := Before(q, big);
    assert ps[0] == a[0] && ps[2] == a[2] && ps[3] == a[3] && ps[4] == a[4] && ps[5] == a[5] && ps[6] == a[6] && ps[7] == a[7];
    assert ps[17] == AFTER[0] && ps[18] == AFTER[1];
  }

  lemma StraightText(ps: seq<seq<Instr>>, q: Port)
    requires Text(ps, q)
    ensures StraightAt(ps, 0, 1) && StraightAt(ps, 2, 6) && StraightAt(ps, 17, 2)
  {
    hide LoopText;
  }

  lemma SilentText(ps: seq<seq<Instr>>, q: Port)
    requires Text(ps, q)
    ensures SilentAt(ps, 0, 1) && SilentAt(ps, 2, 3) && SilentAt(ps, 7, 1) && SilentAt(ps, 17, 2)
  {
    hide LoopText;
  }

  lemma ShapeOf(ps: seq<seq<Instr>>, q: Port, big: bool)
    requires q.number < 7 && ps == Pieces(q, big)
    ensures Shape(ps, big)
  {
    PiecesAre(ps, q, big);
    LoopPiecesAre(ps, 9, 16);
    TextOf(ps, q, big);
    hide LoopText, LoopShape, LoopPieces, Text;
    StraightText(ps, q);
    SilentText(ps, q);
    assert ps[1] == ps[..9][1] && ps[8] == ps[..9][8] && ps[19] == ps[17..][2];
  }

  /** What lies on the stack while the loop runs. */
  function Frame(s: Cpu): Stack {
    Saved(s.r, 18, 32, Top(s.r[1], Top(s.w.io.regs[RAMPZ], Top(Pack(s.f), Top(s.r[0], Top(s.r[16], s.stack))))))
  }

  function Entered(ps: seq<seq<Instr>>, s: Cpu): Cpu
    requires |ps| == 20
  {
    ExecAll(ps[4], ExecAll(ps[3], ExecAll(ps[2], ExecAll(ps[0], s))))
  }

  lemma StubAndPrologue(ps: seq<seq<Instr>>, q: Port, s: Cpu)
    requires Text(ps, q)
    ensures var t := ExecAll(ps[2], ExecAll(ps[0], s)); var z := s.w.io.regs[RAMPZ];
            && t.w == s.w && t.r == s.r[16 := 2 * q.number][0 := z][1 := 0]
            && t.stack == Top(s.r[1], Top(z, Top(Pack(s.f), Top(s.r[0], Top(s.r[16], s.stack)))))
  {
    Exec2(ps[0], s);
    PrologueDoes(ps[2], ExecAll(ps[0], s));
  }

  lemma EnteredDoes(ps: seq<seq<Instr>>, q: Port, s: Cpu)
    requires Text(ps, q)
    ensures var t := Entered(ps, s);
            && t.w == s.w && t.stack == Frame(s) && t.r[16] == 2 * q.number && t.r[1] == 0 && KeptBut(16, s.r, t.r)
            && Pair(t.r, 26) == q.intFunc
  {
    hide Exec, Saved;
    StubAndPrologue(ps, q, s);
    var s2 := ExecAll(ps[2], ExecAll(ps[0], s));
    PushesDo(ps[3], 14, s2);
    SavedSame(s2.r, s.r, 32, s2.stack);
    PointDoes(ps[4], q.intFunc, ExecAll(ps[3], s2));
  }

  function Prepared(ps: seq<seq<Instr>>, s: Cpu): Cpu
    requires |ps| == 20
  {
    ExecAll(ps[7], ExecAll(ps[6], ExecAll(ps[5], s)))
  }

  lemma Below(r: Regs, a: Regs, b: Regs, n: nat)
    requires 16 <= n <= 32 && KeptBut(16, r, a) && a[..n] == b[..n] && b[17] == a[17]
    ensures KeptBut(16, r, b) && b[1] == a[1]
  {
    assert forall d :: 0 <= d < n ==> a[..n][d] == a[d] && b[..n][d] == b[d];
  }

  lemma PreparedDoes(ps: seq<seq<Instr>>, q: Port, s: Cpu, r: Regs)
    requires Text(ps, q) && Enabled(q, s.w) && Pair(s.r, 26) == q.intFunc && s.r[16] == 2 * q.number && s.r[1] == 0 && KeptBut(16, r, s.r)
    ensures var t := Prepared(ps, s); var flags := Peek(s.w, FlagsAt(q));
            && !t.f.z && t.w == Poke(s.w, FlagsAt(q), flags) && t.stack == s.stack && t.r[16] == flags
            && t.r[1] == 0 && KeptBut(16, r, t.r) && Pair(t.r, 28) == Table(q, s.w)
  {
    TableDoes(ps[5], s, q);
    var s1 := ExecAll(ps[5], s);
    assert s1.r[..26][16] == s1.r[16] && s.r[..26][16] == s.r[16] && s1.r[..26][17] == s1.r[17] && s.r[..26][17] == s.r[17];
    Below(r, s.r, s1.r, 26);
    FlagsDo(ps[6], s1, q);
    var s2 := ExecAll(ps[6], s1);
    Below(r, s1.r, s2.r, 16);
    TestDoes(ps[7], s2);
    var s3 := ExecAll(ps[7], s2);
    assert s3.r[..26][16] == s3.r[16] && s2.r[..26][16] == s2.r[16] && s3.r[..26][17] == s3.r[17] && s2.r[..26][17] == s2.r[17];
    Below(r, s2.r, s3.r, 26);
  }

  function Left(ps: seq<seq<Instr>>, t: Cpu): Cpu
    requires |ps| == 20
  {
    ExecAll(ps[18], ExecAll(ps[17], t))
  }

  lemma LeftDoes(ps: seq<seq<Instr>>, q: Port, s: Cpu, t: Cpu)
    requires Text(ps, q) && t.stack == Frame(s) && KeptBut(16, s.r, t.r)
    ensures Left(ps, t) == s.(w := Poke(t.w, RAMPZ, s.w.io.regs[RAMPZ]))
  {
    var z := s.w.io.regs[RAMPZ];
    PopsDo(ps[17], 14, t, s.r, Top(s.r[1], Top(z, Top(Pack(s.f), Top(s.r[0], Top(s.r[16], s.stack))))));
    var t1 := ExecAll(ps[17], t);
    EpilogueDoes(ps[18], t1, s.f, s.r, z, s.stack);
    AllBack(s.r, t.r, t1.r, z, Pack(s.f));
  }

  lemma AllBack(r: Regs, a: Regs, b: Regs, z: byte, x: byte)
    requires KeptBut(16, r, a) && forall d :: 0 <= d < 32 ==> b[d] == if d >= 18 then r[d] else a[d]
    ensures b[1 := r[1]][0 := z][0 := x][0 := r[0]][16 := r[16]] == r
  {
  }

  lemma EntryRuns(p: Program, big: bool, m: Machine)
    requires Shape(p.pieces, big) && m.pc == At(0, 0)
    ensures Comes(p, m, [], m.(pc := At(5, 0), cpu := Entered(p.pieces, m.cpu)))
  {
    hide Comes, Reaches, Exec, LoopShape, AllStraight, LoadsNothing;
    var s1 := ExecAll(p.pieces[0], m.cpu);
    var m1, m2 := Machine(At(1, 0), s1, m.called), Machine(ATTACHED_ISR, s1, m.called);
    ComesSilently(p, m, 0);
    ReachesJump(p, m1, 1, 0, Jump(big, ATTACHED_ISR));
    ComesOn(p, m, [], m1, m2);
    ComesPieces(p, m2, 2, 3);
    assert ExecPieces(p.pieces, 2, 2, s1) == ExecAll(p.pieces[3], ExecAll(p.pieces[2], s1));
    ComesOn(p, m, [], m2, Machine(At(5, 0), ExecPieces(p.pieces, 2, 3, s1), m.called));
  }

  /** What is loaded on the way. */
  lemma PreparedLoads(ps: seq<seq<Instr>>, q: Port, s: Cpu)
    requires Text(ps, q) && Enabled(q, s.w) && Pair(s.r, 26) == q.intFunc && s.r[16] == 2 * q.number && s.r[1] == 0
    ensures ExecLoads(ps[5], |ps[5]|, s) == PointerAt(q)
    ensures ExecLoads(ps[6], |ps[6]|, ExecAll(ps[5], s)) == [FlagsAt(q)]
  {
    hide LoopText, ExecLoads, Exec;
    TableLoads(ps[5], s, q);
    TableDoes(ps[5], s, q);
    var s1 := ExecAll(ps[5], s);
    assert s1.r[16] == s1.r[..26][16] == s.r[..26][16];
    FlagsLoads(ps[6], s1, q);
  }

  lemma FlagsLoads(b: seq<Instr>, s: Cpu, q: Port)
    requires b == FLAGS && s.r[16] == 2 * q.number && q.number < 7
    ensures ExecLoads(b, 6, s) == [FlagsAt(q)]
  {
    Exec4(b, s);
    var s4 := Do(Ldi(27, 0), Do(Mov(26, 16), Do(Subi(16, 253), Do(Add(16, 16), s))));
    assert Pair(s4.r, 26) == FlagsAt(q) && Exec(b, 4, s) == s4;
    hide Do, Exec;
    NoLoads(b, 4, s);
    LastLoads(b, s, s4, FlagsAt(q));
  }

  lemma LastLoads(b: seq<Instr>, s: Cpu, s4: Cpu, a: word)
    requires b == FLAGS && Exec(b, 4, s) == s4 && ExecLoads(b, 4, s) == [] && Pair(s4.r, 26) == a
    ensures ExecLoads(b, 6, s) == [a]
  {
    hide Do, Exec;
    assert Loads(b[4], s4) == [a] && Loads(b[5], Exec(b, 5, s)) == [];
    assert ExecLoads(b, 5, s) == [] + [a];
  }

  lemma PreparedRuns(p: Program, big: bool, m: Machine)
    requires Shape(p.pieces, big) && m.pc == At(5, 0) && !Prepared(p.pieces, m.cpu).f.z
    ensures var ps := p.pieces;
            Comes(p, m, ExecLoads(ps[5], |ps[5]|, m.cpu) + ExecLoads(ps[6], |ps[6]|, ExecAll(ps[5], m.cpu)),
                  m.(pc := AINT_LOOP, cpu := Prepared(ps, m.cpu)))
  {
    var ps := p.pieces;
    assert |ps| == 20 && StraightAt(ps, 5, 3) && SilentAt(ps, 7, 1);
    var s1, s2 := ExecAll(ps[5], m.cpu), ExecAll(ps[6], ExecAll(ps[5], m.cpu));
    var t := ExecAll(ps[7], s2);
    var a := ExecLoads(ps[5], |ps[5]|, m.cpu) + ExecLoads(ps[6], |ps[6]|, s1);
    LoadingRuns(p, m, 5, s1, s2);
    TestRuns(p, big, m.(pc := At(7, 0), cpu := s2), t);
    hide Comes, Shape, ExecLoads, Exec;
    ComesOn(p, m, a, m.(pc := At(7, 0), cpu := s2), m.(pc := AINT_LOOP, cpu := t));
  }

  lemma TestRuns(p: Program, big: bool, m: Machine, t: Cpu)
    requires Shape(p.pieces, big) && m.pc == At(7, 0) && t == ExecAll(p.pieces[7], m.cpu) && !t.f.z
    ensures Comes(p, m, [], m.(pc := AINT_LOOP, cpu := t))
  {
    hide Comes, Exec;
    var m1, m2, m3 := m.(pc := At(8, 0), cpu := t), m.(pc := At(8, 1), cpu := t), m.(pc := AINT_LOOP, cpu := t);
    ComesSilently(p, m, 7);
    ReachesBranch(p, m1, 8, 0, Breq(AINT_END));
    ComesOn(p, m, [], m1, m2);
    ReachesEnd(p, m2, 8);
    ComesOn(p, m, [], m2, m3);
  }

  lemma ExitRuns(p: Program, big: bool, m: Machine)
    requires Shape(p.pieces, big) && m.pc == AINT_END
    ensures Comes(p, m, [], m.(pc := Returned, cpu := Left(p.pieces, m.cpu)))
  {
    hide Comes, Reaches, Exec, LoopShape, AllStraight, LoadsNothing;
    ComesPieces(p, m, 17, 2);
    var m1 := m.(pc := At(19, 0), cpu := ExecPieces(p.pieces, 17, 2, m.cpu));
    ReachesReturn(p, m1, 19, 0);
    ComesOn(p, m, [], m1, m1.(pc := Returned));
  }

  lemma LoopStarts(ps: seq<seq<Instr>>, q: Port, s: Cpu)
    requires Text(ps, q) && Enabled(q, s.w)
    ensures var t := Prepared(ps, Entered(ps, s)); var flags := Peek(s.w, FlagsAt(q));
            && t.w == Poke(s.w, FlagsAt(q), flags) && !t.f.z && Looping(16, flags, Table(q, s.w), 0, s.(stack := Frame(s)), t)
  {
    assert |ps| == 20;
    hide Exec, Text, Frame;
    EnteredDoes(ps, q, s);
    PreparedDoes(ps, q, Entered(ps, s), s.r);
  }

  /** From the vector to the loop. */
  lemma ToLoop(p: Program, q: Port, big: bool, m: Machine)
    requires Text(p.pieces, q) && Shape(p.pieces, big) && m.pc == At(0, 0) && Enabled(q, m.cpu.w)
    ensures Comes(p, m, PointerAt(q) + [FlagsAt(q)], m.(pc := AINT_LOOP, cpu := Prepared(p.pieces, Entered(p.pieces, m.cpu))))
  {
    LoopStarts(p.pieces, q, m.cpu);
    EnteredDoes(p.pieces, q, m.cpu);
    EntryRuns(p, big, m);
    var m1 := m.(pc := At(5, 0), cpu := Entered(p.pieces, m.cpu));
    PreparedRuns(p, big, m1);
    PreparedLoads(p.pieces, q, m1.cpu);
    hide Text, Shape, Comes;
    var a := PointerAt(q) + [FlagsAt(q)];
    ComesTrans(p, m, [], m1, a, m.(pc := AINT_LOOP, cpu := Prepared(p.pieces, m1.cpu)));
    assert [] + a == a;
  }

  /** The dispatcher, for every flag byte and table: the flags cleared first, then the handlers of the C loop in the same
      order, the interrupted context restored, and nothing loaded beside the pointer to the table, the flags and the
      entries of the set flags. */
  lemma AttachedIsr(p: Program, q: Port, big: bool, effect: Effect, m: Machine)
    requires q.number < 7 && p.pieces == Pieces(q, big) && KeepsAbi(p.call, effect)
    requires m.pc == At(0, 0) && Enabled(q, m.cpu.w)
    ensures var y := PortInterruptHandler(q, effect, Outcome(m.cpu.w, m.called));
            Comes(p, m, IsrLoads(q, m.cpu.w), Machine(Returned, m.cpu.(w := y.w), y.called))
  {
    hide Pieces, Exec, LoopText, LoopShape, StraightAt, SilentAt, Comes, EntriesRead;
    TextOf(p.pieces, q, big);
    ShapeOf(p.pieces, q, big);
    var flags, table := Peek(m.cpu.w, FlagsAt(q)), Table(q, m.cpu.w);
    ToLoop(p, q, big, m);
    LoopStarts(p.pieces, q, m.cpu);
    var m1 := m.(pc := AINT_LOOP, cpu := Prepared(p.pieces, Entered(p.pieces, m.cpu)));
    var m2, j := LoopRuns(p, 9, 16, effect, flags, table, 0, m.cpu.(stack := Frame(m.cpu)), m1);
    ComesTrans(p, m, PointerAt(q) + [FlagsAt(q)], m1, EntriesRead(flags, table, 0), m2);
    LeftDoes(p.pieces, q, m.cpu, m2.cpu);
    ExitRuns(p, big, m2);
    ComesOn(p, m, IsrLoads(q, m.cpu.w), m2, m2.(pc := Returned, cpu := Left(p.pieces, m2.cpu)));
  }

  lemma FlagsWrittenBack(x: byte, k: nat)
    ensures !Bit(WrittenFlags(x, x), k)
  {
    hide And, Bit;
    BitMinusAnd(x, x, k);
  }

  lemma PokeAt(q: Port, w: World, flags: byte)
    requires q.number < 7
    ensures Poke(w, FlagsAt(q), flags).io.regs[FlagsAt(q)] == WrittenFlags(w.io.regs[FlagsAt(q)], flags)
    ensures w.io.usart >= 0x20 ==> Peek(w, FlagsAt(q)) == w.io.regs[FlagsAt(q)]
  {
  }

  lemma RampzElsewhere(q: Port, w: World, z: byte)
    requires q.number < 7
    ensures Poke(w, RAMPZ, z).io.regs[FlagsAt(q)] == w.io.regs[FlagsAt(q)]
  {
  }

  /** No flag that was read is still set when the first handler runs, and none is cleared after it: a pin that changes
      while handlers run is called again. */
  lemma FlagsRaisedSinceAreKept(q: Port, effect: Effect, x: Outcome, k: nat)
    requires Enabled(q, x.w)
    ensures var flags := Peek(x.w, FlagsAt(q)); var x1 := x.(w := Poke(x.w, FlagsAt(q), flags));
            var y := HandleFrom(flags, Table(q, x.w), effect, 0, x1);
            && !Bit(x1.w.io.regs[FlagsAt(q)], k)
            && PortInterruptHandler(q, effect, x).w.io.regs[FlagsAt(q)] == y.w.io.regs[FlagsAt(q)]
  {
    hide HandleFrom, Table, Peek, Poke, WrittenFlags, Bit;
    var flags := Peek(x.w, FlagsAt(q));
    PokeAt(q, x.w, flags);
    FlagsWrittenBack(flags, k);
    RampzElsewhere(q, HandleFrom(flags, Table(q, x.w), effect, 0, x.(w := Poke(x.w, FlagsAt(q), flags))).w, x.w.io.regs[RAMPZ]);
  }

  /** RAMPZ is what it was at the interrupt, and apart from it and the flags cleared first the world is as the handlers left it. */
  lemma RampzIsRestored(q: Port, effect: Effect, x: Outcome)
    requires Enabled(q, x.w) && x.w.io.usart >= 0x800
    ensures var flags := Peek(x.w, FlagsAt(q));
            var y := HandleFrom(flags, Table(q, x.w), effect, 0, x.(w := Poke(x.w, FlagsAt(q), flags)));
            var z := PortInterruptHandler(q, effect, x);
            && z.called == y.called && z.w.mem == y.w.mem && z.w.io.rx == y.w.io.rx
            && (y.w.io.usart >= 0x800 ==> z.w.io.regs == y.w.io.regs[RAMPZ := x.w.io.regs[RAMPZ]])
  {
    hide HandleFrom, Table, Peek, WrittenFlags;
  }
}
