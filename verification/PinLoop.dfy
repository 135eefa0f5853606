/** The dispatcher of pin interrupts: the C loop over flags and table, and the loop in assembly that replaces it. */
module PinLoop {
  import opened Bits
  import opened Avr

  /** Where the dispatcher finds things: the array intFunc of table pointers, and the port's number. */
  datatype Port = Port(intFunc: word, number: byte)

  /** VPORTx.INTFLAGS. */
  function FlagsAt(q: Port): word { 4 * q.number + 3 }

  function WordAt(w: World, a: nat): word
    requires a + 1 < 0x1_0000
  {
    Word(w.mem[a + 1], w.mem[a])
  }

  /** The port exists, and its table is installed and lies in RAM. */
  predicate Enabled(q: Port, w: World) {
    && q.number < 7 && 0x1000 <= q.intFunc && q.intFunc + 2 * q.number + 1 < 0x1_0000
    && 0x1000 <= Table(q, w) && Table(q, w) + 16 < 0x1_0000
    && w.io.usart >= 0x20
  }

  function Table(q: Port, w: World): word
    requires q.intFunc + 2 * q.number + 1 < 0x1_0000
  {
    WordAt(w, q.intFunc + 2 * q.number)
  }

  /** What a user function does to memory and I/O. */
  type Effect = (word, World) -> World

  /** A user function called by the ABI: r1 is zero before and after, the call-saved registers and the stack are kept,
      and what it does to the world depends on the world alone. */
  ghost predicate KeepsAbi(call: (word, Cpu) -> Cpu, effect: Effect) {
    forall a: word, s: Cpu :: s.r[1] == 0 ==>
      var t := call(a, s);
      && t.stack == s.stack && t.w == effect(a, s.w) && t.r[1] == 0
      && t.r[2..18] == s.r[2..18] && t.r[28] == s.r[28] && t.r[29] == s.r[29]
  }

  /** World and calls so far. */
  datatype Outcome = Outcome(w: World, called: seq<word>)

  /** One turn of the loop: the function of the entry is called if the flag is set and the entry is not null. */
  function HandleOne(flags: byte, table: word, effect: Effect, i: nat, x: Outcome): Outcome
    requires table + 16 < 0x1_0000 && i < 8
  {
    var f := WordAt(x.w, table + 2 * i);
    if Bit(flags, i) && f != 0 then Outcome(effect(f, x.w), x.called + [f]) else x
  }

  /** The loop of port_interrupt_handler from bit i on. A handler may change the table entries that are still to come. */
  function HandleFrom(flags: byte, table: word, effect: Effect, i: nat, x: Outcome): Outcome
    requires table + 16 < 0x1_0000 && i <= 8
    decreases 8 - i
  {
    if i == 8 then x else HandleFrom(flags, table, effect, i + 1, HandleOne(flags, table, effect, i, x))
  }

  function Shifted(a: nat, i: nat): nat { if i == 0 then a else Shifted(a, i - 1) / 2 }

  lemma {:induction false} ShiftedBit(a: nat, i: nat, k: nat)
    ensures Bit(Shifted(a, i), k) == Bit(a, i + k)
    decreases i
  {
    if i != 0 { ShiftedBit(a, i - 1, k + 1); }
  }

  /** The bytes of the table that turn i of the C loop needs: those of its entry if the flag is set. */
  function EntryRead(flags: byte, table: word, i: nat): seq<word>
    requires table + 16 < 0x1_0000 && i < 8
  {
    if Bit(flags, i) then [table + 2 * i, table + 2 * i + 1] else []
  }

  /** ... and that it needs from bit i on. */
  function EntriesRead(flags: byte, table: word, i: nat): seq<word>
    requires table + 16 < 0x1_0000 && i <= 8
    decreases 8 - i
  {
    if i == 8 then [] else EntryRead(flags, table, i) + EntriesRead(flags, table, i + 1)
  }

  /** They are those of the entries whose flag is set, and no others. */
  lemma {:induction false} EntriesReadAre(flags: byte, table: word, i: nat, a: word)
    requires table + 16 < 0x1_0000 && i <= 8
    ensures a in EntriesRead(flags, table, i) <==> exists k :: i <= k < 8 && Bit(flags, k) && a in EntryRead(flags, table, k)
    decreases 8 - i
  {
    if i < 8 { EntriesReadAre(flags, table, i + 1, a); }
  }

  /** None of them is past the last flag. */
  lemma NoEntryPastTheLastFlag(flags: byte, table: word, j: nat, a: word)
    requires table + 16 < 0x1_0000 && Shifted(flags, j) == 0 && a in EntriesRead(flags, table, 0)
    ensures table <= a < table + 2 * j
  {
    hide Bit, Shifted, EntriesRead;
    EntriesReadAre(flags, table, 0, a);
    var k :| 0 <= k < 8 && Bit(flags, k) && a in EntryRead(flags, table, k);
    if k >= j {
      ShiftedBit(flags, j, k - j);
      BitZero(k - j);
    }
  }

  lemma {:induction false} NothingToRead(flags: byte, table: word, i: nat)
    requires table + 16 < 0x1_0000 && i <= 8 && Shifted(flags, i) == 0
    ensures EntriesRead(flags, table, i) == []
    decreases 8 - i
  {
    if i < 8 {
      ShiftedBit(flags, i, 0);
      NothingToRead(flags, table, i + 1);
    }
  }

  /** Once the shifted flags are zero the C loop does nothing more. */
  lemma {:induction false} NothingLeft(flags: byte, table: word, effect: Effect, i: nat, x: Outcome)
    requires table + 16 < 0x1_0000 && i <= 8 && Shifted(flags, i) == 0
    ensures HandleFrom(flags, table, effect, i, x) == x
    decreases 8 - i
  {
    if i < 8 {
      ShiftedBit(flags, i, 0);
      NothingLeft(flags, table, effect, i + 1, x);
    }
  }

  // The loop of the assembly, from piece `at` on, with the flags in register g.

  const ADVANCE: seq<Instr> := [Adiw(28, 2)]
  const FETCH: seq<Instr> := [LdInc(30, Y), LdInc(31, Y), Sbiw(30, 0)]
  const TABLE: seq<Instr> := [Add(26, 16), Adc(27, 1), LdInc(28, X), Ldd(29, X, 0)]
  const TEST_X: seq<Instr> := [Sbiw(26, 0)]
  const PUSHES: seq<Instr> := [Push(18), Push(19), Push(20), Push(21), Push(22), Push(23), Push(24),
                               Push(25), Push(26), Push(27), Push(28), Push(29), Push(30), Push(31)]
  const POPS: seq<Instr> := [Pop(31), Pop(30), Pop(29), Pop(28), Pop(27), Pop(26), Pop(25),
                             Pop(24), Pop(23), Pop(22), Pop(21), Pop(20), Pop(19), Pop(18)]

  type FlagReg = g: nat | g == 16 || g == 17 witness 16

  /** AIntLoop up to AIntEnd. */
  function LoopPieces(at: nat, g: FlagReg): seq<seq<Instr>> {
    [ [Lsr(g)],                                 // AIntLoop
      [Brcs(At(at + 5, 0))],
      [Breq(At(at + 8, 0))],
      ADVANCE,
      [Rjmp(At(at, 0))],
      FETCH,
      [Breq(At(at, 0))],
      [Icall, Rjmp(At(at, 0))] ]
  }

  /** `brcs .+6` goes past exactly BREQ, ADIW and RJMP. */
  lemma BrcsDisplacement(at: nat, g: FlagReg)
    ensures var ps := LoopPieces(at, g); 2 * Words(ps[2] + ps[3] + ps[4]) == 6
  {
    var a, b, c := Breq(At(at + 8, 0)), Adiw(28, 2), Rjmp(At(at, 0));
    assert LoopPieces(at, g)[2] + LoopPieces(at, g)[3] + LoopPieces(at, g)[4] == [a] + ([b] + [c]);
    hide LoopPieces;
    WordsOf(c, []);
    assert [c] == [c] + [];
    WordsOf(b, [c]);
    WordsOf(a, [b] + [c]);
  }

  lemma WordsOf(i: Instr, b: seq<Instr>)
    ensures Words([i] + b) == Width(i) + Words(b)
  {
    assert ([i] + b)[1..] == b;
  }

  ghost predicate LoopText(ps: seq<seq<Instr>>, at: nat, g: FlagReg) {
    at + 8 < |ps| && ps[at] == [Lsr(g)] && ps[at + 3] == ADVANCE && ps[at + 5] == FETCH
  }

  ghost predicate LoopShape(ps: seq<seq<Instr>>, at: nat) {
    && at + 8 < |ps| && StraightAt(ps, at, 1) && StraightAt(ps, at + 3, 1) && StraightAt(ps, at + 5, 1)
    && LoadsNothing(ps[at]) && LoadsNothing(ps[at + 3])
    && ps[at + 1] == [Brcs(At(at + 5, 0))] && ps[at + 2] == [Breq(At(at + 8, 0))] && ps[at + 4] == [Rjmp(At(at, 0))]
    && ps[at + 6] == [Breq(At(at, 0))] && ps[at + 7] == [Icall, Rjmp(At(at, 0))]
  }

  lemma LoopPiecesAre(ps: seq<seq<Instr>>, at: nat, g: FlagReg)
    requires at + 8 < |ps| && ps[at..at + 8] == LoopPieces(at, g)
    ensures LoopText(ps, at, g) && LoopShape(ps, at)
  {
    var l := LoopPieces(at, g);
    assert forall k :: 0 <= k < 8 ==> ps[at + k] == ps[at..at + 8][k] == l[k];
    assert ps[at] == l[0] && ps[at + 1] == l[1] && ps[at + 2] == l[2] && ps[at + 3] == l[3];
    assert ps[at + 4] == l[4] && ps[at + 5] == l[5] && ps[at + 6] == l[6] && ps[at + 7] == l[7];
  }

  /** Of the registers that handlers keep all but g are what they were. */
  predicate KeptBut(g: FlagReg, a: Regs, b: Regs) { forall d :: 2 <= d < 18 && d != g ==> a[d] == b[d] }

  /** At AIntLoop before bit i: Y at entry i, g the flags from bit i on, the rest put away. */
  predicate Looping(g: FlagReg, flags: byte, table: word, i: nat, s: Cpu, t: Cpu) {
    && i <= 8 && table + 2 * i < 0x1_0000 && t.r[g] == Shifted(flags, i) && t.r[1] == 0
    && Pair(t.r, 28) == table + 2 * i && t.stack == s.stack && KeptBut(g, s.r, t.r)
  }

  lemma ShiftDoes(b: seq<Instr>, g: FlagReg, flags: byte, table: word, i: nat, s: Cpu, t: Cpu)
    requires b == [Lsr(g)] && Looping(g, flags, table, i, s, t)
    ensures var t' := Exec(b, 1, t);
            && t'.w == t.w && t'.stack == t.stack && t'.r == t.r[g := Shifted(flags, i + 1)]
            && t'.f.c == Bit(flags, i) && t'.f.z == (Shifted(flags, i + 1) == 0)
  {
    assert Exec(b, 1, t) == Do(Lsr(g), t);
    ShiftedBit(flags, i, 0);
  }

  lemma AdvanceDoes(b: seq<Instr>, t: Cpu)
    requires b == ADVANCE && Pair(t.r, 28) + 2 < 0x1_0000
    ensures var t' := Exec(b, 1, t);
            && t'.w == t.w && t'.stack == t.stack && Pair(t'.r, 28) == Pair(t.r, 28) + 2
            && t'.r[..28] == t.r[..28]
  {
    assert Exec(b, 1, t) == Do(Adiw(28, 2), t);
  }

  lemma LdIncRam(d: Reg, s: Cpu)
    requires 0x1000 <= Pair(s.r, 28) && Pair(s.r, 28) + 1 < 0x1_0000 && d >= 30
    ensures Do(LdInc(d, Y), s) == s.(r := SetPair(s.r, 28, Pair(s.r, 28) + 1)[d := s.w.mem[Pair(s.r, 28)]])
  {
  }

  lemma FetchDoes(b: seq<Instr>, t: Cpu)
    requires b == FETCH && 0x1000 <= Pair(t.r, 28) && Pair(t.r, 28) + 2 < 0x1_0000
    ensures var t' := Exec(b, 3, t); var f := WordAt(t.w, Pair(t.r, 28));
            && t'.w == t.w && t'.stack == t.stack && Pair(t'.r, 28) == Pair(t.r, 28) + 2 && Pair(t'.r, 30) == f
            && t'.f.z == (f == 0) && t'.r[..28] == t.r[..28]
  {
    Exec3(b, t);
    LdIncRam(30, t);
    var t1 := Do(LdInc(30, Y), t);
    LdIncRam(31, t1);
  }

  lemma FetchLoads(b: seq<Instr>, t: Cpu)
    requires b == FETCH && 0x1000 <= Pair(t.r, 28) && Pair(t.r, 28) + 2 < 0x1_0000
    ensures ExecLoads(b, 3, t) == [Pair(t.r, 28), Pair(t.r, 28) + 1]
  {
    var y := Pair(t.r, 28);
    LdIncRam(30, t);
    var t1 := Do(LdInc(30, Y), t);
    hide Do;
    assert Exec(b, 0, t) == t && Exec(b, 1, t) == t1 && Pair(t1.r, 28) == y + 1;
    assert Loads(b[0], t) == [y] && Loads(b[1], t1) == [y + 1] && Loads(b[2], Exec(b, 2, t)) == [];
    assert ExecLoads(b, 1, t) == [] + [y];
    assert ExecLoads(b, 2, t) == ([] + [y]) + [y + 1];
  }

  lemma KeptBelow(g: FlagReg, r: Regs, a: Regs, b: Regs)
    requires KeptBut(g, r, a) && a[..28] == b[..28]
    ensures KeptBut(g, r, b) && a[g] == b[g] && a[1] == b[1]
  {
    assert forall d :: 0 <= d < 28 ==> a[..28][d] == a[d] && b[..28][d] == b[d];
  }

  /** Bit i is clear and more flags follow. */
  lemma SkipRound(p: Program, at: nat, g: FlagReg, flags: byte, table: word, i: nat, s: Cpu, m: Machine) returns (m': Machine)
    requires LoopText(p.pieces, at, g) && LoopShape(p.pieces, at) && m.pc == At(at, 0) && table + 16 < 0x1_0000
    requires Looping(g, flags, table, i, s, m.cpu) && i < 8 && !Bit(flags, i) && Shifted(flags, i + 1) != 0
    ensures Comes(p, m, [], m') && m'.pc == At(at, 0) && Looping(g, flags, table, i + 1, s, m'.cpu)
    ensures m'.cpu.w == m.cpu.w && m'.called == m.called
  {
    hide Comes, Reaches, AllStraight, LoadsNothing;
    ShiftDoes(p.pieces[at], g, flags, table, i, s, m.cpu);
    ComesSilently(p, m, at);
    var t := ExecAll(p.pieces[at], m.cpu);
    ReachesPastBranches(p, at, m, t);
    var m1 := m.(pc := At(at + 3, 0), cpu := t);
    AdvanceDoes(p.pieces[at + 3], t);
    ComesSilently(p, m1, at + 3);
    var t' := ExecAll(p.pieces[at + 3], t);
    var m2 := m.(pc := At(at + 4, 0), cpu := t');
    ComesOn(p, m, [], m1, m2);
    ReachesJump(p, m2, at + 4, 0, Rjmp(At(at, 0)));
    m' := m.(pc := At(at, 0), cpu := t');
    ComesOn(p, m, [], m2, m');
    KeptBelow(g, s.r, t.r, t'.r);
  }

  lemma ReachesPastBranches(p: Program, at: nat, m: Machine, t: Cpu)
    requires LoopShape(p.pieces, at) && !t.f.c && !t.f.z && Comes(p, m, [], m.(pc := At(at + 1, 0), cpu := t))
    ensures Comes(p, m, [], m.(pc := At(at + 3, 0), cpu := t))
  {
    hide Comes, Reaches, StraightAt, LoadsNothing;
    var m1, m2, m3 := m.(pc := At(at + 1, 0), cpu := t), m.(pc := At(at + 1, 1), cpu := t), m.(pc := At(at + 2, 0), cpu := t);
    var m4, m5 := m.(pc := At(at + 2, 1), cpu := t), m.(pc := At(at + 3, 0), cpu := t);
    ReachesBranch(p, m1, at + 1, 0, Brcs(At(at + 5, 0)));
    ComesOn(p, m, [], m1, m2);
    ReachesEnd(p, m2, at + 1);
    ComesOn(p, m, [], m2, m3);
    ReachesBranch(p, m3, at + 2, 0, Breq(At(at + 8, 0)));
    ComesOn(p, m, [], m3, m4);
    ReachesEnd(p, m4, at + 2);
    ComesOn(p, m, [], m4, m5);
  }

  /** No flag is left. */
  lemma LastRound(p: Program, at: nat, g: FlagReg, flags: byte, table: word, i: nat, s: Cpu, m: Machine) returns (m': Machine)
    requires LoopText(p.pieces, at, g) && LoopShape(p.pieces, at) && m.pc == At(at, 0)
    requires Looping(g, flags, table, i, s, m.cpu) && !Bit(flags, i) && Shifted(flags, i + 1) == 0
    ensures Comes(p, m, [], m') && m'.pc == At(at + 8, 0) && m'.cpu.w == m.cpu.w && m'.called == m.called
    ensures m'.cpu.stack == s.stack && KeptBut(g, s.r, m'.cpu.r) && Pair(m'.cpu.r, 28) == table + 2 * i
  {
    hide Comes, Reaches, AllStraight, LoadsNothing;
    ShiftDoes(p.pieces[at], g, flags, table, i, s, m.cpu);
    ComesSilently(p, m, at);
    var t := ExecAll(p.pieces[at], m.cpu);
    var m1, m2, m3 := m.(pc := At(at + 1, 0), cpu := t), m.(pc := At(at + 1, 1), cpu := t), m.(pc := At(at + 2, 0), cpu := t);
    m' := m.(pc := At(at + 8, 0), cpu := t);
    ReachesBranch(p, m1, at + 1, 0, Brcs(At(at + 5, 0)));
    ComesOn(p, m, [], m1, m2);
    ReachesEnd(p, m2, at + 1);
    ComesOn(p, m, [], m2, m3);
    ReachesBranch(p, m3, at + 2, 0, Breq(At(at + 8, 0)));
    ComesOn(p, m, [], m3, m');
  }

  lemma Fetched(ps: seq<seq<Instr>>, at: nat, g: FlagReg, flags: byte, table: word, i: nat, s: Cpu, t0: Cpu)
    requires LoopText(ps, at, g) && 0x1000 <= table && table + 16 < 0x1_0000
    requires Looping(g, flags, table, i, s, t0) && i < 8 && Bit(flags, i)
    ensures var t := ExecAll(ps[at], t0); var t' := ExecAll(ps[at + 5], t);
            && t.f.c && Looping(g, flags, table, i + 1, s, t') && t'.w == t0.w
            && Pair(t'.r, 30) == WordAt(t0.w, table + 2 * i) && t'.f.z == (Pair(t'.r, 30) == 0)
            && ExecLoads(ps[at + 5], |ps[at + 5]|, t) == EntryRead(flags, table, i)
  {
    ShiftDoes(ps[at], g, flags, table, i, s, t0);
    var t := ExecAll(ps[at], t0);
    FetchDoes(ps[at + 5], t);
    FetchLoads(ps[at + 5], t);
    KeptBelow(g, s.r, t.r, ExecAll(ps[at + 5], t).r);
  }

  /** Bit i is set: its entry is fetched. */
  lemma FetchRuns(p: Program, at: nat, m: Machine, t: Cpu)
    requires LoopShape(p.pieces, at) && m.pc == At(at, 0) && t == ExecAll(p.pieces[at], m.cpu) && t.f.c
    ensures Comes(p, m, ExecLoads(p.pieces[at + 5], |p.pieces[at + 5]|, t), m.(pc := At(at + 6, 0), cpu := ExecAll(p.pieces[at + 5], t)))
  {
    hide Comes, Reaches, Exec, ExecLoads;
    ComesSilently(p, m, at);
    var m1, m2 := m.(pc := At(at + 1, 0), cpu := t), m.(pc := At(at + 5, 0), cpu := t);
    ReachesBranch(p, m1, at + 1, 0, Brcs(At(at + 5, 0)));
    ComesOn(p, m, [], m1, m2);
    ComesNext(p, m2, at + 5);
    var a := ExecLoads(p.pieces[at + 5], |p.pieces[at + 5]|, t);
    ComesTrans(p, m, [], m2, a, m.(pc := At(at + 6, 0), cpu := ExecAll(p.pieces[at + 5], t)));
    assert [] + a == a;
  }

  lemma HandlerKeeps(call: (word, Cpu) -> Cpu, effect: Effect, a: word, g: FlagReg, s: Cpu)
    requires KeepsAbi(call, effect) && s.r[1] == 0
    ensures var t := call(a, s);
            && t.stack == s.stack && t.w == effect(a, s.w) && t.r[1] == 0
            && t.r[g] == s.r[g] && KeptBut(g, s.r, t.r) && Pair(t.r, 28) == Pair(s.r, 28)
  {
    var t := call(a, s);
    assert forall d :: 2 <= d < 18 ==> t.r[2..18][d - 2] == t.r[d] && s.r[2..18][d - 2] == s.r[d];
  }

  lemma LoopingOn(g: FlagReg, flags: byte, table: word, i: nat, s: Cpu, t: Cpu, t': Cpu)
    requires Looping(g, flags, table, i, s, t)
    requires t'.stack == t.stack && t'.r[1] == 0 && t'.r[g] == t.r[g] && KeptBut(g, t.r, t'.r) && Pair(t'.r, 28) == Pair(t.r, 28)
    ensures Looping(g, flags, table, i, s, t')
  {
  }

  /** The entry is called unless it is null. */
  lemma CallRuns(p: Program, at: nat, g: FlagReg, effect: Effect, flags: byte, table: word, i: nat, s: Cpu, m: Machine) returns (m': Machine)
    requires LoopShape(p.pieces, at) && KeepsAbi(p.call, effect) && m.pc == At(at + 6, 0)
    requires Looping(g, flags, table, i, s, m.cpu) && m.cpu.f.z == (Pair(m.cpu.r, 30) == 0)
    ensures Comes(p, m, [], m') && m'.pc == At(at, 0) && Looping(g, flags, table, i, s, m'.cpu)
    ensures var f := Pair(m.cpu.r, 30);
            Outcome(m'.cpu.w, m'.called) ==
            if f != 0 then Outcome(effect(f, m.cpu.w), m.called + [f]) else Outcome(m.cpu.w, m.called)
  {
    ReachesBranch(p, m, at + 6, 0, Breq(At(at, 0)));
    if m.cpu.f.z {
      m' := m.(pc := At(at, 0));
    } else {
      var f := Pair(m.cpu.r, 30);
      var m1, m2 := m.(pc := At(at + 6, 1)), m.(pc := At(at + 7, 0));
      ReachesEnd(p, m1, at + 6);
      ComesOn(p, m, [], m1, m2);
      var m3 := Machine(At(at + 7, 1), p.call(f, m.cpu), m.called + [f]);
      ReachesCall(p, m2, at + 7, 0);
      ComesOn(p, m, [], m2, m3);
      HandlerKeeps(p.call, effect, f, g, m.cpu);
      LoopingOn(g, flags, table, i, s, m.cpu, m3.cpu);
      ReachesJump(p, m3, at + 7, 1, Rjmp(At(at, 0)));
      m' := m3.(pc := At(at, 0));
      ComesOn(p, m, [], m3, m');
    }
  }

  /** Bit i is set: its handler is called if there is one. */
  lemma CallRound(p: Program, at: nat, g: FlagReg, effect: Effect, flags: byte, table: word, i: nat, s: Cpu, m: Machine) returns (m': Machine)
    requires LoopText(p.pieces, at, g) && LoopShape(p.pieces, at) && KeepsAbi(p.call, effect)
    requires m.pc == At(at, 0) && 0x1000 <= table && table + 16 < 0x1_0000
    requires Looping(g, flags, table, i, s, m.cpu) && i < 8 && Bit(flags, i)
    ensures Comes(p, m, EntryRead(flags, table, i), m') && m'.pc == At(at, 0) && Looping(g, flags, table, i + 1, s, m'.cpu)
    ensures Outcome(m'.cpu.w, m'.called) == HandleOne(flags, table, effect, i, Outcome(m.cpu.w, m.called))
  {
    assert at + 8 < |p.pieces|;
    hide LoopText, LoopShape, KeepsAbi, Comes, Exec, ExecLoads, Bit, Shifted;
    Fetched(p.pieces, at, g, flags, table, i, s, m.cpu);
    FetchRuns(p, at, m, ExecAll(p.pieces[at], m.cpu));
    var m1 := m.(pc := At(at + 6, 0), cpu := ExecAll(p.pieces[at + 5], ExecAll(p.pieces[at], m.cpu)));
    m' := CallRuns(p, at, g, effect, flags, table, i + 1, s, m1);
    ComesOn(p, m, EntryRead(flags, table, i), m1, m');
  }

  lemma {:induction false} ShiftedBound(a: nat, i: nat, k: nat)
    requires a < Pow2(k) && i <= k
    ensures Shifted(a, i) < Pow2(k - i)
    decreases i
  {
    if i != 0 { ShiftedBound(a, i - 1, k); }
  }

  /** A turn that is not the last one. */
  lemma Round(p: Program, at: nat, g: FlagReg, effect: Effect, flags: byte, table: word, i: nat, s: Cpu, m: Machine) returns (m': Machine)
    requires LoopText(p.pieces, at, g) && LoopShape(p.pieces, at) && KeepsAbi(p.call, effect)
    requires m.pc == At(at, 0) && 0x1000 <= table && table + 16 < 0x1_0000
    requires Looping(g, flags, table, i, s, m.cpu) && i < 8 && (Bit(flags, i) || Shifted(flags, i + 1) != 0)
    ensures Comes(p, m, EntryRead(flags, table, i), m') && m'.pc == At(at, 0) && Looping(g, flags, table, i + 1, s, m'.cpu)
    ensures Outcome(m'.cpu.w, m'.called) == HandleOne(flags, table, effect, i, Outcome(m.cpu.w, m.called))
  {
    if Bit(flags, i) {
      m' := CallRound(p, at, g, effect, flags, table, i, s, m);
    } else {
      m' := SkipRound(p, at, g, flags, table, i, s, m);
    }
  }

  lemma FlagsEnd(flags: byte, i: nat)
    requires i <= 8 && (Bit(flags, i) || Shifted(flags, i + 1) != 0)
    ensures i < 8 && Shifted(flags, i) != 0
  {
    assert Pow2(8) == 256 && Pow2(0) == 1;
    ShiftedBit(flags, i, 0);
    if i == 8 { ShiftedBound(flags, 8, 8); }
  }

  /** Where the loop may stop: past the last flag. */
  predicate Stops(g: FlagReg, flags: byte, table: word, j: nat, s: Cpu, t: Cpu) {
    && t.stack == s.stack && KeptBut(g, s.r, t.r)
    && Pair(t.r, 28) == table + 2 * j && Shifted(flags, j) == 0 && (j == 0 || Shifted(flags, j - 1) != 0)
  }

  /** The turn that is. */
  lemma Last(p: Program, at: nat, g: FlagReg, effect: Effect, flags: byte, table: word, i: nat, s: Cpu, m: Machine) returns (m': Machine)
    requires LoopText(p.pieces, at, g) && LoopShape(p.pieces, at)
    requires m.pc == At(at, 0) && 0x1000 <= table && table + 16 < 0x1_0000
    requires Looping(g, flags, table, i, s, m.cpu) && (i == 0 || Shifted(flags, i - 1) != 0)
    requires !Bit(flags, i) && Shifted(flags, i + 1) == 0
    ensures i <= 8 && Comes(p, m, EntriesRead(flags, table, i), m') && m'.pc == At(at + 8, 0) && Stops(g, flags, table, i, s, m'.cpu)
    ensures Outcome(m'.cpu.w, m'.called) == HandleFrom(flags, table, effect, i, Outcome(m.cpu.w, m.called))
  {
    NoFlag(flags, i);
    m' := LastRound(p, at, g, flags, table, i, s, m);
    NothingToRead(flags, table, i);
    NothingLeft(flags, table, effect, i, Outcome(m.cpu.w, m.called));
  }

  lemma NoFlag(flags: byte, i: nat)
    requires !Bit(flags, i) && Shifted(flags, i + 1) == 0
    ensures Shifted(flags, i) == 0
  {
    ShiftedBit(flags, i, 0);
  }

  /** The whole loop from bit i on is the C loop from bit i on. It stops at j, the place of the last flag plus one, and all
      it has loaded are the entries of the set flags. */
  lemma {:induction false} LoopRuns(p: Program, at: nat, g: FlagReg, effect: Effect, flags: byte, table: word, i: nat, s: Cpu, m: Machine)
    returns (m': Machine, j: nat)
    requires LoopText(p.pieces, at, g) && LoopShape(p.pieces, at) && KeepsAbi(p.call, effect)
    requires m.pc == At(at, 0) && 0x1000 <= table && table + 16 < 0x1_0000
    requires Looping(g, flags, table, i, s, m.cpu) && (i == 0 || Shifted(flags, i - 1) != 0)
    ensures i <= 8 && Comes(p, m, EntriesRead(flags, table, i), m') && m'.pc == At(at + 8, 0) && Stops(g, flags, table, j, s, m'.cpu)
    ensures Outcome(m'.cpu.w, m'.called) == HandleFrom(flags, table, effect, i, Outcome(m.cpu.w, m.called))
    decreases 8 - i
  {
    assert i <= 8;
    hide LoopText, LoopShape, KeepsAbi, Looping, Comes, Stops, Bit, HandleOne, WordAt, EntryRead, Shifted, EntriesRead, HandleFrom;
    if Bit(flags, i) || Shifted(flags, i + 1) != 0 {
      FlagsEnd(flags, i);
      var m1 := Round(p, at, g, effect, flags, table, i, s, m);
      m', j := LoopRuns(p, at, g, effect, flags, table, i + 1, s, m1);
      ComesTrans(p, m, EntryRead(flags, table, i), m1, EntriesRead(flags, table, i + 1), m');
      OneTurn(flags, table, effect, i, Outcome(m.cpu.w, m.called));
    } else {
      m' := Last(p, at, g, effect, flags, table, i, s, m);
      j := i;
    }
  }

  /** The C loop, and what it reads, one turn unfolded. */
  lemma OneTurn(flags: byte, table: word, effect: Effect, i: nat, x: Outcome)
    requires table + 16 < 0x1_0000 && i < 8
    ensures EntriesRead(flags, table, i) == EntryRead(flags, table, i) + EntriesRead(flags, table, i + 1)
    ensures HandleFrom(flags, table, effect, i, x) == HandleFrom(flags, table, effect, i + 1, HandleOne(flags, table, effect, i, x))
  {
  }

  // Parts of prologue and epilogue.

  /** The stack after pushing registers lo..hi-1. */
  function Saved(r: Regs, lo: nat, hi: nat, rest: Stack): Stack
    requires lo <= hi <= 32
    decreases hi
  {
    if lo == hi then rest else Top(r[hi - 1], Saved(r, lo, hi - 1, rest))
  }

  lemma {:induction false} PushesDo(b: seq<Instr>, n: nat, s: Cpu)
    requires n <= |b| <= 14 && (forall k :: 0 <= k < |b| ==> b[k] == Push(18 + k))
    ensures Exec(b, n, s) == s.(stack := Saved(s.r, 18, 18 + n, s.stack))
    decreases n
  {
    if n != 0 {
      PushesDo(b, n - 1, s);
      assert b[n - 1] == Push(17 + n);
    }
  }

  lemma {:induction false} PopsDo(b: seq<Instr>, n: nat, s: Cpu, r: Regs, rest: Stack)
    requires n <= |b| == 14 && (forall k :: 0 <= k < |b| ==> b[k] == Pop(31 - k)) && s.stack == Saved(r, 18, 32, rest)
    ensures var t := Exec(b, n, s);
            && t.w == s.w && t.stack == Saved(r, 18, 32 - n, rest)
            && (forall d :: 0 <= d < 32 ==> t.r[d] == if d >= 32 - n then r[d] else s.r[d])
    decreases n
  {
    if n != 0 {
      PopsDo(b, n - 1, s, r, rest);
      assert b[n - 1] == Pop(32 - n);
    }
  }

  lemma LdIncX(s: Cpu)
    requires 0x1000 <= Pair(s.r, 26) && Pair(s.r, 26) + 1 < 0x1_0000
    ensures Do(LdInc(28, X), s) == s.(r := SetPair(s.r, 26, Pair(s.r, 26) + 1)[28 := s.w.mem[Pair(s.r, 26)]])
  {
  }

  lemma LoadTable(s: Cpu)
    requires 0x1000 <= Pair(s.r, 26) && Pair(s.r, 26) + 1 < 0x1_0000
    ensures var t := Do(Ldd(29, X, 0), Do(LdInc(28, X), s));
            && t.w == s.w && t.stack == s.stack && t.r[..26] == s.r[..26] && Pair(t.r, 28) == WordAt(s.w, Pair(s.r, 26))
  {
    LdIncX(s);
    LddRam(29, X, 0, Do(LdInc(28, X), s));
  }

  lemma TableDoes(b: seq<Instr>, s: Cpu, q: Port)
    requires b == TABLE && Pair(s.r, 26) == q.intFunc && s.r[16] == 2 * q.number && s.r[1] == 0 && Enabled(q, s.w)
    ensures var t := Exec(b, 4, s);
            && t.w == s.w && t.stack == s.stack && t.r[..26] == s.r[..26] && Pair(t.r, 28) == Table(q, s.w)
  {
    Exec4(b, s);
    AddIndex(26, 16, 1, s);
    var s2 := Do(Adc(27, 1), Do(Add(26, 16), s));
    LoadTable(s2);
  }

  /** Where the pointer to the port's table is. */
  function PointerAt(q: Port): seq<word>
    requires q.intFunc + 2 * q.number + 1 < 0x1_0000
  {
    var e := q.intFunc + 2 * q.number;
    [e, e + 1]
  }

  lemma TableLoads(b: seq<Instr>, s: Cpu, q: Port)
    requires b == TABLE && Pair(s.r, 26) == q.intFunc && s.r[16] == 2 * q.number && s.r[1] == 0 && Enabled(q, s.w)
    ensures ExecLoads(b, 4, s) == PointerAt(q)
  {
    AddIndex(26, 16, 1, s);
    var s2 := Do(Adc(27, 1), Do(Add(26, 16), s));
    Exec2(b, s);
    NoLoads(b, 2, s);
    PointerLoads(b, s, s2, q.intFunc + 2 * q.number);
  }

  lemma PointerLoads(b: seq<Instr>, s: Cpu, s2: Cpu, e: word)
    requires b == TABLE && Exec(b, 2, s) == s2 && ExecLoads(b, 2, s) == [] && Pair(s2.r, 26) == e && 0x1000 <= e && e + 1 < 0x1_0000
    ensures ExecLoads(b, 4, s) == [e, e + 1]
  {
    LdIncX(s2);
    var s3 := Do(LdInc(28, X), s2);
    assert Exec(b, 3, s) == s3 && Pair(s3.r, 26) == e + 1;
    assert Loads(b[2], s2) == [e] && Loads(b[3], s3) == [e + 1];
    assert ExecLoads(b, 3, s) == [] + [e];
  }

  /** Two pieces that load. */
  lemma LoadingRuns(p: Program, m: Machine, l: nat, s1: Cpu, s2: Cpu)
    requires m.pc == At(l, 0) && StraightAt(p.pieces, l, 2) && s1 == ExecAll(p.pieces[l], m.cpu) && s2 == ExecAll(p.pieces[l + 1], s1)
    ensures var b, c := p.pieces[l], p.pieces[l + 1];
            Comes(p, m, ExecLoads(b, |b|, m.cpu) + ExecLoads(c, |c|, s1), m.(pc := At(l + 2, 0), cpu := s2))
  {
    var b, c := p.pieces[l], p.pieces[l + 1];
    ComesNext(p, m, l);
    var m1 := m.(pc := At(l + 1, 0), cpu := s1);
    ComesNext(p, m1, l + 1);
    ComesTrans(p, m, ExecLoads(b, |b|, m.cpu), m1, ExecLoads(c, |c|, s1), m.(pc := At(l + 2, 0), cpu := s2));
  }

  /** All that the dispatcher loads: the pointer to the port's table, the flags, and the entries of the set flags. */
  function IsrLoads(q: Port, w: World): seq<word>
    requires Enabled(q, w)
  {
    PointerAt(q) + [FlagsAt(q)] + EntriesRead(Peek(w, FlagsAt(q)), Table(q, w), 0)
  }

  /** Outside of that pointer and of I/O only entries whose flag is set are loaded; none is past the last flag. */
  lemma IsrLoadsAre(q: Port, w: World, a: word)
    requires Enabled(q, w) && a in IsrLoads(q, w) && a >= 0x1000 && !(q.intFunc + 2 * q.number <= a < q.intFunc + 2 * q.number + 2)
    ensures var flags, table := Peek(w, FlagsAt(q)), Table(q, w);
            && (exists k :: 0 <= k < 8 && Bit(flags, k) && a in EntryRead(flags, table, k))
            && forall j: nat :: Shifted(flags, j) == 0 ==> table <= a < table + 2 * j
  {
    hide EntriesRead, Bit, Shifted, EntryRead;
    var flags, table := Peek(w, FlagsAt(q)), Table(q, w);
    assert a in EntriesRead(flags, table, 0);
    EntriesReadAre(flags, table, 0, a);
    forall j: nat | Shifted(flags, j) == 0
      ensures table <= a < table + 2 * j
    {
      NoEntryPastTheLastFlag(flags, table, j, a);
    }
  }

  lemma TestDoes(b: seq<Instr>, s: Cpu)
    requires b == TEST_X && Pair(s.r, 26) != 0
    ensures var t := Exec(b, 1, s);
            && t.w == s.w && t.stack == s.stack && !t.f.z && t.r[..26] == s.r[..26] && Pair(t.r, 28) == Pair(s.r, 28)
  {
    assert Exec(b, 1, s) == Do(Sbiw(26, 0), s);
  }

  lemma PointDoes(b: seq<Instr>, a: word, s: Cpu)
    requires b == [Ldi(26, Lo(a)), Ldi(27, Hi(a))]
    ensures Exec(b, 2, s) == s.(r := s.r[26 := Lo(a)][27 := Hi(a)])
  {
    Exec2(b, s);
  }

  lemma {:induction false} SavedSame(a: Regs, b: Regs, hi: nat, rest: Stack)
    requires 18 <= hi <= 32 && forall d :: 18 <= d < 32 ==> a[d] == b[d]
    ensures Saved(a, 18, hi, rest) == Saved(b, 18, hi, rest)
    decreases hi
  {
    if hi > 18 { SavedSame(a, b, hi - 1, rest); }
  }

  // What the sequence of calls is.

  /** The handlers of the set flags from bit i on, without the null ones, in ascending order of pins. */
  function SetHandlers(flags: byte, table: word, w: World, i: nat): seq<word>
    requires table + 16 < 0x1_0000 && i <= 8
    decreases 8 - i
  {
    if i == 8 then []
    else
      var f := WordAt(w, table + 2 * i);
      (if Bit(flags, i) && f != 0 then [f] else []) + SetHandlers(flags, table, w, i + 1)
  }

  predicate SameTable(table: word, a: World, b: World)
    requires table + 16 < 0x1_0000
  {
    forall i :: 0 <= i < 8 ==> WordAt(a, table + 2 * i) == WordAt(b, table + 2 * i)
  }

  lemma {:induction false} SetHandlersSame(flags: byte, table: word, a: World, b: World, i: nat)
    requires table + 16 < 0x1_0000 && i <= 8 && SameTable(table, a, b)
    ensures SetHandlers(flags, table, a, i) == SetHandlers(flags, table, b, i)
    decreases 8 - i
  {
    if i < 8 { SetHandlersSame(flags, table, a, b, i + 1); }
  }

  ghost predicate LeavesTable(effect: Effect, table: word)
    requires table + 16 < 0x1_0000
  {
    forall f: word, w: World :: SameTable(table, w, effect(f, w))
  }

  lemma JoinCalls(called: seq<word>, f: word, rest: seq<word>)
    ensures (called + [f]) + rest == called + ([f] + rest)
    ensures called + ([] + rest) == called + rest
  {
  }

  /** When no handler rewrites the table, exactly the non-null handlers of the set flags are called, once each and in order. */
  lemma {:induction false} CallsAreTheSetHandlers(flags: byte, table: word, effect: Effect, i: nat, x: Outcome)
    requires table + 16 < 0x1_0000 && i <= 8 && LeavesTable(effect, table)
    ensures HandleFrom(flags, table, effect, i, x).called == x.called + SetHandlers(flags, table, x.w, i)
    decreases 8 - i
  {
    if i < 8 {
      var f := WordAt(x.w, table + 2 * i);
      var now := Bit(flags, i) && f != 0;
      var y := if now then Outcome(effect(f, x.w), x.called + [f]) else x;
      CallsAreTheSetHandlers(flags, table, effect, i + 1, y);
      assert SameTable(table, x.w, y.w);
      SetHandlersSame(flags, table, x.w, y.w, i + 1);
      JoinCalls(x.called, f, SetHandlers(flags, table, x.w, i + 1));
    }
  }
}
