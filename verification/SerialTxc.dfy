/** `_do_txc` in the form that half duplex needs: the transmit-complete interrupt in assembly. */
module SerialTxc {
  import opened Bits
  import opened Avr
  import opened SerialObject
  import opened SerialAsm

  const ENTRY: seq<Instr> := [Push(24), InSreg(24), Push(24), Push(25), Push(28), Push(29)]
  const MODULE_IN_Y: seq<Instr> := [Ldd(28, Z, 8), Ldi(29, 0x08), Ldd(25, Y, 5)]
  const DUMP: seq<Instr> := [Ldd(24, Y, 0), Ldd(24, Y, 4)]
  const SWITCH: seq<Instr> := [Andi(25, 0xBF), Ori(25, 0x80), Std(Y, 5, 25)]
  const LEAVE: seq<Instr> := [Pop(29), Pop(28), Pop(25), Pop(24), OutSreg(24), Pop(24), Pop(31), Pop(30)]

  // Labels.
  const DO_TXC := At(2, 0)
  const TXC_FLUSH_RX := At(4, 0)

  function Pieces(o: Obj, big: bool): seq<seq<Instr>> {
    [ [Push(30), Push(31), Ldi(30, Lo(o.base)), Ldi(31, Hi(o.base))],
      [Jump(big, DO_TXC)],
      ENTRY,
      MODULE_IN_Y,
      DUMP,
      [Sbrc(24, 7), Rjmp(TXC_FLUSH_RX)],
      SWITCH,
      LEAVE,
      [Reti] ]
  }

  predicate Kept(a: Regs, b: Regs) {
    forall d :: 0 <= d < 32 && d !in [24, 25, 28, 29] ==> a[d] == b[d]
  }

  /** Turning TXCIE off and RXCIE on gives the same CTRLA in either order. */
  lemma SwitchOrder(x: byte)
    ensures OrByte(AndByte(x, 0xBF), 0x80) == AndByte(OrByte(x, 0x80), 0xBF)
  {
    var a, b := OrByte(AndByte(x, 0xBF), 0x80), AndByte(OrByte(x, 0x80), 0xBF);
    assert Pow2(8) == 256;
    forall k: nat | 0 <= k < 8
      ensures Bit(a, k) == Bit(b, k)
    {
      BitOr(AndByte(x, 0xBF), 0x80, k);
      BitAnd(x, 0xBF, k);
      BitAnd(OrByte(x, 0x80), 0xBF, k);
      BitOr(x, 0x80, k);
      TopBits(k);
    }
    SameBits(a, b, 8);
  }

  lemma TopBits(k: nat)
    requires k < 8
    ensures Bit(0x80, k) ==> Bit(0xBF, k)
  {
    Masks();
    BitPow2(7, k);
    BitHole(8, 6, k);
  }

  /** RXCIF as the loop sees it. */
  lemma StatusBit(io: Io)
    requires io.usart < 0xFF0
    ensures Bit(IoRead(io, io.usart + 4), 7) == (io.rx != [])
  {
    StatusBits(io.regs[io.usart + 4], io.rx != []);
  }

  lemma StatusBits(x: byte, b: bool)
    ensures Bit(OrByte(AndByte(x, 0x7F), if b then 0x80 else 0), 7) == b
  {
    Masks();
    BitOr(AndByte(x, 0x7F), if b then 0x80 else 0, 7);
    BitAnd(x, 0x7F, 7);
    BitOnes(7, 7);
    BitPow2(7, 7);
    BitZero(7);
  }

  lemma DumpDoes(b: seq<Instr>, s: Cpu)
    requires b == DUMP && Pair(s.r, 28) == s.w.io.usart <= 0x8F0
    ensures var t := Exec(b, 2, s); var left := if s.w.io.rx == [] then [] else s.w.io.rx[1..];
            && t.r == s.r[24 := t.r[24]] && t.stack == s.stack
            && t.w == s.w.(io := s.w.io.(rx := left)) && Bit(t.r[24], 7) == (left != [])
  {
    Exec2(b, s);
    LddIo(24, Y, 0, s);
    var s1 := Do(Ldd(24, Y, 0), s);
    LddIo(24, Y, 4, s1);
    StatusBit(s1.w.io);
  }

  ghost predicate Text(ps: seq<seq<Instr>>, o: Obj) {
    && |ps| == 9 && ps[0] == [Push(30), Push(31), Ldi(30, Lo(o.base)), Ldi(31, Hi(o.base))] && ps[2] == ENTRY && ps[3] == MODULE_IN_Y
    && ps[4] == DUMP && ps[6] == SWITCH && ps[7] == LEAVE
  }

  ghost predicate Shape(ps: seq<seq<Instr>>, big: bool) {
    && |ps| == 9 && ps[1] == [Jump(big, DO_TXC)] && ps[5] == [Sbrc(24, 7), Rjmp(TXC_FLUSH_RX)] && ps[8] == [Reti]
    && StraightAt(ps, 0, 1) && StraightAt(ps, 2, 3) && StraightAt(ps, 6, 2)
  }

  lemma ShapeOf(ps: seq<seq<Instr>>, o: Obj, big: bool)
    requires ps == Pieces(o, big)
    ensures Text(ps, o) && Shape(ps, big)
  {
  }

  /** Out of the loop only scratch register 24 has changed, and the FIFO is empty. */
  predicate Drained(s: Cpu, t: Cpu) {
    t.r == s.r[24 := t.r[24]] && t.stack == s.stack && t.w == s.w.(io := s.w.io.(rx := []))
  }

  lemma RoundRuns(p: Program, o: Obj, big: bool, m: Machine)
    requires Shape(p.pieces, big) && Text(p.pieces, o) && m.pc == TXC_FLUSH_RX && Pair(m.cpu.r, 28) == m.cpu.w.io.usart <= 0x8F0
    ensures var t := ExecAll(p.pieces[4], m.cpu);
            Reaches(p, m, m.(pc := if t.w.io.rx == [] then At(6, 0) else TXC_FLUSH_RX, cpu := t))
  {
    hide Reaches, Comes, Exec;
    var t := ExecAll(p.pieces[4], m.cpu);
    DumpDoes(p.pieces[4], m.cpu);
    ReachesNext(p, m, 4);
    var m1 := m.(pc := At(5, 0), cpu := t);
    ReachesSkip(p, m1, 5, 0, Sbrc(24, 7));
    if t.w.io.rx == [] {
      ReachesTrans(p, m, m1, m1.(pc := At(5, 2)));
      ReachesEnd(p, m1.(pc := At(5, 2)), 5);
      ReachesTrans(p, m, m1.(pc := At(5, 2)), m1.(pc := At(6, 0)));
    } else {
      ReachesTrans(p, m, m1, m1.(pc := At(5, 1)));
      ReachesJump(p, m1.(pc := At(5, 1)), 5, 1, Rjmp(TXC_FLUSH_RX));
      ReachesTrans(p, m, m1.(pc := At(5, 1)), m1.(pc := TXC_FLUSH_RX));
    }
  }

  /** However many frames are waiting, the loop ends with none. */
  lemma {:induction false} LoopRuns(p: Program, o: Obj, big: bool, m: Machine) returns (m': Machine)
    requires Shape(p.pieces, big) && Text(p.pieces, o) && m.pc == TXC_FLUSH_RX && Pair(m.cpu.r, 28) == m.cpu.w.io.usart <= 0x8F0
    ensures Reaches(p, m, m') && m'.pc == At(6, 0) && m'.called == m.called && Drained(m.cpu, m'.cpu)
    decreases |m.cpu.w.io.rx|
  {
    var t := ExecAll(p.pieces[4], m.cpu);
    DumpDoes(p.pieces[4], m.cpu);
    RoundRuns(p, o, big, m);
    m' := m.(pc := if t.w.io.rx == [] then At(6, 0) else TXC_FLUSH_RX, cpu := t);
    if t.w.io.rx != [] {
      var m1 := m';
      m' := LoopRuns(p, o, big, m1);
      ReachesTrans(p, m, m1, m');
      assert Drained(m.cpu, m'.cpu);
    }
  }

  lemma StubDoes4(b: seq<Instr>, base: word, s: Cpu)
    requires b == [Push(30), Push(31), Ldi(30, Lo(base)), Ldi(31, Hi(base))]
    ensures var t := Exec(b, 4, s);
            && t.r == s.r[30 := Lo(base)][31 := Hi(base)] && t.stack == Top(s.r[31], Top(s.r[30], s.stack)) && t.f == s.f
            && t.w == s.w && Pair(t.r, 30) == base
  {
    Exec4(b, s);
  }

  lemma EntryDoes(b: seq<Instr>, s: Cpu)
    requires b == ENTRY
    ensures Exec(b, 6, s) == s.(r := s.r[24 := Pack(s.f)],
      stack := Top(s.r[29], Top(s.r[28], Top(s.r[25], Top(Pack(s.f), Top(s.r[24], s.stack))))))
  {
    Exec5(b, s);
    assert Exec(b, 6, s) == Do(Push(29), Exec(b, 5, s));
  }

  lemma ModuleDoes(b: seq<Instr>, s: Cpu, u: word)
    requires b == MODULE_IN_Y && 0x1000 <= Pair(s.r, 30) <= 0xFFCF && u == Word(8, s.w.mem[Pair(s.r, 30) + 8]) == s.w.io.usart <= 0x8F0
    ensures var t := Exec(b, 3, s);
            && Kept(s.r, t.r) && t.stack == s.stack && t.w == s.w && Pair(t.r, 28) == u && t.r[25] == Peek(s.w, u + CTRLA)
  {
    Exec3(b, s);
    LddRam(28, Z, 8, s);
    LddIo(25, Y, 5, Do(Ldi(29, 0x08), Do(Ldd(28, Z, 8), s)));
  }

  lemma SwitchDoes(b: seq<Instr>, s: Cpu, u: word)
    requires b == SWITCH && Pair(s.r, 28) == u <= 0x8F0
    ensures var t := Exec(b, 3, s);
            Kept(s.r, t.r) && t.stack == s.stack && t.w == Poke(s.w, u + CTRLA, OrByte(AndByte(s.r[25], 0xBF), 0x80))
  {
    Exec3(b, s);
    StdIo(Y, 5, 25, Do(Ori(25, 0x80), Do(Andi(25, 0xBF), s)));
  }

  lemma LeaveDoes(b: seq<Instr>, s: Cpu, f: Sreg, r: Regs, rest: Stack)
    requires b == LEAVE
    requires s.stack == Top(r[29], Top(r[28], Top(r[25], Top(Pack(f), Top(r[24], Top(r[31], Top(r[30], rest)))))))
    ensures var t := Exec(b, 8, s);
            && t.f == f && t.stack == rest && t.w == s.w
            && t.r == s.r[29 := r[29]][28 := r[28]][25 := r[25]][24 := Pack(f)][24 := r[24]][31 := r[31]][30 := r[30]]
  {
    Exec5(b, s);
    UnpackPack(f);
    assert Exec(b, 8, s) == Do(Pop(30), Do(Pop(31), Do(Pop(24), Exec(b, 5, s))));
  }

  lemma Restored(r: Regs, a: byte, b: byte, c: byte, r': Regs)
    requires Kept(r[30 := a][31 := b][24 := c], r')
    ensures r'[29 := r[29]][28 := r[28]][25 := r[25]][24 := c][24 := r[24]][31 := r[31]][30 := r[30]] == r
  {
  }

  /** From the vector into the loop. */
  lemma EntryRuns(p: Program, big: bool, m: Machine)
    requires Shape(p.pieces, big) && m.pc == At(0, 0)
    ensures Reaches(p, m, m.(pc := TXC_FLUSH_RX, cpu := ExecAll(p.pieces[3], ExecAll(p.pieces[2], ExecAll(p.pieces[0], m.cpu)))))
  {
    var s1 := ExecAll(p.pieces[0], m.cpu);
    var m1, m2 := Machine(At(1, 0), s1, m.called), Machine(DO_TXC, s1, m.called);
    ReachesNext(p, m, 0);
    ReachesJump(p, m1, 1, 0, Jump(big, DO_TXC));
    ReachesTrans(p, m, m1, m2);
    ReachesPieces(p, m2, 2, 2);
    var m3 := Machine(TXC_FLUSH_RX, ExecPieces(p.pieces, 2, 2, s1), m.called);
    ReachesTrans(p, m, m2, m3);
  }

  lemma ExitRuns(p: Program, big: bool, m: Machine)
    requires Shape(p.pieces, big) && m.pc == At(6, 0)
    ensures Reaches(p, m, m.(pc := Returned, cpu := ExecAll(p.pieces[7], ExecAll(p.pieces[6], m.cpu))))
  {
    ReachesPieces(p, m, 6, 2);
    var m1 := m.(pc := At(8, 0), cpu := ExecPieces(p.pieces, 6, 2, m.cpu));
    ReachesReturn(p, m1, 8, 0);
    ReachesTrans(p, m, m1, m1.(pc := Returned));
  }

  lemma FromVector(ps: seq<seq<Instr>>, o: Obj, s: Cpu)
    requires Text(ps, o) && ValidObj(o, s.w)
    ensures var t := ExecAll(ps[3], ExecAll(ps[2], ExecAll(ps[0], s))); var u := s.w.io.usart;
            && Kept(s.r[30 := Lo(o.base)][31 := Hi(o.base)][24 := Pack(s.f)], t.r) && t.w == s.w
            && Pair(t.r, 28) == u <= 0x8F0 && t.r[25] == Peek(s.w, u + CTRLA)
            && t.stack == Top(s.r[29], Top(s.r[28], Top(s.r[25], Top(Pack(s.f), Top(s.r[24], Top(s.r[31], Top(s.r[30], s.stack)))))))
  {
    StubDoes4(ps[0], o.base, s);
    var s1 := ExecAll(ps[0], s);
    EntryDoes(ps[2], s1);
    ModuleDoes(ps[3], ExecAll(ps[2], s1), s.w.io.usart);
  }

  lemma ToVector(ps: seq<seq<Instr>>, o: Obj, s: Cpu, t: Cpu)
    requires Text(ps, o) && s.w.io.usart <= 0x8F0
    requires Kept(s.r[30 := Lo(o.base)][31 := Hi(o.base)][24 := Pack(s.f)], t.r) && Pair(t.r, 28) == s.w.io.usart
    requires t.stack == Top(s.r[29], Top(s.r[28], Top(s.r[25], Top(Pack(s.f), Top(s.r[24], Top(s.r[31], Top(s.r[30], s.stack)))))))
    requires t.w == s.w.(io := s.w.io.(rx := [])) && t.r[25] == Peek(t.w, t.w.io.usart + CTRLA)
    ensures ExecAll(ps[7], ExecAll(ps[6], t)) == s.(w := TxcIrq(s.w))
  {
    SwitchDoes(ps[6], t, s.w.io.usart);
    SwitchOrder(t.r[25]);
    var t1 := ExecAll(ps[6], t);
    LeaveDoes(ps[7], t1, s.f, s.r, s.stack);
    Restored(s.r, Lo(o.base), Hi(o.base), Pack(s.f), t1.r);
  }

  /** The transmit-complete interrupt does what its C form does, restores everything and ends for any FIFO. */
  lemma TxcInterrupt(p: Program, o: Obj, big: bool, m: Machine)
    requires p.pieces == Pieces(o, big) && m.pc == At(0, 0) && ValidObj(o, m.cpu.w)
    ensures m.cpu.w.io.usart <= 0x8F0
    ensures Reaches(p, m, m.(pc := Returned, cpu := m.cpu.(w := TxcIrq(m.cpu.w))))
  {
    hide Pieces, Text, Shape, Reaches, Exec;
    ShapeOf(p.pieces, o, big);
    FromVector(p.pieces, o, m.cpu);
    EntryRuns(p, big, m);
    var m1 := m.(pc := TXC_FLUSH_RX, cpu := ExecAll(p.pieces[3], ExecAll(p.pieces[2], ExecAll(p.pieces[0], m.cpu))));
    var m2 := LoopRuns(p, o, big, m1);
    ReachesTrans(p, m, m1, m2);
    ToVector(p.pieces, o, m.cpu, m2.cpu);
    ExitRuns(p, big, m2);
    ReachesTrans(p, m, m2, m.(pc := Returned, cpu := m.cpu.(w := TxcIrq(m.cpu.w))));
  }
}
