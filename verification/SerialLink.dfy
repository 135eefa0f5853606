/** The handlers on memory, which the assembly was shown to equal, are the steps of the protocol machines. */
module SerialLink {
  import opened Bits
  import opened Avr
  import opened SerialObject
  import Ring
  import SerialDre
  import SerialRxc
  import SerialTxc
  import T = SerialTx
  import R = SerialRx

  function CtrlA(w: World): byte
    requires w.io.usart < 0xFF0
  {
    w.io.regs[w.io.usart + CTRLA]
  }

  predicate FifoIs(fifo: seq<T.Frame>, rx: seq<RxWord>) {
    |fifo| == |rx| && forall k :: 0 <= k < |rx| ==> fifo[k].b == rx[k].lo
  }

  /** Memory and registers hold the transmitting side of s. */
  predicate HoldsTx(o: Obj, w: World, s: T.Tx) {
    && ValidObj(o, w) && w.mem[o.base + TX_HEAD] < Bytes(o.tx)
    && s.buf == w.mem[TxBuffer(o)..TxBuffer(o) + Bytes(o.tx)]
    && s.head == w.mem[o.base + TX_HEAD] && s.tail == w.mem[o.base + TX_TAIL]
    && HoldsUsart(w, s.u)
  }

  predicate HoldsUsart(w: World, u: T.Usart)
    requires w.io.usart < 0xFF0
  {
    && u.dreie == Bit(CtrlA(w), 5) && u.txcie == Bit(CtrlA(w), 6) && u.rxcie == Bit(CtrlA(w), 7)
    && u.txcif == Bit(w.io.regs[w.io.usart + STATUS], 6)
    && (u.dr != [] ==> u.dr == [w.io.regs[w.io.usart + TXDATAL]])
    && FifoIs(u.fifo, w.io.rx)
  }

  /** ... the receiving side. */
  predicate HoldsRx(o: Obj, w: World, s: R.Rx) {
    && ValidObj(o, w) && w.mem[o.base + RX_TAIL] < Bytes(o.rx)
    && s.buf == w.mem[o.base + RX_BUFFER..o.base + RX_BUFFER + Bytes(o.rx)]
    && s.head == w.mem[o.base + RX_HEAD] && s.tail == w.mem[o.base + RX_TAIL]
  }

  lemma CtrlBits(x: byte, k: nat)
    requires 5 <= k < 8
    ensures Bit(AndByte(x, 0xDF), k) == (Bit(x, k) && k != 5)
    ensures Bit(AndByte(OrByte(x, 0x80), 0xBF), k) == ((Bit(x, k) || k == 7) && k != 6)
  {
    Masks();
    BitAnd(x, 0xDF, k);
    BitHole(8, 5, k);
    BitAnd(OrByte(x, 0x80), 0xBF, k);
    BitOr(x, 0x80, k);
    BitHole(8, 6, k);
    BitPow2(7, k);
  }

  lemma ClearedFlag(x: byte)
    ensures !Bit(WrittenFlags(x, 0x40), 6)
  {
    Masks();
    BitMinusAnd(x, 0x40, 6);
    BitPow2(6, 6);
  }

  /** Storing a word outside of a stretch of memory leaves the stretch alone. */
  lemma Elsewhere(m: Mem, a: nat, n: nat, at: word, v: byte)
    requires a + n <= 0x1_0000 && !(a <= at < a + n)
    ensures m[at := v][a..a + n] == m[a..a + n]
  {
  }

  lemma SendHolds(o: Obj, w: World, s: T.Tx)
    requires HoldsTx(o, w, s)
    ensures var w1 := SendNext(o, w);
            && w1.mem == w.mem && w1.io.usart == w.io.usart
            && HoldsUsart(w1, T.Load(s.u.(txcif := false), s.buf[s.tail]))
  {
    ClearedFlag(w.io.regs[w.io.usart + STATUS]);
    assert s.buf[s.tail] == w.mem[TxBuffer(o) + s.tail];
  }

  lemma StopHolds(w: World, u: T.Usart)
    requires 0x800 <= w.io.usart < 0xFF0 && HoldsUsart(w, u)
    ensures var w1 := Poke(w, w.io.usart + CTRLA, AndByte(Peek(w, w.io.usart + CTRLA), 0xDF));
            w1.mem == w.mem && w1.io.usart == w.io.usart && HoldsUsart(w1, u.(dreie := false))
  {
    CtrlBits(CtrlA(w), 5);
    CtrlBits(CtrlA(w), 6);
    CtrlBits(CtrlA(w), 7);
  }

  /** _tx_data_empty_irq on memory is the DRE step of the protocol. */
  lemma DreHandler(o: Obj, w: World, s: T.Tx)
    requires HoldsTx(o, w, s)
    ensures HoldsTx(o, TxDataEmptyIrq(o, w), T.DreIrq(s))
  {
    var next := SerialObject.Next(o.tx, w.mem[o.base + TX_TAIL]);
    NextIsSuccessor(o.tx, w.mem[o.base + TX_TAIL]);
    SendHolds(o, w, s);
    var w1, u1 := SendNext(o, w), T.Load(s.u.(txcif := false), s.buf[s.tail]);
    StopHolds(w1, u1);
    Elsewhere(w.mem, TxBuffer(o), Bytes(o.tx), o.base + TX_TAIL, next);
    TailHolds(o, w1, u1, next);
  }

  lemma TailHolds(o: Obj, w: World, u: T.Usart, next: byte)
    requires ValidObj(o, w) && w.mem[o.base + TX_HEAD] < Bytes(o.tx) && next < Bytes(o.tx) && HoldsUsart(w, u)
    ensures var w1 := StoreTail(o, w, next);
            && ValidObj(o, w1) && w1.mem == w.mem[o.base + TX_TAIL := next]
            && HoldsUsart(w1, u.(dreie := u.dreie && w.mem[o.base + TX_HEAD] != next))
  {
    StopHolds(w, u);
  }

  /** The transmit-complete handler on registers is the TXC step. */
  lemma TxcHandler(o: Obj, w: World, s: T.Tx)
    requires HoldsTx(o, w, s)
    ensures HoldsTx(o, SerialObject.TxcIrq(w), T.TxcIrq(s))
  {
    CtrlBits(CtrlA(w), 5);
    CtrlBits(CtrlA(w), 6);
    CtrlBits(CtrlA(w), 7);
  }

  /** _rx_complete_irq on memory is the RXC step of the receiver for the frame in front of the FIFO. */
  lemma RxcHandler(o: Obj, w: World, s: R.Rx)
    requires HoldsRx(o, w, s)
    ensures HoldsRx(o, RxCompleteIrq(o, w), R.RxcIrq(s, Bit(Peek(w, w.io.usart + RXDATAH), 1), Peek(w, w.io.usart + RXDATAL)))
  {
    NextIsSuccessor(o.rx, w.mem[o.base + RX_HEAD]);
  }

  // The routines in assembly.

  /** The debug bit in GPIO is no part of what either machine speaks of. */
  lemma DebugBit(o: Obj, w: World, s: T.Tx, r: R.Rx)
    ensures HoldsTx(o, w, s) ==> HoldsTx(o, ClearIoBit(w, 0x1F, 0), s)
    ensures HoldsRx(o, w, r) ==> HoldsRx(o, ClearIoBit(w, 0x1F, 0), r)
  {
  }

  /** The DRE interrupt in assembly takes memory that holds a state of the protocol to memory that holds the state after
      the DRE step, and leaves the interrupted program's registers, flags and stack alone. */
  lemma DreAssembly(p: Program, o: Obj, big: bool, m: Machine, s: T.Tx) returns (w: World)
    requires p.pieces == SerialDre.Pieces(o, big) && m.pc == At(0, 0) && HoldsTx(o, m.cpu.w, s)
    ensures Reaches(p, m, m.(pc := Returned, cpu := m.cpu.(w := w))) && HoldsTx(o, w, T.DreIrq(s))
  {
    var w0 := ClearIoBit(m.cpu.w, 0x1F, 0);
    DebugBit(o, m.cpu.w, s, R.Rx([], 0, 0, R.Idle, 0, [], []));
    SerialDre.DreInterrupt(p, o, big, m);
    DreHandler(o, w0, s);
    w := TxDataEmptyIrq(o, w0);
  }

  /** ... the same routine entered by the poll. */
  lemma PollAssembly(p: Program, o: Obj, big: bool, m: Machine, s: T.Tx) returns (m': Machine)
    requires p.pieces == SerialDre.Pieces(o, big) && m.pc == SerialDre.POLL_DRE && SerialDre.AtObject(o, m.cpu) && !m.cpu.f.t
    requires HoldsTx(o, m.cpu.w, s)
    ensures Reaches(p, m, m') && m'.pc == PollDone && m'.cpu.stack == m.cpu.stack && HoldsTx(o, m'.cpu.w, T.DreIrq(s))
  {
    m' := SerialDre.PollDre(p, o, big, m);
    DreHandler(o, m.cpu.w, s);
  }

  /** The TXC interrupt in assembly is the TXC step. */
  lemma TxcAssembly(p: Program, o: Obj, big: bool, m: Machine, s: T.Tx) returns (w: World)
    requires p.pieces == SerialTxc.Pieces(o, big) && m.pc == At(0, 0) && HoldsTx(o, m.cpu.w, s)
    ensures Reaches(p, m, m.(pc := Returned, cpu := m.cpu.(w := w))) && HoldsTx(o, w, T.TxcIrq(s))
  {
    SerialTxc.TxcInterrupt(p, o, big, m);
    TxcHandler(o, m.cpu.w, s);
    w := SerialObject.TxcIrq(m.cpu.w);
  }

  lemma StateIsElsewhere(o: Obj, w: World, s: R.Rx, x: byte)
    requires HoldsRx(o, w, s)
    ensures HoldsRx(o, w.(mem := w.mem[o.base + STATE := x]), s)
  {
    Elsewhere(w.mem, o.base + RX_BUFFER, Bytes(o.rx), o.base + STATE, x);
  }

  /** The frame in front of the FIFO as RXC reads it. */
  predicate FrontIs(w: World, parityError: bool, c: byte) {
    && w.io.usart < 0xFF0
    && parityError == Bit(Peek(w, w.io.usart + RXDATAH), 1) && c == Peek(w, w.io.usart + RXDATAL)
  }

  lemma SfdHolds(o: Obj, sfd: bool, w: World, s: R.Rx, e: bool, c: byte)
    requires HoldsRx(o, w, s) && FrontIs(w, e, c)
    ensures HoldsRx(o, SerialRxc.SfdQuieted(sfd, w), s) && FrontIs(SerialRxc.SfdQuieted(sfd, w), e, c)
  {
  }

  /** The RXC interrupt in assembly, with or without the workaround for start-frame detection, is the RXC step for the
      frame in front of the FIFO. */
  lemma RxcAssembly(p: Program, o: Obj, big: bool, sfd: bool, m: Machine, s: R.Rx, e: bool, c: byte) returns (w: World)
    requires p.pieces == SerialRxc.Pieces(o, big, sfd) && m.pc == At(0, 0) && HoldsRx(o, m.cpu.w, s) && FrontIs(m.cpu.w, e, c)
    ensures Reaches(p, m, m.(pc := Returned, cpu := m.cpu.(w := w))) && HoldsRx(o, w, R.RxcIrq(s, e, c))
  {
    var w0 := ClearIoBit(m.cpu.w, 0x1F, 0);
    DebugBit(o, m.cpu.w, T.Tx(T.Usart([], [], 0, 0, false, false, false, false, [], []), false, [], 0, 0, false, false, T.Idle, [], [], []), s);
    SerialRxc.RxcInterrupt(p, o, big, sfd, m);
    w := SerialRxc.RxcEffect(o, sfd, w0);
    RxcEffectHolds(o, sfd, w0, s, e, c);
  }

  lemma RxcEffectHolds(o: Obj, sfd: bool, w: World, s: R.Rx, e: bool, c: byte)
    requires HoldsRx(o, w, s) && FrontIs(w, e, c)
    ensures HoldsRx(o, SerialRxc.RxcEffect(o, sfd, w), R.RxcIrq(s, e, c))
  {
    SfdHolds(o, sfd, w, s, e, c);
    var w1 := SerialRxc.SfdQuieted(sfd, w);
    RxcHandler(o, w1, s);
    StateIsElsewhere(o, RxCompleteIrq(o, w1), R.RxcIrq(s, e, c), CollectErrors(o, w1, w.mem[o.base + STATE]));
  }
}
