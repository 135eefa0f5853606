/** What the three serial interrupts leave in the registers and in memory, bit for bit and byte for byte. */
module SerialRegisters {
  import opened Bits
  import opened Avr
  import opened SerialObject
  import SerialDre
  import SerialRxc
  import SerialTxc

  /** The I/O registers are the same but for those in a set. */
  predicate SameBut(a: Mem, b: Mem, changed: set<int>) { forall x :: 0 <= x < 0x1_0000 && x !in changed ==> b[x] == a[x] }

  /** Bit j is clear if it is to be, and every other bit is as it was. */
  predicate ClearedBit(a: byte, b: byte, j: nat, clear: bool) { forall k: nat :: k < 8 ==> Bit(b, k) == (Bit(a, k) && !(clear && k == j)) }

  lemma DebugBit(x: byte)
    ensures ClearedBit(x, ClearBit(x, 0), 0, true)
  {
    assert Pow2(0) == 1;
    forall k: nat | k < 8
      ensures Bit(ClearBit(x, 0), k) == (Bit(x, k) && k != 0)
    {
      if Bit(x, 0) { EvenBits(x, k); }
    }
  }

  lemma EvenBits(x: byte, k: nat)
    requires x % 2 == 1
    ensures Bit(x - 1, k) == (Bit(x, k) && k != 0)
  {
    assert (x - 1) / 2 == x / 2;
  }

  lemma HoleBits(k: nat)
    requires k < 8
    ensures Bit(0xDF, k) == (k != 5) && Bit(0xBF, k) == (k != 6) && Bit(0xEF, k) == (k != 4)
    ensures Bit(0x80, k) == (k == 7) && Bit(0x40, k) == (k == 6)
  {
    Masks();
    assert Pow2(4) == 16;
    BitHole(8, 5, k);
    BitHole(8, 6, k);
    BitHole(8, 4, k);
    BitPow2(7, k);
    BitPow2(6, k);
  }

  lemma MaskedBit(x: byte, k: nat)
    requires k < 8
    ensures Bit(AndByte(x, 0xDF), k) == (Bit(x, k) && k != 5)
    ensures Bit(AndByte(x, 0xEF), k) == (Bit(x, k) && k != 4)
    ensures Bit(AndByte(OrByte(x, 0x80), 0xBF), k) == ((Bit(x, k) || k == 7) && k != 6)
    ensures Bit(WrittenFlags(x, 0x40), k) == (Bit(x, k) && k != 6)
  {
    hide Bit, And, Or;
    HoleBits(k);
    BitAnd(x, 0xDF, k);
    BitAnd(x, 0xEF, k);
    BitAnd(OrByte(x, 0x80), 0xBF, k);
    BitOr(x, 0x80, k);
    BitMinusAnd(x, 0x40, k);
  }

  /** Bit 7 is set, bit 6 clear, the others are as they were. */
  predicate Switched(a: byte, b: byte) { forall k: nat :: k < 8 ==> Bit(b, k) == ((Bit(a, k) || k == 7) && k != 6) }

  lemma Masked(x: byte)
    ensures ClearedBit(x, AndByte(x, 0xDF), 5, true) && ClearedBit(x, AndByte(x, 0xEF), 4, true)
    ensures ClearedBit(x, WrittenFlags(x, 0x40), 6, true) && Switched(x, AndByte(OrByte(x, 0x80), 0xBF))
  {
    hide Bit, AndByte, OrByte, WrittenFlags;
    forall k: nat | k < 8
      ensures Bit(AndByte(x, 0xDF), k) == (Bit(x, k) && k != 5)
      ensures Bit(AndByte(x, 0xEF), k) == (Bit(x, k) && k != 4)
      ensures Bit(AndByte(OrByte(x, 0x80), 0xBF), k) == ((Bit(x, k) || k == 7) && k != 6)
      ensures Bit(WrittenFlags(x, 0x40), k) == (Bit(x, k) && k != 6)
    {
      MaskedBit(x, k);
    }
  }

  lemma NoneCleared(x: byte, j: nat)
    ensures ClearedBit(x, x, j, false)
  {
  }

  /** The index after i in a ring of this size. */
  function Successor(z: Size, i: byte): byte { if i + 1 >= Bytes(z) then 0 else i + 1 }

  lemma SuccessorIs(z: Size, i: byte)
    requires i < Bytes(z)
    ensures Next(z, i) == Successor(z, i)
  {
    NextIsSuccessor(z, i);
  }

  // DRE.

  /** The byte at the tail goes to the data register after TXCIF is cleared; DREIE goes off when it was the last one. */
  predicate DreLeaves(o: Obj, w: World, t: World)
    requires ValidObj(o, w)
  {
    var u, tail := w.io.usart, w.mem[o.base + TX_TAIL];
    var next := Successor(o.tx, tail);
    var last := w.mem[o.base + TX_HEAD] == next;
    var a, b := w.io.regs, t.io.regs;
    && t.mem == w.mem[o.base + TX_TAIL := next]
    && b[u + TXDATAL] == w.mem[TxBuffer(o) + tail]
    && ClearedBit(a[u + STATUS], b[u + STATUS], 6, true) && ClearedBit(a[u + CTRLA], b[u + CTRLA], 5, last)
    && SameBut(a, b, {0x1F, u + TXDATAL, u + STATUS, u + CTRLA})
    && t.io.usart == u && t.io.rx == w.io.rx
    && t.io.log == w.io.log + [Store(u + STATUS, 0x40), Store(u + TXDATAL, w.mem[TxBuffer(o) + tail])]
                   + (if last then [Store(u + CTRLA, b[u + CTRLA])] else [])
  }

  lemma SendLeaves(o: Obj, w: World)
    requires ValidObj(o, w)
    ensures var u := w.io.usart; var c := w.mem[TxBuffer(o) + w.mem[o.base + TX_TAIL]]; var t := SendNext(o, w);
            && t.mem == w.mem && t.io == w.io.(regs := t.io.regs, log := w.io.log + [Store(u + STATUS, 0x40)] + [Store(u + TXDATAL, c)])
            && t.io.regs == w.io.regs[u + STATUS := WrittenFlags(w.io.regs[u + STATUS], 0x40)][u + TXDATAL := c]
  {
  }

  lemma StopLeaves(o: Obj, w: World, next: byte)
    requires ValidObj(o, w)
    ensures var u := w.io.usart; var t := StoreTail(o, w, next); var x := AndByte(w.io.regs[u + CTRLA], 0xDF);
            && t.mem == w.mem[o.base + TX_TAIL := next]
            && t.io == if w.mem[o.base + TX_HEAD] == next then w.io.(regs := w.io.regs[u + CTRLA := x], log := w.io.log + [Store(u + CTRLA, x)]) else w.io
  {
  }

  lemma LogJoins(log: seq<Store>, a: Store, b: Store, c: Store)
    ensures log + [a] + [b] + [c] == log + [a, b] + [c] && log + [a] + [b] == log + [a, b] + []
  {
  }

  /** The registers after the two stores and, for the last byte, the third. */
  lemma RegistersAre(a: Mem, u: nat, f: byte, c: byte, x: byte, last: bool)
    requires 0x800 <= u < 0xFF0
    ensures var b := if last then a[u + 4 := f][u + 2 := c][u + 5 := x] else a[u + 4 := f][u + 2 := c];
            && b[u + 4] == f && b[u + 2] == c && b[u + 5] == (if last then x else a[u + 5]) && b[0x1F] == a[0x1F]
            && SameBut(a, b, {0x1F, u + 2, u + 4, u + 5})
  {
  }

  lemma DreLeavesThis(o: Obj, w: World)
    requires ValidObj(o, w)
    ensures DreLeaves(o, w, TxDataEmptyIrq(o, w)) && TxDataEmptyIrq(o, w).io.regs[0x1F] == w.io.regs[0x1F]
  {
    var u, tail := w.io.usart, w.mem[o.base + TX_TAIL];
    var c, f, x := w.mem[TxBuffer(o) + tail], WrittenFlags(w.io.regs[u + STATUS], 0x40), AndByte(w.io.regs[u + CTRLA], 0xDF);
    SuccessorIs(o.tx, tail);
    var next, w1, t := Next(o.tx, tail), SendNext(o, w), TxDataEmptyIrq(o, w);
    var last := w.mem[o.base + TX_HEAD] == next;
    SendLeaves(o, w);
    StopLeaves(o, w1, next);
    assert w1.io.regs[u + CTRLA] == w.io.regs[u + CTRLA];
    assert t == StoreTail(o, w1, next);
    hide AndByte, OrByte, WrittenFlags, Next, SendNext, StoreTail, TxDataEmptyIrq;
    Masked(w.io.regs[u + CTRLA]);
    Masked(w.io.regs[u + STATUS]);
    NoneCleared(w.io.regs[u + CTRLA], 5);
    hide ClearedBit, Switched;
    RegistersAre(w.io.regs, u, f, c, x, last);
    hide SameBut;
    LogJoins(w.io.log, Store(u + STATUS, 0x40), Store(u + TXDATAL, c), Store(u + CTRLA, x));
  }

  /** The DRE interrupt in assembly, with the debug bit that its stub clears. */
  lemma DreRegisters(p: Program, o: Obj, big: bool, m: Machine) returns (m': Machine)
    requires p.pieces == SerialDre.Pieces(o, big) && m.pc == At(0, 0) && ValidObj(o, m.cpu.w)
    ensures Reaches(p, m, m') && m'.pc == Returned && m'.cpu == m.cpu.(w := m'.cpu.w)
    ensures DreLeaves(o, m.cpu.w, m'.cpu.w) && ClearedBit(m.cpu.w.io.regs[0x1F], m'.cpu.w.io.regs[0x1F], 0, true)
  {
    var w := ClearIoBit(m.cpu.w, 0x1F, 0);
    SerialDre.DreInterrupt(p, o, big, m);
    DreLeavesThis(o, w);
    DebugBit(m.cpu.w.io.regs[0x1F]);
    m' := m.(pc := Returned, cpu := m.cpu.(w := TxDataEmptyIrq(o, w)));
    hide TxDataEmptyIrq, ClearBit, Bit, Reaches;
  }

  /** The same routine entered by the poll. */
  lemma PollRegisters(p: Program, o: Obj, big: bool, m: Machine) returns (m': Machine)
    requires p.pieces == SerialDre.Pieces(o, big) && m.pc == SerialDre.POLL_DRE && SerialDre.AtObject(o, m.cpu) && !m.cpu.f.t
    ensures Reaches(p, m, m') && m'.pc == PollDone && DreLeaves(o, m.cpu.w, m'.cpu.w) && m'.cpu.w.io.regs[0x1F] == m.cpu.w.io.regs[0x1F]
  {
    m' := SerialDre.PollDre(p, o, big, m);
    DreLeavesThis(o, m.cpu.w);
  }

  // TXC.

  /** The FIFO is empty, RXCIE is on and TXCIE off, and nothing else has changed. */
  predicate TxcLeaves(w: World, t: World)
    requires w.io.usart < 0xFF0
  {
    var u := w.io.usart;
    && t.mem == w.mem && t.io.usart == u && t.io.rx == []
    && Switched(w.io.regs[u + CTRLA], t.io.regs[u + CTRLA])
    && SameBut(w.io.regs, t.io.regs, {u + CTRLA})
  }

  lemma TxcRegisters(p: Program, o: Obj, big: bool, m: Machine) returns (m': Machine)
    requires p.pieces == SerialTxc.Pieces(o, big) && m.pc == At(0, 0) && ValidObj(o, m.cpu.w)
    ensures Reaches(p, m, m') && m'.pc == Returned && m'.cpu == m.cpu.(w := m'.cpu.w) && TxcLeaves(m.cpu.w, m'.cpu.w)
  {
    SerialTxc.TxcInterrupt(p, o, big, m);
    TxcLeavesThis(m.cpu.w);
    m' := m.(pc := Returned, cpu := m.cpu.(w := TxcIrq(m.cpu.w)));
  }

  lemma TxcLeavesThis(w: World)
    requires 0x800 <= w.io.usart < 0xFF0
    ensures TxcLeaves(w, TxcIrq(w))
  {
    var u := w.io.usart;
    Masked(w.io.regs[u + CTRLA]);
    hide ClearedBit, Switched, AndByte, OrByte;
  }

  // RXC.

  /** The errors of the frame, and whether its byte found the ring full, are added to those on record. */
  predicate Collected(a: byte, b: byte, rxDataH: byte, full: bool) {
    && Bit(b, 7) == (Bit(a, 7) || Bit(rxDataH, 6)) && Bit(b, 6) == (Bit(a, 6) || (!Bit(rxDataH, 1) && full))
    && Bit(b, 3) == (Bit(a, 3) || Bit(rxDataH, 2)) && Bit(b, 2) == (Bit(a, 2) || Bit(rxDataH, 1))
    && Bit(b, 0) == Bit(a, 0) && Bit(b, 1) == Bit(a, 1) && Bit(b, 4) == Bit(a, 4) && Bit(b, 5) == Bit(a, 5)
  }

  lemma CollectedBits(o: Obj, w: World, state: byte)
    requires ValidObj(o, w)
    ensures Collected(state, CollectErrors(o, w, state), Peek(w, w.io.usart + RXDATAH),
                      Successor(o.rx, w.mem[o.base + RX_HEAD]) == w.mem[o.base + RX_TAIL])
  {
    SuccessorIs(o.rx, w.mem[o.base + RX_HEAD]);
    SerialRxc.StateBits(o, w, state);
    hide CollectErrors, Bit, Next, Peek;
  }

  /** The frame in front of the FIFO is taken; a byte without parity error that finds room is stored at the head. With the
      workaround the start-frame interrupt is off; no other register has changed. */
  predicate RxcLeaves(o: Obj, sfd: bool, w: World, t: World)
    requires ValidObj(o, w)
  {
    var u, head := w.io.usart, w.mem[o.base + RX_HEAD];
    var next := Successor(o.rx, head);
    var stored := !Bit(Peek(w, u + RXDATAH), 1) && next != w.mem[o.base + RX_TAIL];
    var a, b := w.io.regs, t.io.regs;
    && ClearedBit(a[u + CTRLB], b[u + CTRLB], 4, sfd)
    && SameBut(a, b, {0x1F, u + CTRLB})
    && t.io.usart == u && t.io.rx == (if w.io.rx == [] then [] else w.io.rx[1..])
    && t.io.log == w.io.log + (if sfd then [Store(u + CTRLB, b[u + CTRLB])] else [])
    && t.mem[o.base + RX_HEAD] == (if stored then next else head)
    && t.mem[o.base + RX_BUFFER + head] == (if stored then Peek(w, u + RXDATAL) else w.mem[o.base + RX_BUFFER + head])
    && Collected(w.mem[o.base + STATE], t.mem[o.base + STATE], Peek(w, u + RXDATAH), next == w.mem[o.base + RX_TAIL])
    && SameBut(w.mem, t.mem, {o.base + STATE, o.base + RX_HEAD, o.base + RX_BUFFER + head})
  }

  lemma Quieted(sfd: bool, w: World)
    requires 0x800 <= w.io.usart < 0xFF0
    ensures var t := SerialRxc.SfdQuieted(sfd, w); var u := w.io.usart;
            && t.mem == w.mem && t.io.usart == u && t.io.rx == w.io.rx
            && ClearedBit(w.io.regs[u + CTRLB], t.io.regs[u + CTRLB], 4, sfd)
            && SameBut(w.io.regs, t.io.regs, {u + CTRLB})
            && t.io.log == w.io.log + (if sfd then [Store(u + CTRLB, t.io.regs[u + CTRLB])] else [])
            && Peek(t, u + RXDATAH) == Peek(w, u + RXDATAH) && Peek(t, u + RXDATAL) == Peek(w, u + RXDATAL)
  {
    var u := w.io.usart;
    Masked(w.io.regs[u + CTRLB]);
    NoneCleared(w.io.regs[u + CTRLB], 4);
    hide ClearedBit, AndByte, OrByte;
    assert w.io.log + [] == w.io.log;
  }

  /** The same of the C handler alone. */
  predicate CLeaves(o: Obj, w: World, t: World)
    requires ValidObj(o, w)
  {
    var u, head := w.io.usart, w.mem[o.base + RX_HEAD];
    var next := Successor(o.rx, head);
    var stored := !Bit(Peek(w, u + RXDATAH), 1) && next != w.mem[o.base + RX_TAIL];
    && t.io == w.io.(rx := if w.io.rx == [] then [] else w.io.rx[1..])
    && t.mem == if stored then w.mem[o.base + RX_BUFFER + head := Peek(w, u + RXDATAL)][o.base + RX_HEAD := next] else w.mem
  }

  lemma CLeavesThis(o: Obj, w: World)
    requires ValidObj(o, w)
    ensures CLeaves(o, w, RxCompleteIrq(o, w))
  {
    hide Bit, Next;
    SuccessorIs(o.rx, w.mem[o.base + RX_HEAD]);
  }

  lemma RxcLeavesThis(o: Obj, sfd: bool, w: World)
    requires ValidObj(o, w)
    ensures RxcLeaves(o, sfd, w, SerialRxc.RxcEffect(o, sfd, w)) && SerialRxc.RxcEffect(o, sfd, w).io.regs[0x1F] == w.io.regs[0x1F]
  {
    hide SerialRxc.SfdQuieted, CollectErrors, RxCompleteIrq, Bit, Next, Collected, ClearedBit, Peek;
    SerialRxc.SfdKeeps(o, sfd, w);
    Quieted(sfd, w);
    var w1 := SerialRxc.SfdQuieted(sfd, w);
    CLeavesThis(o, w1);
    CollectedBits(o, w1, w.mem[o.base + STATE]);
  }

  /** The debug bit plays no part in it. */
  lemma RxcSame(o: Obj, sfd: bool, v: World, w: World, t: World)
    requires ValidObj(o, v) && ValidObj(o, w) && RxcLeaves(o, sfd, w, t)
    requires w == v.(io := v.io.(regs := w.io.regs)) && SameBut(v.io.regs, w.io.regs, {0x1F})
    ensures RxcLeaves(o, sfd, v, t)
  {
    hide ClearedBit, Collected;
  }

  /** The RXC interrupt in assembly. */
  lemma RxcRegisters(p: Program, o: Obj, big: bool, sfd: bool, m: Machine) returns (m': Machine)
    requires p.pieces == SerialRxc.Pieces(o, big, sfd) && m.pc == At(0, 0) && ValidObj(o, m.cpu.w)
    ensures Reaches(p, m, m') && m'.pc == Returned && m'.cpu == m.cpu.(w := m'.cpu.w)
    ensures RxcLeaves(o, sfd, m.cpu.w, m'.cpu.w) && ClearedBit(m.cpu.w.io.regs[0x1F], m'.cpu.w.io.regs[0x1F], 0, true)
  {
    var w := ClearIoBit(m.cpu.w, 0x1F, 0);
    SerialRxc.RxcInterrupt(p, o, big, sfd, m);
    RxcLeavesThis(o, sfd, w);
    DebugBit(m.cpu.w.io.regs[0x1F]);
    m' := m.(pc := Returned, cpu := m.cpu.(w := SerialRxc.RxcEffect(o, sfd, w)));
    hide SerialRxc.RxcEffect, ClearBit, Reaches, ClearedBit, Collected;
    RxcSame(o, sfd, m.cpu.w, w, m'.cpu.w);
  }
}
