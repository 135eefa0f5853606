/** The two limits on the timing of the transmitter cannot be dropped: what each step outside of `Timely` does,
    exactly when it does harm, and that a program can get there. */
module SerialTxLimits {
  import opened Bits
  import opened SerialTx
  import Ring

  // States that a run comes to.

  ghost predicate Reachable(s: Tx) {
    exists trace, run :: IsRun(trace, run) && trace[|run|] == s
  }

  lemma Starts(s: Tx)
    requires Start(s)
    ensures Reachable(s)
  {
    var none: seq<Action> := [];
    assert IsRun([s], none) && [s][|none|] == s;
  }

  lemma GoesOn(s: Tx, a: Action)
    requires Reachable(s) && HasRing(s) && Timely(s, a)
    ensures Reachable(Step(s, a))
  {
    hide Start, Timely, Step;
    var trace, run :| IsRun(trace, run) && trace[|run|] == s;
    var t, r := trace + [Step(s, a)], run + [a];
    assert t[|r|] == Step(s, a);
    assert IsRun(t, r);
  }

  lemma ReachableKeeps(s: Tx)
    requires Reachable(s)
    ensures Inv(s)
  {
    hide Inv, Start, Step, Timely;
    var trace, run :| IsRun(trace, run) && trace[|run|] == s;
    RunKeeps(trace, run, |run|);
  }

  // Time going by.

  function Ticks(s: Tx, n: nat): (t: Tx)
    requires HasRing(s)
    ensures RingKept(s, t)
    decreases n
  {
    if n == 0 then s else Ticks(Step(s, Tick), n - 1)
  }

  lemma {:induction false} TicksGoOn(s: Tx, n: nat)
    requires Reachable(s) && HasRing(s) && !Starting(s.fg)
    ensures Reachable(Ticks(s, n))
    decreases n
  {
    if n > 0 {
      hide Reachable;
      GoesOn(s, Tick);
      TicksGoOn(Step(s, Tick), n - 1);
    }
  }

  function Clocks(u: Usart, half: bool, n: nat): Usart
    decreases n
  {
    if n == 0 then u else Clocks(Clock(u, half), half, n - 1)
  }

  lemma {:induction false} TicksAreClocks(s: Tx, n: nat)
    requires HasRing(s)
    ensures Ticks(s, n) == s.(u := Clocks(s.u, s.half, n))
    decreases n
  {
    if n > 0 {
      var t := Step(s, Tick);
      assert t == s.(u := Clock(s.u, s.half));
      TicksAreClocks(t, n - 1);
    }
  }

  /** Clocks until the data register is free. */
  function Delay(u: Usart): nat { if u.sr == [] then 1 else u.clocks }

  /** After so many clocks it is, and its byte is on its way. */
  lemma {:induction false} DataMovesOn(u: Usart, half: bool, n: nat)
    requires Registers(u) && u.dr != [] && n == Delay(u)
    ensures var v := Clocks(u, half, n);
            && v == u.(dr := [], sr := u.dr, clocks := u.frame, wire := u.wire + u.sr, fifo := v.fifo)
            && (!half ==> v.fifo == u.fifo)
    decreases n
  {
    if n > 1 { DataMovesOn(Clock(u, half), half, n - 1); } else { assert Clocks(u, half, 1) == Clock(u, half); }
  }

  /** n clocks of a frame with nothing behind it. */
  lemma {:induction false} FrameGoesOn(u: Usart, half: bool, n: nat)
    requires Registers(u) && u.sr != [] && u.dr == [] && n < u.clocks
    ensures Clocks(u, half, n) == u.(clocks := u.clocks - n)
    decreases n
  {
    if n > 0 { FrameGoesOn(Clock(u, half), half, n - 1); }
  }

  /** The last frame leaves, and in half duplex comes back. */
  lemma {:induction false} FrameComesBack(u: Usart, n: nat)
    requires Registers(u) && u.sr != [] && u.dr == [] && n == u.clocks
    ensures Clocks(u, true, n) ==
            u.(wire := u.wire + u.sr, fifo := Received(u.fifo, Echo(u.sr[0])), sr := [], clocks := 0, txcif := true)
    decreases n
  {
    if n > 1 { FrameComesBack(Clock(u, true), n - 1); } else { assert Clocks(u, true, 1) == Clock(u, true); }
  }

  // The window between publication and DREIE.

  /** The rest of a call of write after its byte is published. */
  function Enable(s: Tx): (t: Tx)
    requires HasRing(s)
    ensures RingKept(s, t)
  {
    if s.fg == RingClear then GoWrite(GoWrite(s)) else GoWrite(s)
  }

  lemma WindowKept(s: Tx)
    requires Inv(s) && InWindow(s.fg) && DrePending(s) && |Waiting(s)| >= 2
    ensures Inv(Enable(Step(s, Dre)))
  {
    var t := Step(s, Dre);
    StepKeeps(s, Dre);
    WindowKeeps(t);
    if s.fg == RingClear { WindowKeeps(GoWrite(t)); }
  }

  /** The last waiting byte is taken inside the window: DREIE ends up on with the ring empty. */
  lemma WindowDrained(s: Tx)
    requires HasRing(s) && InWindow(s.fg) && DrePending(s) && |Waiting(s)| == 1
    ensures var t := Enable(Step(s, Dre));
            && t.fg == Idle && t.irq && t.u.dreie && t.head == t.tail
            && t.u.dr == [s.buf[s.tail]] && t.u.sr == s.u.sr && t.u.clocks == s.u.clocks && t.u.frame == s.u.frame
            && t.u.wire == s.u.wire && t.buf == s.buf && t.accepted == s.accepted && t.asked == s.asked
  {
    Ring.ContentsLength(s.buf, s.head, s.tail);
    Ring.Pop(s.buf, s.head, s.tail);
    Ring.ContentsLength(s.buf, s.head, Ring.Next(|s.buf|, s.tail));
  }

  /** A DRE activation inside the window is harmless exactly when two bytes were waiting. */
  lemma WindowLimit(s: Tx)
    requires Inv(s) && InWindow(s.fg) && DrePending(s)
    ensures Inv(Enable(Step(s, Dre))) <==> |Waiting(s)| >= 2
  {
    Ring.ContentsLength(s.buf, s.head, s.tail);
    if |Waiting(s)| >= 2 { WindowKept(s); } else { WindowDrained(s); }
  }

  /** The first activation after the publication always is: with DREIE on there was a byte before this one. */
  lemma FirstActivationIsHarmless(s: Tx)
    requires Inv(s) && s.fg.Publish? && s.u.dreie
    ensures |Waiting(Step(s, Go))| >= 2
  {
    Ring.Push(s.buf, s.head, s.tail, s.fg.c);
    Ring.ContentsLength(s.buf, s.head, s.tail);
    assert s.buf[s.head := s.fg.c] == s.buf;
  }

  /** On an empty ring the handler sends the stale byte at the tail and makes the ring look full. */
  lemma DreOnAnEmptyRing(s: Tx)
    requires HasRing(s) && Conserved(s) && s.head == s.tail && s.u.dr == [] && InHand(s.fg) == []
    ensures var t := DreIrq(s);
            && t.u.wire + InFlight(t.u) == t.asked + [s.buf[s.tail]]
            && |Waiting(t)| == |s.buf| - 1 && !Conserved(t) && t.u.dreie == s.u.dreie
  {
    var t := DreIrq(s);
    assert s.asked == s.accepted + [] && s.accepted == s.u.wire + (s.u.sr + []) + [];
    assert t.u.wire + (t.u.sr + t.u.dr) == (s.u.wire + (s.u.sr + [])) + [s.buf[s.tail]];
    assert |Waiting(t)| == |s.buf| - 1;
    assert |t.accepted| < |t.u.wire + InFlight(t.u) + Waiting(t)|;
  }

  /** What a second activation in the window leads to, write having returned: as soon as the data register is free the
      handler runs on the empty ring.  A byte that nobody asked for follows the ones asked for, and the ring
      counts a full load of bytes already sent as waiting. */
  lemma SentTwice(s: Tx)
    requires Inv(s) && InWindow(s.fg) && DrePending(s) && |Waiting(s)| == 1
    ensures var t0 := Enable(Step(s, Dre));
            var t := Ticks(t0, Delay(t0.u));
            && Conserved(t) && t.fg == Idle && DrePending(t) && t.head == t.tail && t.asked == s.asked
            && var t1 := Step(t, Dre);
            && t1.u.wire + InFlight(t1.u) == t1.asked + [t.buf[t.tail]]
            && |Waiting(t1)| == |t1.buf| - 1 && t1.u.dreie && !Conserved(t1)
  {
    assert HasRing(s);
    hide Inv, Ticks, Enable, Conserved, Waiting, InFlight, Delay;
    var t0 := Enable(Step(s, Dre));
    DrainedConserves(s, t0);
    DataLeaves(t0);
    DreOnAnEmptyRing(Ticks(t0, Delay(t0.u)));
  }

  lemma DataLeaves(s: Tx)
    requires HasRing(s) && Conserved(s) && Registers(s.u) && s.u.dr != []
    ensures var t := Ticks(s, Delay(s.u)); Conserved(t) && t.u.dr == [] && t.u.dreie == s.u.dreie && t == s.(u := t.u)
  {
    var n := Delay(s.u);
    TicksAreClocks(s, n);
    DataMovesOn(s.u, s.half, n);
    hide Clocks, Ticks;
    assert s.u.wire + (s.u.sr + s.u.dr) == (s.u.wire + s.u.sr) + (s.u.dr + []);
  }

  lemma DrainedConserves(s: Tx, t0: Tx)
    requires Inv(s) && InWindow(s.fg) && DrePending(s) && |Waiting(s)| == 1 && t0 == Enable(Step(s, Dre))
    ensures Conserved(t0) && Registers(t0.u) && t0.u.dr != [] && t0.fg == Idle && t0.irq && t0.u.dreie && t0.head == t0.tail
    ensures t0.asked == s.asked && t0.buf == s.buf
  {
    Ring.ContentsLength(s.buf, s.head, s.tail);
    DreConserves(s);
    WindowDrained(s);
  }

  // A program that gets there.

  /** A call of write on an idle transmitter in half duplex, up to the CTRLA write. */
  function AtSwitch(s: Tx, c: byte): Tx {
    s.(written := true, asked := s.asked + [c], fg := FastCtrla(c, false), u := s.u.(txcif := false))
  }

  lemma WriteGoesToSwitch(s: Tx, c: byte)
    requires Reachable(s) && HasRing(s) && s.fg == Idle && s.half && s.head == s.tail && s.u.dr == [] && !s.u.dreie
    ensures Reachable(AtSwitch(s, c))
  {
    hide Reachable;
    GoesOn(s, Write(c));
    var t := s.(written := true, asked := s.asked + [c], fg := TestEmpty(c));
    GoesOn(t, Go);
    GoesOn(t.(fg := TestDreif(c)), Go);
    GoesOn(t.(fg := FastRead(c)), Go);
    GoesOn(t.(fg := FastClear(c, false)), Go);
  }

  /** A call of write on an idle transmitter, up to the store to the data register. */
  function AtStore(s: Tx, c: byte): Tx {
    s.(written := true, asked := s.asked + [c], fg := FastStore(c),
       u := if s.half then s.u.(txcif := false, rxcie := false, txcie := true, dreie := false) else s.u.(txcif := false))
  }

  lemma WriteGoesToStore(s: Tx, c: byte)
    requires Reachable(s) && HasRing(s) && s.fg == Idle && s.head == s.tail && s.u.dr == [] && !s.u.dreie
    ensures Reachable(AtStore(s, c))
  {
    hide Reachable;
    if s.half {
      WriteGoesToSwitch(s, c);
      GoesOn(AtSwitch(s, c), Go);
    } else {
      GoesOn(s, Write(c));
      var t := s.(written := true, asked := s.asked + [c], fg := TestEmpty(c));
      GoesOn(t, Go);
      GoesOn(t.(fg := TestDreif(c)), Go);
      GoesOn(t.(fg := FastClear(c, false)), Go);
    }
  }

  /** ... and with the store. */
  function Stored(s: Tx, c: byte): Tx {
    var t := AtStore(s, c);
    t.(u := Load(t.u, c), accepted := t.accepted + [c], fg := Idle)
  }

  lemma WriteStores(s: Tx, c: byte)
    requires Reachable(s) && HasRing(s) && s.fg == Idle && s.head == s.tail && s.u.dr == [] && !s.u.dreie
    ensures Reachable(Stored(s, c))
  {
    hide Reachable;
    WriteGoesToStore(s, c);
    GoesOn(AtStore(s, c), Go);
  }

  /** A call of write that goes through the ring, up to the publication. */
  function Published(s: Tx, c: byte): Tx
    requires HasRing(s)
  {
    s.(written := true, asked := s.asked + [c], accepted := s.accepted + [c],
       buf := s.buf[s.head := c], head := Ring.Next(|s.buf|, s.head), fg := SetDreie)
  }

  lemma WritePublishes(s: Tx, c: byte)
    requires Reachable(s) && HasRing(s) && s.fg == Idle && !s.half && Ring.Next(|s.buf|, s.head) != s.tail
    requires s.head != s.tail || s.u.dr != []
    ensures Reachable(Published(s, c))
  {
    hide Reachable;
    GoesOn(s, Write(c));
    var t := s.(written := true, asked := s.asked + [c], fg := TestEmpty(c));
    GoesOn(t, Go);
    if s.head == s.tail { GoesOn(t.(fg := TestDreif(c)), Go); }
    GoesOn(t.(fg := TestFull(c)), Go);
    GoesOn(t.(fg := Put(c)), Go);
    GoesOn(t.(buf := s.buf[s.head := c], fg := Publish(c)), Go);
  }

  /** Two bytes written, the first one on its way: one in each register. */
  lemma TwoBytesWritten(s0: Tx, half: bool, a: byte, b: byte) returns (s: Tx)
    requires Start(s0)
    ensures Reachable(s) && HasRing(s) && s.head == s.tail && s.buf == s0.buf && s.irq == s0.irq && s.fg == Idle && s.half == half
    ensures s.u.sr == [a] && s.u.dr == [b] && s.u.clocks == s.u.frame > 0 && !s.u.dreie && s.asked == [a, b]
  {
    hide Reachable;
    Starts(s0);
    GoesOn(s0, Begin(half));
    var s1 := Step(s0, Begin(half));
    WriteStores(s1, a);
    var s2 := Stored(s1, a);
    GoesOn(s2, Tick);
    var s3 := Step(s2, Tick);
    WriteStores(s3, b);
    s := Stored(s3, b);
  }

  /** Two more in the ring, the second of them just published. */
  lemma TwoBytesInTheRing(s: Tx, c: byte, d: byte) returns (t: Tx)
    requires Reachable(s) && HasRing(s) && s.head == s.tail && |s.buf| >= 4 && s.fg == Idle && !s.half && s.u.dr != []
    ensures Reachable(t) && HasRing(t) && t.fg == SetDreie && t.u == s.u.(dreie := true) && t.irq == s.irq && !t.half
    ensures Waiting(t) == [c, d] && t.asked == s.asked + [c] + [d]
  {
    hide Reachable;
    WritePublishes(s, c);
    var s1 := Published(s, c);
    GoesOn(s1, Go);
    var s2 := Step(s1, Go);
    WritePublishes(s2, d);
    t := Published(s2, d);
    Ring.Push(s.buf, s.head, s.tail, c);
    Ring.Push(s2.buf, s2.head, s2.tail, d);
    assert Waiting(t) == ([] + [c]) + [d];
  }

  /** Four calls of write, the last of them held up between publication and DREIE for the time of two frames: the
      second activation of DRE finds one byte waiting.  `SentTwice` says what follows. */
  lemma SecondActivationIsReachable(s0: Tx, a: byte, b: byte, c: byte, d: byte) returns (s: Tx)
    requires Start(s0) && s0.irq && |s0.buf| >= 4
    ensures Reachable(s) && Inv(s) && InWindow(s.fg) && DrePending(s) && |Waiting(s)| == 1 && s.asked == [a, b, c, d]
  {
    var s1 := TwoBytesWritten(s0, false, a, b);
    var s2 := TwoBytesInTheRing(s1, c, d);
    s := TwoFramesPass(s2);
    hide Reachable, Inv;
    ReachableKeeps(s);
    assert s.asked == [a, b] + [c] + [d];
  }

  lemma TwoFramesPass(s2: Tx) returns (s: Tx)
    requires Reachable(s2) && HasRing(s2) && s2.fg == SetDreie && s2.irq && !s2.half && |Waiting(s2)| == 2
    requires Registers(s2.u) && s2.u.dr != [] && s2.u.dreie
    ensures Reachable(s) && HasRing(s) && s.fg == SetDreie && DrePending(s) && |Waiting(s)| == 1 && s.asked == s2.asked
  {
    hide Reachable, Ticks;
    var s3 := Ticks(s2, Delay(s2.u));
    TicksGoOn(s2, Delay(s2.u));
    TicksAreClocks(s2, Delay(s2.u));
    DataMovesOn(s2.u, s2.half, Delay(s2.u));
    GoesOn(s3, Dre);
    var s4 := Step(s3, Dre);
    OneTaken(s3);
    s := Ticks(s4, Delay(s4.u));
    TicksGoOn(s4, Delay(s4.u));
    TicksAreClocks(s4, Delay(s4.u));
    DataMovesOn(s4.u, s4.half, Delay(s4.u));
  }

  lemma OneTaken(s: Tx)
    requires HasRing(s) && DrePending(s) && |Waiting(s)| == 2 && Registers(s.u)
    ensures var t := Step(s, Dre);
            && |Waiting(t)| == 1 && Registers(t.u) && t.u.dr != [] && t.u.dreie && t.fg == s.fg && t.asked == s.asked && t.irq && t.half == s.half
  {
    Ring.ContentsLength(s.buf, s.head, s.tail);
    Ring.Pop(s.buf, s.head, s.tail);
    Ring.ContentsLength(s.buf, s.head, Ring.Next(|s.buf|, s.tail));
  }

  // Between the clearing of TXCIF and the store.

  /** The short cut once TXCIF is clear: the CTRLA write of half duplex, and the store. */
  function Switch(s: Tx): (t: Tx)
    requires HasRing(s)
    ensures RingKept(s, t)
  {
    if s.fg.FastCtrla? then GoWrite(s) else s
  }

  function Store(s: Tx): (t: Tx)
    requires HasRing(s)
    ensures RingKept(s, t)
  {
    GoWrite(Switch(s))
  }

  lemma StoreKeeps(s: Tx)
    requires Inv(s) && Starting(s.fg)
    ensures Inv(Store(s))
  {
    ShortCutKeeps(s);
    if s.fg.FastCtrla? { ShortCutKeeps(GoWrite(s)); }
  }

  /** The end of the frame before, between clearing TXCIF and the store, matters exactly when nothing else waits behind it. */
  lemma StartLimit(s: Tx)
    requires Inv(s) && Starting(s.fg)
    ensures Inv(Store(Step(s, Tick))) <==> !Completes(s.u)
  {
    if !Completes(s.u) {
      StepKeeps(s, Tick);
      StoreKeeps(Step(s, Tick));
    } else {
      StoreTooLate(s);
      assert !Complete(Store(Step(s, Tick)));
    }
  }

  lemma StoreTooLate(s: Tx)
    requires Inv(s) && Starting(s.fg) && Completes(s.u)
    ensures var t := Store(Step(s, Tick));
            && t.fg == Idle && t.u.txcif && !t.u.dreie && t.written && t.u.dr == [s.fg.c] && t.u.sr == []
            && t.u.wire + t.u.dr == t.asked
  {
    var t := Store(Step(s, Tick));
    assert s.accepted == s.u.wire + (s.u.sr + []) + [];
    assert t.accepted == (s.u.wire + s.u.sr) + [s.fg.c] == t.u.wire + t.u.dr;
  }

  /** In that case flush returns at once, with the byte still in the data register. */
  lemma FlushTooEarly(s: Tx)
    requires Inv(s) && Starting(s.fg) && Completes(s.u)
    ensures var t := Store(Step(s, Tick));
            && Step(Step(Step(Step(t, Flush), Go), Go), Go) == t && t.fg == Idle
            && t.u.dr == [s.fg.c] && t.u.wire + t.u.dr == t.asked
  {
    StoreTooLate(s);
    FlushReturns(Store(Step(s, Tick)));
  }

  lemma FlushReturns(t: Tx)
    requires HasRing(t) && t.fg == Idle && t.written && !t.u.dreie && t.u.txcif
    ensures Step(Step(Step(Step(t, Flush), Go), Go), Go) == t
  {
    var t1 := Step(t, Flush);
    var t2 := Step(t1, Go);
    assert t1.fg == TestWritten(false) && t2 == t1.(fg := TestDreie(false));
  }

  /** Half duplex: the transmit-complete interrupt of the frame before turns the receiver on ahead of the store ... */
  lemma ListensTooEarly(s: Tx)
    requires Inv(s) && Starting(s.fg) && s.half && s.irq && Completes(s.u)
    ensures var t := Switch(Step(s, Tick));
            && TxcPending(t) && !DrePending(t) && !RxcPending(t) && t.fg.FastStore?
            && var t1 := Step(Step(t, Txc), Go);
            && t1.half && t1.irq && t1.heard == s.heard && t1.fg == Idle
            && t1.u.rxcie && !t1.u.txcie && !t1.u.dreie && t1.u.dr == [s.fg.c] && t1.u.sr == [] && t1.u.clocks == 0
            && t1.u.fifo == [] && t1.u.frame == s.u.frame
  {
  }

  /** ... so that the port hears the byte it sends. */
  lemma OwnByteIsHeard(s: Tx)
    requires Inv(s) && Starting(s.fg) && s.half && s.irq && Completes(s.u)
    ensures var t1 := Step(Step(Switch(Step(s, Tick)), Txc), Go);
            var t2 := Ticks(t1, s.u.frame + 1);
            RxcPending(t2) && Step(t2, Rxc).heard == s.heard + [Echo(s.fg.c)]
  {
    ListensTooEarly(s);
    var t1 := Step(Step(Switch(Step(s, Tick)), Txc), Go);
    hide Inv, Step, Switch, Ticks;
    Returns(t1, s.fg.c);
  }

  lemma Returns(t: Tx, c: byte)
    requires HasRing(t) && t.half && t.irq && t.u.rxcie && !t.u.dreie && t.u.dr == [c] && t.u.sr == [] && t.u.clocks == 0
    requires t.u.fifo == [] && t.u.frame > 0
    ensures var t2 := Ticks(t, t.u.frame + 1); RxcPending(t2) && Step(t2, Rxc).heard == t.heard + [Echo(c)]
  {
    var t1 := Step(t, Tick);
    assert t1 == t.(u := t.u.(sr := [c], dr := [], clocks := t.u.frame));
    assert Ticks(t, t.u.frame + 1) == Ticks(t1, t.u.frame);
    TicksAreClocks(t1, t.u.frame);
    FrameComesBack(t1.u, t.u.frame);
  }

  /** Two calls of write, and time until the second byte is almost out. */
  lemma AlmostOut(s0: Tx, half: bool, a: byte, b: byte) returns (s: Tx)
    requires Start(s0)
    ensures Reachable(s) && HasRing(s) && s.fg == Idle && s.head == s.tail && !s.u.dreie && s.half == half && s.irq == s0.irq && Completes(s.u)
  {
    var s1 := TwoBytesWritten(s0, half, a, b);
    hide Reachable, Inv, Start;
    var s2 := Ticks(s1, Delay(s1.u));
    TicksGoOn(s1, Delay(s1.u));
    TicksAreClocks(s1, Delay(s1.u));
    DataMovesOn(s1.u, s1.half, Delay(s1.u));
    var n := s2.u.clocks - 1;
    TicksAreClocks(s2, n);
    FrameGoesOn(s2.u, half, n);
    TicksGoOn(s2, n);
    s := Ticks(s2, n);
  }

  /** A third call of write is begun then: the states that these lemmas speak of, at the store ... */
  lemma LateStoreIsReachable(s0: Tx, half: bool, a: byte, b: byte, c: byte) returns (s: Tx)
    requires Start(s0)
    ensures Reachable(s) && Inv(s) && s.fg == FastStore(c) && s.half == half && s.irq == s0.irq && Completes(s.u)
  {
    var t := AlmostOut(s0, half, a, b);
    hide Reachable, Inv, Start;
    WriteGoesToStore(t, c);
    s := AtStore(t, c);
    ReachableKeeps(s);
  }

  /** ... and at the CTRLA write of half duplex. */
  lemma LateSwitchIsReachable(s0: Tx, a: byte, b: byte, c: byte) returns (s: Tx)
    requires Start(s0)
    ensures Reachable(s) && Inv(s) && s.fg == FastCtrla(c, false) && s.half && s.irq == s0.irq && Completes(s.u)
  {
    var t := AlmostOut(s0, true, a, b);
    hide Reachable, Inv, Start;
    WriteGoesToSwitch(t, c);
    s := AtSwitch(t, c);
    ReachableKeeps(s);
  }
}
