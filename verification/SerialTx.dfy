/** The transmitting half of HardwareSerial as a small-step protocol between one foreground program,
    the DRE, TXC and RXC interrupts, and the USART.

    Granularity: an interrupt handler runs to completion; RXC has priority over DRE, DRE over TXC.  The
    foreground program makes one access to a shared index or register a step, and anything may happen
    between two steps.  Two limits on the timing are written out in `Timely`. */
module SerialTx {
  import opened Bits
  import Ring

  /** A received frame: what this port sent itself over the shared wire, or what another one sent. */
  datatype Frame = Echo(b: byte) | Ext(b: byte)

  /** The USART: data register and shift register hold at most one byte; DREIF is `dr == []`. */
  datatype Usart = Usart(dr: seq<byte>, sr: seq<byte>, clocks: nat, frame: nat, txcif: bool,
                         dreie: bool, txcie: bool, rxcie: bool, fifo: seq<Frame>, wire: seq<byte>)

  /** Where the foreground program is: the access it makes next. */
  datatype Fg =
    | Closed
    | Idle
    // write: the tests for the short cut
    | TestEmpty(c: byte)
    | TestDreif(c: byte)
    // write: the short cut
    | FastRead(c: byte)
    | FastClear(c: byte, dreie: bool)
    | FastCtrla(c: byte, dreie: bool)
    | FastStore(c: byte)
    // write: through the ring
    | TestFull(c: byte)
    | FullPoll(c: byte)
    | Put(c: byte)
    | Publish(c: byte)
    | SetDreie
    | RingClear
    | RingCtrla
    // flush, and end, which begins with a flush
    | TestWritten(end: bool)
    | TestDreie(end: bool)
    | TestTxcif(end: bool)
    | FlushPoll(end: bool)
    | Disable

  /** `asked`, `accepted` and `heard` are histories of the session since `begin`: what the program passed to
      write, what write has put into the ring or the data register, what RXC has taken out of the FIFO. */
  datatype Tx = Tx(u: Usart, half: bool, buf: seq<byte>, head: nat, tail: nat, written: bool, irq: bool, fg: Fg,
                   asked: seq<byte>, accepted: seq<byte>, heard: seq<Frame>)

  datatype Action =
    | Begin(half: bool) | Interrupts(on: bool) | Write(c: byte) | Flush | End | Go
    | Tick | Dre | Txc | Rxc | Arrive(b: byte)

  predicate HasRing(s: Tx) { Ring.IsRing(s.buf, s.head, s.tail) }

  /** The ring is still one, of the same size. */
  predicate RingKept(s: Tx, t: Tx) { HasRing(t) && |t.buf| == |s.buf| }

  // The hardware.

  function Received(fifo: seq<Frame>, f: Frame): seq<Frame> {
    if |fifo| < 2 then fifo + [f] else fifo
  }

  /** The last bit of a frame leaves and no byte is waiting behind it. */
  predicate Completes(u: Usart) { u.sr != [] && u.clocks <= 1 && u.dr == [] }

  function Clock(u: Usart, half: bool): Usart {
    if u.sr == [] then
      if u.dr == [] then u else u.(sr := u.dr, dr := [], clocks := u.frame)
    else if u.clocks > 1 then u.(clocks := u.clocks - 1)
    else
      var v := u.(wire := u.wire + u.sr, fifo := if half then Received(u.fifo, Echo(u.sr[0])) else u.fifo);
      if u.dr == [] then v.(sr := [], clocks := 0, txcif := true)
      else v.(sr := u.dr, dr := [], clocks := u.frame)
  }

  function Load(u: Usart, c: byte): Usart { u.(dr := [c]) }

  // The interrupt handlers.

  /** _tx_data_empty_irq: it never asks whether the ring is empty. */
  function DreIrq(s: Tx): (t: Tx)
    requires HasRing(s)
    ensures RingKept(s, t)
  {
    var next := Ring.Next(|s.buf|, s.tail);
    s.(u := Load(s.u.(txcif := false, dreie := s.u.dreie && s.head != next), s.buf[s.tail]), tail := next)
  }

  /** The transmit-complete handler: dump the echoes, listen again. */
  function TxcIrq(s: Tx): Tx { s.(u := s.u.(fifo := [], rxcie := true, txcie := false)) }

  function RxcIrq(s: Tx): Tx
    requires s.u.fifo != []
  {
    s.(u := s.u.(fifo := s.u.fifo[1..]), heard := s.heard + [s.u.fifo[0]])
  }

  predicate DrePending(s: Tx) { s.irq && s.u.dreie && s.u.dr == [] }
  predicate RxcPending(s: Tx) { s.irq && s.u.rxcie && s.u.fifo != [] }
  predicate TxcPending(s: Tx) { s.irq && s.u.txcie && s.u.txcif }

  /** _poll_tx_data_empty: nothing while interrupts can run. */
  function Poll(s: Tx): (t: Tx)
    requires HasRing(s)
    ensures RingKept(s, t)
  {
    if s.irq || s.u.dr != [] then s
    else if s.head == s.tail then s.(u := s.u.(dreie := false))
    else DreIrq(s)
  }

  // The foreground program.

  function Leave(s: Tx, end: bool): Tx { s.(fg := if end then Disable else Idle) }

  /** The next access of `write`. */
  function GoWrite(s: Tx): (t: Tx)
    requires HasRing(s)
    ensures RingKept(s, t)
  {
    match s.fg
    case TestEmpty(c) => s.(fg := if s.head == s.tail then TestDreif(c) else TestFull(c))
    case TestDreif(c) => s.(fg := if s.u.dr != [] then TestFull(c) else if s.half then FastRead(c) else FastClear(c, s.u.dreie))
    case FastRead(c) => s.(fg := FastClear(c, s.u.dreie))
    case FastClear(c, d) => s.(u := s.u.(txcif := false), fg := if s.half then FastCtrla(c, d) else FastStore(c))
    case FastCtrla(c, d) => s.(u := s.u.(rxcie := false, txcie := true, dreie := d), fg := FastStore(c))
    case FastStore(c) => s.(u := Load(s.u, c), accepted := s.accepted + [c], fg := Idle)
    case TestFull(c) => s.(fg := if Ring.Next(|s.buf|, s.head) == s.tail then FullPoll(c) else Put(c))
    case FullPoll(c) => Poll(s).(fg := TestFull(c))
    case Put(c) => s.(buf := s.buf[s.head := c], fg := Publish(c))
    case Publish(c) => s.(head := Ring.Next(|s.buf|, s.head), accepted := s.accepted + [c], fg := if s.half then RingClear else SetDreie)
    case SetDreie => s.(u := s.u.(dreie := true), fg := Idle)
    case RingClear => s.(u := s.u.(txcif := false), fg := RingCtrla)
    case RingCtrla => s.(u := s.u.(rxcie := false, txcie := true, dreie := true), fg := Idle)
    case _ => s
  }

  /** The next access of `flush` and `end`. */
  function GoFlush(s: Tx): (t: Tx)
    requires HasRing(s)
    ensures RingKept(s, t)
  {
    match s.fg
    case TestWritten(end) => if s.written then s.(fg := TestDreie(end)) else Leave(s, end)
    case TestDreie(end) => s.(fg := if s.u.dreie then FlushPoll(end) else TestTxcif(end))
    case TestTxcif(end) => if s.u.txcif then Leave(s, end) else s.(fg := FlushPoll(end))
    case FlushPoll(end) => Poll(s).(fg := TestDreie(end))
    case Disable =>
      s.(u := s.u.(dreie := false, txcie := false, rxcie := false, txcif := false, fifo := []), written := false, fg := Closed)
    case _ => s
  }

  function Call(s: Tx, a: Action): Tx {
    match a
    case Begin(half) =>
      if s.fg != Closed then s
      else s.(u := s.u.(rxcie := true, fifo := [], wire := []), half := half, fg := Idle, asked := [], accepted := [], heard := [])
    case Interrupts(on) => if s.fg == Idle then s.(irq := on) else s
    case Write(c) => if s.fg == Idle then s.(written := true, asked := s.asked + [c], fg := TestEmpty(c)) else s
    case Flush => if s.fg == Idle then s.(fg := TestWritten(false)) else s
    case End => if s.fg == Idle then s.(fg := TestWritten(true)) else s
    case _ => s
  }

  /** What happens around the foreground program. */
  function Event(s: Tx, a: Action): (t: Tx)
    requires HasRing(s)
    ensures RingKept(s, t)
  {
    match a
    case Tick => s.(u := Clock(s.u, s.half))
    case Dre => if DrePending(s) then DreIrq(s) else s
    case Txc => if TxcPending(s) && !DrePending(s) && !RxcPending(s) then TxcIrq(s) else s
    case Rxc => if RxcPending(s) then RxcIrq(s) else s
    case Arrive(b) => if s.fg == Closed then s else s.(u := s.u.(fifo := Received(s.u.fifo, Ext(b))))
    case _ => s
  }

  function Step(s: Tx, a: Action): (t: Tx)
    requires HasRing(s)
    ensures RingKept(s, t)
  {
    match a
    case Go => if Flushing(s.fg) || s.fg.Disable? then GoFlush(s) else GoWrite(s)
    case Tick => Event(s, a)
    case Dre => Event(s, a)
    case Txc => Event(s, a)
    case Rxc => Event(s, a)
    case Arrive(_) => Event(s, a)
    case _ => Call(s, a)
  }

  // Timing.

  /** Between the publication of a byte and the setting of DREIE. */
  predicate InWindow(fg: Fg) { fg == SetDreie || fg == RingClear || fg == RingCtrla }

  /** Between the clearing of TXCIF and the store that starts a new transmission. */
  predicate Starting(fg: Fg) { fg.FastCtrla? || fg.FastStore? }

  function Waiting(s: Tx): seq<byte>
    requires HasRing(s)
  {
    Ring.Contents(s.buf, s.head, s.tail)
  }

  /** DRE does not drain the ring inside the window; clearing TXCIF and storing are one step as to the end of a frame. */
  predicate Timely(s: Tx, a: Action)
    requires HasRing(s)
  {
    && (a == Dre && InWindow(s.fg) && DrePending(s) ==> |Waiting(s)| >= 2)
    && (a == Tick && Starting(s.fg) ==> !Completes(s.u))
  }

  // Runs.

  predicate Start(s: Tx) {
    && HasRing(s) && s.head == s.tail && s.fg == Closed && !s.written && s.asked == s.accepted == s.u.wire == []
    && s.u.dr == s.u.sr == [] && s.u.frame > 0 && s.u.clocks == 0
    && !s.u.txcif && !s.u.dreie && !s.u.txcie && !s.u.rxcie && s.u.fifo == [] && s.heard == []
  }

  /** A run: the states it goes through, from a start, and the actions between them, each one in time. */
  ghost predicate IsRun(trace: seq<Tx>, run: seq<Action>) {
    && |trace| == |run| + 1 && Start(trace[0])
    && forall k :: 0 <= k < |run| ==> HasRing(trace[k]) && Timely(trace[k], run[k]) && trace[k + 1] == Step(trace[k], run[k])
  }

  // What every step keeps.

  /** The byte that a call of write has taken but not accepted yet. */
  function InHand(fg: Fg): seq<byte> {
    match fg
    case TestEmpty(c) => [c]
    case TestDreif(c) => [c]
    case FastRead(c) => [c]
    case FastClear(c, _) => [c]
    case FastCtrla(c, _) => [c]
    case FastStore(c) => [c]
    case TestFull(c) => [c]
    case FullPoll(c) => [c]
    case Put(c) => [c]
    case Publish(c) => [c]
    case _ => []
  }

  function InFlight(u: Usart): seq<byte> { u.sr + u.dr }

  /** Nothing lost, doubled or out of order. */
  predicate Conserved(s: Tx)
    requires HasRing(s)
  {
    && s.asked == s.accepted + InHand(s.fg)
    && s.accepted == s.u.wire + InFlight(s.u) + Waiting(s)
  }

  /** DREIE is on exactly while bytes wait in the ring, but for the window. */
  predicate Armed(s: Tx)
    requires HasRing(s)
  {
    if InWindow(s.fg) then s.head != s.tail && (s.u.dreie || |Waiting(s)| == 1)
    else s.u.dreie == (s.head != s.tail)
  }

  predicate OnTheFastPath(fg: Fg) { fg.FastRead? || fg.FastClear? || fg.FastCtrla? || fg.FastStore? }

  predicate Registers(u: Usart) {
    |u.dr| <= 1 && |u.sr| <= 1 && (u.sr == [] <==> u.clocks == 0) && u.frame > 0
  }

  /** What the foreground program knows at each of its points. */
  predicate Knows(s: Tx)
    requires HasRing(s)
  {
    && (s.fg.TestDreif? || OnTheFastPath(s.fg) || s.fg.TestTxcif? ==> s.head == s.tail)
    && (OnTheFastPath(s.fg) ==> s.u.dr == [])
    && (s.fg.FastClear? || s.fg.FastCtrla? ==> !s.fg.dreie)
    && (s.fg.Put? || s.fg.Publish? ==> Ring.Next(|s.buf|, s.head) != s.tail)
    && (s.fg.Publish? ==> s.buf[s.head] == s.fg.c)
    && (s.fg.RingClear? || s.fg.RingCtrla? || s.fg.FastRead? || s.fg.FastCtrla? ==> s.half)
    && (s.fg.SetDreie? ==> !s.half)
  }

  /** Everything accepted has left. */
  predicate AllSent(s: Tx) { s.head == s.tail && s.u.dr == [] && s.u.sr == [] }

  predicate Flushing(fg: Fg) { fg.TestWritten? || fg.TestDreie? || fg.TestTxcif? || fg.FlushPoll? }

  predicate AtRest(fg: Fg) { fg == Idle || Flushing(fg) || fg.Disable? }

  /** TXCIF tells whether the transmitter is idle; once something was sent it is set whenever all is sent. */
  predicate Complete(s: Tx) {
    && (s.u.txcif ==> s.u.dr == [] && s.u.sr == [])
    && (Starting(s.fg) ==> !s.u.txcif)
    && (AllSent(s) && s.accepted != [] && !Starting(s.fg) && s.fg != Closed ==> s.u.txcif)
    && (AtRest(s.fg) && s.written ==> s.accepted != [])
    && (s.fg.Disable? ==> AllSent(s))
    && (s.fg.TestDreie? || s.fg.TestTxcif? || s.fg.FlushPoll? ==> s.written)
    && (!s.written ==> AllSent(s) && (s.fg == Closed || s.accepted == []))
    && (InHand(s.fg) != [] || InWindow(s.fg) ==> s.written)
  }

  /** In half duplex the receiver is off whenever something may be sent. */
  predicate Quiet(s: Tx) {
    && (s.fg != Closed ==> s.u.rxcie != s.u.txcie)
    && (s.fg == Closed ==> !s.u.rxcie && !s.u.txcie && !s.u.txcif && s.u.fifo == [] && !s.written)
    && (!s.half ==> !s.u.txcie)
    && (s.half && (InFlight(s.u) != [] || s.u.dreie || s.fg.FastStore?) ==> s.u.txcie)
    && (s.u.rxcie || !s.half ==> NoEcho(s.u.fifo))
    && NoEcho(s.heard)
  }

  predicate NoEcho(fs: seq<Frame>) { forall k :: 0 <= k < |fs| ==> fs[k].Ext? }

  predicate Inv(s: Tx) {
    && HasRing(s) && Registers(s.u)
    && Conserved(s) && Armed(s) && Knows(s) && Complete(s) && Quiet(s)
  }

  lemma StartKeeps(s: Tx)
    requires Start(s)
    ensures Inv(s)
  {
  }

  // The clock.

  lemma ClockConserves(u: Usart, half: bool)
    requires Registers(u)
    ensures var v := Clock(u, half); Registers(v) && v.wire + InFlight(v) == u.wire + InFlight(u)
  {
    if u.sr != [] && u.clocks <= 1 {
      assert u.wire + (u.sr + u.dr) == (u.wire + u.sr) + u.dr;
      if u.dr != [] { assert (u.wire + u.sr) + (u.dr + []) == u.wire + (u.sr + u.dr); }
    }
  }

  lemma ClockCompletes(u: Usart, half: bool)
    requires Registers(u)
    ensures var v := Clock(u, half);
            && v.txcif == (u.txcif || Completes(u)) && (v.dr == [] && v.sr == [] <==> (u.dr == [] && u.sr == []) || Completes(u))
            && v.dreie == u.dreie && v.txcie == u.txcie && v.rxcie == u.rxcie && v.frame == u.frame
            && (u.dr == [] ==> v.dr == [])
  {
  }

  lemma ClockIsQuiet(u: Usart, half: bool)
    requires Registers(u) && (half && u.sr != [] ==> !u.rxcie) && (u.rxcie || !half ==> NoEcho(u.fifo))
    ensures var v := Clock(u, half); v.rxcie || !half ==> NoEcho(v.fifo)
  {
  }

  lemma TickKeeps(s: Tx)
    requires Inv(s) && Timely(s, Tick)
    ensures Inv(Step(s, Tick))
  {
    ClockConserves(s.u, s.half);
    ClockCompletes(s.u, s.half);
    ClockIsQuiet(s.u, s.half);
    var t := Step(s, Tick);
    assert t == s.(u := Clock(s.u, s.half));
    assert t.u.wire + InFlight(t.u) + Waiting(t) == s.u.wire + InFlight(s.u) + Waiting(s);
  }

  // The handlers.

  lemma DreConserves(s: Tx)
    requires HasRing(s) && s.head != s.tail && Conserved(s) && s.u.dr == []
    ensures Conserved(DreIrq(s))
  {
    Ring.Pop(s.buf, s.head, s.tail);
    var t := DreIrq(s);
    assert Waiting(s) == [s.buf[s.tail]] + Waiting(t);
    assert s.u.wire + InFlight(s.u) + ([s.buf[s.tail]] + Waiting(t)) == t.u.wire + InFlight(t.u) + Waiting(t);
  }

  lemma DreKeeps(s: Tx)
    requires Inv(s) && s.u.dr == [] && s.u.dreie && (InWindow(s.fg) ==> |Waiting(s)| >= 2)
    requires !OnTheFastPath(s.fg) && !s.fg.TestTxcif?
    ensures Inv(DreIrq(s))
  {
    DreConserves(s);
    Ring.Pop(s.buf, s.head, s.tail);
    Ring.ContentsLength(s.buf, s.head, s.tail);
  }

  lemma PollKeeps(s: Tx)
    requires Inv(s) && !InWindow(s.fg) && !OnTheFastPath(s.fg) && !s.fg.TestTxcif?
    ensures Inv(Poll(s))
  {
    if !s.irq && s.u.dr == [] && s.head != s.tail { DreKeeps(s); }
  }

  lemma EventKeeps(s: Tx, a: Action)
    requires Inv(s) && Timely(s, a)
    ensures Inv(Event(s, a))
  {
    if a == Tick { TickKeeps(s); }
    if a == Dre && DrePending(s) { DreKeeps(s); }
    if a == Txc || a == Rxc || a.Arrive? { ReceiverKeeps(s, a); }
  }

  /** The receiver's side of the port has no part in what is sent. */
  lemma ReceiverApart(s: Tx, u: Usart, heard: seq<Frame>)
    requires Inv(s) && u == s.u.(fifo := u.fifo, rxcie := u.rxcie, txcie := u.txcie) && Quiet(s.(u := u, heard := heard))
    ensures Inv(s.(u := u, heard := heard))
  {
    hide Quiet;
    var t := s.(u := u, heard := heard);
    assert Waiting(t) == Waiting(s) && InFlight(u) == InFlight(s.u);
  }

  lemma ReceiverKeeps(s: Tx, a: Action)
    requires Inv(s) && (a == Txc || a == Rxc || a.Arrive?)
    ensures Inv(Event(s, a))
  {
    hide Conserved, Armed, Knows, Ring.Contents;
    var t := Event(s, a);
    if a.Arrive? { assert NoEcho(s.u.fifo) ==> NoEcho(Received(s.u.fifo, Ext(a.b))); }
    ReceiverApart(s, t.u, t.heard);
    assert t == s.(u := t.u, heard := t.heard);
  }

  /** RXC takes one frame, the first, and no other event takes any but the transmit-complete handler, which takes all. */
  lemma FramesAreTaken(s: Tx, a: Action)
    requires HasRing(s) && a != Tick && !a.Arrive?
    ensures var t := Event(s, a);
            if a == Rxc && RxcPending(s) then t.heard + t.u.fifo == s.heard + s.u.fifo && |t.heard| == |s.heard| + 1
            else t.heard == s.heard && (t.u.fifo == s.u.fifo || (a == Txc && TxcPending(s) && t.u.fifo == []))
  {
    if a == Rxc && RxcPending(s) {
      var f := s.u.fifo;
      assert f == [f[0]] + f[1..];
      assert s.heard + [f[0]] + f[1..] == s.heard + ([f[0]] + f[1..]);
    }
  }

  /** What happens around the program takes bytes out of the ring and puts none in. */
  lemma EventsOnlyTake(s: Tx, a: Action)
    requires Inv(s) && Timely(s, a)
    ensures |Waiting(Event(s, a))| <= |Waiting(s)|
  {
    hide Conserved, Knows, Complete, Quiet;
    if a == Dre && DrePending(s) {
      Ring.ContentsLength(s.buf, s.head, s.tail);
      Ring.Pop(s.buf, s.head, s.tail);
    }
  }

  // The foreground program.

  lemma ShortCutKeeps(s: Tx)
    requires Inv(s) && (s.fg.TestEmpty? || s.fg.TestDreif? || OnTheFastPath(s.fg))
    ensures Inv(GoWrite(s))
  {
    if s.fg.FastStore? {
      var t := GoWrite(s);
      assert t.asked == t.accepted + [];
      assert s.u.wire + (s.u.sr + []) + [] + [s.fg.c] == t.u.wire + InFlight(t.u) + [];
    }
  }

  lemma PutConserves(s: Tx)
    requires Inv(s) && s.fg.Put?
    ensures Inv(GoWrite(s))
  {
    Ring.Push(s.buf, s.head, s.tail, s.fg.c);
  }

  lemma PublishConserves(s: Tx)
    requires Inv(s) && s.fg.Publish?
    ensures Conserved(GoWrite(s)) && Armed(GoWrite(s))
  {
    var t := GoWrite(s);
    Ring.Push(s.buf, s.head, s.tail, s.fg.c);
    assert s.buf[s.head := s.fg.c] == s.buf;
    Ring.ContentsLength(s.buf, s.head, s.tail);
    Ring.ContentsLength(t.buf, t.head, t.tail);
    assert t.accepted == (s.u.wire + InFlight(s.u) + Waiting(s)) + [s.fg.c] == s.u.wire + InFlight(s.u) + (Waiting(s) + [s.fg.c]);
    assert t.asked == t.accepted + [];
  }

  lemma WindowKeeps(s: Tx)
    requires Inv(s) && InWindow(s.fg)
    ensures Inv(GoWrite(s))
  {
  }

  lemma FullPollKeeps(s: Tx)
    requires Inv(s) && s.fg.FullPoll?
    ensures Inv(GoWrite(s))
  {
    PollKeeps(s);
    var t := Poll(s);
    assert t.fg == s.fg && GoWrite(s) == t.(fg := TestFull(s.fg.c));
    assert InHand(GoWrite(s).fg) == InHand(t.fg);
  }

  lemma RingKeeps(s: Tx)
    requires Inv(s) && (s.fg.TestFull? || s.fg.Put? || s.fg.Publish?)
    ensures Inv(GoWrite(s))
  {
    if s.fg.Put? { PutConserves(s); }
    if s.fg.Publish? { PublishConserves(s); }
  }

  lemma DisableKeeps(s: Tx)
    requires Inv(s) && s.fg.Disable?
    ensures Inv(s.(u := s.u.(dreie := false, txcie := false, rxcie := false, txcif := false, fifo := []), written := false, fg := Closed))
    ensures Step(s, Go) == s.(u := s.u.(dreie := false, txcie := false, rxcie := false, txcif := false, fifo := []), written := false, fg := Closed)
  {
  }

  lemma FlushPollKeeps(s: Tx)
    requires Inv(s) && s.fg.FlushPoll?
    ensures Inv(GoFlush(s))
  {
    PollKeeps(s);
    var t := Poll(s);
    assert t.fg == s.fg && GoFlush(s) == t.(fg := TestDreie(s.fg.end));
    assert InHand(GoFlush(s).fg) == InHand(t.fg);
  }

  lemma FlushKeeps(s: Tx)
    requires Inv(s) && (s.fg.TestWritten? || s.fg.TestDreie? || s.fg.TestTxcif?)
    ensures Inv(GoFlush(s))
  {
    hide Ring.Contents, NoEcho;
    assert InHand(GoFlush(s).fg) == InHand(s.fg);
  }

  lemma CallKeeps(s: Tx, a: Action)
    requires Inv(s)
    ensures Inv(Call(s, a))
  {
    if a.Begin? && s.fg == Closed { assert Call(s, a).accepted == []; }
  }

  /** The invariant holds after every step that the timing allows. */
  lemma StepKeeps(s: Tx, a: Action)
    requires Inv(s) && Timely(s, a)
    ensures Inv(Step(s, a))
  {
    if a.Tick? || a.Dre? || a.Txc? || a.Rxc? || a.Arrive? {
      EventKeeps(s, a);
    } else if a.Go? {
      if s.fg.TestEmpty? || s.fg.TestDreif? || OnTheFastPath(s.fg) { ShortCutKeeps(s); }
      if s.fg.TestFull? || s.fg.Put? || s.fg.Publish? { RingKeeps(s); }
      if s.fg.FullPoll? { FullPollKeeps(s); }
      if InWindow(s.fg) { WindowKeeps(s); }
      if s.fg.TestWritten? || s.fg.TestDreie? || s.fg.TestTxcif? { FlushKeeps(s); }
      if s.fg.FlushPoll? { FlushPollKeeps(s); }
      if s.fg.Disable? { DisableKeeps(s); }
    } else {
      CallKeeps(s, a);
    }
  }

  /** ... and so at every point of every run. */
  lemma {:induction false} RunKeeps(trace: seq<Tx>, run: seq<Action>, k: nat)
    requires IsRun(trace, run) && k < |trace|
    ensures Inv(trace[k])
  {
    if k == 0 {
      StartKeeps(trace[0]);
    } else {
      RunKeeps(trace, run, k - 1);
      StepKeeps(trace[k - 1], run[k - 1]);
    }
  }

  // What follows for every point of every run.

  /** What the program asked to be written is on the wire, in the USART, in the ring or in the hand of write, in this order. */
  lemma NothingIsLost(trace: seq<Tx>, run: seq<Action>, k: nat)
    requires IsRun(trace, run) && k < |trace|
    ensures var t := trace[k]; HasRing(t) && t.asked == t.u.wire + t.u.sr + t.u.dr + Waiting(t) + InHand(t.fg)
  {
    RunKeeps(trace, run, k);
    var t := trace[k];
    assert t.u.wire + (t.u.sr + t.u.dr) == t.u.wire + t.u.sr + t.u.dr;
  }

  /** The DRE handler has a byte to send whenever it runs, and it has turned itself off whenever there is none. */
  lemma DreNeverFindsTheRingEmpty(trace: seq<Tx>, run: seq<Action>, k: nat)
    requires IsRun(trace, run) && k < |trace|
    ensures var t := trace[k];
            && HasRing(t) && (DrePending(t) ==> Waiting(t) != [])
            && (!InWindow(t.fg) ==> (t.u.dreie <==> Waiting(t) != []))
  {
    RunKeeps(trace, run, k);
    Ring.ContentsLength(trace[k].buf, trace[k].head, trace[k].tail);
  }

  /** The step that leaves flush finds everything sent. */
  lemma LeavingMeansSent(s: Tx)
    requires Inv(s) && Flushing(s.fg) && !Flushing(GoFlush(s).fg)
    ensures s.u.wire == s.accepted == s.asked && GoFlush(s).u == s.u
  {
    assert AllSent(s) && Waiting(s) == [];
    assert s.u.wire + [] + [] == s.u.wire && s.accepted + [] == s.accepted;
  }

  /** When flush returns, every byte ever written is on the wire. */
  lemma FlushHasSentAll(trace: seq<Tx>, run: seq<Action>, k: nat)
    requires IsRun(trace, run) && k < |run| && run[k] == Go && Flushing(trace[k].fg) && !Flushing(trace[k + 1].fg)
    ensures trace[k + 1].u.wire == trace[k + 1].asked
  {
    RunKeeps(trace, run, k);
    LeavingMeansSent(trace[k]);
  }

  /** Half duplex: one of RXCIE and TXCIE is on, never both, and none of the port's own bytes is ever heard. */
  lemma OwnBytesAreNeverHeard(trace: seq<Tx>, run: seq<Action>, k: nat)
    requires IsRun(trace, run) && k < |trace|
    ensures var t := trace[k]; (t.fg != Closed ==> t.u.rxcie != t.u.txcie) && forall f :: f in t.heard ==> f.Ext?
  {
    RunKeeps(trace, run, k);
  }

  // Waiting ends: a measure that only grows when something is accepted.

  function Transit(u: Usart): nat { (if u.dr == [] then 0 else u.frame + 1) + u.clocks }

  function Work(s: Tx): nat
    requires HasRing(s)
  {
    (s.u.frame + 2) * |Waiting(s)| + Transit(s.u)
  }

  lemma ClockWorks(u: Usart, half: bool)
    requires Registers(u)
    ensures Transit(Clock(u, half)) <= Transit(u) && (InFlight(u) != [] ==> Transit(Clock(u, half)) < Transit(u))
    ensures Clock(u, half).frame == u.frame
  {
  }

  lemma OneLess(k: nat, n: nat)
    requires n > 0
    ensures k * n == k * (n - 1) + k
  {
  }

  lemma DreWorks(s: Tx)
    requires Inv(s) && s.u.dr == [] && s.head != s.tail
    ensures Work(DreIrq(s)) == Work(s) - 1
  {
    hide Conserved, Armed, Knows, Complete, Quiet;
    Ring.Pop(s.buf, s.head, s.tail);
    var n, t := |Waiting(s)|, DreIrq(s);
    assert Waiting(t) == Ring.Contents(s.buf, s.head, t.tail);
    hide Ring.Contents;
    OneLess(s.u.frame + 2, n);
  }

  lemma TickWorks(s: Tx)
    requires Inv(s)
    ensures var t := Step(s, Tick); Work(t) <= Work(s) && (InFlight(s.u) != [] ==> Work(t) < Work(s))
  {
    ClockWorks(s.u, s.half);
    assert Waiting(Step(s, Tick)) == Waiting(s);
  }

  /** While write waits for room or flush for the end, no step makes the work grow. */
  lemma WaitingNeverLosesGround(s: Tx, a: Action)
    requires Inv(s) && Timely(s, a) && (s.fg.TestFull? || s.fg.FullPoll? || Flushing(s.fg))
    ensures Work(Step(s, a)) <= Work(s)
  {
    if a == Tick { TickWorks(s); }
    if a == Dre && DrePending(s) { DreWorks(s); }
    if a == Go { GoingNeverLosesGround(s); }
  }

  lemma GoingNeverLosesGround(s: Tx)
    requires Inv(s) && (s.fg.TestFull? || s.fg.FullPoll? || Flushing(s.fg))
    ensures Work(Step(s, Go)) <= Work(s)
  {
    if !s.irq && s.u.dr == [] && s.head != s.tail { DreWorks(s); }
  }

  /** ... one step, which one depending on where the bytes are, makes it shrink ... */
  lemma WaitingCanAlwaysGoOn(s: Tx)
    requires Inv(s) && Work(s) > 0 && (s.fg.TestFull? || s.fg.FullPoll? || Flushing(s.fg))
    ensures if DrePending(s) then Work(Step(s, Dre)) < Work(s)
            else if s.u.dr == [] && s.head != s.tail then Work(Poll(s)) < Work(s)
            else Work(Step(s, Tick)) < Work(s)
  {
    NoWorkMeansAllSent(s);
    if s.u.dr == [] && s.head != s.tail { DreWorks(s); } else { TickWorks(s); }
  }

  /** Polling in a wait loop: what it cannot send is none, or interrupts will. */
  lemma PollGoesOn(s: Tx)
    requires Inv(s) && (s.fg.FullPoll? || s.fg.FlushPoll?)
    ensures var t := Step(s, Go); Inv(t) && Work(t) <= Work(s) && (t.irq || t.u.dr != [] || t.head == t.tail)
    ensures Step(s, Go) == Poll(s).(fg := if s.fg.FullPoll? then TestFull(s.fg.c) else TestDreie(s.fg.end))
  {
    PollLeaves(s);
    GoPolls(s);
    hide Inv, Work, Step, Poll;
    StepKeeps(s, Go);
    GoingNeverLosesGround(s);
  }

  lemma GoPolls(s: Tx)
    requires HasRing(s) && (s.fg.FullPoll? || s.fg.FlushPoll?)
    ensures Step(s, Go) == Poll(s).(fg := if s.fg.FullPoll? then TestFull(s.fg.c) else TestDreie(s.fg.end))
  {
    hide Poll;
  }

  lemma PollLeaves(s: Tx)
    requires HasRing(s)
    ensures var t := Poll(s); t.irq || t.u.dr != [] || t.head == t.tail
  {
  }

  lemma NoWorkMeansAllSent(s: Tx)
    requires Inv(s)
    ensures Work(s) == 0 <==> AllSent(s)
  {
    var n, k := |Waiting(s)|, s.u.frame + 2;
    Ring.ContentsLength(s.buf, s.head, s.tail);
    if n > 0 { MulAway(k, n); }
  }

  /** The two tests of flush find work while there is some. */
  lemma TestsFindWork(s: Tx)
    requires Inv(s)
    ensures s.fg.TestDreie? && s.u.dreie ==> Work(s) > 0
    ensures s.fg.TestTxcif? && !s.u.txcif ==> Work(s) > 0
  {
    NoWorkMeansAllSent(s);
  }

  lemma IdleMeansAccepted(s: Tx)
    requires Inv(s) && s.fg == Idle
    ensures s.accepted == s.asked
  {
    assert s.accepted + [] == s.accepted;
  }

  /** ... and with no work left flush returns in two steps. */
  lemma NothingLeftEndsFlush(s: Tx)
    requires Inv(s) && Work(s) == 0 && s.fg.TestDreie?
    ensures Step(Step(s, Go), Go) == Leave(s, s.fg.end)
  {
    NoWorkMeansAllSent(s);
  }
}
