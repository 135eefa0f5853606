/** The error record `_state`, which RXC writes and getStatus reports and clears. */
module SerialStatus {
  import opened Bits
  import opened Avr
  import opened SerialObject
  import SerialRxc

  // Bits of `_state` and of the answer of getStatus.
  const PARITY := 2
  const FRAME := 3
  const RING_OVERFLOW := 6
  const HARDWARE_OVERFLOW := 7

  const AUTOBAUD_ENABLED: byte := 0x10
  const AUTOBAUD_SYNC: byte := 0x20
  const AUTOBAUD_BADSYNC: byte := 0x30

  predicate IsError(k: nat) { k == PARITY || k == FRAME || k == RING_OVERFLOW || k == HARDWARE_OVERFLOW }

  function Autobaud(ctrlb: byte, status: byte): byte {
    if !(Bit(ctrlb, 2) && !Bit(ctrlb, 1)) then 0
    else if Bit(status, 1) then AUTOBAUD_SYNC
    else if Bit(status, 3) then AUTOBAUD_BADSYNC
    else AUTOBAUD_ENABLED
  }

  /** _statuscheck. */
  function StatusCheck(ctrlb: byte, status: byte, state: byte): byte { OrByte(state, Autobaud(ctrlb, status)) }

  /** One run of RXC: the high byte of the frame it read, and whether the ring was full. */
  datatype Rxc = Rxc(rxDataH: byte, full: bool)

  /** What can happen to `_state` between two calls of begin. `Written` is the `_state |= 1` of write, a load and a store,
      with the runs of RXC in between. */
  datatype Event = Received(x: Rxc) | Written(mid: seq<Rxc>) | Reported

  /** RXC's change, as CollectErrors makes it of the object in memory. */
  function Noted(state: byte, x: Rxc): byte {
    var errors := OrByte(state, 2 * AndByte(x.rxDataH, 0x46));
    if !Bit(x.rxDataH, 1) && x.full then OrByte(errors, 0x40) else errors
  }

  function NotedAll(state: byte, mid: seq<Rxc>): byte {
    if mid == [] then state else Noted(NotedAll(state, mid[..|mid| - 1]), mid[|mid| - 1])
  }

  /** The store of write is made of what it loaded, whatever `_state` is by then. */
  function After(state: byte, e: Event): byte {
    match e
    case Received(x) => Noted(state, x)
    case Written(_) => OrByte(state, 1)
    case Reported => AndByte(state, 3)
  }

  function State(start: byte, es: seq<Event>): byte {
    if es == [] then start else After(State(start, es[..|es| - 1]), es[|es| - 1])
  }

  /** RXC found an error of kind k. A byte with a parity error is not an overflow of the ring. */
  predicate Shows(x: Rxc, k: nat) {
    if k == HARDWARE_OVERFLOW then Bit(x.rxDataH, 6)
    else if k == RING_OVERFLOW then !Bit(x.rxDataH, 1) && x.full
    else if k == FRAME then Bit(x.rxDataH, 2)
    else k == PARITY && Bit(x.rxDataH, 1)
  }

  predicate AnyShows(mid: seq<Rxc>, k: nat) { exists j :: 0 <= j < |mid| && Shows(mid[j], k) }

  /** An error of kind k since the last report, while write was not at its store. */
  predicate Outside(es: seq<Event>, k: nat) {
    && es != [] && es[|es| - 1] != Reported
    && ((es[|es| - 1].Received? && Shows(es[|es| - 1].x, k)) || Outside(es[..|es| - 1], k))
  }

  /** ... and one between the load and the store of a write. */
  predicate Inside(es: seq<Event>, k: nat) {
    && es != [] && es[|es| - 1] != Reported
    && ((es[|es| - 1].Written? && AnyShows(es[|es| - 1].mid, k)) || Inside(es[..|es| - 1], k))
  }

  /** An error of kind k since the last report, whenever it came. */
  predicate SinceReport(es: seq<Event>, k: nat) { Outside(es, k) || Inside(es, k) }

  lemma RxcNotes(o: Obj, w: World, state: byte)
    requires ValidObj(o, w)
    ensures CollectErrors(o, w, state) ==
            Noted(state, Rxc(Peek(w, w.io.usart + RXDATAH), Next(o.rx, w.mem[o.base + RX_HEAD]) == w.mem[o.base + RX_TAIL]))
  {
  }

  lemma NotedBits(state: byte, x: Rxc, k: nat)
    requires k < 8
    ensures Bit(Noted(state, x), k) == (Bit(state, k) || Shows(x, k))
  {
    var e := And(x.rxDataH, 0x46);
    BitOr(state, 2 * e, k);
    BitOr(OrByte(state, 2 * e), 0x40, k);
    assert 2 * e / 2 == e;
    if k > 0 { BitAnd(x.rxDataH, 0x46, k - 1); }
    SerialRxc.MaskBits();
  }

  lemma {:induction false} NotedAllBits(state: byte, mid: seq<Rxc>, k: nat)
    requires k < 8
    ensures Bit(NotedAll(state, mid), k) == (Bit(state, k) || AnyShows(mid, k))
    decreases |mid|
  {
    if mid != [] {
      var front, last := mid[..|mid| - 1], mid[|mid| - 1];
      NotedAllBits(state, front, k);
      NotedBits(NotedAll(state, front), last, k);
      hide Bit, Shows, Noted;
      AnyShowsMore(front, last, k);
      assert mid == front + [last];
    }
  }

  lemma AnyShowsMore(mid: seq<Rxc>, x: Rxc, k: nat)
    ensures AnyShows(mid + [x], k) <==> AnyShows(mid, k) || Shows(x, k)
  {
    hide Shows;
    var all := mid + [x];
    if AnyShows(mid, k) {
      var j :| 0 <= j < |mid| && Shows(mid[j], k);
      assert Shows(all[j], k);
    }
    if Shows(x, k) { assert Shows(all[|mid|], k); }
  }

  lemma LowBits(k: nat)
    ensures Bit(3, k) == (k < 2) && Bit(1, k) == (k == 0)
  {
    assert Pow2(2) == 4 && Pow2(0) == 1;
    BitOnes(2, k);
    BitPow2(0, k);
  }

  lemma AfterBits(state: byte, e: Event, k: nat)
    requires 2 <= k < 8
    ensures Bit(After(state, e), k) == (e != Reported && (Bit(state, k) || (e.Received? && Shows(e.x, k))))
  {
    LowBits(k);
    match e
    case Received(x) => NotedBits(state, x, k);
    case Written(_) => BitOr(state, 1, k);
    case Reported => BitAnd(state, 3, k);
  }

  lemma {:induction false} StateBits(start: byte, es: seq<Event>, k: nat)
    requires start < 4 && 2 <= k < 8
    ensures Bit(State(start, es), k) == Outside(es, k)
    decreases |es|
  {
    hide Bit, Shows, After;
    if es == [] {
      SmallStart(start, k);
    } else {
      StateBits(start, es[..|es| - 1], k);
      AfterBits(State(start, es[..|es| - 1]), es[|es| - 1], k);
    }
  }

  lemma SmallStart(start: byte, k: nat)
    requires start < 4 && 2 <= k
    ensures !Bit(start, k)
  {
    LowBits(k);
    BitAnd(start, 3, k);
    assert Pow2(2) == 4;
    AndMask(start, 2);
    DivUnique(start, 4, 0, start);
  }

  /** The two low bits: bit 0 is set once the port has been written to, bit 1 stays as begin left it. */
  lemma {:induction false} LowStateBits(start: byte, es: seq<Event>)
    requires start < 4
    ensures Bit(State(start, es), 0) == (Bit(start, 0) || exists e :: e in es && e.Written?)
    ensures Bit(State(start, es), 1) == Bit(start, 1)
    decreases |es|
  {
    if es != [] {
      var front, e := es[..|es| - 1], es[|es| - 1];
      LowStateBits(start, front);
      assert es == front + [e];
      AfterLowBits(State(start, front), e);
      hide Bit, After;
    }
  }

  lemma AfterLowBits(state: byte, e: Event)
    ensures Bit(After(state, e), 0) == (Bit(state, 0) || e.Written?) && Bit(After(state, e), 1) == Bit(state, 1)
  {
    LowBits(0);
    LowBits(1);
    match e
    case Received(x) => NotedBits(state, x, 0); NotedBits(state, x, 1);
    case Written(_) => BitOr(state, 1, 0); BitOr(state, 1, 1);
    case Reported => BitAnd(state, 3, 0); BitAnd(state, 3, 1);
  }

  /** Every error bit is clear after a report. */
  lemma NoneAfterReport(start: byte, es: seq<Event>, k: nat)
    requires start < 4 && 2 <= k < 8
    ensures !Bit(State(start, es + [Reported]), k)
  {
    StateBits(start, es + [Reported], k);
  }

  /** What an interrupted write loses: its store leaves a bit other than it would be had RXC run before the load, exactly
      if RXC found an error of this kind in between and none was on record. */
  lemma LostInWrite(state: byte, mid: seq<Rxc>, k: nat)
    requires 2 <= k < 8
    ensures Bit(After(state, Written(mid)), k) != Bit(After(NotedAll(state, mid), Written([])), k) <==> !Bit(state, k) && AnyShows(mid, k)
  {
    LowBits(k);
    BitOr(state, 1, k);
    BitOr(NotedAll(state, mid), 1, k);
    NotedAllBits(state, mid, k);
  }

  lemma AutobaudBits(ctrlb: byte, status: byte, k: nat)
    requires k < 8
    ensures Bit(Autobaud(ctrlb, status), k) ==
            (Bit(ctrlb, 2) && !Bit(ctrlb, 1) &&
             if k == 4 then !Bit(status, 1) else k == 5 && (Bit(status, 1) || Bit(status, 3)))
  {
    BitZero(k);
    BitPow2(4, k);
    BitPow2(5, k);
    assert Pow2(4) == 0x10 && Pow2(5) == 0x20;
    BadSyncBits(k);
  }

  lemma BadSyncBits(k: nat)
    requires k < 8
    ensures Bit(AUTOBAUD_BADSYNC, k) == (k == 4 || k == 5)
  {
    assert Byte([false, false, false, false, true, true, false, false]) == 0x30;
    BitOfByte([false, false, false, false, true, true, false, false], k);
  }

  /** getStatus reports an error exactly when one of its kind was received since the last report outside of the two
      accesses of write, and next to the errors the state of autobaud. */
  lemma ReportsWhatIsNew(start: byte, es: seq<Event>, ctrlb: byte, status: byte, k: nat)
    requires start < 4 && 2 <= k < 8
    ensures Bit(StatusCheck(ctrlb, status, State(start, es)), k) ==
            if IsError(k) then Outside(es, k) else Bit(Autobaud(ctrlb, status), k)
  {
    var s := State(start, es);
    StateBits(start, es, k);
    BitOr(s, Autobaud(ctrlb, status), k);
    AutobaudBits(ctrlb, status, k);
    if !IsError(k) { NothingElse(es, k); }
  }

  lemma {:induction false} NothingElse(es: seq<Event>, k: nat)
    requires k == 4 || k == 5
    ensures !Outside(es, k)
    decreases |es|
  {
    if es != [] { NothingElse(es[..|es| - 1], k); }
  }

  /** So the report is wrong about an error received since the last one exactly if all of its kind came inside of a write. */
  lemma ReportMisses(start: byte, es: seq<Event>, ctrlb: byte, status: byte, k: nat)
    requires start < 4 && IsError(k)
    ensures Bit(StatusCheck(ctrlb, status, State(start, es)), k) == SinceReport(es, k) <==> (Inside(es, k) ==> Outside(es, k))
  {
    hide Bit, Inside, Outside, State;
    ReportsWhatIsNew(start, es, ctrlb, status, k);
  }

  predicate Uninterrupted(es: seq<Event>) { forall e :: e in es && e.Written? ==> e.mid == [] }

  /** It is never wrong if no write is interrupted by RXC. */
  lemma {:induction false} NothingInside(es: seq<Event>, k: nat)
    requires Uninterrupted(es)
    ensures !Inside(es, k)
    decreases |es|
  {
    if es != [] {
      NothingInside(es[..|es| - 1], k);
      assert es[|es| - 1] in es;
    }
  }

  /** A port that has only been written to, its only error a parity error inside of that write: not reported. */
  lemma ParityErrorIsMissed(start: byte, ctrlb: byte, status: byte)
    requires start < 4
    ensures var es := [Written([Rxc(2, false)])];
            SinceReport(es, PARITY) && !Bit(StatusCheck(ctrlb, status, State(start, es)), PARITY)
  {
    var x := Rxc(2, false);
    var es := [Written([x])];
    ReportsWhatIsNew(start, es, ctrlb, status, PARITY);
    assert Bit(2, 1) && Shows([x][0], PARITY);
    assert es[..0] == [];
  }

  function Receptions(mid: seq<Rxc>): seq<Event> { if mid == [] then [] else Receptions(mid[..|mid| - 1]) + [Received(mid[|mid| - 1])] }

  /** getStatus reads `_state` for its answer and again to clear it. Errors that RXC notes in between are cleared with the
      others: of a kind that the answer does not show anyway, they are lost. */
  lemma {:induction false} ErrorsInBetween(es: seq<Event>, mid: seq<Rxc>, k: nat)
    ensures Outside(es + Receptions(mid), k) <==> Outside(es, k) || AnyShows(mid, k)
    ensures !SinceReport(es + Receptions(mid) + [Reported], k)
    decreases |mid|
  {
    if mid == [] {
      assert es + [] == es;
    } else {
      var front, last := mid[..|mid| - 1], mid[|mid| - 1];
      hide Shows;
      ErrorsInBetween(es, front, k);
      AnyShowsMore(front, last, k);
      var all := es + Receptions(mid);
      assert mid == front + [last] && all == es + Receptions(front) + [Received(last)];
      assert all[..|all| - 1] == es + Receptions(front);
    }
  }

  lemma FirstBitSet(x: byte)
    ensures Bit(OrByte(x, 1), 0) && forall k: nat :: 1 <= k < 8 ==> Bit(OrByte(x, 1), k) == Bit(x, k)
  {
    forall k: nat | k < 8
      ensures Bit(OrByte(x, 1), k) == (Bit(x, k) || k == 0)
    {
      BitOr(x, 1, k);
      LowBits(k);
    }
  }

  lemma LowBitsNoted(state: byte, mid: seq<Rxc>)
    ensures Bit(NotedAll(state, mid), 0) == Bit(state, 0) && Bit(NotedAll(state, mid), 1) == Bit(state, 1)
  {
    NotedAllBits(state, mid, 0);
    NotedAllBits(state, mid, 1);
  }

  lemma LowTwoKept(x: byte)
    ensures forall k: nat :: k < 8 ==> Bit(AndByte(x, 3), k) == (Bit(x, k) && k < 2)
  {
    forall k: nat | k < 8
      ensures Bit(AndByte(x, 3), k) == (Bit(x, k) && k < 2)
    {
      BitAnd(x, 3, k);
      LowBits(k);
    }
  }

  /** The two fields of a HardwareSerial and its USART that getStatus touches. */
  class Port {
    var state: byte
    /** ISFIF is bit 3 of STATUS. */
    var status: byte
    ghost const start: byte
    ghost var events: seq<Event>

    ghost predicate Valid()
      reads this
    {
      start < 4 && state == State(start, events)
    }

    /** After `begin`: bit 1 records half duplex. */
    constructor (half: bool, status: byte)
      ensures Valid() && events == [] && this.status == status && state == if half then 2 else 0
    {
      start := if half then 2 else 0;
      state := if half then 2 else 0;
      this.status := status;
      events := [];
    }

    /** RXC, once. */
    method Note(x: Rxc)
      modifies this`state
      ensures state == Noted(old(state), x)
    {
      var errors := OrByte(state, 2 * AndByte(x.rxDataH, 0x46));
      if !Bit(x.rxDataH, 1) && x.full { errors := OrByte(errors, 0x40); }
      state := errors;
    }

    /** RXC, any number of times. */
    method Interfere(mid: seq<Rxc>)
      modifies this`state
      ensures state == NotedAll(old(state), mid)
    {
      var k := 0;
      while k < |mid|
        invariant k <= |mid| && state == NotedAll(old(state), mid[..k])
      {
        Note(mid[k]);
        assert mid[..k + 1][..k] == mid[..k];
        k := k + 1;
      }
      assert mid[..|mid|] == mid;
    }

    /** `_state |= 1` of write, with RXC between its load and its store. */
    method RecordWrite(mid: seq<Rxc>)
      requires Valid()
      modifies this`state, this`events
      ensures Valid() && events == old(events) + [Written(mid)]
      ensures Bit(state, 0) && forall k: nat :: 1 <= k < 8 ==> Bit(state, k) == Bit(old(state), k)
    {
      var loaded := state;
      Interfere(mid);
      state := OrByte(loaded, 1);
      events := events + [Written(mid)];
      assert events[..|events| - 1] == old(events);
      FirstBitSet(loaded);
    }

    /** The read of `_state` for the answer, and the registers. */
    method Check(ctrlb: byte) returns (ret: byte)
      requires Valid()
      ensures forall k | 2 <= k < 8 :: Bit(ret, k) == if IsError(k) then Outside(events, k) else Bit(Autobaud(ctrlb, status), k)
    {
      ret := StatusCheck(ctrlb, status, state);
      forall k | 2 <= k < 8
        ensures Bit(ret, k) == if IsError(k) then Outside(events, k) else Bit(Autobaud(ctrlb, status), k)
      {
        ReportsWhatIsNew(start, events, ctrlb, status, k);
      }
    }

    /** `_state &= 0x03`. */
    method Clear()
      requires Valid()
      modifies this`state, this`events
      ensures Valid() && events == old(events) + [Reported]
      ensures forall k: nat :: k < 8 ==> Bit(state, k) == (Bit(old(state), k) && k < 2)
    {
      LowTwoKept(state);
      state := AndByte(state, 3);
      events := events + [Reported];
      assert events[..|events| - 1] == old(events);
    }

    /** Receptions between the accesses of the foreground program. */
    method Receive(mid: seq<Rxc>)
      requires Valid()
      modifies this`state, this`events
      ensures Valid() && events == old(events) + Receptions(mid) && state == NotedAll(old(state), mid)
    {
      ReceptionsNote(start, events, mid);
      Interfere(mid);
      events := events + Receptions(mid);
    }

    /** getStatus, with RXC between its two reads of `_state`. */
    method GetStatus(ctrlb: byte, mid: seq<Rxc>) returns (ret: byte)
      requires Valid()
      modifies this
      ensures Valid() && events == old(events) + Receptions(mid) + [Reported]
      ensures forall k | 2 <= k < 8 :: Bit(ret, k) == if IsError(k) then Outside(old(events), k) else Bit(Autobaud(ctrlb, old(status)), k)
      ensures status == if Bit(ret, 4) && Bit(ret, 5) then ClearBit(old(status), 3) else old(status)
      ensures forall k: nat :: k < 8 ==> Bit(state, k) == (Bit(old(state), k) && k < 2)
    {
      LowBitsNoted(state, mid);
      ret := Check(ctrlb);
      if Bit(ret, 4) && Bit(ret, 5) { status := ClearBit(status, 3); }
      Receive(mid);
      Clear();
    }
  }

  lemma {:induction false} ReceptionsNote(start: byte, es: seq<Event>, mid: seq<Rxc>)
    ensures State(start, es + Receptions(mid)) == NotedAll(State(start, es), mid)
    decreases |mid|
  {
    if mid == [] {
      assert es + [] == es;
    } else {
      var front, last := mid[..|mid| - 1], mid[|mid| - 1];
      ReceptionsNote(start, es, front);
      var all := es + Receptions(mid);
      assert all == es + Receptions(front) + [Received(last)];
      assert all[..|all| - 1] == es + Receptions(front);
    }
  }
}
