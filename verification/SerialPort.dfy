/** HardwareSerial, the transmitting side, with the interrupts that may run between any two of its accesses.

    Every access and every interrupt is a step of the protocol machine of SerialTx, so what is proved of the
    runs of that machine holds of the object. */
module SerialPort {
  import opened Bits
  import opened SerialTx
  import Ring

  class HardwareSerial {
    var usart: Usart
    var half: bool
    const txBuffer: array<byte>
    var txHead: nat
    var txTail: nat
    var written: bool
    /** Interrupts are enabled and no handler is running. */
    var irq: bool
    /** Where the foreground program is. */
    var at: Fg

    ghost const order: nat
    ghost var asked: seq<byte>
    ghost var accepted: seq<byte>
    ghost var heard: seq<Frame>

    ghost function Abs(): Tx
      reads this, txBuffer
    {
      Tx(usart, half, txBuffer[..], txHead, txTail, written, irq, at, asked, accepted, heard)
    }

    ghost predicate Valid()
      reads this, txBuffer
    {
      txBuffer.Length == Pow2(order) && Inv(Abs())
    }

    constructor (size: nat, ghost k: nat, frame: nat)
      requires size == Pow2(k) >= 2 && frame > 0
      ensures Valid() && Start(Abs()) && fresh(txBuffer) && txBuffer.Length == size
    {
      usart := Usart([], [], 0, frame, false, false, false, false, [], []);
      half, written, irq, at := false, false, true, Closed;
      asked, accepted, heard := [], [], [];
      order := k;
      txBuffer, txHead, txTail := new byte[size], 0, 0;
      new;
      StartKeeps(Abs());
    }

    // Interrupts and hardware.

    /** _tx_data_empty_irq. */
    method TxDataEmptyIrq()
      requires txBuffer.Length == Pow2(order) && HasRing(Abs())
      modifies this`usart, this`txTail
      ensures Abs() == DreIrq(old(Abs()))
      ensures txTail == Ring.Next(txBuffer.Length, old(txTail))
      ensures usart == old(usart).(txcif := false, dr := [txBuffer[old(txTail)]], dreie := old(usart).dreie && txHead != txTail)
    {
      var tail := txTail;
      var c := txBuffer[tail];
      usart := usart.(txcif := false);
      usart := Load(usart, c);
      Ring.MaskIsNext(order, tail);
      tail := And(tail + 1, txBuffer.Length - 1);
      if txHead == tail { usart := usart.(dreie := false); }
      txTail := tail;
    }

    /** _poll_tx_data_empty. */
    method PollTxDataEmpty()
      requires txBuffer.Length == Pow2(order) && HasRing(Abs())
      modifies this`usart, this`txTail
      ensures Abs() == Poll(old(Abs()))
      ensures irq || old(usart).dr != [] ==> usart == old(usart) && txTail == old(txTail)
      ensures !irq && old(usart).dr == [] && txHead == old(txTail) ==> usart == old(usart).(dreie := false) && txTail == old(txTail)
      ensures !irq && old(usart).dr == [] && txHead != old(txTail) ==> usart.dr == [txBuffer[old(txTail)]] && txTail == Ring.Next(txBuffer.Length, old(txTail))
    {
      if !irq {
        if usart.dr == [] {
          if txHead == txTail {
            usart := usart.(dreie := false);
            return;
          }
          TxDataEmptyIrq();
        }
      }
    }

    /** The transmit-complete handler. */
    method TransmitComplete()
      requires HasRing(Abs())
      modifies this`usart
      ensures Abs() == TxcIrq(old(Abs()))
      ensures usart == old(usart).(fifo := [], rxcie := true, txcie := false)
    {
      while usart.fifo != []
        invariant usart == old(usart).(fifo := usart.fifo)
        decreases |usart.fifo|
      {
        usart := usart.(fifo := usart.fifo[1..]);
      }
      usart := usart.(rxcie := true, txcie := false);
    }

    /** What may happen now, and in time. */
    predicate Possible(a: Action)
      reads this
    {
      match a
      case Tick => !(Starting(at) && Completes(usart))
      case Dre => irq && usart.dreie && usart.dr == [] && (InWindow(at) ==> txHead != Ring.Next(txBuffer.Length, txTail))
      case Txc => irq && usart.txcie && usart.txcif && !(usart.dreie && usart.dr == []) && !(usart.rxcie && usart.fifo != [])
      case Rxc => irq && usart.rxcie && usart.fifo != []
      case Arrive(_) => at != Closed
      case _ => false
    }

    lemma PossibleIsTimely(a: Action)
      requires Valid() && Possible(a)
      ensures Timely(Abs(), a)
    {
      Ring.ContentsLength(txBuffer[..], txHead, txTail);
    }

    /** One event: an interrupt handler from beginning to end, or a step of the hardware. */
    method Happens(a: Action)
      requires HasRing(Abs()) && txBuffer.Length == Pow2(order) && Possible(a)
      modifies this`usart, this`txTail, this`heard
      ensures Abs() == Step(old(Abs()), a)
      ensures a == Rxc ==> heard + usart.fifo == old(heard) + old(usart).fifo && |heard| == |old(heard)| + 1
    {
      if a == Rxc { FramesAreTaken(Abs(), a); }
      match a
      case Tick => usart := Clock(usart, half);
      case Dre => TxDataEmptyIrq();
      case Txc => TransmitComplete();
      case Rxc =>
        heard := heard + [usart.fifo[0]];
        usart := usart.(fifo := usart.fifo[1..]);
      case Arrive(b) => usart := usart.(fifo := Received(usart.fifo, Ext(b)));
    }

    predicate IsWaiting()
      reads this
    {
      at.TestFull? || at.FullPoll? || Flushing(at)
    }

    ghost function Left(): nat
      requires HasRing(Abs())
      reads this, txBuffer
    {
      Work(Abs())
    }

    /** The free places of the ring. */
    ghost function Room(): int
      requires HasRing(Abs())
      reads this, txBuffer
    {
      txBuffer.Length - 1 - |Waiting(Abs())|
    }

    /** Anything that may happen between two accesses, any number of times. While the program waits, it never adds work. */
    method Interfere()
      requires Valid()
      modifies this`usart, this`txTail, this`heard
      ensures Valid() && Room() >= old(Room()) && (IsWaiting() ==> Left() <= old(Left()))
    {
      var n: nat := *;
      while n > 0
        invariant Valid() && Room() >= old(Room()) && (IsWaiting() ==> Left() <= old(Left()))
      {
        var a: Action := *;
        if Possible(a) { HappensInTime(a); }
        n := n - 1;
      }
    }

    method HappensInTime(a: Action)
      requires Valid() && Possible(a)
      modifies this`usart, this`txTail, this`heard
      ensures Valid() && Abs() == Step(old(Abs()), a) && Room() >= old(Room()) && (IsWaiting() ==> Left() <= old(Left()))
    {
      PossibleIsTimely(a);
      hide Inv;
      StepKeeps(Abs(), a);
      EventsOnlyTake(Abs(), a);
      if IsWaiting() { WaitingNeverLosesGround(Abs(), a); }
      Happens(a);
    }

    // The accesses of write.

    method Take(c: byte)
      requires Valid() && at == Idle
      modifies this`written, this`asked, this`at
      ensures Valid() && Abs() == Step(old(Abs()), Action.Write(c)) && at == TestEmpty(c)
      ensures written && asked == old(asked) + [c]
    {
      hide Inv;
      StepKeeps(Abs(), Action.Write(c));
      written, asked, at := true, asked + [c], TestEmpty(c);
    }

    method IsRingEmpty(c: byte) returns (empty: bool)
      requires Valid() && at == TestEmpty(c)
      modifies this`at
      ensures Valid() && Abs() == Step(old(Abs()), Go) && at == if empty then TestDreif(c) else TestFull(c)
      ensures empty == (txHead == txTail)
    {
      hide Inv;
      StepKeeps(Abs(), Go);
      empty := txHead == txTail;
      at := if empty then TestDreif(c) else TestFull(c);
    }

    method IsRegisterEmpty(c: byte) returns (empty: bool)
      requires Valid() && at == TestDreif(c)
      modifies this`at
      ensures Valid() && Abs() == Step(old(Abs()), Go)
      ensures at == if !empty then TestFull(c) else if half then FastRead(c) else FastClear(c, false)
      ensures empty == (usart.dr == [])
    {
      StepKeeps(Abs(), Go);
      empty := usart.dr == [];
      at := if !empty then TestFull(c) else if half then FastRead(c) else FastClear(c, false);
    }

    method ReadCtrla(c: byte) returns (dreie: bool)
      requires Valid() && at == FastRead(c)
      modifies this`at
      ensures Valid() && Abs() == Step(old(Abs()), Go) && at == FastClear(c, dreie)
      ensures dreie == usart.dreie
    {
      hide Inv;
      StepKeeps(Abs(), Go);
      dreie := usart.dreie;
      at := FastClear(c, dreie);
    }

    method ClearTxcif(c: byte, dreie: bool)
      requires Valid() && at == FastClear(c, dreie)
      modifies this`usart, this`at
      ensures Valid() && Abs() == Step(old(Abs()), Go) && at == if half then FastCtrla(c, dreie) else FastStore(c)
      ensures usart == old(usart).(txcif := false)
    {
      hide Inv;
      StepKeeps(Abs(), Go);
      usart := usart.(txcif := false);
      at := if half then FastCtrla(c, dreie) else FastStore(c);
    }

    method SwitchToSending(c: byte, dreie: bool)
      requires Valid() && at == FastCtrla(c, dreie)
      modifies this`usart, this`at
      ensures Valid() && Abs() == Step(old(Abs()), Go) && at == FastStore(c)
      ensures usart == old(usart).(rxcie := false, txcie := true, dreie := dreie)
    {
      hide Inv;
      StepKeeps(Abs(), Go);
      usart := usart.(rxcie := false, txcie := true, dreie := dreie);
      at := FastStore(c);
    }

    method StoreData(c: byte)
      requires Valid() && at == FastStore(c)
      modifies this`usart, this`accepted, this`at
      ensures Valid() && Abs() == Step(old(Abs()), Go) && at == Idle && accepted == asked
      ensures usart == old(usart).(dr := [c])
    {
      hide Inv;
      StepKeeps(Abs(), Go);
      usart := Load(usart, c);
      accepted, at := accepted + [c], Idle;
      IdleMeansAccepted(Abs());
    }

    method IsRingFull(c: byte, i: nat) returns (full: bool)
      requires Valid() && at == TestFull(c) && i == Ring.Next(txBuffer.Length, txHead)
      modifies this`at
      ensures Valid() && Abs() == Step(old(Abs()), Go) && at == (if full then FullPoll(c) else Put(c))
      ensures Left() == old(Left()) && (full ==> Left() > 0)
      ensures full == (i == txTail)
    {
      hide Inv;
      StepKeeps(Abs(), Go);
      NoWorkMeansAllSent(Abs());
      full := i == txTail;
      at := if full then FullPoll(c) else Put(c);
    }

    method PollForRoom(c: byte)
      requires Valid() && at == FullPoll(c)
      modifies this`usart, this`txTail, this`at
      ensures Valid() && Abs() == Step(old(Abs()), Go) && at == TestFull(c)
      ensures Left() <= old(Left()) && (irq || usart.dr != [] || txHead == txTail)
    {
      PollGoesOn(Abs());
      PollTxDataEmpty();
      at := TestFull(c);
    }

    method PutIntoRing(c: byte)
      requires Valid() && at == Put(c)
      modifies this`at, txBuffer
      ensures Valid() && Abs() == Step(old(Abs()), Go) && at == Publish(c)
      ensures txBuffer[..] == old(txBuffer[..])[txHead := c]
    {
      hide Inv;
      StepKeeps(Abs(), Go);
      txBuffer[txHead] := c;
      at := Publish(c);
    }

    method AdvanceHead(c: byte, i: nat)
      requires Valid() && at == Publish(c) && i == Ring.Next(txBuffer.Length, txHead)
      modifies this`txHead, this`accepted, this`at
      ensures Valid() && Abs() == Step(old(Abs()), Go) && at == if half then RingClear else SetDreie
      ensures txHead == i && accepted == old(accepted) + [c]
    {
      hide Inv;
      StepKeeps(Abs(), Go);
      txHead := i;
      accepted, at := accepted + [c], if half then RingClear else SetDreie;
    }

    method EnableDre()
      requires Valid() && at == SetDreie
      modifies this`usart, this`at
      ensures Valid() && Abs() == Step(old(Abs()), Go) && at == Idle
      ensures usart == old(usart).(dreie := true)
    {
      hide Inv;
      StepKeeps(Abs(), Go);
      usart := usart.(dreie := true);
      at := Idle;
    }

    method ClearTxcifAgain()
      requires Valid() && at == RingClear
      modifies this`usart, this`at
      ensures Valid() && Abs() == Step(old(Abs()), Go) && at == RingCtrla
      ensures usart == old(usart).(txcif := false)
    {
      hide Inv;
      StepKeeps(Abs(), Go);
      usart := usart.(txcif := false);
      at := RingCtrla;
    }

    method SwitchAndEnableDre()
      requires Valid() && at == RingCtrla
      modifies this`usart, this`at
      ensures Valid() && Abs() == Step(old(Abs()), Go) && at == Idle
      ensures usart == old(usart).(rxcie := false, txcie := true, dreie := true)
    {
      hide Inv;
      StepKeeps(Abs(), Go);
      usart := usart.(rxcie := false, txcie := true, dreie := true);
      at := Idle;
    }

    /** `write`: returns once the byte is in the data register or in the ring, whatever happens between its accesses. */
    method Write(c: byte)
      requires Valid() && at == Idle
      modifies this`usart, this`txHead, this`txTail, this`written, this`at, this`asked, this`accepted, this`heard, txBuffer
      ensures Valid() && at == Idle && written && asked == old(asked) + [c] && accepted == asked
    {
      hide Inv;
      Take(c);
      Interfere();
      var empty := NothingWaits(c);
      Interfere();
      if empty { StoreAtOnce(c); } else { StoreInRing(c); }
    }

    /** The condition of the short cut: the ring is empty, and then the data register is. */
    method NothingWaits(c: byte) returns (empty: bool)
      requires Valid() && at == TestEmpty(c)
      modifies this`usart, this`txTail, this`at, this`heard
      ensures Valid() && at == if !empty then TestFull(c) else if half then FastRead(c) else FastClear(c, false)
    {
      empty := IsRingEmpty(c);
      if empty {
        Interfere();
        empty := IsRegisterEmpty(c);
      }
    }

    method StoreAtOnce(c: byte)
      requires Valid() && at == if half then FastRead(c) else FastClear(c, false)
      modifies this`usart, this`txTail, this`at, this`accepted, this`heard
      ensures Valid() && at == Idle && accepted == asked
    {
      hide Inv;
      if half {
        var ctrla := ReadCtrla(c);
        Interfere();
        ClearTxcif(c, ctrla);
        Interfere();
        SwitchToSending(c, ctrla);
      } else {
        ClearTxcif(c, false);
      }
      Interfere();
      StoreData(c);
    }

    method StoreInRing(c: byte)
      requires Valid() && at == TestFull(c)
      modifies this`usart, this`txHead, this`txTail, this`at, this`accepted, this`heard, txBuffer
      ensures Valid() && at == Idle && accepted == asked
    {
      Ring.MaskIsNext(order, txHead);
      var i := And(txHead + 1, txBuffer.Length - 1);
      AwaitRoom(c, i);
      Interfere();
      Enqueue(c, i);
    }

    method Enqueue(c: byte, i: nat)
      requires Valid() && at == Put(c) && i == Ring.Next(txBuffer.Length, txHead)
      modifies this`usart, this`txHead, this`txTail, this`at, this`accepted, this`heard, txBuffer
      ensures Valid() && at == Idle && accepted == asked
    {
      hide Inv;
      PutIntoRing(c);
      Interfere();
      AdvanceHead(c, i);
      Interfere();
      EnableSending();
      IdleMeansAccepted(Abs());
    }

    method EnableSending()
      requires Valid() && at == if half then RingClear else SetDreie
      modifies this`usart, this`txTail, this`at, this`heard
      ensures Valid() && at == Idle
    {
      if half {
        ClearTxcifAgain();
        Interfere();
        SwitchAndEnableDre();
      } else {
        EnableDre();
      }
    }

    /** What a wait loop assumes of time: in each turn a DRE interrupt that can run does, or else a clock goes by. */
    method TimePasses()
      requires Valid() && IsWaiting() && (irq || usart.dr != [] || txHead == txTail)
      modifies this`usart, this`txTail, this`heard
      ensures Valid() && (Left() < old(Left()) || Left() == 0)
    {
      if Left() > 0 { WaitingCanAlwaysGoOn(Abs()); }
      if Possible(Dre) { HappensInTime(Dre); } else { HappensInTime(Tick); }
    }

    /** One turn of `while (i == _tx_buffer_tail)`. */
    method WaitForRoom(c: byte)
      requires Valid() && at == FullPoll(c)
      modifies this`usart, this`txTail, this`at, this`heard
      ensures Valid() && at == TestFull(c) && (Left() < old(Left()) || Left() == 0)
    {
      Interfere();
      PollForRoom(c);
      TimePasses();
      Interfere();
    }

    /** The loop ends, with interrupts enabled or not. */
    method AwaitRoom(c: byte, i: nat)
      requires Valid() && at == TestFull(c) && i == Ring.Next(txBuffer.Length, txHead)
      modifies this`usart, this`txTail, this`at, this`heard
      ensures Valid() && at == Put(c)
    {
      var full := IsRingFull(c, i);
      while full
        invariant Valid() && if full then at == FullPoll(c) && Left() > 0 else at == Put(c)
        decreases Left()
      {
        WaitForRoom(c);
        full := IsRingFull(c, i);
      }
    }

    // flush and end.

    method CallFlush(end: bool)
      requires Valid() && at == Idle
      modifies this`at
      ensures Valid() && Abs() == Step(old(Abs()), if end then Action.End else Action.Flush) && at == TestWritten(end)
    {
      hide Inv;
      StepKeeps(Abs(), if end then Action.End else Action.Flush);
      at := TestWritten(end);
    }

    method WasWritten(end: bool) returns (yes: bool)
      requires Valid() && at == TestWritten(end)
      modifies this`at
      ensures Valid() && Abs() == Step(old(Abs()), Go)
      ensures if yes then at == TestDreie(end) else at == (if end then Disable else Idle) && usart.wire == asked
      ensures yes == written
    {
      hide Inv;
      StepKeeps(Abs(), Go);
      if !written { LeavingMeansSent(Abs()); }
      yes := written;
      at := if yes then TestDreie(end) else if end then Disable else Idle;
    }

    method IsDreOn(end: bool) returns (on: bool)
      requires Valid() && at == TestDreie(end)
      modifies this`at
      ensures Valid() && Abs() == Step(old(Abs()), Go) && at == (if on then FlushPoll(end) else TestTxcif(end))
      ensures Left() == old(Left()) && (on ==> Left() > 0)
      ensures on == usart.dreie
    {
      hide Inv;
      StepKeeps(Abs(), Go);
      TestsFindWork(Abs());
      on := usart.dreie;
      at := if on then FlushPoll(end) else TestTxcif(end);
    }

    method IsTransmitComplete(end: bool) returns (yes: bool)
      requires Valid() && at == TestTxcif(end)
      modifies this`at
      ensures Valid() && Abs() == Step(old(Abs()), Go)
      ensures if yes then at == (if end then Disable else Idle) && usart.wire == asked else at == FlushPoll(end)
      ensures Left() == old(Left()) && (!yes ==> Left() > 0)
      ensures yes == usart.txcif
    {
      hide Inv;
      StepKeeps(Abs(), Go);
      TestsFindWork(Abs());
      if usart.txcif { LeavingMeansSent(Abs()); }
      yes := usart.txcif;
      at := if !yes then FlushPoll(end) else if end then Disable else Idle;
    }

    method PollInFlush(end: bool)
      requires Valid() && at == FlushPoll(end)
      modifies this`usart, this`txTail, this`at
      ensures Valid() && Abs() == Step(old(Abs()), Go) && at == TestDreie(end)
      ensures Left() <= old(Left()) && (irq || usart.dr != [] || txHead == txTail)
    {
      PollGoesOn(Abs());
      PollTxDataEmpty();
      at := TestDreie(end);
    }

    /** The condition of the loop of flush: DREIE on, or TXCIF off. */
    method IsSending(end: bool) returns (yes: bool)
      requires Valid() && at == TestDreie(end)
      modifies this`usart, this`txTail, this`at, this`heard
      ensures Valid() && Left() <= old(Left())
      ensures if yes then at == FlushPoll(end) && old(Left()) > 0 else at == (if end then Disable else Idle) && usart.wire == asked
    {
      yes := IsDreOn(end);
      if !yes {
        Interfere();
        var sent := IsTransmitComplete(end);
        yes := !sent;
      }
    }

    /** The body of the loop. */
    method WaitForSending(end: bool)
      requires Valid() && at == FlushPoll(end)
      modifies this`usart, this`txTail, this`at, this`heard
      ensures Valid() && at == TestDreie(end) && (Left() < old(Left()) || Left() == 0)
    {
      Interfere();
      PollInFlush(end);
      TimePasses();
      Interfere();
    }

    /** Returns, with interrupts enabled or not, and then every byte ever written is on the wire. */
    method FlushAll(end: bool)
      requires Valid() && at == Idle
      modifies this`usart, this`txTail, this`at, this`heard
      ensures Valid() && at == (if end then Disable else Idle) && usart.wire == asked
    {
      CallFlush(end);
      Interfere();
      var yes := WasWritten(end);
      if yes {
        Interfere();
        FlushWritten(end);
      }
    }

    method FlushWritten(end: bool)
      requires Valid() && at == TestDreie(end)
      modifies this`usart, this`txTail, this`at, this`heard
      ensures Valid() && at == (if end then Disable else Idle) && usart.wire == asked
    {
      var sending := true;
      while sending
        invariant Valid()
        invariant if sending then at == TestDreie(end) else at == (if end then Disable else Idle) && usart.wire == asked
        decreases if sending then 1 else 0, Left()
      {
        sending := IsSending(end);
        if sending { WaitForSending(end); }
      }
    }

    method Flush()
      requires Valid() && at == Idle
      modifies this`usart, this`txTail, this`at, this`heard
      ensures Valid() && at == Idle && usart.wire == asked
    {
      FlushAll(false);
    }

    /** `end`: everything written leaves before the USART is disabled. */
    method End()
      requires Valid() && at == Idle
      modifies this`usart, this`txTail, this`written, this`at, this`heard
      ensures Valid() && at == Closed && usart.wire == asked
      ensures !written && !usart.rxcie && !usart.txcie && !usart.dreie
    {
      FlushAll(true);
      DisableUsart();
    }

    /** The step at Disable, spelled out. */
    method DisableUsart()
      requires Valid() && at == Disable
      modifies this`usart, this`written, this`at
      ensures Valid() && at == Closed && !written
      ensures usart == old(usart).(dreie := false, txcie := false, rxcie := false, txcif := false, fifo := [])
    {
      hide Inv;
      DisableKeeps(Abs());
      usart := usart.(dreie := false, txcie := false, rxcie := false, txcif := false, fifo := []);
      written, at := false, Closed;
    }

    /** `begin` on a port that is closed. */
    method Begin(halfDuplex: bool)
      requires Valid() && at == Closed
      modifies this`usart, this`half, this`at, this`asked, this`accepted, this`heard
      ensures Valid() && Abs() == Step(old(Abs()), Action.Begin(halfDuplex)) && at == Idle
      ensures usart == old(usart).(rxcie := true, fifo := [], wire := []) && half == halfDuplex && asked == accepted == [] && heard == []
    {
      hide Inv;
      StepKeeps(Abs(), Action.Begin(halfDuplex));
      usart := usart.(rxcie := true, fifo := [], wire := []);
      half, at := halfDuplex, Idle;
      asked, accepted, heard := [], [], [];
    }

    /** The program's own cli() and sei(), between its calls: with interrupts off the polls do the sending. */
    method SetInterrupts(on: bool)
      requires Valid() && at == Idle
      modifies this`irq
      ensures Valid() && Abs() == Step(old(Abs()), Interrupts(on)) && irq == on
    {
      hide Inv;
      StepKeeps(Abs(), Interrupts(on));
      irq := on;
    }

    /** availableForWrite: the room left in the ring at some moment during the call, for DRE may run between the two reads. */
    method AvailableForWrite() returns (n: int)
      requires Valid()
      modifies this`usart, this`txTail, this`heard
      ensures Valid() && 0 <= old(Room()) <= n <= Room()
    {
      Ring.ContentsLength(txBuffer[..], txHead, txTail);
      Interfere();
      var head := txHead;
      Interfere();
      var tail := txTail;
      n := if head >= tail then txBuffer.Length - 1 - head + tail else tail - head - 1;
      RoomIs(n);
      Interfere();
    }

    lemma RoomIs(n: int)
      requires Valid() && n == if txHead >= txTail then txBuffer.Length - 1 - txHead + txTail else txTail - txHead - 1
      ensures n == Room()
    {
    }
  }
}
