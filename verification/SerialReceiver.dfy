/** HardwareSerial, the receiving side: every access is a step of the machine of SerialRx, and between any two
    accesses the RXC interrupt may run any number of times. */
module SerialReceiver {
  import opened Bits
  import opened SerialRx
  import Ring

  class Receiver {
    const rxBuffer: array<byte>
    var rxHead: nat
    var rxTail: nat

    ghost const order: nat
    ghost var at: Fg
    ghost var answer: int
    ghost var stored: seq<byte>
    ghost var delivered: seq<byte>

    ghost function Abs(): Rx
      reads this, rxBuffer
    {
      Rx(rxBuffer[..], rxHead, rxTail, at, answer, stored, delivered)
    }

    ghost predicate Valid()
      reads this, rxBuffer
    {
      rxBuffer.Length == Pow2(order) && Inv(Abs())
    }

    ghost function Waiting(): seq<byte>
      requires HasRing(Abs())
      reads this, rxBuffer
    {
      Unread(Abs())
    }

    constructor (size: nat, ghost k: nat)
      requires size == Pow2(k) >= 2
      ensures Valid() && Start(Abs()) && fresh(rxBuffer) && rxBuffer.Length == size
    {
      order, at, answer, stored, delivered := k, Idle, 0, [], [];
      rxBuffer, rxHead, rxTail := new byte[size], 0, 0;
      new;
      Ring.ContentsLength(rxBuffer[..], rxHead, rxTail);
      assert delivered + Waiting() == [];
    }

    /** _rx_complete_irq. */
    method RxCompleteIrq(parityError: bool, c: byte)
      requires Valid()
      modifies this`rxHead, this`stored, rxBuffer
      ensures Valid() && Abs() == Step(old(Abs()), Rxc(parityError, c))
      ensures old(stored) <= stored && old(Waiting()) <= Waiting()
    {
      RxcAppends(Abs(), parityError, c);
      var head := rxHead;
      if !parityError {
        Ring.MaskIsNext(order, head);
        var i := And(head + 1, rxBuffer.Length - 1);
        if i != rxTail {
          rxBuffer[head] := c;
          rxHead := i;
          stored := stored + [c];
        }
      }
    }

    /** Any number of received frames, good, bad or too many. */
    method Interfere()
      requires Valid()
      modifies this`rxHead, this`stored, rxBuffer
      ensures Valid() && old(stored) <= stored && old(Waiting()) <= Waiting()
    {
      var n: nat := *;
      while n > 0
        invariant Valid() && old(stored) <= stored && old(Waiting()) <= Waiting()
      {
        var e: bool, c: byte := *, *;
        RxCompleteIrq(e, c);
        n := n - 1;
      }
    }

    /** The comparison of head and tail that begins read and peek: the answer is right for when the head is read. */
    method IsEmpty(peek: bool) returns (empty: bool)
      requires Valid() && at == Idle
      modifies this`rxHead, this`stored, this`at, this`answer, rxBuffer
      ensures Valid() && old(stored) <= stored && old(Waiting()) <= Waiting()
      ensures if empty then at == Idle && answer == -1 && old(Waiting()) == [] else at == LoadByte(rxTail, peek)
    {
      Ring.ContentsLength(rxBuffer[..], rxHead, rxTail);
      StepKeeps(Abs(), if peek then Action.Peek else Action.Read);
      var head := rxHead;
      at := CompareTail(head, peek);
      Interfere();
      StepKeeps(Abs(), Go);
      empty := head == rxTail;
      if empty { at, answer := Idle, -1; } else { at := LoadByte(rxTail, peek); }
    }

    /** read: the first byte that was waiting if one was, and it is delivered; -1 only if none was waiting at the call. */
    method Read() returns (r: int)
      requires Valid() && at == Idle
      modifies this`rxHead, this`rxTail, this`stored, this`delivered, this`at, this`answer, rxBuffer
      ensures Valid() && at == Idle && old(stored) <= stored
      ensures if r == -1 then old(Waiting()) == [] && delivered == old(delivered)
              else |old(delivered)| < |stored| && r == stored[|old(delivered)|] && delivered == old(delivered) + [stored[|old(delivered)|]]
      ensures old(Waiting()) != [] ==> r == old(Waiting())[0]
    {
      var empty := IsEmpty(false);
      if empty { return -1; }
      r := Deliver();
    }

    /** `c = _rx_buffer[_rx_buffer_tail]`, then the new tail is computed, then stored. */
    method Deliver() returns (c: byte)
      requires Valid() && at == LoadByte(rxTail, false)
      modifies this`rxHead, this`rxTail, this`stored, this`delivered, this`at, this`answer, rxBuffer
      ensures Valid() && at == Idle && old(stored) <= stored
      ensures old(Waiting()) != [] && c == old(Waiting())[0] && delivered == old(delivered) + [c]
    {
      c := Load();
      Interfere();
      var tail := NextTail(c);
      Interfere();
      SetTail(tail, c);
    }

    method Load() returns (c: byte)
      requires Valid() && at == LoadByte(rxTail, false)
      modifies this`at
      ensures Valid() && at == Advance(c) && Waiting() == old(Waiting()) != [] && c == Waiting()[0]
    {
      Ring.ContentsLength(rxBuffer[..], rxHead, rxTail);
      Ring.Pop(rxBuffer[..], rxHead, rxTail);
      StepKeeps(Abs(), Go);
      c := rxBuffer[rxTail];
      at := Advance(c);
    }

    method NextTail(c: byte) returns (tail: nat)
      requires Valid() && at == Advance(c)
      modifies this`at
      ensures Valid() && at == StoreTail(tail, c) && Abs() == Step(old(Abs()), Go)
    {
      StepKeeps(Abs(), Go);
      Ring.MaskIsNext(order, rxTail);
      tail := And(rxTail + 1, rxBuffer.Length - 1);
      at := StoreTail(tail, c);
    }

    method SetTail(tail: nat, c: byte)
      requires Valid() && at == StoreTail(tail, c)
      modifies this`rxTail, this`delivered, this`at, this`answer
      ensures Valid() && at == Idle && Abs() == Step(old(Abs()), Go) && delivered == old(delivered) + [c]
    {
      StepKeeps(Abs(), Go);
      rxTail := tail;
      at, answer, delivered := Idle, c, delivered + [c];
    }

    /** peek: as read, but nothing is delivered. */
    method Peek() returns (r: int)
      requires Valid() && at == Idle
      modifies this`rxHead, this`stored, this`at, this`answer, rxBuffer
      ensures Valid() && at == Idle && old(stored) <= stored && old(Waiting()) <= Waiting()
      ensures if r == -1 then old(Waiting()) == [] else Waiting() != [] && r == Waiting()[0]
    {
      var empty := IsEmpty(true);
      if empty { return -1; }
      Interfere();
      Ring.ContentsLength(rxBuffer[..], rxHead, rxTail);
      Ring.Pop(rxBuffer[..], rxHead, rxTail);
      StepKeeps(Abs(), Go);
      r := rxBuffer[rxTail];
      at, answer := Idle, r;
    }

    /** available: the number of bytes waiting at some moment during the call. */
    method Available() returns (n: nat)
      requires Valid() && at == Idle
      modifies this`rxHead, this`stored, rxBuffer
      ensures Valid() && |old(Waiting())| <= n <= |Waiting()|
    {
      Interfere();
      CountOf(rxBuffer[..], rxHead, rxTail, order);
      var x := rxBuffer.Length + rxHead;
      Interfere();
      n := And(x - rxTail, rxBuffer.Length - 1);
    }
  }
}
