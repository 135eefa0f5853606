/** The receiving half of HardwareSerial: read, peek and available in the foreground, the RXC interrupt
    between any two of their accesses. */
module SerialRx {
  import opened Bits
  import Ring

  /** Where the foreground program is: the access it makes next. Indices are read one by one. */
  datatype Fg =
    | Idle
    | CompareTail(head: nat, peek: bool)
    | LoadByte(tail: nat, peek: bool)
    | Advance(c: byte)
    | StoreTail(tail: nat, c: byte)

  /** `stored` is what RXC has put into the ring, `delivered` what read has returned, both since the start. */
  datatype Rx = Rx(buf: seq<byte>, head: nat, tail: nat, fg: Fg, answer: int, stored: seq<byte>, delivered: seq<byte>)

  datatype Action = Rxc(parityError: bool, c: byte) | Read | Peek | Go

  predicate HasRing(s: Rx) { Ring.IsRing(s.buf, s.head, s.tail) }

  function Unread(s: Rx): seq<byte>
    requires HasRing(s)
  {
    Ring.Contents(s.buf, s.head, s.tail)
  }

  /** _rx_complete_irq: a byte without parity error is stored unless the head would meet the tail. */
  function RxcIrq(s: Rx, parityError: bool, c: byte): (t: Rx)
    requires HasRing(s)
    ensures HasRing(t) && |t.buf| == |s.buf|
  {
    var i := Ring.Next(|s.buf|, s.head);
    if parityError || i == s.tail then s
    else s.(buf := s.buf[s.head := c], head := i, stored := s.stored + [c])
  }

  /** The next access of the foreground program. */
  function GoOn(s: Rx): (t: Rx)
    requires HasRing(s)
    ensures HasRing(t) && |t.buf| == |s.buf|
  {
    match s.fg
    case Idle => s
    case CompareTail(head, peek) =>
      if head == s.tail then s.(fg := Idle, answer := -1) else s.(fg := LoadByte(s.tail, peek))
    case LoadByte(tail, peek) =>
      if tail >= |s.buf| then s
      else if peek then s.(fg := Idle, answer := s.buf[tail])
      else s.(fg := Advance(s.buf[tail]))
    case Advance(c) => s.(fg := StoreTail(Ring.Next(|s.buf|, s.tail), c))
    case StoreTail(tail, c) =>
      if tail >= |s.buf| then s
      else s.(tail := tail, fg := Idle, answer := c, delivered := s.delivered + [c])
  }

  function Step(s: Rx, a: Action): (t: Rx)
    requires HasRing(s)
    ensures HasRing(t) && |t.buf| == |s.buf|
  {
    match a
    case Rxc(e, c) => RxcIrq(s, e, c)
    case Read => if s.fg == Idle then s.(fg := CompareTail(s.head, false)) else s
    case Peek => if s.fg == Idle then s.(fg := CompareTail(s.head, true)) else s
    case Go => GoOn(s)
  }

  function Run(s: Rx, run: seq<Action>): (t: Rx)
    requires HasRing(s)
    ensures HasRing(t) && |t.buf| == |s.buf|
  {
    if run == [] then s else Step(Run(s, run[..|run| - 1]), run[|run| - 1])
  }

  predicate Start(s: Rx) { HasRing(s) && s.head == s.tail && s.fg == Idle && s.stored == s.delivered == [] }

  /** First in, first out, nothing lost on the way. */
  predicate Fifo(s: Rx)
    requires HasRing(s)
  {
    s.stored == s.delivered + Unread(s)
  }

  /** What the foreground program knows: between its accesses the first unread byte stays where it is. */
  predicate Knows(s: Rx)
    requires HasRing(s)
  {
    match s.fg
    case Idle => true
    case CompareTail(head, _) => head < |s.buf| && (head != s.tail ==> Unread(s) != [])
    case LoadByte(tail, _) => tail == s.tail && Unread(s) != []
    case Advance(c) => Unread(s) != [] && c == s.buf[s.tail]
    case StoreTail(tail, c) => Unread(s) != [] && c == s.buf[s.tail] && tail == Ring.Next(|s.buf|, s.tail)
  }

  predicate Inv(s: Rx) { HasRing(s) && Fifo(s) && Knows(s) }

  /** RXC stores exactly the bytes without parity error that find fewer than SIZE - 1 unread ones, at the end of
      them, and touches no slot that holds an unread byte. */
  lemma RxcAppends(s: Rx, e: bool, c: byte)
    requires Inv(s)
    ensures var t := RxcIrq(s, e, c); var room := |Unread(s)| < |s.buf| - 1;
            && Inv(t) && Unread(t) == (if !e && room then Unread(s) + [c] else Unread(s))
            && t.stored == (if !e && room then s.stored + [c] else s.stored)
            && (Unread(s) != [] ==> t.buf[t.tail] == s.buf[s.tail])
  {
    Ring.ContentsLength(s.buf, s.head, s.tail);
    if Ring.Next(|s.buf|, s.head) != s.tail {
      Ring.Push(s.buf, s.head, s.tail, c);
      assert s.delivered + Unread(s) + [c] == s.delivered + (Unread(s) + [c]);
    }
    if Unread(s) != [] { Ring.Pop(s.buf, s.head, s.tail); }
  }

  lemma TailKeeps(s: Rx)
    requires Inv(s) && s.fg.StoreTail?
    ensures Inv(GoOn(s))
  {
    Ring.ContentsLength(s.buf, s.head, s.tail);
    Ring.Pop(s.buf, s.head, s.tail);
    var t := GoOn(s);
    assert Unread(s) == [s.fg.c] + Unread(t);
    assert s.delivered + ([s.fg.c] + Unread(t)) == s.delivered + [s.fg.c] + Unread(t);
  }

  lemma GoKeeps(s: Rx)
    requires Inv(s)
    ensures Inv(GoOn(s))
  {
    if s.fg.StoreTail? {
      TailKeeps(s);
    } else {
      Ring.ContentsLength(s.buf, s.head, s.tail);
      assert Unread(GoOn(s)) == Unread(s);
    }
  }

  lemma StepKeeps(s: Rx, a: Action)
    requires Inv(s)
    ensures Inv(Step(s, a))
  {
    if a.Rxc? { RxcAppends(s, a.parityError, a.c); }
    if a.Go? { GoKeeps(s); }
    Ring.ContentsLength(s.buf, s.head, s.tail);
  }

  lemma {:induction false} RunKeeps(s: Rx, run: seq<Action>)
    requires Start(s)
    ensures Inv(Run(s, run))
    decreases |run|
  {
    if run == [] {
      Ring.ContentsLength(s.buf, s.head, s.tail);
      assert s.delivered + Unread(s) == [];
    } else {
      RunKeeps(s, run[..|run| - 1]);
      StepKeeps(Run(s, run[..|run| - 1]), run[|run| - 1]);
    }
  }

  /** In every interleaving: what read has returned so far, followed by what waits, is what was stored, and
      the ring holds at most SIZE - 1 bytes. */
  lemma DeliveredInOrder(s: Rx, run: seq<Action>)
    requires Start(s)
    ensures var t := Run(s, run);
            t.delivered + Unread(t) == t.stored && t.delivered <= t.stored && |t.stored| - |t.delivered| <= |s.buf| - 1
  {
    RunKeeps(s, run);
    var t := Run(s, run);
    Ring.ContentsLength(t.buf, t.head, t.tail);
  }

  /** A byte that a call returns is the oldest one not yet delivered; a call that returns -1 delivers nothing. */
  lemma AnswersAreTheOldest(s: Rx, run: seq<Action>)
    requires Start(s) && Run(s, run).fg != Idle && GoOn(Run(s, run)).fg == Idle
    ensures var t := Run(s, run); var u := GoOn(t);
            && u.stored == t.stored
            && (u.answer != -1 ==> |t.delivered| < |t.stored| && u.answer == t.stored[|t.delivered|])
            && u.delivered == (if t.fg.StoreTail? then t.delivered + [t.stored[|t.delivered|]] else t.delivered)
  {
    RunKeeps(s, run);
    var t := Run(s, run);
    if t.fg.LoadByte? || t.fg.StoreTail? { Ring.ContentsLength(t.buf, t.head, t.tail); Ring.Pop(t.buf, t.head, t.tail); }
  }

  /** `(SIZE + head - tail) & (SIZE - 1)`, the count that available computes. */
  lemma CountOf(buf: seq<byte>, head: nat, tail: nat, k: nat)
    requires Ring.IsRing(buf, head, tail) && |buf| == Pow2(k)
    ensures And(|buf| + head - tail, |buf| - 1) == |Ring.Contents(buf, head, tail)|
  {
    hide And, Pow2;
    var n := |buf|;
    AndMask(n + head - tail, k);
    if head >= tail { DivUnique(n + head - tail, n, 1, head - tail); } else { DivUnique(n + head - tail, n, 0, n + head - tail); }
  }
}
