/** A HardwareSerial object as it lies in memory, and the C interrupt handlers as functions on memory. */
module SerialObject {
  import opened Bits
  import opened Avr

  /** Buffer sizes the assembly routines support. */
  datatype Size = S16 | S32 | S64 | S128 | S256

  function Log2(z: Size): nat {
    match z case S16 => 4 case S32 => 5 case S64 => 6 case S128 => 7 case S256 => 8
  }

  function Bytes(z: Size): (n: nat)
    ensures 16 <= n <= 256
  {
    match z case S16 => 16 case S32 => 32 case S64 => 64 case S128 => 128 case S256 => 256
  }

  lemma BytesIsPow2(z: Size)
    ensures Bytes(z) == Pow2(Log2(z))
  {
    assert Pow2(4) == 16 && Pow2(8) == 16 * Pow2(4);
  }

  function Mask(z: Size): byte { Bytes(z) - 1 }

  /** The index after i: `(i + 1) & (SIZE - 1)`. */
  function Next(z: Size, i: byte): byte { And(i + 1, Mask(z)) }

  lemma NextIsSuccessor(z: Size, i: byte)
    ensures Next(z, i) == (i + 1) % Bytes(z)
    ensures i < Bytes(z) ==> Next(z, i) == if i + 1 == Bytes(z) then 0 else i + 1
  {
    BytesIsPow2(z);
    AndMask(i + 1, Log2(z));
    if i < Bytes(z) { ModNext(i, Bytes(z)); }
  }

  lemma ModNext(i: nat, n: nat)
    requires i < n
    ensures (i + 1) % n == if i + 1 == n then 0 else i + 1
  {
  }

  /** Where an object lies and with which buffer sizes it was compiled. */
  datatype Obj = Obj(base: word, rx: Size, tx: Size)

  // Offsets of the members of the class.
  const MODULE: byte := 8
  const STATE: byte := 12
  const RX_HEAD: byte := 13
  const RX_TAIL: byte := 14
  const TX_HEAD: byte := 15
  const TX_TAIL: byte := 16
  const RX_BUFFER: byte := 17

  // Offsets of the USART registers.
  const RXDATAL: byte := 0
  const RXDATAH: byte := 1
  const TXDATAL: byte := 2
  const STATUS: byte := 4
  const CTRLA: byte := 5
  const CTRLB: byte := 6

  function TxBuffer(o: Obj): nat { o.base + RX_BUFFER + Bytes(o.rx) }

  /** The object lies in RAM, its indices lie in its buffers, and its USART is one of the page 0x08nn. */
  predicate ValidObj(o: Obj, w: World) {
    && 0x1000 <= o.base && TxBuffer(o) + Bytes(o.tx) <= 0x1_0000
    && w.mem[o.base + MODULE] <= 0xF0 && w.io.usart == Word(8, w.mem[o.base + MODULE])
    && w.mem[o.base + TX_TAIL] < Bytes(o.tx)
    && w.mem[o.base + RX_HEAD] < Bytes(o.rx)
  }

  /** _tx_data_empty_irq up to the index: TXCIF is cleared before the next character is written. */
  function SendNext(o: Obj, w: World): World
    requires ValidObj(o, w)
  {
    var u := w.io.usart;
    var c := w.mem[TxBuffer(o) + w.mem[o.base + TX_TAIL]];
    Poke(Poke(w, u + STATUS, 0x40), u + TXDATAL, c)
  }

  /** The rest of it: DREIE goes off when the new tail meets the head; then the tail is stored. */
  function StoreTail(o: Obj, w: World, next: byte): World
    requires 0x1000 <= o.base && o.base + RX_BUFFER < 0x1_0000 && w.io.usart < 0xFF0
  {
    var ctrla := Peek(w, w.io.usart + CTRLA);
    var w1 := if w.mem[o.base + TX_HEAD] == next then Poke(w, w.io.usart + CTRLA, AndByte(ctrla, 0xDF)) else w;
    Poke(w1, o.base + TX_TAIL, next)
  }

  /** HardwareSerial::_tx_data_empty_irq. */
  function TxDataEmptyIrq(o: Obj, w: World): World
    requires ValidObj(o, w)
  {
    StoreTail(o, SendNext(o, w), Next(o.tx, w.mem[o.base + TX_TAIL]))
  }

  /** HardwareSerial::_rx_complete_irq: bytes with a parity error and bytes that find the ring full are dropped. */
  function RxCompleteIrq(o: Obj, w: World): World
    requires ValidObj(o, w)
  {
    var u := w.io.usart;
    var rxDataH := Peek(w, u + RXDATAH);
    var c := Peek(w, u + RXDATAL);
    var w1 := AfterPeek(w, u + RXDATAL);
    var head := w.mem[o.base + RX_HEAD];
    var i := Next(o.rx, head);
    if Bit(rxDataH, 1) || i == w.mem[o.base + RX_TAIL] then w1
    else w1.(mem := w1.mem[o.base + RX_BUFFER + head := c][o.base + RX_HEAD := i])
  }

  /** What the assembly adds to the C: the error bits, moved up one place, are collected in _state,
      and bit 6 records a byte that found the ring full. */
  function CollectErrors(o: Obj, w: World, state: byte): byte
    requires ValidObj(o, w)
  {
    var rxDataH := Peek(w, w.io.usart + RXDATAH);
    var errors := OrByte(state, 2 * AndByte(rxDataH, 0x46));
    if !Bit(rxDataH, 1) && Next(o.rx, w.mem[o.base + RX_HEAD]) == w.mem[o.base + RX_TAIL] then OrByte(errors, 0x40) else errors
  }

  /** The C form of the transmit-complete handler: the received echoes are dumped, reception is heard again. */
  function TxcIrq(w: World): World
    requires w.io.usart < 0xFF0
  {
    var w1 := w.(io := w.io.(rx := []));
    var ctrla := OrByte(Peek(w1, w.io.usart + CTRLA), 0x80);
    Poke(w1, w.io.usart + CTRLA, AndByte(ctrla, 0xBF))
  }
}
