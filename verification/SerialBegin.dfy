/** What HardwareSerial::begin makes of the high byte of its options. */
module SerialBegin {
  import opened Bits
  import opened Avr

  // Bits of the option byte: receiver off, transmitter off, loop back, open drain.
  const RX_OFF := 7
  const TX_OFF := 6
  const LOOPBACK := 3
  const OPEN_DRAIN := 2

  // Bits of CTRLA and CTRLB.
  const RXCIE := 7
  const TXCIE := 6
  const DREIE := 5
  const RXEN := 7
  const TXEN := 6
  const ODME := 3

  /** A constant is the byte with these bits. */
  lemma Constant(bits: seq<bool>, k: nat)
    requires |bits| == 8 && k < 8
    ensures Byte(bits) < 256 && Bit(Byte(bits), k) == bits[k]
  {
    assert Pow2(8) == 256;
    BitOfByte(bits, k);
  }

  lemma EnableMask(k: nat)
    requires k < 8
    ensures Bit(0xC0, k) == (k == 6 || k == 7)
  {
    assert Byte([false, false, false, false, false, false, true, true]) == 0xC0;
    Constant([false, false, false, false, false, false, true, true], k);
  }

  lemma PinMask(k: nat)
    requires k < 8
    ensures Bit(0xC8, k) == (k == 3 || k == 6 || k == 7)
  {
    assert Byte([false, false, false, true, false, false, true, true]) == 0xC8;
    Constant([false, false, false, true, false, false, true, true], k);
  }

  lemma OptionMask(k: nat)
    requires k < 8
    ensures Bit(0x2B, k) == (k == 0 || k == 1 || k == 3 || k == 5)
  {
    assert Byte([true, true, false, true, false, true, false, false]) == 0x2B;
    Constant([true, true, false, true, false, true, false, false], k);
  }

  lemma Masks3(k: nat)
    requires k < 8
    ensures Bit(0xC0, k) == (k == 6 || k == 7)
    ensures Bit(0xC8, k) == (k == 3 || k == 6 || k == 7)
    ensures Bit(0x2B, k) == (k == 0 || k == 1 || k == 3 || k == 5)
  {
    EnableMask(k);
    PinMask(k);
    OptionMask(k);
  }

  lemma SingleBits(k: nat)
    requires k < 8
    ensures Bit(0x80, k) == (k == 7) && Bit(0x08, k) == (k == 3) && Bit(0x02, k) == (k == 1) && Bit(0xDF, k) == (k != 5)
  {
    Masks();
    assert Pow2(3) == 8 && Pow2(1) == 2;
    BitPow2(7, k);
    BitPow2(3, k);
    BitPow2(1, k);
    BitHole(8, 5, k);
  }

  /** `~x`. */
  function Complement(x: byte): byte { 255 - x }

  lemma {:induction false} ComplementBit(x: nat, n: nat, k: nat)
    requires x < Pow2(n) && k < n
    ensures Bit(Pow2(n) - 1 - x, k) == !Bit(x, k)
    decreases n
  {
    var y, m := Pow2(n) - 1 - x, Pow2(n - 1);
    assert y == 2 * (m - 1 - x / 2) + (1 - x % 2);
    if k > 0 { ComplementBit(x / 2, n - 1, k - 1); }
  }

  /** CTRLB before the open-drain bit: the enable bits are the inverted top bits of the options. */
  function EnableBits(options: byte, double: bool): byte {
    var enabled := AndByte(Complement(options), 0xC0);
    if double then OrByte(enabled, 0x02) else enabled
  }

  function CtrlB(options: byte, double: bool): byte {
    if Bit(options, OPEN_DRAIN) then OrByte(EnableBits(options, double), 0x08) else EnableBits(options, double)
  }

  function CtrlA(options: byte, ctrlb: byte): byte {
    var kept := AndByte(options, 0x2B);
    AndByte(if Bit(ctrlb, RXEN) then OrByte(kept, 0x80) else kept, 0xDF)
  }

  /** The test that sets bit 1 of `_state`. */
  predicate Half(options: byte, ctrlb: byte) {
    Bit(AndByte(options, 0x2B), LOOPBACK) && AndByte(ctrlb, 0xC8) == 0xC8
  }

  lemma CtrlBBits(options: byte, double: bool, k: nat)
    requires k < 8
    ensures Bit(CtrlB(options, double), k) ==
            if k == RXEN || k == TXEN then !Bit(options, k) else if k == ODME then Bit(options, OPEN_DRAIN) else k == 1 && double
  {
    assert Pow2(8) == 256;
    Masks3(k);
    SingleBits(k);
    ComplementBit(options, 8, k);
    var enabled := AndByte(Complement(options), 0xC0);
    BitAnd(Complement(options), 0xC0, k);
    BitOr(enabled, 0x02, k);
    BitOr(EnableBits(options, double), 0x08, k);
  }

  lemma CtrlABits(options: byte, ctrlb: byte, k: nat)
    requires k < 8
    ensures Bit(CtrlA(options, ctrlb), k) == if k == RXCIE then Bit(ctrlb, RXEN) else Bit(options, k) && (k == 0 || k == 1 || k == 3)
  {
    Masks3(k);
    SingleBits(k);
    var kept := AndByte(options, 0x2B);
    BitAnd(options, 0x2B, k);
    BitOr(kept, 0x80, k);
    BitAnd(if Bit(ctrlb, RXEN) then OrByte(kept, 0x80) else kept, 0xDF, k);
  }

  predicate Covers(x: byte, mask: byte) { forall k: nat :: k < 8 && Bit(mask, k) ==> Bit(x, k) }

  /** A masked value equals the mask exactly when all its bits are set. */
  lemma AllSet(x: byte, mask: byte)
    ensures AndByte(x, mask) == mask <==> Covers(x, mask)
  {
    assert Pow2(8) == 256;
    forall k: nat | k < 8
      ensures Bit(AndByte(x, mask), k) == (Bit(x, k) && Bit(mask, k))
    {
      BitAnd(x, mask, k);
    }
    if Covers(x, mask) { SameBits(AndByte(x, mask), mask, 8); }
  }

  /** Half duplex is recorded exactly for loop back and open drain with both directions enabled. */
  lemma HalfExactly(options: byte, double: bool)
    ensures Half(options, CtrlB(options, double)) <==>
            Bit(options, LOOPBACK) && Bit(options, OPEN_DRAIN) && !Bit(options, RX_OFF) && !Bit(options, TX_OFF)
  {
    var b := CtrlB(options, double);
    AllSet(b, 0xC8);
    BitAnd(options, 0x2B, LOOPBACK);
    forall k: nat | k < 8
      ensures Bit(0xC8, k) == (k == 3 || k == 6 || k == 7) && Bit(0x2B, k) == (k == 0 || k == 1 || k == 3 || k == 5)
    {
      Masks3(k);
    }
    CtrlBBits(options, double, 3);
    CtrlBBits(options, double, 6);
    CtrlBBits(options, double, 7);
    assert Bit(0xC8, 3) && Bit(0xC8, 6) && Bit(0xC8, 7);
  }

  /** CTRLB: the directions not turned off, double speed, open drain, and nothing else. */
  predicate CtrlBIs(options: byte, double: bool, ctrlb: byte) {
    forall k: nat :: k < 8 ==>
      Bit(ctrlb, k) == (if k == RXEN || k == TXEN then !Bit(options, k) else if k == ODME then Bit(options, OPEN_DRAIN) else k == 1 && double)
  }

  /** CTRLA: RXCIE with the receiver, bits 0, 1 and 3 of the options, and nothing else. */
  predicate CtrlAIs(options: byte, ctrla: byte) {
    forall k: nat :: k < 8 ==>
      Bit(ctrla, k) == (if k == RXCIE then !Bit(options, RX_OFF) else Bit(options, k) && (k == 0 || k == 1 || k == 3))
  }

  /** begin, from the option byte to the registers: RXCIE is on exactly when the receiver is, DREIE and TXCIE are off, and half
      duplex always starts with the receiver's interrupt on. */
  method Begin(options: byte, double: bool) returns (ctrla: byte, ctrlb: byte, half: bool)
    ensures Bit(ctrlb, RXEN) == !Bit(options, RX_OFF) && Bit(ctrlb, TXEN) == !Bit(options, TX_OFF) && Bit(ctrlb, ODME) == Bit(options, OPEN_DRAIN)
    ensures Bit(ctrla, RXCIE) == Bit(ctrlb, RXEN) && !Bit(ctrla, TXCIE) && !Bit(ctrla, DREIE)
    ensures half <==> Bit(options, LOOPBACK) && Bit(options, OPEN_DRAIN) && !Bit(options, RX_OFF) && !Bit(options, TX_OFF)
    ensures half ==> Bit(ctrla, RXCIE) && !Bit(ctrla, TXCIE)
    ensures CtrlBIs(options, double, ctrlb) && CtrlAIs(options, ctrla)
  {
    ctrla := options;
    ctrlb := AndByte(Complement(ctrla), 0xC0);
    if double { ctrlb := OrByte(ctrlb, 0x02); }
    if Bit(ctrla, OPEN_DRAIN) { ctrlb := OrByte(ctrlb, 0x08); }
    ctrla := AndByte(ctrla, 0x2B);
    ghost var kept := ctrla;
    if Bit(ctrlb, RXEN) { ctrla := OrByte(ctrla, 0x80); }
    half := Bit(ctrla, LOOPBACK) && AndByte(ctrlb, 0xC8) == 0xC8;
    BitOr(kept, 0x80, LOOPBACK);
    SingleBits(LOOPBACK);
    ctrla := AndByte(ctrla, 0xDF);
    HalfExactly(options, double);
    assert ctrlb == CtrlB(options, double) && ctrla == CtrlA(options, ctrlb);
    RegisterBits(options, double, ctrla, ctrlb);
    hide Bit, CtrlA, CtrlB;
    assert Bit(ctrlb, RXEN) == !Bit(options, RX_OFF);
  }

  lemma RegisterBits(options: byte, double: bool, ctrla: byte, ctrlb: byte)
    requires ctrlb == CtrlB(options, double) && ctrla == CtrlA(options, ctrlb)
    ensures CtrlBIs(options, double, ctrlb) && CtrlAIs(options, ctrla)
  {
    CtrlBBits(options, double, RXEN);
    hide Bit, CtrlA, CtrlB;
    forall k: nat | k < 8
      ensures Bit(ctrlb, k) == if k == RXEN || k == TXEN then !Bit(options, k) else if k == ODME then Bit(options, OPEN_DRAIN) else k == 1 && double
      ensures Bit(ctrla, k) == if k == RXCIE then !Bit(options, RX_OFF) else Bit(options, k) && (k == 0 || k == 1 || k == 3)
    {
      CtrlBBits(options, double, k);
      CtrlABits(options, ctrlb, k);
    }
  }
}
