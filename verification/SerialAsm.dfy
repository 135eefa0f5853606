/** What the assembly routines of the serial driver have in common. */
module SerialAsm {
  import opened Bits
  import opened Avr
  import opened SerialObject

  /** The interrupt stub: Z saved and pointed at the object. The CBI clears a debug bit. */
  function Stub(base: word): seq<Instr> { [Push(30), Push(31), Cbi(0x1F, 0), Ldi(30, Lo(base)), Ldi(31, Hi(base))] }

  function Wrap(d: Reg, z: Size): seq<Instr> {
    match z
    case S256 => []
    case S128 => [Andi(d, 0x7F)]
    case S64 => [Andi(d, 0x3F)]
    case S32 => [Andi(d, 0x1F)]
    case S16 => [Andi(d, 0x0F)]
  }

  lemma StubDoes(b: seq<Instr>, base: word, s: Cpu)
    requires b == Stub(base)
    ensures var t := Exec(b, 5, s);
            && t.r == s.r[30 := Lo(base)][31 := Hi(base)] && t.stack == Top(s.r[31], Top(s.r[30], s.stack)) && t.f == s.f
            && t.w == ClearIoBit(s.w, 0x1F, 0)
            && Pair(t.r, 30) == base
  {
    Exec5(b, s);
  }

  /** Adding one in a byte and masking, or not masking at size 256, is the C index step. */
  lemma WrapDoes(b: seq<Instr>, d: Reg, z: Size, i: byte, s: Cpu)
    requires b == Wrap(d, z) && i < Bytes(z) && s.r[d] == (if i == 255 then 0 else i + 1)
    ensures var t := Exec(b, |b|, s);
            && t.w == s.w && t.stack == s.stack && t.f.t == s.f.t
            && t.r == s.r[d := Next(z, i)]
  {
    match z
    case S256 => NextIsSuccessor(z, i); assert s.r[d := Next(z, i)] == s.r;
    case S128 => MaskDoes(b, d, 0x7F, i, s);
    case S64 => MaskDoes(b, d, 0x3F, i, s);
    case S32 => MaskDoes(b, d, 0x1F, i, s);
    case S16 => MaskDoes(b, d, 0x0F, i, s);
  }

  lemma MaskDoes(b: seq<Instr>, d: Reg, k: byte, i: byte, s: Cpu)
    requires b == [Andi(d, k)] && s.r[d] == i + 1
    ensures var t := Exec(b, 1, s);
            && t.w == s.w && t.stack == s.stack && t.f.t == s.f.t
            && t.r == s.r[d := And(i + 1, k)]
  {
    assert Exec(b, 1, s) == Do(Andi(d, k), s);
  }
}
