/** The command loop of Optiboot: STK500 version 1 (Atmel application note AVR061) over a byte stream.

    The loop blocks only in getch, so its state between two bytes is the byte it expects next; `Feed` is what one
    received byte makes it do. */
module Optiboot {
  import opened Bits

  const OK: byte := 0x10
  const INSYNC: byte := 0x14
  const EOP: byte := 0x20
  const GET_PARAMETER: byte := 0x41
  const SET_DEVICE: byte := 0x42
  const SET_DEVICE_EXT: byte := 0x45
  const LEAVE_PROGMODE: byte := 0x51
  const LOAD_ADDRESS: byte := 0x55
  const UNIVERSAL: byte := 0x56
  const PROG_PAGE: byte := 0x64
  const READ_PAGE: byte := 0x74
  const READ_SIGN: byte := 0x75
  const SW_MAJOR: byte := 0x81
  const SW_MINOR: byte := 0x82
  const FLASH: byte := 0x46

  /** Page sizes, where flash and EEPROM are mapped, the signature and the version of the loader. */
  datatype Chip = Chip(page: nat, epage: nat, flashStart: word, eepromStart: word, sign: (byte, byte, byte), major: byte, minor: byte)

  /** Flash and EEPROM, the page buffer by offset, and the address stored to last. */
  datatype Nvm = Nvm(flash: seq<byte>, eeprom: seq<byte>, buffer: map<nat, byte>, target: word)

  datatype Command =
    | GetParameter(which: byte)
    | Ignored(code: byte, bytes: seq<byte>)
    | LoadAddress(lo: byte, hi: byte)
    | ProgPage(lenHi: byte, lenLo: byte, dest: byte, data: seq<byte>)
    | ReadPage(lenHi: byte, lenLo: byte, dest: byte)
    | ReadSign
    | LeaveProgmode
    | Other(code: byte)

  /** What the loop waits for. `Hung` is the endless loop of verifySpace; `Astray` is an access outside of the mapped
      memories, past which nothing is claimed. */
  datatype Expect =
    | Code
    | Which
    | Skip(code: byte, got: seq<byte>)
    | AddrLow
    | AddrHigh(lo: byte)
    | LenHigh(code: byte)
    | LenLow(code: byte, lenHi: byte)
    | Dest(code: byte, lenHi: byte, lenLo: byte)
    | Data(lenHi: byte, lenLo: byte, dest: byte, got: seq<byte>)
    | Terminator(c: Command)
    | Hung
    | Astray

  datatype Wdt = Normal | Shortest

  datatype Boot = Boot(nvm: Nvm, address: word, wdt: Wdt, at: Expect, output: seq<byte>, done: seq<Command>)

  predicate ValidChip(chip: Chip, n: Nvm) {
    && 0 < chip.page <= 0x8000 && 0 < chip.epage && |n.flash| % chip.page == 0
    && chip.eepromStart + |n.eeprom| <= chip.flashStart && chip.flashStart + |n.flash| <= 0x1_0000
  }

  predicate SameSizes(n: Nvm, m: Nvm) { |n.flash| == |m.flash| && |n.eeprom| == |m.eeprom| }

  // Memory.

  predicate InFlash(chip: Chip, n: Nvm, a: word) { chip.flashStart <= a < chip.flashStart + |n.flash| }
  predicate InEeprom(chip: Chip, n: Nvm, a: word) { chip.eepromStart <= a < chip.eepromStart + |n.eeprom| }
  predicate Mapped(chip: Chip, n: Nvm, a: word) { InFlash(chip, n, a) || InEeprom(chip, n, a) }

  function Plus(a: word, k: word): word { if a + k < 0x1_0000 then a + k else a + k - 0x1_0000 }

  function Offset(chip: Chip, n: Nvm, a: word): nat
    requires ValidChip(chip, n) && Mapped(chip, n, a)
  {
    if InFlash(chip, n, a) then (a - chip.flashStart) % chip.page else (a - chip.eepromStart) % chip.epage
  }

  /** A store to a mapped address goes to the page buffer. */
  function Stored(chip: Chip, n: Nvm, a: word, b: byte): Nvm
    requires ValidChip(chip, n) && Mapped(chip, n, a)
  {
    n.(buffer := n.buffer[Offset(chip, n, a) := b], target := a)
  }

  function Loaded(chip: Chip, n: Nvm, a: word): byte
    requires Mapped(chip, n, a)
  {
    if InFlash(chip, n, a) then n.flash[a - chip.flashStart] else n.eeprom[a - chip.eepromStart]
  }

  function PageOf(k: nat, page: nat): nat
    requires page > 0
  {
    k / page * page
  }

  /** Erase-and-write: a flash page becomes the buffer, 0xFF where nothing was stored; of an EEPROM page only
      the stored bytes change. The buffer is empty afterwards. */
  function Committed(chip: Chip, n: Nvm): (m: Nvm)
    requires ValidChip(chip, n)
    ensures SameSizes(n, m)
  {
    if InFlash(chip, n, n.target) then
      var p := PageOf(n.target - chip.flashStart, chip.page);
      n.(flash := seq(|n.flash|, i requires 0 <= i < |n.flash| =>
           if p <= i < p + chip.page then (if i - p in n.buffer then n.buffer[i - p] else 0xFF) else n.flash[i]),
         buffer := map[])
    else if InEeprom(chip, n, n.target) then
      var p := PageOf(n.target - chip.eepromStart, chip.epage);
      n.(eeprom := seq(|n.eeprom|, i requires 0 <= i < |n.eeprom| =>
           if p <= i < p + chip.epage && i - p in n.buffer then n.buffer[i - p] else n.eeprom[i]),
         buffer := map[])
    else n.(buffer := map[])
  }

  // Commands.

  /** How often a do-while loop runs that counts `length` down to zero; one byte wide unless pages are larger than 255. */
  function Count(chip: Chip, hi: byte, lo: byte): (n: nat)
    ensures n > 0
  {
    if chip.page > 255 then (if hi == 0 && lo == 0 then 0x1_0000 else Word(hi, lo))
    else if lo == 0 then 0x100 else lo
  }

  function Start(chip: Chip, dest: byte): word { if dest == FLASH then chip.flashStart else chip.eepromStart }

  function ParameterValue(chip: Chip, which: byte): byte {
    if which == SW_MINOR then chip.minor else if which == SW_MAJOR then chip.major else 0x03
  }

  /** How many bytes getNch takes for the commands that are ignored. */
  function Ignores(code: byte): nat {
    if code == SET_DEVICE then 20 else if code == SET_DEVICE_EXT then 5 else if code == UNIVERSAL then 4 else 0
  }

  function OnCode(s: Boot, b: byte): Boot {
    if b == GET_PARAMETER then s.(at := Which)
    else if b == SET_DEVICE || b == SET_DEVICE_EXT || b == UNIVERSAL then s.(at := Skip(b, []))
    else if b == LOAD_ADDRESS then s.(at := AddrLow)
    else if b == PROG_PAGE || b == READ_PAGE then s.(at := LenHigh(b))
    else if b == READ_SIGN then s.(at := Terminator(ReadSign))
    else if b == LEAVE_PROGMODE then s.(wdt := Shortest, at := Terminator(LeaveProgmode))
    else s.(at := Terminator(Other(b)))
  }

  function OnDest(chip: Chip, s: Boot, code: byte, hi: byte, lo: byte, dest: byte): Boot {
    if code == READ_PAGE then s.(at := Terminator(ReadPage(hi, lo, dest)))
    else s.(address := Plus(s.address, Start(chip, dest)), at := Data(hi, lo, dest, []))
  }

  function OnData(chip: Chip, s: Boot, hi: byte, lo: byte, dest: byte, got: seq<byte>, b: byte): (t: Boot)
    requires ValidChip(chip, s.nvm)
    ensures SameSizes(s.nvm, t.nvm)
  {
    if !Mapped(chip, s.nvm, s.address) then s.(at := Astray)
    else
      s.(nvm := Stored(chip, s.nvm, s.address, b), address := Plus(s.address, 1),
         at := if |got| + 1 >= Count(chip, hi, lo) then Terminator(ProgPage(hi, lo, dest, got + [b])) else Data(hi, lo, dest, got + [b]))
  }

  /** READ_PAGE's loop: n bytes from the address on, or astray. */
  function Emit(chip: Chip, s: Boot, n: nat): Boot
    requires ValidChip(chip, s.nvm)
    decreases n
  {
    if n == 0 || s.at == Astray then s
    else if !Mapped(chip, s.nvm, s.address) then s.(at := Astray)
    else Emit(chip, s.(output := s.output + [Loaded(chip, s.nvm, s.address)], address := Plus(s.address, 1)), n - 1)
  }

  lemma {:induction false} EmitKeeps(chip: Chip, s: Boot, n: nat)
    requires ValidChip(chip, s.nvm)
    ensures var t := Emit(chip, s, n); t.nvm == s.nvm && t.wdt == s.wdt && t.done == s.done && s.output <= t.output
    ensures var t := Emit(chip, s, n); t.at == s.at || t.at == Astray
    decreases n
  {
    if n != 0 && s.at != Astray && Mapped(chip, s.nvm, s.address) {
      EmitKeeps(chip, s.(output := s.output + [Loaded(chip, s.nvm, s.address)], address := Plus(s.address, 1)), n - 1);
    }
  }

  lemma EmitStep(chip: Chip, s: Boot, n: nat)
    requires ValidChip(chip, s.nvm) && n > 0 && s.at != Astray
    ensures Emit(chip, s, n) ==
            if !Mapped(chip, s.nvm, s.address) then s.(at := Astray)
            else Emit(chip, s.(output := s.output + [Loaded(chip, s.nvm, s.address)], address := Plus(s.address, 1)), n - 1)
  {
  }

  function Put(s: Boot, bytes: seq<byte>): Boot { s.(output := s.output + bytes) }

  /** After the terminator of a command: what it does and replies between INSYNC and OK. */
  function Perform(chip: Chip, s: Boot, c: Command): (t: Boot)
    requires ValidChip(chip, s.nvm)
    ensures SameSizes(s.nvm, t.nvm)
  {
    match c
    case GetParameter(which) => Put(s, [ParameterValue(chip, which)])
    case Ignored(code, _) => if code == UNIVERSAL then Put(s, [0]) else s
    case ProgPage(_, _, _, _) => s.(nvm := Committed(chip, s.nvm))
    case ReadPage(hi, lo, dest) =>
      var s1 := s.(address := Plus(s.address, Start(chip, dest)));
      EmitKeeps(chip, s1, Count(chip, hi, lo));
      Emit(chip, s1, Count(chip, hi, lo))
    case ReadSign => Put(s, [chip.sign.0, chip.sign.1, chip.sign.2])
    case _ => s
  }

  function OnTerminator(chip: Chip, s: Boot, c: Command, b: byte): (t: Boot)
    requires ValidChip(chip, s.nvm)
    ensures SameSizes(s.nvm, t.nvm)
  {
    if b != EOP then s.(wdt := Shortest, at := Hung)
    else
      Finished(Perform(chip, Put(s, [INSYNC]), c), c)
  }

  function Finished(s: Boot, c: Command): Boot {
    if s.at == Astray then s else Put(s, [OK]).(at := Code, done := s.done + [c])
  }

  function Feed(chip: Chip, s: Boot, b: byte): (t: Boot)
    requires ValidChip(chip, s.nvm)
    ensures SameSizes(s.nvm, t.nvm)
  {
    match s.at
    case Code => OnCode(s, b)
    case Which => s.(at := Terminator(GetParameter(b)))
    case Skip(code, got) =>
      if |got| + 1 >= Ignores(code) then s.(at := Terminator(Ignored(code, got + [b]))) else s.(at := Skip(code, got + [b]))
    case AddrLow => s.(address := Word(Hi(s.address), b), at := AddrHigh(b))
    case AddrHigh(lo) => s.(address := Word(b, Lo(s.address)), at := Terminator(LoadAddress(lo, b)))
    case LenHigh(code) => s.(at := LenLow(code, b))
    case LenLow(code, hi) => s.(at := Dest(code, hi, b))
    case Dest(code, hi, lo) => OnDest(chip, s, code, hi, lo, b)
    case Data(hi, lo, dest, got) => OnData(chip, s, hi, lo, dest, got, b)
    case Terminator(c) => OnTerminator(chip, s, c, b)
    case _ => s
  }

  /** All the bytes the loop has received. */
  function FeedAll(chip: Chip, s: Boot, input: seq<byte>): (t: Boot)
    requires ValidChip(chip, s.nvm)
    ensures ValidChip(chip, t.nvm) && SameSizes(s.nvm, t.nvm)
    decreases |input|
  {
    if input == [] then s
    else
      FeedAll(chip, Feed(chip, s, input[0]), input[1..])
  }
}
