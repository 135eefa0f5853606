/** What the command loop does with a whole stream: every stream is the encoding of the commands it carried out, and
    every list of well-formed commands is carried out as it was encoded. */
module OptibootRuns {
  import opened Bits
  import opened Optiboot

  /** The bytes of a command before its terminator. */
  function Body(c: Command): seq<byte> {
    match c
    case GetParameter(which) => [GET_PARAMETER, which]
    case Ignored(code, bytes) => [code] + bytes
    case LoadAddress(lo, hi) => [LOAD_ADDRESS, lo, hi]
    case ProgPage(hi, lo, dest, data) => [PROG_PAGE, hi, lo, dest] + data
    case ReadPage(hi, lo, dest) => [READ_PAGE, hi, lo, dest]
    case ReadSign => [READ_SIGN]
    case LeaveProgmode => [LEAVE_PROGMODE]
    case Other(code) => [code]
  }

  function Encode(c: Command): seq<byte> { Body(c) + [EOP] }

  function EncodeAll(cs: seq<Command>): seq<byte> {
    if cs == [] then [] else Encode(cs[0]) + EncodeAll(cs[1..])
  }

  predicate Special(code: byte) {
    || code == GET_PARAMETER || code == SET_DEVICE || code == SET_DEVICE_EXT || code == UNIVERSAL || code == LOAD_ADDRESS
    || code == PROG_PAGE || code == READ_PAGE || code == READ_SIGN || code == LEAVE_PROGMODE
  }

  predicate WellFormed(chip: Chip, c: Command) {
    match c
    case Ignored(code, bytes) => Ignores(code) > 0 && |bytes| == Ignores(code)
    case ProgPage(hi, lo, _, data) => |data| == Count(chip, hi, lo)
    case Other(code) => !Special(code)
    case _ => true
  }

  predicate AllWellFormed(chip: Chip, cs: seq<Command>) { forall k :: 0 <= k < |cs| ==> WellFormed(chip, cs[k]) }

  // Every stream, seen from its end.

  /** The bytes of the command that has not ended yet. */
  function Partial(at: Expect): seq<byte> {
    match at
    case Code => []
    case Which => [GET_PARAMETER]
    case Skip(code, got) => [code] + got
    case AddrLow => [LOAD_ADDRESS]
    case AddrHigh(lo) => [LOAD_ADDRESS, lo]
    case LenHigh(code) => [code]
    case LenLow(code, hi) => [code, hi]
    case Dest(code, hi, lo) => [code, hi, lo]
    case Data(hi, lo, dest, got) => [PROG_PAGE, hi, lo, dest] + got
    case Terminator(c) => Body(c)
    case _ => []
  }

  predicate Proper(chip: Chip, at: Expect) {
    match at
    case Skip(code, got) => |got| < Ignores(code)
    case LenHigh(code) => code == PROG_PAGE || code == READ_PAGE
    case LenLow(code, _) => code == PROG_PAGE || code == READ_PAGE
    case Dest(code, _, _) => code == PROG_PAGE || code == READ_PAGE
    case Data(hi, lo, _, got) => |got| < Count(chip, hi, lo)
    case Terminator(c) => WellFormed(chip, c)
    case _ => true
  }

  predicate Stopped(s: Boot) { s.at == Hung || s.at == Astray }

  /** A byte that is not a terminator only lengthens the command. */
  lemma FeedLengthens(chip: Chip, s: Boot, b: byte)
    requires ValidChip(chip, s.nvm) && Proper(chip, s.at) && !Stopped(s) && !s.at.Terminator?
    ensures var t := Feed(chip, s, b);
            && Proper(chip, t.at) && t.done == s.done && t.output == s.output && (t.at != Astray ==> Partial(t.at) == Partial(s.at) + [b])
  {
    if s.at.Skip? { assert [s.at.code] + (s.at.got + [b]) == [s.at.code] + s.at.got + [b]; }
    if s.at.Data? {
      assert [PROG_PAGE, s.at.lenHi, s.at.lenLo, s.at.dest] + (s.at.got + [b]) == Partial(s.at) + [b];
    }
  }

  /** A terminator completes it, or stops the loop. */
  lemma FeedCompletes(chip: Chip, s: Boot, b: byte)
    requires ValidChip(chip, s.nvm) && s.at.Terminator?
    ensures var t := Feed(chip, s, b); if Stopped(t) then t.done == s.done else b == EOP && t.at == Code && t.done == s.done + [s.at.c]
  {
    hide Committed, Emit, ParameterValue, Count;
    if s.at.c.ReadPage? {
      var s1 := Put(s, [INSYNC]);
      EmitKeeps(chip, s1.(address := Plus(s1.address, Start(chip, s.at.c.dest))), Count(chip, s.at.c.lenHi, s.at.c.lenLo));
    }
  }

  lemma {:induction false} EncodeMore(cs: seq<Command>, c: Command)
    ensures EncodeAll(cs + [c]) == EncodeAll(cs) + Encode(c)
  {
    if cs == [] {
      assert [c][1..] == [] && Encode(c) + [] == Encode(c);
    } else {
      hide Encode;
      EncodeMore(cs[1..], c);
      assert (cs + [c])[0] == cs[0] && (cs + [c])[1..] == cs[1..] + [c];
      Concat(Encode(cs[0]), EncodeAll(cs[1..]), Encode(c));
    }
  }

  /** The stream is the commands carried out and the beginning of one more. */
  predicate Decodes(chip: Chip, t: Boot, input: seq<byte>) {
    && Proper(chip, t.at) && AllWellFormed(chip, t.done)
    && if Stopped(t) then EncodeAll(t.done) <= input else input == EncodeAll(t.done) + Partial(t.at)
  }

  lemma DecodesOneMore(chip: Chip, t: Boot, input: seq<byte>, b: byte)
    requires ValidChip(chip, t.nvm) && Decodes(chip, t, input)
    ensures Decodes(chip, Feed(chip, t, b), input + [b])
  {
    var e := EncodeAll(t.done);
    if t.at.Terminator? {
      FeedCompletes(chip, t, b);
      EncodeMore(t.done, t.at.c);
      assert e + Partial(t.at) + [b] == e + (Partial(t.at) + [b]);
    } else if !Stopped(t) {
      FeedLengthens(chip, t, b);
      assert e + Partial(t.at) + [b] == e + (Partial(t.at) + [b]);
    }
  }

  /** What every byte keeps, every stream keeps. */
  lemma {:induction false} StreamsKeep(chip: Chip, t: Boot, past: seq<byte>, input: seq<byte>, inv: (Boot, seq<byte>) -> bool)
    requires ValidChip(chip, t.nvm) && inv(t, past)
    requires forall u: Boot, p: seq<byte>, b: byte :: ValidChip(chip, u.nvm) && inv(u, p) ==> inv(Feed(chip, u, b), p + [b])
    ensures inv(FeedAll(chip, t, input), past + input)
    decreases |input|
  {
    if input == [] {
      assert past + input == past;
    } else {
      assert inv(Feed(chip, t, input[0]), past + [input[0]]);
      StreamsKeep(chip, Feed(chip, t, input[0]), past + [input[0]], input[1..], inv);
      assert past + [input[0]] + input[1..] == past + input;
    }
  }

  /** Whatever bytes arrive, they are the encoding of the commands that were carried out, in order, followed by
      the beginning of one more; and a loop that has stopped had carried out the commands at the beginning. */
  lemma EveryStreamDecodes(chip: Chip, s: Boot, input: seq<byte>)
    requires ValidChip(chip, s.nvm) && s.at == Code && s.done == []
    ensures var t := FeedAll(chip, s, input);
            && AllWellFormed(chip, t.done)
            && if Stopped(t) then EncodeAll(t.done) <= input else input == EncodeAll(t.done) + Partial(t.at)
  {
    var inv := (u: Boot, p: seq<byte>) => Decodes(chip, u, p);
    forall u: Boot, p: seq<byte>, b: byte | ValidChip(chip, u.nvm) && inv(u, p)
      ensures inv(Feed(chip, u, b), p + [b])
    {
      DecodesOneMore(chip, u, p, b);
    }
    StreamsKeep(chip, s, [], input, inv);
    assert [] + input == input;
  }

  // Safety of flash and EEPROM.

  predicate SameContents(n: Nvm, m: Nvm) { n.flash == m.flash && n.eeprom == m.eeprom }

  predicate InPage(i: nat, a: nat, page: nat)
    requires page > 0
  {
    PageOf(a, page) <= i < PageOf(a, page) + page
  }

  /** The loop has just verified the terminator of a PROG_PAGE. */
  predicate Verified(s: Boot, b: byte) { s.at.Terminator? && s.at.c.ProgPage? && b == EOP }

  lemma FeedOtherwiseKeeps(chip: Chip, s: Boot, b: byte)
    requires ValidChip(chip, s.nvm)
    ensures if Verified(s, b) then Feed(chip, s, b).nvm == Committed(chip, s.nvm) else SameContents(s.nvm, Feed(chip, s, b).nvm)
  {
    hide Committed, Emit, ParameterValue, Count;
    if s.at.Terminator? && s.at.c.ReadPage? {
      var s1 := Put(s, [INSYNC]);
      EmitKeeps(chip, s1.(address := Plus(s1.address, Start(chip, s.at.c.dest))), Count(chip, s.at.c.lenHi, s.at.c.lenLo));
    }
  }

  /** A byte of flash changes only when the terminator of a PROG_PAGE has just been verified, and only in the page stored to last. */
  lemma OnlyVerifiedPagesOfFlashChange(chip: Chip, s: Boot, b: byte, i: nat)
    requires ValidChip(chip, s.nvm) && i < |s.nvm.flash| && Feed(chip, s, b).nvm.flash[i] != s.nvm.flash[i]
    ensures Verified(s, b) && InFlash(chip, s.nvm, s.nvm.target) && InPage(i, s.nvm.target - chip.flashStart, chip.page)
  {
    FeedOtherwiseKeeps(chip, s, b);
  }

  /** ... a byte of EEPROM only if it was stored, too. */
  lemma OnlyStoredBytesOfEepromChange(chip: Chip, s: Boot, b: byte, i: nat)
    requires ValidChip(chip, s.nvm) && i < |s.nvm.eeprom| && Feed(chip, s, b).nvm.eeprom[i] != s.nvm.eeprom[i]
    ensures Verified(s, b) && InEeprom(chip, s.nvm, s.nvm.target) && InPage(i, s.nvm.target - chip.eepromStart, chip.epage)
    ensures i - PageOf(s.nvm.target - chip.eepromStart, chip.epage) in s.nvm.buffer
  {
    FeedOtherwiseKeeps(chip, s, b);
  }

  /** After the first missing terminator nothing happens any more but the shortened watchdog. */
  lemma NothingAfterAMissingTerminator(chip: Chip, s: Boot, b: byte, input: seq<byte>)
    requires ValidChip(chip, s.nvm) && s.at.Terminator? && b != EOP
    ensures FeedAll(chip, Feed(chip, s, b), input) == s.(at := Hung, wdt := Shortest)
  {
    StoppedStays(chip, s.(at := Hung, wdt := Shortest), input);
  }

  // Every list of commands, carried out.

  lemma {:induction false} FeedAllTwice(chip: Chip, s: Boot, a: seq<byte>, b: seq<byte>)
    requires ValidChip(chip, s.nvm)
    ensures FeedAll(chip, s, a + b) == FeedAll(chip, FeedAll(chip, s, a), b)
    decreases |a|
  {
    if a == [] {
      assert [] + b == b;
    } else {
      assert (a + b)[0] == a[0] && (a + b)[1..] == a[1..] + b;
      FeedAllTwice(chip, Feed(chip, s, a[0]), a[1..], b);
    }
  }

  lemma {:induction false} StoppedStays(chip: Chip, s: Boot, input: seq<byte>)
    requires ValidChip(chip, s.nvm) && Stopped(s)
    ensures FeedAll(chip, s, input) == s
    decreases |input|
  {
    if input != [] { StoppedStays(chip, s, input[1..]); }
  }

  /** PROG_PAGE's loop. */
  function StoreAll(chip: Chip, s: Boot, data: seq<byte>): (t: Boot)
    requires ValidChip(chip, s.nvm)
    ensures SameSizes(s.nvm, t.nvm)
    decreases |data|
  {
    if data == [] then s
    else if !Mapped(chip, s.nvm, s.address) then s.(at := Astray)
    else StoreAll(chip, s.(nvm := Stored(chip, s.nvm, s.address, data[0]), address := Plus(s.address, 1)), data[1..])
  }

  /** What a command has done when its terminator comes. */
  function Taken(chip: Chip, s: Boot, c: Command): (t: Boot)
    requires ValidChip(chip, s.nvm)
    ensures SameSizes(s.nvm, t.nvm)
  {
    match c
    case LoadAddress(lo, hi) => s.(address := Word(hi, lo))
    case ProgPage(_, _, dest, data) => StoreAll(chip, s.(address := Plus(s.address, Start(chip, dest))), data)
    case LeaveProgmode => s.(wdt := Shortest)
    case _ => s
  }

  /** A whole command. */
  function Exec(chip: Chip, s: Boot, c: Command): (t: Boot)
    requires ValidChip(chip, s.nvm)
    ensures SameSizes(s.nvm, t.nvm)
  {
    var t := Taken(chip, s, c);
    if t.at == Astray then t else OnTerminator(chip, t, c, EOP)
  }

  function ExecAll(chip: Chip, s: Boot, cs: seq<Command>): (t: Boot)
    requires ValidChip(chip, s.nvm)
    ensures SameSizes(s.nvm, t.nvm)
    decreases |cs|
  {
    if cs == [] || s.at == Astray then s else ExecAll(chip, Exec(chip, s, cs[0]), cs[1..])
  }

  lemma {:induction false} SkipRuns(chip: Chip, s: Boot, code: byte, got: seq<byte>, rest: seq<byte>)
    requires ValidChip(chip, s.nvm) && s.at == Skip(code, got) && rest != [] && |got| + |rest| == Ignores(code)
    ensures FeedAll(chip, s, rest) == s.(at := Terminator(Ignored(code, got + rest)))
    decreases |rest|
  {
    if |rest| == 1 {
      assert rest == [rest[0]];
    } else {
      SkipRuns(chip, s.(at := Skip(code, got + [rest[0]])), code, got + [rest[0]], rest[1..]);
      assert got + [rest[0]] + rest[1..] == got + rest;
    }
  }

  lemma {:induction false} DataRuns(chip: Chip, s: Boot, hi: byte, lo: byte, dest: byte, got: seq<byte>, rest: seq<byte>)
    requires ValidChip(chip, s.nvm) && s.at == Data(hi, lo, dest, got) && rest != [] && |got| + |rest| == Count(chip, hi, lo)
    ensures var t := StoreAll(chip, s, rest);
            FeedAll(chip, s, rest) == if t.at == Astray then t else t.(at := Terminator(ProgPage(hi, lo, dest, got + rest)))
    decreases |rest|
  {
    if !Mapped(chip, s.nvm, s.address) {
      StoppedStays(chip, s.(at := Astray), rest[1..]);
    } else {
      var s1 := s.(nvm := Stored(chip, s.nvm, s.address, rest[0]), address := Plus(s.address, 1));
      if |rest| == 1 {
        assert rest == [rest[0]];
      } else {
        var s2 := s1.(at := Data(hi, lo, dest, got + [rest[0]]));
        DataRuns(chip, s2, hi, lo, dest, got + [rest[0]], rest[1..]);
        StoreAllAt(chip, s1, s2.at, rest[1..]);
        assert got + [rest[0]] + rest[1..] == got + rest;
      }
    }
  }

  /** Storing does not look at what the loop expects. */
  lemma {:induction false} StoreAllAt(chip: Chip, s: Boot, at: Expect, data: seq<byte>)
    requires ValidChip(chip, s.nvm) && s.at != Astray && at != Astray
    ensures var t := StoreAll(chip, s, data);
            StoreAll(chip, s.(at := at), data) == if t.at == Astray then t else t.(at := at)
    ensures var t := StoreAll(chip, s, data); t.at == s.at || t.at == Astray
    decreases |data|
  {
    if data != [] && Mapped(chip, s.nvm, s.address) {
      StoreAllAt(chip, s.(nvm := Stored(chip, s.nvm, s.address, data[0]), address := Plus(s.address, 1)), at, data[1..]);
    }
  }

  lemma FeedFirst(chip: Chip, s: Boot, b: byte, rest: seq<byte>)
    requires ValidChip(chip, s.nvm)
    ensures FeedAll(chip, s, [b] + rest) == FeedAll(chip, Feed(chip, s, b), rest)
  {
    assert ([b] + rest)[1..] == rest;
  }

  lemma FeedTwo(chip: Chip, s: Boot, a: byte, b: byte, rest: seq<byte>)
    requires ValidChip(chip, s.nvm)
    ensures FeedAll(chip, s, [a, b] + rest) == FeedAll(chip, Feed(chip, Feed(chip, s, a), b), rest)
  {
    assert [a, b] + rest == [a] + ([b] + rest);
    FeedFirst(chip, s, a, [b] + rest);
    FeedFirst(chip, Feed(chip, s, a), b, rest);
  }

  /** The four bytes in front of the data of PROG_PAGE, and all of READ_PAGE. */
  lemma HeaderRuns(chip: Chip, s: Boot, code: byte, hi: byte, lo: byte, dest: byte, rest: seq<byte>)
    requires ValidChip(chip, s.nvm) && s.at == Code && (code == PROG_PAGE || code == READ_PAGE)
    ensures FeedAll(chip, s, [code, hi, lo, dest] + rest) == FeedAll(chip, OnDest(chip, s, code, hi, lo, dest), rest)
  {
    assert [code, hi, lo, dest] + rest == [code, hi] + ([lo, dest] + rest);
    FeedTwo(chip, s, code, hi, [lo, dest] + rest);
    FeedTwo(chip, s.(at := LenLow(code, hi)), lo, dest, rest);
  }

  lemma AddressRuns(chip: Chip, s: Boot, lo: byte, hi: byte)
    requires ValidChip(chip, s.nvm) && s.at == Code
    ensures FeedAll(chip, s, [LOAD_ADDRESS, lo, hi]) == s.(address := Word(hi, lo), at := Terminator(LoadAddress(lo, hi)))
  {
    var s1 := s.(at := AddrLow);
    var s2 := s1.(address := Word(Hi(s.address), lo), at := AddrHigh(lo));
    var s3 := s2.(address := Word(hi, lo), at := Terminator(LoadAddress(lo, hi)));
    LowByte(Hi(s.address), lo);
    assert Feed(chip, s, LOAD_ADDRESS) == s1 && Feed(chip, s1, lo) == s2 && Feed(chip, s2, hi) == s3;
    assert FeedAll(chip, s3, []) == s3;
    hide Feed, FeedAll, Word, Hi, Lo;
    assert [LOAD_ADDRESS, lo, hi] == [LOAD_ADDRESS, lo] + ([hi] + []);
    FeedTwo(chip, s, LOAD_ADDRESS, lo, [hi] + []);
    FeedFirst(chip, s2, hi, []);
  }

  lemma LowByte(hi: byte, lo: byte)
    ensures Lo(Word(hi, lo)) == lo
  {
  }

  lemma ShortRuns(chip: Chip, s: Boot, c: Command)
    requires ValidChip(chip, s.nvm) && s.at == Code && WellFormed(chip, c)
    requires c.GetParameter? || c.ReadSign? || c.LeaveProgmode? || c.Other? || c.Ignored?
    ensures FeedAll(chip, s, Body(c)) == Taken(chip, s, c).(at := Terminator(c))
  {
    match c
    case GetParameter(which) =>
      assert Body(c) == [GET_PARAMETER] + [which];
      FeedFirst(chip, s, GET_PARAMETER, [which]);
      FeedFirst(chip, s.(at := Which), which, []);
    case Ignored(code, bytes) =>
      FeedFirst(chip, s, code, bytes);
      SkipRuns(chip, s.(at := Skip(code, [])), code, [], bytes);
      assert [] + bytes == bytes;
    case ReadSign => FeedFirst(chip, s, READ_SIGN, []);
    case LeaveProgmode => FeedFirst(chip, s, LEAVE_PROGMODE, []);
    case Other(code) => FeedFirst(chip, s, code, []);
  }

  lemma BodyRuns(chip: Chip, s: Boot, c: Command)
    requires ValidChip(chip, s.nvm) && s.at == Code && WellFormed(chip, c)
    ensures var t := Taken(chip, s, c); FeedAll(chip, s, Body(c)) == if t.at == Astray then t else t.(at := Terminator(c))
    ensures var t := Taken(chip, s, c); t.at == Code || t.at == Astray
  {
    match c
    case LoadAddress(lo, hi) => AddressRuns(chip, s, lo, hi);
    case ReadPage(hi, lo, dest) =>
      HeaderRuns(chip, s, READ_PAGE, hi, lo, dest, []);
      assert Body(c) == [READ_PAGE, hi, lo, dest] + [];
    case ProgPage(hi, lo, dest, data) =>
      HeaderRuns(chip, s, PROG_PAGE, hi, lo, dest, data);
      var s1 := s.(address := Plus(s.address, Start(chip, dest)));
      var at := Data(hi, lo, dest, []);
      DataRuns(chip, s1.(at := at), hi, lo, dest, [], data);
      StoreAllAt(chip, s1, at, data);
      assert [] + data == data;
    case _ => ShortRuns(chip, s, c);
  }

  lemma TerminatorIgnoresWhere(chip: Chip, s: Boot, c: Command, at: Expect)
    requires ValidChip(chip, s.nvm) && s.at != Astray && at != Astray
    ensures OnTerminator(chip, s.(at := at), c, EOP) == OnTerminator(chip, s, c, EOP)
  {
    if c.ReadPage? {
      var s1 := Put(s, [INSYNC]);
      EmitAt(chip, s1.(address := Plus(s1.address, Start(chip, c.dest))), Count(chip, c.lenHi, c.lenLo), at);
    }
  }

  lemma {:induction false} EmitAt(chip: Chip, s: Boot, n: nat, at: Expect)
    requires ValidChip(chip, s.nvm) && s.at != Astray && at != Astray
    ensures var t := Emit(chip, s, n); Emit(chip, s.(at := at), n) == if t.at == Astray then t else t.(at := at)
    ensures var t := Emit(chip, s, n); t.at == s.at || t.at == Astray
    decreases n
  {
    if n != 0 && Mapped(chip, s.nvm, s.address) {
      EmitAt(chip, s.(output := s.output + [Loaded(chip, s.nvm, s.address)], address := Plus(s.address, 1)), n - 1, at);
    }
  }

  lemma CommandEnds(chip: Chip, s: Boot, c: Command)
    requires ValidChip(chip, s.nvm) && s.at != Astray
    ensures FeedAll(chip, s.(at := Terminator(c)), [EOP]) == OnTerminator(chip, s, c, EOP)
  {
    TerminatorIgnoresWhere(chip, s, c, Terminator(c));
    FeedFirst(chip, s.(at := Terminator(c)), EOP, []);
    assert [EOP] + [] == [EOP];
  }

  /** One encoded command is carried out. */
  lemma CommandRuns(chip: Chip, s: Boot, c: Command)
    requires ValidChip(chip, s.nvm) && s.at == Code && WellFormed(chip, c)
    ensures FeedAll(chip, s, Encode(c)) == Exec(chip, s, c)
  {
    BodyRuns(chip, s, c);
    FeedAllTwice(chip, s, Body(c), [EOP]);
    var t := Taken(chip, s, c);
    if t.at == Astray { StoppedStays(chip, t, [EOP]); } else { CommandEnds(chip, t, c); }
  }

  /** The reply between INSYNC and OK. */
  function Payload(chip: Chip, s: Boot, c: Command): seq<byte>
    requires ValidChip(chip, s.nvm)
  {
    match c
    case GetParameter(which) => [ParameterValue(chip, which)]
    case Ignored(code, _) => if code == UNIVERSAL then [0] else []
    case ReadPage(hi, lo, dest) => Read(chip, s.nvm, Plus(s.address, Start(chip, dest)), Count(chip, hi, lo))
    case ReadSign => [chip.sign.0, chip.sign.1, chip.sign.2]
    case _ => []
  }

  /** n bytes of flash or EEPROM from an address on. */
  function Read(chip: Chip, m: Nvm, a: word, n: nat): seq<byte>
    decreases n
  {
    if n == 0 || !Mapped(chip, m, a) then [] else [Loaded(chip, m, a)] + Read(chip, m, Plus(a, 1), n - 1)
  }

  lemma {:induction false} EmitReads(chip: Chip, s: Boot, n: nat)
    requires ValidChip(chip, s.nvm) && s.at != Astray
    ensures var t := Emit(chip, s, n); t.output == s.output + Read(chip, s.nvm, s.address, n)
    decreases n
  {
    if n != 0 && Mapped(chip, s.nvm, s.address) {
      var x := [Loaded(chip, s.nvm, s.address)];
      var s1 := s.(output := s.output + x, address := Plus(s.address, 1));
      EmitReads(chip, s1, n - 1);
      assert s.output + x + Read(chip, s.nvm, s1.address, n - 1) == s.output + (x + Read(chip, s.nvm, s1.address, n - 1));
    }
  }

  lemma {:induction false} StoreAllIsSilent(chip: Chip, s: Boot, data: seq<byte>)
    requires ValidChip(chip, s.nvm)
    ensures var t := StoreAll(chip, s, data); t.output == s.output && t.done == s.done && t.wdt == s.wdt && SameContents(s.nvm, t.nvm)
    decreases |data|
  {
    if data != [] && Mapped(chip, s.nvm, s.address) {
      StoreAllIsSilent(chip, s.(nvm := Stored(chip, s.nvm, s.address, data[0]), address := Plus(s.address, 1)), data[1..]);
    }
  }

  // Whether a command stays inside the mapped memories, as a host can tell beforehand.

  function Moved(a: word, k: nat): word { (a + k) % 0x1_0000 }

  /** k addresses from a on, all of them mapped. */
  predicate MappedFrom(chip: Chip, n: Nvm, a: word, k: nat)
    decreases k
  {
    k == 0 || (Mapped(chip, n, a) && MappedFrom(chip, n, Plus(a, 1), k - 1))
  }

  /** How many addresses a command goes through. */
  function Span(chip: Chip, c: Command): nat {
    match c
    case ProgPage(_, _, _, data) => |data|
    case ReadPage(hi, lo, _) => Count(chip, hi, lo)
    case _ => 0
  }

  /** Where it begins, with the address at a. */
  function First(chip: Chip, a: word, c: Command): word {
    match c
    case LoadAddress(lo, hi) => Word(hi, lo)
    case ProgPage(_, _, dest, _) => Plus(a, Start(chip, dest))
    case ReadPage(_, _, dest) => Plus(a, Start(chip, dest))
    case _ => a
  }

  /** Where it leaves the address. */
  function Next(chip: Chip, a: word, c: Command): word { Moved(First(chip, a, c), Span(chip, c)) }

  predicate Within(chip: Chip, n: Nvm, a: word, c: Command) { MappedFrom(chip, n, First(chip, a, c), Span(chip, c)) }

  /** Every command of a list stays inside, each from the address that the one before it leaves. */
  predicate StaysMapped(chip: Chip, n: Nvm, a: word, cs: seq<Command>)
    decreases |cs|
  {
    cs == [] || (Within(chip, n, a, cs[0]) && StaysMapped(chip, n, Next(chip, a, cs[0]), cs[1..]))
  }

  lemma {:induction false} MappedBySizes(chip: Chip, n: Nvm, m: Nvm, a: word, k: nat)
    requires SameSizes(n, m)
    ensures MappedFrom(chip, n, a, k) == MappedFrom(chip, m, a, k)
    decreases k
  {
    if k != 0 { MappedBySizes(chip, n, m, Plus(a, 1), k - 1); }
  }

  lemma {:induction false} StaysBySizes(chip: Chip, n: Nvm, m: Nvm, a: word, cs: seq<Command>)
    requires SameSizes(n, m)
    ensures StaysMapped(chip, n, a, cs) == StaysMapped(chip, m, a, cs)
    decreases |cs|
  {
    if cs != [] {
      MappedBySizes(chip, n, m, First(chip, a, cs[0]), Span(chip, cs[0]));
      StaysBySizes(chip, n, m, Next(chip, a, cs[0]), cs[1..]);
    }
  }

  lemma OneMoreMoved(a: word, k: nat)
    requires k > 0
    ensures Moved(Plus(a, 1), k - 1) == Moved(a, k)
  {
  }

  /** PROG_PAGE's loop goes astray exactly when it leaves the mapped memories. */
  lemma {:induction false} StoreAllStays(chip: Chip, s: Boot, data: seq<byte>)
    requires ValidChip(chip, s.nvm) && s.at != Astray
    ensures var t := StoreAll(chip, s, data);
            && (t.at == Astray <==> !MappedFrom(chip, s.nvm, s.address, |data|))
            && (t.at != Astray ==> t.at == s.at && t.address == Moved(s.address, |data|))
    decreases |data|
  {
    if data != [] && Mapped(chip, s.nvm, s.address) {
      var s1 := s.(nvm := Stored(chip, s.nvm, s.address, data[0]), address := Plus(s.address, 1));
      StoreAllStays(chip, s1, data[1..]);
      MappedBySizes(chip, s.nvm, s1.nvm, s1.address, |data| - 1);
      OneMoreMoved(s.address, |data|);
    }
  }

  /** So does READ_PAGE's. */
  lemma {:induction false} EmitStays(chip: Chip, s: Boot, n: nat)
    requires ValidChip(chip, s.nvm) && s.at != Astray
    ensures var t := Emit(chip, s, n);
            && (t.at == Astray <==> !MappedFrom(chip, s.nvm, s.address, n))
            && (t.at != Astray ==> t.at == s.at && t.address == Moved(s.address, n))
    decreases n
  {
    if n != 0 && Mapped(chip, s.nvm, s.address) {
      EmitStays(chip, s.(output := s.output + [Loaded(chip, s.nvm, s.address)], address := Plus(s.address, 1)), n - 1);
      OneMoreMoved(s.address, n);
    }
  }

  lemma TakenStays(chip: Chip, s: Boot, c: Command)
    requires ValidChip(chip, s.nvm) && s.at == Code && !c.ReadPage?
    ensures var t := Taken(chip, s, c);
            && (t.at == Astray <==> !Within(chip, s.nvm, s.address, c))
            && (t.at != Astray ==> t.at == Code && t.address == Next(chip, s.address, c))
  {
    hide MappedFrom;
    match c
    case ProgPage(_, _, dest, data) => StoreAllStays(chip, s.(address := Plus(s.address, Start(chip, dest))), data);
    case _ => NoSpan(chip, s.nvm, First(chip, s.address, c));
  }

  lemma NoSpan(chip: Chip, n: Nvm, a: word)
    ensures MappedFrom(chip, n, a, 0) && Moved(a, 0) == a
  {
  }

  /** A command goes astray exactly when it leaves the mapped memories. */
  lemma ExecStays(chip: Chip, s: Boot, c: Command)
    requires ValidChip(chip, s.nvm) && s.at == Code
    ensures var t := Exec(chip, s, c);
            && (t.at == Astray <==> !Within(chip, s.nvm, s.address, c))
            && (t.at != Astray ==> t.at == Code && t.address == Next(chip, s.address, c))
  {
    hide MappedFrom, Moved, StoreAll, Committed, ParameterValue, Count;
    match c
    case ReadPage(hi, lo, dest) =>
      EmitStays(chip, Put(s, [INSYNC]).(address := Plus(s.address, Start(chip, dest))), Count(chip, hi, lo));
    case _ => TakenStays(chip, s, c);
  }

  /** A command that stays inside replies INSYNC, its payload and OK, is noted as done and leaves the address where it
      should; any other one leads astray. */
  lemma ExecReplies(chip: Chip, s: Boot, c: Command)
    requires ValidChip(chip, s.nvm) && s.at == Code && WellFormed(chip, c)
    ensures var t := Exec(chip, s, c);
            if Within(chip, s.nvm, s.address, c) then
              && t.at == Code && t.done == s.done + [c] && t.output == s.output + [INSYNC] + Payload(chip, s, c) + [OK]
              && t.address == Next(chip, s.address, c)
            else t.at == Astray
  {
    ExecStays(chip, s, c);
    ExecAnswers(chip, s, c);
  }

  lemma ExecAnswers(chip: Chip, s: Boot, c: Command)
    requires ValidChip(chip, s.nvm) && s.at == Code && WellFormed(chip, c)
    ensures var t := Exec(chip, s, c);
            t.at == Astray || (t.at == Code && t.done == s.done + [c] && t.output == s.output + [INSYNC] + Payload(chip, s, c) + [OK])
  {
    BodyRuns(chip, s, c);
    match c
    case ReadPage(hi, lo, dest) =>
      var s1 := Put(s, [INSYNC]);
      var s2 := s1.(address := Plus(s1.address, Start(chip, dest)));
      EmitKeeps(chip, s2, Count(chip, hi, lo));
      EmitReads(chip, s2, Count(chip, hi, lo));
    case ProgPage(_, _, dest, data) =>
      StoreAllIsSilent(chip, s.(address := Plus(s.address, Start(chip, dest))), data);
      assert s.output + [INSYNC] == s.output + [INSYNC] + [];
    case _ => assert s.output + [INSYNC] == s.output + [INSYNC] + [];
  }

  /** The replies to a list of commands, each from the state that the ones before it leave. */
  function Replies(chip: Chip, s: Boot, cs: seq<Command>): seq<byte>
    requires ValidChip(chip, s.nvm)
    decreases |cs|
  {
    if cs == [] then [] else [INSYNC] + Payload(chip, s, cs[0]) + [OK] + Replies(chip, Exec(chip, s, cs[0]), cs[1..])
  }

  lemma {:induction false} ListRuns(chip: Chip, s: Boot, cs: seq<Command>)
    requires ValidChip(chip, s.nvm) && s.at == Code && AllWellFormed(chip, cs)
    ensures FeedAll(chip, s, EncodeAll(cs)) == ExecAll(chip, s, cs)
    decreases |cs|
  {
    if cs != [] {
      CommandRuns(chip, s, cs[0]);
      FeedAllTwice(chip, s, Encode(cs[0]), EncodeAll(cs[1..]));
      ExecReplies(chip, s, cs[0]);
      var s1 := Exec(chip, s, cs[0]);
      if s1.at == Astray { StoppedStays(chip, s1, EncodeAll(cs[1..])); } else { ListRuns(chip, s1, cs[1..]); }
    }
  }

  /** The list is done and answered. */
  predicate Answered(chip: Chip, s: Boot, cs: seq<Command>, t: Boot)
    requires ValidChip(chip, s.nvm)
  {
    t.at == Code && t.done == s.done + cs && t.output == s.output + Replies(chip, s, cs)
  }

  lemma RepliesFirst(chip: Chip, s: Boot, s1: Boot, cs: seq<Command>)
    requires ValidChip(chip, s.nvm) && ValidChip(chip, s1.nvm) && cs != [] && s1 == Exec(chip, s, cs[0])
    ensures Replies(chip, s, cs) == [INSYNC] + Payload(chip, s, cs[0]) + [OK] + Replies(chip, s1, cs[1..])
  {
  }

  lemma Rejoin(out: seq<byte>, a: seq<byte>, b: seq<byte>)
    ensures out + [INSYNC] + a + [OK] + b == out + ([INSYNC] + a + [OK] + b)
  {
  }

  lemma AnsweredOneMore(chip: Chip, s: Boot, s1: Boot, cs: seq<Command>, t: Boot)
    requires ValidChip(chip, s.nvm) && ValidChip(chip, s1.nvm) && cs != []
    requires Answered(chip, s1, cs[1..], t)
    requires s1.done == s.done + [cs[0]] && s1.output == s.output + [INSYNC] + Payload(chip, s, cs[0]) + [OK]
    ensures t.at == Code && t.done == s.done + cs
    ensures t.output == s.output + ([INSYNC] + Payload(chip, s, cs[0]) + [OK] + Replies(chip, s1, cs[1..]))
  {
    assert s.done + [cs[0]] + cs[1..] == s.done + cs;
    Rejoin(s.output, Payload(chip, s, cs[0]), Replies(chip, s1, cs[1..]));
  }

  lemma {:induction false} ListAnswers(chip: Chip, s: Boot, cs: seq<Command>)
    requires ValidChip(chip, s.nvm) && s.at == Code && AllWellFormed(chip, cs)
    ensures var t := ExecAll(chip, s, cs); t.at == Astray || Answered(chip, s, cs, t)
    decreases |cs|
  {
    if cs == [] {
      assert s.done + cs == s.done && s.output + [] == s.output;
    } else {
      ExecReplies(chip, s, cs[0]);
      var s1 := Exec(chip, s, cs[0]);
      if s1.at != Astray {
        ListAnswers(chip, s1, cs[1..]);
        var t := ExecAll(chip, s1, cs[1..]);
        if t.at != Astray {
          AnsweredOneMore(chip, s, s1, cs, t);
          RepliesFirst(chip, s, s1, cs);
        }
      }
    }
  }

  /** A list goes astray exactly when one of its commands does. */
  lemma {:induction false} ListStays(chip: Chip, s: Boot, cs: seq<Command>)
    requires ValidChip(chip, s.nvm) && s.at == Code
    ensures ExecAll(chip, s, cs).at == Astray <==> !StaysMapped(chip, s.nvm, s.address, cs)
    decreases |cs|
  {
    if cs != [] {
      ExecStays(chip, s, cs[0]);
      var s1 := Exec(chip, s, cs[0]);
      hide Exec, Within, Next;
      if s1.at != Astray {
        ListStays(chip, s1, cs[1..]);
        StaysBySizes(chip, s.nvm, s1.nvm, s1.address, cs[1..]);
      }
    }
  }

  /** Every list of well-formed commands: from its encoding the loop recovers exactly this list and sends exactly its
      replies in order, if no command leads outside of the mapped memories; it goes astray if one does. */
  lemma EveryListIsCarriedOut(chip: Chip, s: Boot, cs: seq<Command>)
    requires ValidChip(chip, s.nvm) && s.at == Code && AllWellFormed(chip, cs)
    ensures var t := FeedAll(chip, s, EncodeAll(cs));
            && t == ExecAll(chip, s, cs)
            && if StaysMapped(chip, s.nvm, s.address, cs) then
                 t.at == Code && t.done == s.done + cs && t.output == s.output + Replies(chip, s, cs)
               else t.at == Astray
  {
    ListRuns(chip, s, cs);
    ListAnswers(chip, s, cs);
    ListStays(chip, s, cs);
  }
}
