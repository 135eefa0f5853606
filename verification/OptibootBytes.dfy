/** The bytes on the line, written out: what the host sends, what it gets back, and what is in flash and EEPROM then. */
module OptibootBytes {
  import opened Bits
  import opened Optiboot
  import opened OptibootRuns
  import opened OptibootImage

  // Data of any length within one page, of flash or of EEPROM.

  /** The memory that a destination byte selects. */
  function Memory(m: Nvm, dest: byte): seq<byte> { if dest == FLASH then m.flash else m.eeprom }

  function PageSize(chip: Chip, dest: byte): nat { if dest == FLASH then chip.page else chip.epage }

  /** n bytes from an offset on lie within one page. */
  predicate InOnePage(chip: Chip, m: Nvm, dest: byte, at: nat, n: nat)
    requires ValidChip(chip, m)
  {
    at + n <= |Memory(m, dest)| && at % PageSize(chip, dest) + n <= PageSize(chip, dest)
  }

  /** A length that the loader's counter of 8 or 16 bits takes. */
  predicate IsLength(chip: Chip, n: nat) { 0 < n <= if chip.page > 255 then 0xFFFF else 0x100 }

  lemma CountIs(chip: Chip, n: nat)
    requires IsLength(chip, n)
    ensures n < 0x1_0000 && Count(chip, Hi(n), Lo(n)) == n
  {
  }

  /** How often a loop runs that counts down to zero: as often as the length says, in 8 or in 16 bits, but at least once. */
  lemma CountExactly(chip: Chip, hi: byte, lo: byte, n: nat)
    ensures var limit := if chip.page > 255 then 0x1_0000 else 0x100;
            n == Count(chip, hi, lo) <==> 0 < n <= limit && n % limit == Word(hi, lo) % limit
  {
  }

  lemma OffsetIs(chip: Chip, m: Nvm, dest: byte, at: nat)
    requires ValidChip(chip, m) && at < |Memory(m, dest)|
    ensures Start(chip, dest) + at < 0x1_0000
    ensures var a := Start(chip, dest) + at;
            && (if dest == FLASH then InFlash(chip, m, a) else InEeprom(chip, m, a) && !InFlash(chip, m, a))
            && Offset(chip, m, a) == at % PageSize(chip, dest)
            && Loaded(chip, m, a) == Memory(m, dest)[at]
  {
  }

  lemma NextOffset(at: nat, page: nat)
    requires page > 0 && at % page + 1 < page
    ensures (at + 1) % page == at % page + 1
  {
    DivUnique(at + 1, page, at / page, at % page + 1);
  }

  /** A buffer with bytes stored from offset j on. */
  ghost predicate Buffered(a: map<nat, byte>, b: map<nat, byte>, j: nat, data: seq<byte>) {
    && (forall i: nat :: i in b <==> i in a || j <= i < j + |data|)
    && (forall i :: j <= i < j + |data| ==> i in b && b[i] == data[i - j])
    && (forall i :: i in a && !(j <= i < j + |data|) ==> i in b && b[i] == a[i])
  }

  lemma BufferedMore(a: map<nat, byte>, b: map<nat, byte>, j: nat, data: seq<byte>)
    requires data != [] && Buffered(a[j := data[0]], b, j + 1, data[1..])
    ensures Buffered(a, b, j, data)
  {
    forall i | j <= i < j + |data|
      ensures i in b && b[i] == data[i - j]
    {
      if i > j { assert data[1..][i - j - 1] == data[i - j]; }
    }
  }

  /** PROG_PAGE's loop within a page. */
  lemma {:induction false} StoresGo(chip: Chip, s: Boot, dest: byte, at: nat, data: seq<byte>)
    requires ValidChip(chip, s.nvm) && s.at != Astray && InOnePage(chip, s.nvm, dest, at, |data|) && data != []
    requires s.address == Start(chip, dest) + at
    ensures var t := StoreAll(chip, s, data);
            && t.at == s.at && SameContents(s.nvm, t.nvm) && t.nvm.target == Start(chip, dest) + at + |data| - 1
            && Buffered(s.nvm.buffer, t.nvm.buffer, at % PageSize(chip, dest), data)
    decreases |data|
  {
    var page := PageSize(chip, dest);
    OffsetIs(chip, s.nvm, dest, at);
    var s1 := s.(nvm := Stored(chip, s.nvm, s.address, data[0]), address := Plus(s.address, 1));
    var t := StoreAll(chip, s1, data[1..]);
    if |data| > 1 {
      NextOffset(at, page);
      OffsetIs(chip, s.nvm, dest, at + 1);
      StoresGo(chip, s1, dest, at + 1, data[1..]);
    }
    BufferedMore(s.nvm.buffer, t.nvm.buffer, at % page, data);
  }

  lemma PageOfLast(at: nat, n: nat, page: nat)
    requires page > 0 && n > 0 && at % page + n <= page
    ensures PageOf(at + n - 1, page) == at - at % page
  {
    var q, r := at / page, at % page;
    assert at == page * q + r;
    DivUnique(at + n - 1, page, q, r + n - 1);
  }

  /** EEPROM with data written into it: only the bytes stored have changed. */
  lemma CommitsToEeprom(chip: Chip, m: Nvm, dest: byte, at: nat, data: seq<byte>)
    requires ValidChip(chip, m) && dest != FLASH && InOnePage(chip, m, dest, at, |data|) && data != []
    requires m.target == chip.eepromStart + at + |data| - 1 && Buffered(map[], m.buffer, at % chip.epage, data)
    ensures Committed(chip, m) == m.(eeprom := Overlay(m.eeprom, at, data), buffer := map[])
  {
    OffsetIs(chip, m, dest, at + |data| - 1);
    PageOfLast(at, |data|, chip.epage);
    assert Committed(chip, m).eeprom == Overlay(m.eeprom, at, data);
  }

  /** The page of a flash with data in it and 0xFF around it. */
  function Erased(flash: seq<byte>, at: nat, data: seq<byte>, page: nat): seq<byte>
    requires page > 0
  {
    seq(|flash|, i requires 0 <= i < |flash| =>
      if at <= i < at + |data| then data[i - at] else if at - at % page <= i < at - at % page + page then 0xFF else flash[i])
  }

  /** Flash with data written into it: the rest of the page is erased. */
  lemma CommitsToFlash(chip: Chip, m: Nvm, at: nat, data: seq<byte>)
    requires ValidChip(chip, m) && InOnePage(chip, m, FLASH, at, |data|) && data != []
    requires m.target == chip.flashStart + at + |data| - 1 && Buffered(map[], m.buffer, at % chip.page, data)
    ensures Committed(chip, m) == m.(flash := Erased(m.flash, at, data, chip.page), buffer := map[])
  {
    OffsetIs(chip, m, FLASH, at + |data| - 1);
    PageOfLast(at, |data|, chip.page);
    hide PageOf, Offset;
    var p := at - at % chip.page;
    assert PageOf(m.target - chip.flashStart, chip.page) == p;
    FlashPage(m.flash, m.buffer, p, at - p, chip.page, data);
  }

  /** The page at p from a buffer with data from offset j on. */
  lemma FlashPage(flash: seq<byte>, buffer: map<nat, byte>, p: nat, j: nat, page: nat, data: seq<byte>)
    requires page > 0 && j == (p + j) % page && j + |data| <= page && Buffered(map[], buffer, j, data)
    ensures seq(|flash|, i requires 0 <= i < |flash| =>
              if p <= i < p + page then (if i - p in buffer then buffer[i - p] else 0xFF) else flash[i])
            == Erased(flash, p + j, data, page)
  {
    var a := seq(|flash|, i requires 0 <= i < |flash| =>
      if p <= i < p + page then (if i - p in buffer then buffer[i - p] else 0xFF) else flash[i]);
    var b := Erased(flash, p + j, data, page);
    forall i | 0 <= i < |flash|
      ensures a[i] == b[i]
    {
    }
  }

  // Two commands on the line.

  function ProgramBytes(at: word, dest: byte, data: seq<byte>): seq<byte>
    requires |data| < 0x1_0000
  {
    [0x55, Lo(at), Hi(at), 0x20, 0x64, Hi(|data|), Lo(|data|), dest] + data + [0x20]
  }

  function ReadBytes(at: word, dest: byte, n: word): seq<byte> {
    [0x55, Lo(at), Hi(at), 0x20, 0x74, Hi(n), Lo(n), dest, 0x20]
  }

  lemma ProgramBytesAre(at: word, dest: byte, data: seq<byte>)
    requires |data| < 0x1_0000
    ensures ProgramBytes(at, dest, data) == EncodeAll([LoadAddress(Lo(at), Hi(at)), ProgPage(Hi(|data|), Lo(|data|), dest, data)])
  {
    PairIs(LoadAddress(Lo(at), Hi(at)), ProgPage(Hi(|data|), Lo(|data|), dest, data));
    assert ProgramBytes(at, dest, data) == ([0x55, Lo(at), Hi(at)] + [0x20]) + (([0x64, Hi(|data|), Lo(|data|), dest] + data) + [0x20]);
  }

  lemma ReadBytesAre(at: word, dest: byte, n: word)
    ensures ReadBytes(at, dest, n) == EncodeAll([LoadAddress(Lo(at), Hi(at)), ReadPage(Hi(n), Lo(n), dest)])
  {
    PairIs(LoadAddress(Lo(at), Hi(at)), ReadPage(Hi(n), Lo(n), dest));
    assert ReadBytes(at, dest, n) == ([0x55, Lo(at), Hi(at)] + [0x20]) + ([0x74, Hi(n), Lo(n), dest] + [0x20]);
  }

  lemma PairIs(a: Command, b: Command)
    ensures EncodeAll([a, b]) == Encode(a) + Encode(b)
  {
    hide Encode;
    assert [a, b][1..] == [b] && [b][1..] == [];
    assert EncodeAll([b]) == Encode(b) + EncodeAll([]);
    assert Encode(b) + [] == Encode(b);
  }

  /** LOAD_ADDRESS and what it answers. */
  lemma Addressed(chip: Chip, s: Boot, at: word)
    requires ValidChip(chip, s.nvm) && s.at == Code
    ensures var t := Exec(chip, s, LoadAddress(Lo(at), Hi(at)));
            t.at == Code && t.nvm == s.nvm && t.address == at && t.output == s.output + [0x14, 0x10]
  {
    assert s.output + [0x14] + [0x10] == s.output + [0x14, 0x10];
  }

  lemma PairRuns(chip: Chip, s: Boot, at: word, c: Command)
    requires ValidChip(chip, s.nvm) && s.at == Code && WellFormed(chip, c)
    ensures var a := LoadAddress(Lo(at), Hi(at)); var s1 := Exec(chip, s, a);
            s1.at == Code && FeedAll(chip, s, EncodeAll([a, c])) == Exec(chip, s1, c)
  {
    Addressed(chip, s, at);
    var a := LoadAddress(Lo(at), Hi(at));
    ListRuns(chip, s, [a, c]);
    ExecPair(chip, s, Exec(chip, s, a), a, c);
  }

  /** The bytes of LOAD_ADDRESS and PROG_PAGE up to the terminator. */
  lemma Programs(chip: Chip, s: Boot, at: nat, dest: byte, data: seq<byte>)
    requires ValidChip(chip, s.nvm) && s.at == Code && s.nvm.buffer == map[]
    requires InOnePage(chip, s.nvm, dest, at, |data|) && IsLength(chip, |data|)
    ensures at < 0x1_0000 && |data| < 0x1_0000
    ensures var t := FeedAll(chip, s, ProgramBytes(at, dest, data));
            && t.at == Code && t.output == s.output + [0x14, 0x10, 0x14, 0x10]
            && t.nvm.flash == (if dest == FLASH then Erased(s.nvm.flash, at, data, chip.page) else s.nvm.flash)
            && t.nvm.eeprom == (if dest == FLASH then s.nvm.eeprom else Overlay(s.nvm.eeprom, at, data))
            && t.nvm.buffer == map[]
  {
    CountIs(chip, |data|);
    OffsetIs(chip, s.nvm, dest, at);
    var c := ProgPage(Hi(|data|), Lo(|data|), dest, data);
    ProgramBytesAre(at, dest, data);
    PairRuns(chip, s, at, c);
    Addressed(chip, s, at);
    var s1 := Exec(chip, s, LoadAddress(Lo(at), Hi(at)));
    hide FeedAll, EncodeAll, ProgramBytes;
    ProgramsOnePage(chip, s1, at, dest, data);
    assert s.output + [0x14, 0x10] + [0x14, 0x10] == s.output + [0x14, 0x10, 0x14, 0x10];
  }

  lemma ProgramsOnePage(chip: Chip, s: Boot, at: nat, dest: byte, data: seq<byte>)
    requires ValidChip(chip, s.nvm) && s.at == Code && s.nvm.buffer == map[] && s.address == at
    requires InOnePage(chip, s.nvm, dest, at, |data|) && IsLength(chip, |data|)
    ensures |data| < 0x1_0000
    ensures var t := Exec(chip, s, ProgPage(Hi(|data|), Lo(|data|), dest, data));
            && t.at == Code && t.output == s.output + [0x14, 0x10]
            && t.nvm.flash == (if dest == FLASH then Erased(s.nvm.flash, at, data, chip.page) else s.nvm.flash)
            && t.nvm.eeprom == (if dest == FLASH then s.nvm.eeprom else Overlay(s.nvm.eeprom, at, data))
            && t.nvm.buffer == map[]
  {
    OffsetIs(chip, s.nvm, dest, at);
    var s2 := s.(address := Plus(s.address, Start(chip, dest)));
    StoresGo(chip, s2, dest, at, data);
    StoreAllIsSilent(chip, s2, data);
    var m := StoreAll(chip, s2, data).nvm;
    if dest == FLASH { CommitsToFlash(chip, m, at, data); } else { CommitsToEeprom(chip, m, dest, at, data); }
    hide StoreAll, Committed, Offset, Buffered;
    assert s.output + [0x14] + [0x10] == s.output + [0x14, 0x10];
  }

  lemma {:induction false} ReadsBack(chip: Chip, m: Nvm, dest: byte, at: nat, n: nat)
    requires ValidChip(chip, m) && at + n <= |Memory(m, dest)| && at < |Memory(m, dest)|
    ensures Start(chip, dest) + at < 0x1_0000 && Read(chip, m, Start(chip, dest) + at, n) == Memory(m, dest)[at..at + n]
    ensures MappedFrom(chip, m, Start(chip, dest) + at, n)
    decreases n
  {
    OffsetIs(chip, m, dest, at);
    hide Offset, Loaded, Memory, PageSize;
    if n == 1 {
      SliceMore(Memory(m, dest), at, 1);
    } else if n > 1 {
      ReadsBack(chip, m, dest, at + 1, n - 1);
      SliceMore(Memory(m, dest), at, n);
    }
  }

  lemma SliceMore(d: seq<byte>, at: nat, n: nat)
    requires 0 < n && at + n <= |d|
    ensures d[at..at + n] == [d[at]] + d[at + 1..at + n]
    ensures n == 1 ==> d[at + 1..at + n] == []
  {
  }

  /** The bytes of LOAD_ADDRESS and READ_PAGE are answered with the memory, which they leave alone. */
  lemma Reads(chip: Chip, s: Boot, at: nat, dest: byte, n: nat)
    requires ValidChip(chip, s.nvm) && s.at == Code && at + n <= |Memory(s.nvm, dest)| && IsLength(chip, n)
    ensures at < 0x1_0000 && n < 0x1_0000
    ensures var t := FeedAll(chip, s, ReadBytes(at, dest, n));
            t.at == Code && t.nvm == s.nvm && t.output == s.output + ([0x14, 0x10, 0x14] + Memory(s.nvm, dest)[at..at + n] + [0x10])
  {
    CountIs(chip, n);
    OffsetIs(chip, s.nvm, dest, at);
    var c := ReadPage(Hi(n), Lo(n), dest);
    ReadBytesAre(at, dest, n);
    PairRuns(chip, s, at, c);
    Addressed(chip, s, at);
    var s1 := Exec(chip, s, LoadAddress(Lo(at), Hi(at)));
    hide FeedAll, EncodeAll, ReadBytes, Exec;
    ReadsOne(chip, s1, at, dest, n);
    hide Memory;
    RepliesJoin(s.output, Memory(s.nvm, dest)[at..at + n]);
  }

  lemma RepliesJoin(out: seq<byte>, d: seq<byte>)
    ensures out + [0x14, 0x10] + ([0x14] + d + [0x10]) == out + ([0x14, 0x10, 0x14] + d + [0x10])
  {
  }

  lemma ReadsOne(chip: Chip, s: Boot, at: nat, dest: byte, n: nat)
    requires ValidChip(chip, s.nvm) && s.at == Code && s.address == at && at + n <= |Memory(s.nvm, dest)| && IsLength(chip, n)
    ensures n < 0x1_0000
    ensures var t := Exec(chip, s, ReadPage(Hi(n), Lo(n), dest));
            t.at == Code && t.nvm == s.nvm && t.output == s.output + ([0x14] + Memory(s.nvm, dest)[at..at + n] + [0x10])
  {
    CountIs(chip, n);
    OffsetIs(chip, s.nvm, dest, at);
    var s1 := Put(s, [INSYNC]).(address := Plus(s.address, Start(chip, dest)));
    ReadsBack(chip, s.nvm, dest, at, n);
    EmitStays(chip, s1, n);
    EmitReads(chip, s1, n);
    EmitKeeps(chip, s1, n);
    ReadPageDoes(chip, s, Hi(n), Lo(n), dest);
    hide *;
    Reply(s.output, Memory(s.nvm, dest)[at..at + n]);
  }

  lemma Reply(out: seq<byte>, d: seq<byte>)
    ensures out + [0x14] + d + [0x10] == out + ([0x14] + d + [0x10])
  {
  }

  /** EEPROM: any data within one of its pages is written where it should be and nowhere else, and read back. */
  lemma EepromIsWrittenAndReadBack(chip: Chip, s: Boot, at: nat, dest: byte, data: seq<byte>)
    requires ValidChip(chip, s.nvm) && s.at == Code && s.nvm.buffer == map[] && dest != 0x46
    requires at + |data| <= |s.nvm.eeprom| && at % chip.epage + |data| <= chip.epage && IsLength(chip, |data|)
    ensures at < 0x1_0000 && |data| < 0x1_0000
    ensures var t := FeedAll(chip, s, ProgramBytes(at, dest, data));
            && t.at == Code && t.output == s.output + [0x14, 0x10, 0x14, 0x10]
            && t.nvm.eeprom == Overlay(s.nvm.eeprom, at, data) && t.nvm.flash == s.nvm.flash
            && var u := FeedAll(chip, t, ReadBytes(at, dest, |data|));
            u.at == Code && u.nvm == t.nvm && u.output == t.output + ([0x14, 0x10, 0x14] + data + [0x10])
  {
    Programs(chip, s, at, dest, data);
    var t := FeedAll(chip, s, ProgramBytes(at, dest, data));
    hide FeedAll, ProgramBytes, ReadBytes;
    Reads(chip, t, at, dest, |data|);
    OverlayHolds(s.nvm.eeprom, at, data);
  }

  /** Flash: data within a page is written where it should be, the rest of its page is erased, no other page changes, and it is
      read back. */
  lemma FlashIsWrittenAndReadBack(chip: Chip, s: Boot, at: nat, data: seq<byte>)
    requires ValidChip(chip, s.nvm) && s.at == Code && s.nvm.buffer == map[]
    requires at + |data| <= |s.nvm.flash| && at % chip.page + |data| <= chip.page && IsLength(chip, |data|)
    ensures at < 0x1_0000 && |data| < 0x1_0000
    ensures var t := FeedAll(chip, s, ProgramBytes(at, 0x46, data));
            && t.at == Code && t.output == s.output + [0x14, 0x10, 0x14, 0x10]
            && |t.nvm.flash| == |s.nvm.flash| && t.nvm.flash[at..at + |data|] == data && t.nvm.eeprom == s.nvm.eeprom
            && (forall i :: 0 <= i < |s.nvm.flash| && !(at <= i < at + |data|) ==>
                  t.nvm.flash[i] == if at - at % chip.page <= i < at - at % chip.page + chip.page then 0xFF else s.nvm.flash[i])
            && var u := FeedAll(chip, t, ReadBytes(at, 0x46, |data|));
            u.at == Code && u.nvm == t.nvm && u.output == t.output + ([0x14, 0x10, 0x14] + data + [0x10])
  {
    Programs(chip, s, at, 0x46, data);
    ErasedHolds(s.nvm.flash, at, data, chip.page);
    var t := FeedAll(chip, s, ProgramBytes(at, 0x46, data));
    hide FeedAll, ProgramBytes, ReadBytes, Erased;
    Reads(chip, t, at, 0x46, |data|);
    hide *;
  }

  lemma ErasedHolds(flash: seq<byte>, at: nat, data: seq<byte>, page: nat)
    requires page > 0 && at + |data| <= |flash|
    ensures var f := Erased(flash, at, data, page);
            && |f| == |flash| && f[at..at + |data|] == data
            && forall i :: 0 <= i < |flash| && !(at <= i < at + |data|) ==>
                 f[i] == if at - at % page <= i < at - at % page + page then 0xFF else flash[i]
  {
    var f := Erased(flash, at, data, page);
    assert f[at..at + |data|] == data;
  }

  // The other commands.

  /** One command and its terminator, answered, with nothing stored. */
  predicate Answers(chip: Chip, s: Boot, input: seq<byte>, reply: seq<byte>)
    requires ValidChip(chip, s.nvm)
  {
    var t := FeedAll(chip, s, input); t.at == Code && t.nvm == s.nvm && t.address == s.address && t.output == s.output + reply
  }

  lemma OneAnswers(chip: Chip, s: Boot, c: Command, input: seq<byte>, reply: seq<byte>)
    requires ValidChip(chip, s.nvm) && s.at == Code && WellFormed(chip, c) && !c.ProgPage? && !c.ReadPage? && !c.LoadAddress?
    requires input == Encode(c) && reply == [0x14] + Payload(chip, s, c) + [0x10]
    ensures Answers(chip, s, input, reply)
    ensures FeedAll(chip, s, input).wdt == if c.LeaveProgmode? then Shortest else s.wdt
  {
    CommandRuns(chip, s, c);
    ExecReplies(chip, s, c);
    NoSpan(chip, s.nvm, First(chip, s.address, c));
    OnlyOutput(chip, s, c);
    hide Exec, FeedAll, Encode;
    assert s.output + [0x14] + Payload(chip, s, c) + [0x10] == s.output + ([0x14] + Payload(chip, s, c) + [0x10]);
  }

  lemma OnlyOutput(chip: Chip, s: Boot, c: Command)
    requires ValidChip(chip, s.nvm) && s.at == Code && !c.ProgPage? && !c.ReadPage? && !c.LoadAddress?
    ensures var t := Exec(chip, s, c); t.nvm == s.nvm && t.address == s.address && t.wdt == if c.LeaveProgmode? then Shortest else s.wdt
  {
  }

  /** GET_PARAMETER: the version, or 3 for whatever else is asked. */
  lemma ParameterIsAnswered(chip: Chip, s: Boot, which: byte)
    requires ValidChip(chip, s.nvm) && s.at == Code
    ensures Answers(chip, s, [0x41, which, 0x20], [0x14, if which == 0x81 then chip.major else if which == 0x82 then chip.minor else 3, 0x10])
    ensures FeedAll(chip, s, [0x41, which, 0x20]).wdt == s.wdt
  {
    var c := GetParameter(which);
    assert [0x41, which, 0x20] == [0x41, which] + [0x20];
    var v: byte := if which == 0x81 then chip.major else if which == 0x82 then chip.minor else 3;
    assert [0x14, v, 0x10] == [0x14] + [v] + [0x10];
    OneAnswers(chip, s, c, [0x41, which, 0x20], [0x14, v, 0x10]);
  }

  /** READ_SIGN: the three bytes of the signature in order. */
  lemma SignatureIsAnswered(chip: Chip, s: Boot)
    requires ValidChip(chip, s.nvm) && s.at == Code
    ensures Answers(chip, s, [0x75, 0x20], [0x14, chip.sign.0, chip.sign.1, chip.sign.2, 0x10])
    ensures FeedAll(chip, s, [0x75, 0x20]).wdt == s.wdt
  {
    assert [0x75, 0x20] == [0x75] + [0x20];
    var r := [0x14, chip.sign.0, chip.sign.1, chip.sign.2, 0x10];
    assert r == [0x14] + [chip.sign.0, chip.sign.1, chip.sign.2] + [0x10];
    OneAnswers(chip, s, ReadSign, [0x75, 0x20], r);
  }

  /** SET_DEVICE takes 20 bytes, SET_DEVICE_EXT 5, UNIVERSAL 4; the last one answers 0. */
  lemma IgnoredAreAnswered(chip: Chip, s: Boot, code: byte, bytes: seq<byte>)
    requires ValidChip(chip, s.nvm) && s.at == Code
    requires (code == 0x42 && |bytes| == 20) || (code == 0x45 && |bytes| == 5) || (code == 0x56 && |bytes| == 4)
    ensures Answers(chip, s, [code] + bytes + [0x20], if code == 0x56 then [0x14, 0, 0x10] else [0x14, 0x10])
    ensures FeedAll(chip, s, [code] + bytes + [0x20]).wdt == s.wdt
  {
    var r := if code == 0x56 then [0x14, 0, 0x10] else [0x14, 0x10];
    assert [0x14, 0, 0x10] == [0x14] + [0] + [0x10] && [0x14, 0x10] == [0x14] + [] + [0x10];
    OneAnswers(chip, s, Ignored(code, bytes), [code] + bytes + [0x20], r);
  }

  /** LEAVE_PROGMODE shortens the watchdog period. */
  lemma LeavingIsAnswered(chip: Chip, s: Boot)
    requires ValidChip(chip, s.nvm) && s.at == Code
    ensures Answers(chip, s, [0x51, 0x20], [0x14, 0x10]) && FeedAll(chip, s, [0x51, 0x20]).wdt == Shortest
  {
    assert [0x51, 0x20] == [0x51] + [0x20] && [0x14, 0x10] == [0x14] + [] + [0x10];
    OneAnswers(chip, s, LeaveProgmode, [0x51, 0x20], [0x14, 0x10]);
  }

  /** Any code that is no command is answered like one without arguments. */
  lemma OthersAreAnswered(chip: Chip, s: Boot, code: byte)
    requires ValidChip(chip, s.nvm) && s.at == Code && code !in {0x41, 0x42, 0x45, 0x51, 0x55, 0x56, 0x64, 0x74, 0x75}
    ensures Answers(chip, s, [code, 0x20], [0x14, 0x10]) && FeedAll(chip, s, [code, 0x20]).wdt == s.wdt
  {
    assert [code, 0x20] == [code] + [0x20] && [0x14, 0x10] == [0x14] + [] + [0x10];
    OneAnswers(chip, s, Other(code), [code, 0x20], [0x14, 0x10]);
  }

  /** LOAD_ADDRESS sets the address and nothing else. */
  lemma AddressIsAnswered(chip: Chip, s: Boot, at: word)
    requires ValidChip(chip, s.nvm) && s.at == Code
    ensures var t := FeedAll(chip, s, [0x55, Lo(at), Hi(at), 0x20]);
            t.at == Code && t.nvm == s.nvm && t.wdt == s.wdt && t.address == at && t.output == s.output + [0x14, 0x10]
  {
    var c := LoadAddress(Lo(at), Hi(at));
    assert [0x55, Lo(at), Hi(at), 0x20] == [0x55, Lo(at), Hi(at)] + [0x20];
    CommandRuns(chip, s, c);
    Addressed(chip, s, at);
  }
}
