/** Programming an image and reading it back. */
module OptibootImage {
  import opened Bits
  import opened Optiboot
  import opened OptibootRuns

  /** LOAD_ADDRESS takes a byte address, low byte first. */
  function AddressOf(chip: Chip, k: nat): Command
    requires k * chip.page < 0x1_0000
  {
    LoadAddress(Lo(k * chip.page), Hi(k * chip.page))
  }

  /** Page k of flash in full. */
  function ProgramPage(chip: Chip, k: nat, data: seq<byte>): seq<Command>
    requires k * chip.page < 0x1_0000 && chip.page < 0x1_0000
  {
    [AddressOf(chip, k), ProgPage(Hi(chip.page), Lo(chip.page), FLASH, data)]
  }

  function ReadBack(chip: Chip, k: nat): seq<Command>
    requires k * chip.page < 0x1_0000 && chip.page < 0x1_0000
  {
    [AddressOf(chip, k), ReadPage(Hi(chip.page), Lo(chip.page), FLASH)]
  }

  /** Pages k to k + n lie in flash. */
  predicate Fits(chip: Chip, m: Nvm, k: nat, n: nat) {
    ValidChip(chip, m) && (k + n) * chip.page <= |m.flash|
  }

  predicate PagesOf(chip: Chip, pages: seq<seq<byte>>) { forall i :: 0 <= i < |pages| ==> |pages[i]| == chip.page }

  function Join(pages: seq<seq<byte>>): seq<byte> { if pages == [] then [] else pages[0] + Join(pages[1..]) }

  lemma Pages(page: nat, k: nat, n: nat)
    requires n > 0
    ensures k * page + page == (k + 1) * page <= (k + n) * page
  {
    assert (k + n) * page == (k + 1) * page + (n - 1) * page;
  }

  lemma PageInFlash(chip: Chip, m: Nvm, k: nat, n: nat)
    requires Fits(chip, m, k, n) && n > 0
    ensures Fits(chip, m, k, 1) && Fits(chip, m, k + 1, n - 1) && k * chip.page + chip.page == (k + 1) * chip.page
    ensures k * chip.page + chip.page <= |m.flash| && k * chip.page < 0x1_0000
  {
    Pages(chip.page, k, n);
    assert k + 1 + (n - 1) == k + n;
  }

  lemma CountOfPage(chip: Chip)
    requires 0 < chip.page <= 0x8000
    ensures Count(chip, Hi(chip.page), Lo(chip.page)) == chip.page
  {
  }

  // One page.

  lemma OffsetInPage(chip: Chip, m: Nvm, k: nat, j: nat)
    requires Fits(chip, m, k, 1) && j < chip.page
    ensures k * chip.page + j < |m.flash| && chip.flashStart + k * chip.page + j < 0x1_0000
    ensures var a := chip.flashStart + k * chip.page + j;
            InFlash(chip, m, a) && Offset(chip, m, a) == j && PageOf(a - chip.flashStart, chip.page) == k * chip.page
  {
    PageInFlash(chip, m, k, 1);
    DivUnique(k * chip.page + j, chip.page, k, j);
  }

  /** The buffer after the bytes of a page from offset j on were stored. */
  predicate Filled(m: Nvm, m': Nvm, j: nat, rest: seq<byte>) {
    && SameContents(m, m')
    && (forall i :: j <= i < j + |rest| ==> i in m'.buffer && m'.buffer[i] == rest[i - j])
    && (forall i :: 0 <= i < j && i in m.buffer ==> i in m'.buffer && m'.buffer[i] == m.buffer[i])
  }

  lemma {:induction false} StoresFill(chip: Chip, s: Boot, k: nat, j: nat, rest: seq<byte>)
    requires Fits(chip, s.nvm, k, 1) && j + |rest| == chip.page && s.at != Astray
    requires rest != [] ==> s.address == chip.flashStart + k * chip.page + j
    ensures var t := StoreAll(chip, s, rest);
            && t.at == s.at && Filled(s.nvm, t.nvm, j, rest)
            && (rest != [] ==> t.nvm.target == chip.flashStart + k * chip.page + chip.page - 1)
    decreases |rest|
  {
    if rest != [] {
      OffsetInPage(chip, s.nvm, k, j);
      var s1 := s.(nvm := Stored(chip, s.nvm, s.address, rest[0]), address := Plus(s.address, 1));
      if |rest| > 1 { OffsetInPage(chip, s.nvm, k, j + 1); }
      StoresFill(chip, s1, k, j + 1, rest[1..]);
      assert s1.nvm.buffer[j] == rest[0];
      var t := StoreAll(chip, s1, rest[1..]);
      forall i | j <= i < j + |rest|
        ensures i in t.nvm.buffer && t.nvm.buffer[i] == rest[i - j]
      {
        if i > j { assert rest[1..][i - j - 1] == rest[i - j]; }
      }
    }
  }

  /** Flash with a stretch of it replaced. */
  function Overlay(flash: seq<byte>, at: nat, data: seq<byte>): seq<byte>
    requires at + |data| <= |flash|
  {
    flash[..at] + data + flash[at + |data|..]
  }

  lemma CommitWrites(chip: Chip, m: Nvm, k: nat, data: seq<byte>)
    requires Fits(chip, m, k, 1) && |data| == chip.page
    requires m.target == chip.flashStart + k * chip.page + chip.page - 1
    requires forall i :: 0 <= i < chip.page ==> i in m.buffer && m.buffer[i] == data[i]
    ensures k * chip.page + chip.page <= |m.flash| && Committed(chip, m) == m.(flash := Overlay(m.flash, k * chip.page, data), buffer := map[])
  {
    OffsetInPage(chip, m, k, chip.page - 1);
    PageInFlash(chip, m, k, 1);
    assert Committed(chip, m).flash == Overlay(m.flash, k * chip.page, data);
  }

  lemma ExecOne(chip: Chip, s: Boot, c: Command)
    requires ValidChip(chip, s.nvm) && s.at != Astray
    ensures ExecAll(chip, s, [c]) == Exec(chip, s, c)
  {
    assert [c][1..] == [];
  }

  lemma ExecFirst(chip: Chip, s: Boot, cs: seq<Command>)
    requires ValidChip(chip, s.nvm) && s.at != Astray && cs != []
    ensures ExecAll(chip, s, cs) == ExecAll(chip, Exec(chip, s, cs[0]), cs[1..])
  {
  }

  lemma ExecPair(chip: Chip, s: Boot, s1: Boot, a: Command, b: Command)
    requires ValidChip(chip, s.nvm) && ValidChip(chip, s1.nvm) && s.at != Astray && s1.at != Astray && Exec(chip, s, a) == s1
    ensures ExecAll(chip, s, [a, b]) == Exec(chip, s1, b)
  {
    ExecFirst(chip, s, [a, b]);
    ExecOne(chip, s1, b);
    assert [a, b][1..] == [b];
  }

  /** State s after programming, whatever else it holds. */
  predicate Programmed(s: Boot, t: Boot, at: nat, data: seq<byte>) {
    && t.at == Code && at + |data| <= |s.nvm.flash|
    && t.nvm.flash == Overlay(s.nvm.flash, at, data) && t.nvm.eeprom == s.nvm.eeprom
  }

  lemma AddressSet(chip: Chip, s: Boot, k: nat)
    requires Fits(chip, s.nvm, k, 1) && s.at == Code
    ensures k * chip.page < 0x1_0000
    ensures var t := Exec(chip, s, AddressOf(chip, k));
            && t.at == Code && t.nvm == s.nvm && t.address == k * chip.page
            && Plus(t.address, Start(chip, FLASH)) == chip.flashStart + k * chip.page
  {
    OffsetInPage(chip, s.nvm, k, 0);
  }

  lemma PageIsProgrammed(chip: Chip, s: Boot, k: nat, data: seq<byte>)
    requires Fits(chip, s.nvm, k, 1) && s.at == Code && |data| == chip.page
    ensures k * chip.page < 0x1_0000
    ensures Programmed(s, ExecAll(chip, s, ProgramPage(chip, k, data)), k * chip.page, data)
  {
    AddressSet(chip, s, k);
    var s1 := Exec(chip, s, AddressOf(chip, k));
    var c := ProgPage(Hi(chip.page), Lo(chip.page), FLASH, data);
    var s2 := s1.(address := Plus(s1.address, Start(chip, FLASH)));
    StoresFill(chip, s2, k, 0, data);
    var t := Taken(chip, s1, c);
    assert t == StoreAll(chip, s2, data);
    CommitWrites(chip, t.nvm, k, data);
    ExecPair(chip, s, s1, AddressOf(chip, k), c);
  }

  // All pages.

  /** The pages from k to k + n have addresses of 16 bits. */
  predicate InWords(page: nat, k: nat, n: nat) { 0 < page < 0x1_0000 && (k + n) * page <= 0x1_0000 }

  lemma OneInWords(page: nat, k: nat, n: nat)
    requires InWords(page, k, n) && n > 0
    ensures page < 0x1_0000 && k * page < 0x1_0000 && InWords(page, k + 1, n - 1)
  {
    Pages(page, k, n);
    assert k + 1 + (n - 1) == k + n;
  }

  function ProgramImage(chip: Chip, k: nat, pages: seq<seq<byte>>): seq<Command>
    requires InWords(chip.page, k, |pages|)
    decreases |pages|
  {
    if pages == [] then []
    else
      OneInWords(chip.page, k, |pages|);
      ProgramPage(chip, k, pages[0]) + ProgramImage(chip, k + 1, pages[1..])
  }

  function ReadImage(chip: Chip, k: nat, n: nat): seq<Command>
    requires InWords(chip.page, k, n)
    decreases n
  {
    if n == 0 then []
    else
      OneInWords(chip.page, k, n);
      ReadBack(chip, k) + ReadImage(chip, k + 1, n - 1)
  }

  lemma {:induction false} ExecTwice(chip: Chip, s: Boot, a: seq<Command>, b: seq<Command>)
    requires ValidChip(chip, s.nvm)
    ensures ExecAll(chip, s, a + b) == ExecAll(chip, ExecAll(chip, s, a), b)
    decreases |a|
  {
    if a == [] {
      assert [] + b == b;
    } else if s.at != Astray {
      assert (a + b)[0] == a[0] && (a + b)[1..] == a[1..] + b;
      ExecTwice(chip, Exec(chip, s, a[0]), a[1..], b);
    }
  }

  lemma {:induction false} JoinLength(pages: seq<seq<byte>>, n: nat)
    requires forall i :: 0 <= i < |pages| ==> |pages[i]| == n
    ensures |Join(pages)| == |pages| * n
  {
    if pages != [] { JoinLength(pages[1..], n); }
  }

  lemma OverlayTwice(flash: seq<byte>, at: nat, a: seq<byte>, b: seq<byte>)
    requires at + |a| + |b| <= |flash|
    ensures Overlay(Overlay(flash, at, a), at + |a|, b) == Overlay(flash, at, a + b)
  {
  }

  lemma FitsInWords(chip: Chip, m: Nvm, k: nat, n: nat)
    requires Fits(chip, m, k, n)
    ensures InWords(chip.page, k, n)
  {
  }

  lemma ProgrammedTwice(s: Boot, s1: Boot, t: Boot, at: nat, a: seq<byte>, b: seq<byte>)
    requires Programmed(s, s1, at, a) && Programmed(s1, t, at + |a|, b)
    ensures Programmed(s, t, at, a + b)
  {
    OverlayTwice(s.nvm.flash, at, a, b);
  }

  /** Programming an image writes exactly its pages: every other byte of flash, and EEPROM, stays as it was. */
  lemma {:induction false} ImageIsProgrammed(chip: Chip, s: Boot, k: nat, pages: seq<seq<byte>>)
    requires Fits(chip, s.nvm, k, |pages|) && s.at == Code && PagesOf(chip, pages)
    ensures InWords(chip.page, k, |pages|)
    ensures Programmed(s, ExecAll(chip, s, ProgramImage(chip, k, pages)), k * chip.page, Join(pages))
    decreases |pages|, 1
  {
    FitsInWords(chip, s.nvm, k, |pages|);
    if pages == [] {
      NothingIsProgrammed(chip, s, k);
    } else {
      PageInFlash(chip, s.nvm, k, |pages|);
      hide ExecAll, Fits, AddressOf, Programmed, InWords;
      OneInWords(chip.page, k, |pages|);
      PageIsProgrammed(chip, s, k, pages[0]);
      var a, b := ProgramPage(chip, k, pages[0]), ProgramImage(chip, k + 1, pages[1..]);
      OtherPagesAreProgrammed(chip, s, ExecAll(chip, s, a), k, pages);
      ExecTwice(chip, s, a, b);
    }
  }

  lemma NothingIsProgrammed(chip: Chip, s: Boot, k: nat)
    requires Fits(chip, s.nvm, k, 0) && s.at == Code
    ensures Programmed(s, ExecAll(chip, s, []), k * chip.page, [])
  {
    assert s.nvm.flash == Overlay(s.nvm.flash, k * chip.page, []);
  }

  lemma {:induction false} OtherPagesAreProgrammed(chip: Chip, s: Boot, s1: Boot, k: nat, pages: seq<seq<byte>>)
    requires Fits(chip, s.nvm, k, |pages|) && PagesOf(chip, pages) && pages != [] && SameSizes(s.nvm, s1.nvm)
    requires Programmed(s, s1, k * chip.page, pages[0])
    ensures InWords(chip.page, k, |pages|)
    ensures Programmed(s, ExecAll(chip, s1, ProgramImage(chip, k + 1, pages[1..])), k * chip.page, Join(pages))
    decreases |pages|, 0
  {
    PageInFlash(chip, s.nvm, k, |pages|);
    FitsInWords(chip, s.nvm, k, |pages|);
    hide ExecAll, InWords, AddressOf, Overlay;
    OneInWords(chip.page, k, |pages|);
    ImageIsProgrammed(chip, s1, k + 1, pages[1..]);
    ProgrammedTwice(s, s1, ExecAll(chip, s1, ProgramImage(chip, k + 1, pages[1..])), k * chip.page, pages[0], Join(pages[1..]));
  }

  // Reading back.

  lemma {:induction false} ReadIs(chip: Chip, m: Nvm, a: word, n: nat)
    requires ValidChip(chip, m) && chip.flashStart <= a && a + n <= chip.flashStart + |m.flash|
    ensures Read(chip, m, a, n) == m.flash[a - chip.flashStart..a - chip.flashStart + n]
    decreases n
  {
    if n > 1 { ReadIs(chip, m, Plus(a, 1), n - 1); }
  }

  lemma {:induction false} EmitInFlash(chip: Chip, s: Boot, n: nat)
    requires ValidChip(chip, s.nvm) && s.at == Code
    requires n > 0 ==> chip.flashStart <= s.address && s.address + n <= chip.flashStart + |s.nvm.flash|
    ensures Emit(chip, s, n).at == Code
    decreases n
  {
    if n > 0 {
      EmitInFlash(chip, s.(output := s.output + [Loaded(chip, s.nvm, s.address)], address := Plus(s.address, 1)), n - 1);
    }
  }

  function PageReply(page: seq<byte>): seq<byte> { [INSYNC, OK, INSYNC] + page + [OK] }

  /** Nothing but output: the loop is between commands and has sent the reply. */
  predicate Sent(s: Boot, t: Boot, reply: seq<byte>) {
    t.at == Code && t.nvm == s.nvm && t.output == s.output + reply
  }

  lemma SentTwice(s: Boot, s1: Boot, t: Boot, a: seq<byte>, b: seq<byte>)
    requires Sent(s, s1, a) && Sent(s1, t, b)
    ensures Sent(s, t, a + b)
  {
    assert s.output + a + b == s.output + (a + b);
  }

  lemma ReadPageDoes(chip: Chip, s: Boot, hi: byte, lo: byte, dest: byte)
    requires ValidChip(chip, s.nvm) && s.at == Code
    ensures var c := ReadPage(hi, lo, dest);
            var t := Emit(chip, Put(s, [INSYNC]).(address := Plus(s.address, Start(chip, dest))), Count(chip, hi, lo));
            Exec(chip, s, c) == if t.at == Astray then t else Put(t, [OK]).(at := Code, done := t.done + [c])
  {
  }

  /** READ_PAGE's loop over a page. */
  lemma PageIsEmitted(chip: Chip, s: Boot, k: nat)
    requires Fits(chip, s.nvm, k, 1) && s.at == Code && s.address == chip.flashStart + k * chip.page
    ensures k * chip.page + chip.page <= |s.nvm.flash|
    ensures Sent(s, Emit(chip, s, chip.page), s.nvm.flash[k * chip.page..k * chip.page + chip.page])
  {
    PageInFlash(chip, s.nvm, k, 1);
    ReadIs(chip, s.nvm, chip.flashStart + k * chip.page, chip.page);
    EmitInFlash(chip, s, chip.page);
    EmitKeeps(chip, s, chip.page);
    EmitReads(chip, s, chip.page);
  }

  /** READ_PAGE at the beginning of a page. */
  lemma PageIsSent(chip: Chip, s: Boot, k: nat)
    requires Fits(chip, s.nvm, k, 1) && s.at == Code && s.address == k * chip.page
    ensures k * chip.page + chip.page <= |s.nvm.flash|
    ensures Sent(s, Exec(chip, s, ReadPage(Hi(chip.page), Lo(chip.page), FLASH)),
                 [INSYNC] + s.nvm.flash[k * chip.page..k * chip.page + chip.page] + [OK])
  {
    OffsetInPage(chip, s.nvm, k, 0);
    CountOfPage(chip);
    PageIsEmitted(chip, Put(s, [INSYNC]).(address := chip.flashStart + k * chip.page), k);
    ReadPageDoes(chip, s, Hi(chip.page), Lo(chip.page), FLASH);
    var page := s.nvm.flash[k * chip.page..k * chip.page + chip.page];
    assert s.output + [INSYNC] + page + [OK] == s.output + ([INSYNC] + page + [OK]);
  }

  lemma PageIsRead(chip: Chip, s: Boot, k: nat)
    requires Fits(chip, s.nvm, k, 1) && s.at == Code
    ensures k * chip.page < 0x1_0000 && k * chip.page + chip.page <= |s.nvm.flash|
    ensures Sent(s, ExecAll(chip, s, ReadBack(chip, k)), PageReply(s.nvm.flash[k * chip.page..k * chip.page + chip.page]))
  {
    AddressSet(chip, s, k);
    var a, b := AddressOf(chip, k), ReadPage(Hi(chip.page), Lo(chip.page), FLASH);
    PageIsSent(chip, Exec(chip, s, a), k);
    ExecPair(chip, s, Exec(chip, s, a), a, b);
    AddressReply(chip, s, k);
    var page := s.nvm.flash[k * chip.page..k * chip.page + chip.page];
    SentTwice(s, Exec(chip, s, a), Exec(chip, Exec(chip, s, a), b), [INSYNC, OK], [INSYNC] + page + [OK]);
    assert [INSYNC, OK] + ([INSYNC] + page + [OK]) == PageReply(page);
  }

  lemma AddressReply(chip: Chip, s: Boot, k: nat)
    requires Fits(chip, s.nvm, k, 1) && s.at == Code
    ensures k * chip.page < 0x1_0000 && Sent(s, Exec(chip, s, AddressOf(chip, k)), [INSYNC, OK])
  {
    AddressSet(chip, s, k);
    ExecReplies(chip, s, AddressOf(chip, k));
    assert s.output + [INSYNC] + [] + [OK] == s.output + [INSYNC, OK];
  }

  function ImageReply(pages: seq<seq<byte>>): seq<byte> {
    if pages == [] then [] else PageReply(pages[0]) + ImageReply(pages[1..])
  }

  /** Flash holds these pages from page k on. */
  predicate Holds(chip: Chip, m: Nvm, k: nat, pages: seq<seq<byte>>) {
    && k * chip.page + |Join(pages)| <= |m.flash| && m.flash[k * chip.page..k * chip.page + |Join(pages)|] == Join(pages)
  }

  lemma HoldsOneByOne(chip: Chip, m: Nvm, k: nat, pages: seq<seq<byte>>)
    requires Holds(chip, m, k, pages) && pages != [] && |pages[0]| == chip.page
    ensures k * chip.page + chip.page <= |m.flash| && m.flash[k * chip.page..k * chip.page + chip.page] == pages[0]
    ensures Holds(chip, m, k + 1, pages[1..])
  {
    var a, n := k * chip.page, |Join(pages)|;
    assert (k + 1) * chip.page == a + chip.page;
    assert m.flash[a..a + n][..chip.page] == Join(pages)[..chip.page] == pages[0];
    assert m.flash[a..a + n][chip.page..] == Join(pages)[chip.page..] == Join(pages[1..]);
  }

  lemma FirstPageIsRead(chip: Chip, s: Boot, k: nat, pages: seq<seq<byte>>)
    requires Fits(chip, s.nvm, k, |pages|) && s.at == Code && PagesOf(chip, pages) && Holds(chip, s.nvm, k, pages) && pages != []
    ensures chip.page < 0x1_0000 && k * chip.page < 0x1_0000
    ensures Sent(s, ExecAll(chip, s, ReadBack(chip, k)), PageReply(pages[0]))
  {
    hide ExecAll;
    PageInFlash(chip, s.nvm, k, |pages|);
    HoldsOneByOne(chip, s.nvm, k, pages);
    PageIsRead(chip, s, k);
  }

  /** Reading an image back returns it page by page. */
  lemma {:induction false} ImageIsRead(chip: Chip, s: Boot, k: nat, pages: seq<seq<byte>>)
    requires Fits(chip, s.nvm, k, |pages|) && s.at == Code && PagesOf(chip, pages) && Holds(chip, s.nvm, k, pages)
    ensures InWords(chip.page, k, |pages|)
    ensures Sent(s, ExecAll(chip, s, ReadImage(chip, k, |pages|)), ImageReply(pages))
    decreases |pages|, 1
  {
    FitsInWords(chip, s.nvm, k, |pages|);
    hide ExecAll, Holds, Fits, AddressOf, Sent, InWords;
    if pages == [] {
      NothingIsRead(chip, s);
    } else {
      OneInWords(chip.page, k, |pages|);
      FirstPageIsRead(chip, s, k, pages);
      var a, b := ReadBack(chip, k), ReadImage(chip, k + 1, |pages| - 1);
      OtherPagesAreRead(chip, s, ExecAll(chip, s, a), k, pages);
      ExecTwice(chip, s, a, b);
    }
  }

  lemma NothingIsRead(chip: Chip, s: Boot)
    requires ValidChip(chip, s.nvm) && s.at == Code
    ensures Sent(s, ExecAll(chip, s, []), [])
  {
    assert s.output + [] == s.output;
  }

  lemma {:induction false} OtherPagesAreRead(chip: Chip, s: Boot, s1: Boot, k: nat, pages: seq<seq<byte>>)
    requires Fits(chip, s.nvm, k, |pages|) && PagesOf(chip, pages) && pages != [] && Holds(chip, s.nvm, k, pages)
    requires Sent(s, s1, PageReply(pages[0]))
    ensures InWords(chip.page, k, |pages|)
    ensures Sent(s, ExecAll(chip, s1, ReadImage(chip, k + 1, |pages| - 1)), ImageReply(pages))
    decreases |pages|, 0
  {
    PageInFlash(chip, s.nvm, k, |pages|);
    FitsInWords(chip, s.nvm, k, |pages|);
    hide ExecAll, Holds, InWords, AddressOf;
    OneInWords(chip.page, k, |pages|);
    HoldsOneByOne(chip, s.nvm, k, pages);
    ImageIsRead(chip, s1, k + 1, pages[1..]);
    SentTwice(s, s1, ExecAll(chip, s1, ReadImage(chip, k + 1, |pages| - 1)), PageReply(pages[0]), ImageReply(pages[1..]));
  }

  lemma {:induction false} ImageIsWellFormed(chip: Chip, k: nat, pages: seq<seq<byte>>)
    requires chip.page <= 0x8000 && InWords(chip.page, k, |pages|) && PagesOf(chip, pages)
    ensures AllWellFormed(chip, ProgramImage(chip, k, pages)) && AllWellFormed(chip, ReadImage(chip, k, |pages|))
    decreases |pages|
  {
    CountOfPage(chip);
    if pages != [] { ImageIsWellFormed(chip, k + 1, pages[1..]); }
  }

  lemma OverlayHolds(flash: seq<byte>, at: nat, data: seq<byte>)
    requires at + |data| <= |flash|
    ensures Overlay(flash, at, data)[at..at + |data|] == data
  {
  }

  /** What commands do, their bytes do. */
  lemma BytesDoTheSame(chip: Chip, s: Boot, cs: seq<Command>, at: nat, data: seq<byte>, reply: seq<byte>)
    requires ValidChip(chip, s.nvm) && s.at == Code && AllWellFormed(chip, cs)
    ensures Programmed(s, ExecAll(chip, s, cs), at, data) ==> Programmed(s, FeedAll(chip, s, EncodeAll(cs)), at, data)
    ensures Sent(s, ExecAll(chip, s, cs), reply) ==> Sent(s, FeedAll(chip, s, EncodeAll(cs)), reply)
  {
    ListRuns(chip, s, cs);
  }

  lemma ImageSessionRuns(chip: Chip, s: Boot, k: nat, pages: seq<seq<byte>>)
    requires Fits(chip, s.nvm, k, |pages|) && s.at == Code && PagesOf(chip, pages)
    ensures InWords(chip.page, k, |pages|)
    ensures Programmed(s, FeedAll(chip, s, EncodeAll(ProgramImage(chip, k, pages))), k * chip.page, Join(pages))
  {
    hide ExecAll, FeedAll;
    ImageIsProgrammed(chip, s, k, pages);
    ImageIsWellFormed(chip, k, pages);
    BytesDoTheSame(chip, s, ProgramImage(chip, k, pages), k * chip.page, Join(pages), []);
  }

  lemma ProgrammedHolds(chip: Chip, s: Boot, s1: Boot, k: nat, pages: seq<seq<byte>>)
    requires Programmed(s, s1, k * chip.page, Join(pages))
    ensures Holds(chip, s1.nvm, k, pages)
  {
    OverlayHolds(s.nvm.flash, k * chip.page, Join(pages));
  }

  lemma ReadingSessionRuns(chip: Chip, s: Boot, k: nat, pages: seq<seq<byte>>)
    requires Fits(chip, s.nvm, k, |pages|) && s.at == Code && PagesOf(chip, pages) && Holds(chip, s.nvm, k, pages)
    ensures InWords(chip.page, k, |pages|)
    ensures Sent(s, FeedAll(chip, s, EncodeAll(ReadImage(chip, k, |pages|))), ImageReply(pages))
  {
    hide ExecAll, FeedAll;
    ImageIsRead(chip, s, k, pages);
    ImageIsWellFormed(chip, k, pages);
    BytesDoTheSame(chip, s, ReadImage(chip, k, |pages|), 0, [], ImageReply(pages));
  }

  /** The bytes of a programming session followed by those of a reading one: flash is the image over what it was, EEPROM
      is what it was, and the reply to the reading is the image. */
  lemma WhatWasProgrammedIsReadBack(chip: Chip, s: Boot, k: nat, pages: seq<seq<byte>>)
    requires Fits(chip, s.nvm, k, |pages|) && s.at == Code && PagesOf(chip, pages)
    ensures InWords(chip.page, k, |pages|)
    ensures var s1 := FeedAll(chip, s, EncodeAll(ProgramImage(chip, k, pages)));
            && Programmed(s, s1, k * chip.page, Join(pages))
            && Sent(s1, FeedAll(chip, s1, EncodeAll(ReadImage(chip, k, |pages|))), ImageReply(pages))
  {
    ImageSessionRuns(chip, s, k, pages);
    var s1 := FeedAll(chip, s, EncodeAll(ProgramImage(chip, k, pages)));
    ProgrammedHolds(chip, s, s1, k, pages);
    ReadingSessionRuns(chip, s1, k, pages);
  }

  /** LOAD_ADDRESS is needed before every page: PROG_PAGE leaves a mapped address behind, and the next PROG_PAGE adds the
      base of flash to it again, which wraps around to below flash. */
  lemma AddressDoesNotCarryOver(chip: Chip, s: Boot, k: nat, data: seq<byte>)
    requires Fits(chip, s.nvm, k, 2) && s.at == Code && |data| == chip.page && chip.flashStart == 0x8000
    ensures k * chip.page < 0x1_0000
    ensures var t := ExecAll(chip, s, ProgramPage(chip, k, data)); var next := Plus(t.address, Start(chip, FLASH));
            t.at == Code && next == (k + 1) * chip.page && !InFlash(chip, t.nvm, next)
  {
    PageInFlash(chip, s.nvm, k, 2);
    PageIsProgrammed(chip, s, k, data);
    AddressSet(chip, s, k);
    var s1 := Exec(chip, s, AddressOf(chip, k));
    var c := ProgPage(Hi(chip.page), Lo(chip.page), FLASH, data);
    ExecPair(chip, s, s1, AddressOf(chip, k), c);
    AddressAfter(chip, s1.(address := Plus(s1.address, Start(chip, FLASH))), k, 0, data);
  }

  lemma AddressAfterReading(chip: Chip, s: Boot, k: nat)
    requires Fits(chip, s.nvm, k, 2) && s.at == Code && s.address == k * chip.page
    ensures var t := Exec(chip, s, ReadPage(Hi(chip.page), Lo(chip.page), FLASH));
            t.at == Code && t.nvm == s.nvm && t.address == chip.flashStart + (k * chip.page + chip.page)
  {
    PageInFlash(chip, s.nvm, k, 2);
    PageInFlash(chip, s.nvm, k + 1, 1);
    CountOfPage(chip);
    var s1 := Put(s, [INSYNC]).(address := chip.flashStart + k * chip.page);
    EmitMovesOn(chip, s1, chip.page);
    EmitKeeps(chip, s1, chip.page);
    hide Exec, Emit;
    ReadPageDoes(chip, s, Hi(chip.page), Lo(chip.page), FLASH);
  }

  /** READ_PAGE does the same. */
  lemma AddressIsNotThereToReadOn(chip: Chip, s: Boot, k: nat)
    requires Fits(chip, s.nvm, k, 2) && s.at == Code && chip.flashStart == 0x8000
    ensures k * chip.page < 0x1_0000
    ensures var t := ExecAll(chip, s, ReadBack(chip, k)); var next := Plus(t.address, Start(chip, FLASH));
            t.at == Code && next == (k + 1) * chip.page && !InFlash(chip, t.nvm, next)
  {
    PageInFlash(chip, s.nvm, k, 2);
    AddressSet(chip, s, k);
    var s1 := Exec(chip, s, AddressOf(chip, k));
    hide Exec, ExecAll;
    AddressAfterReading(chip, s1, k);
    ExecPair(chip, s, s1, AddressOf(chip, k), ReadPage(Hi(chip.page), Lo(chip.page), FLASH));
  }

  lemma {:induction false} EmitMovesOn(chip: Chip, s: Boot, n: nat)
    requires ValidChip(chip, s.nvm) && s.at == Code
    requires chip.flashStart <= s.address && s.address + n <= chip.flashStart + |s.nvm.flash| && s.address + n < 0x1_0000
    ensures Emit(chip, s, n).address == s.address + n && Emit(chip, s, n).at == Code
    decreases n
  {
    if n > 0 {
      EmitMovesOn(chip, s.(output := s.output + [Loaded(chip, s.nvm, s.address)], address := Plus(s.address, 1)), n - 1);
    }
  }

  lemma {:induction false} AddressAfter(chip: Chip, s: Boot, k: nat, j: nat, rest: seq<byte>)
    requires Fits(chip, s.nvm, k, 2) && j + |rest| == chip.page && s.at != Astray
    requires s.address == chip.flashStart + k * chip.page + j
    ensures StoreAll(chip, s, rest).address == chip.flashStart + k * chip.page + chip.page
    decreases |rest|
  {
    PageInFlash(chip, s.nvm, k, 2);
    PageInFlash(chip, s.nvm, k + 1, 1);
    if rest != [] {
      OffsetInPage(chip, s.nvm, k, j);
      AddressAfter(chip, s.(nvm := Stored(chip, s.nvm, s.address, rest[0]), address := Plus(s.address, 1)), k, j + 1, rest[1..]);
    }
  }
}
