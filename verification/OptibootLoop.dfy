/** Optiboot's forever loop as it is written, reading its bytes one by one with getch. */
module OptibootLoop {
  import opened Bits
  import opened Optiboot
  import opened OptibootRuns

  /** A blocking read: the loop goes no further when the host is silent or after verifySpace has failed. */
  datatype Wait<T> = Got(value: T) | Never {
    predicate IsFailure() { Never? }
    function PropagateFailure<U>(): Wait<U>
      requires IsFailure()
    {
      Never
    }
    function Extract(): T
      requires !IsFailure()
    {
      value
    }
  }

  class Loader {
    const chip: Chip
    /** What the host sends. */
    const input: seq<byte>
    var pos: nat
    var nvm: Nvm
    var address: word
    var wdt: Wdt
    var output: seq<byte>
    /** The machine of `Feed`, given the same bytes. */
    ghost const start: Boot
    ghost var model: Boot

    /** Where getch is called or the loop is stuck, object and machine agree. */
    ghost predicate Agrees()
      reads this
    {
      Fed() && nvm == model.nvm && address == model.address && wdt == model.wdt && output == model.output
    }

    /** The machine has had the bytes that the object has had. */
    ghost predicate Fed()
      reads this
    {
      ValidChip(chip, start.nvm) && ValidChip(chip, model.nvm) && pos <= |input| && model == FeedAll(chip, start, input[..pos])
    }

    constructor (chip: Chip, nvm: Nvm, input: seq<byte>)
      requires ValidChip(chip, nvm)
      ensures Agrees() && pos == 0 && this.chip == chip && this.input == input
      ensures start == model == Boot(nvm, 0, Normal, Code, [], [])
    {
      this.chip, this.input, pos := chip, input, 0;
      this.nvm, address, wdt, output := nvm, 0, Normal, [];
      start := Boot(nvm, 0, Normal, Code, [], []);
      model := Boot(nvm, 0, Normal, Code, [], []);
    }

    /** The loop is stuck, or waits for a host that is silent. */
    ghost predicate Ended()
      reads this
    {
      Agrees() && (Stopped(model) || pos == |input|)
    }

    /** All of a command is done but the final OK. */
    ghost predicate Replied()
      reads this
    {
      && Fed() && nvm == model.nvm && address == model.address && wdt == model.wdt
      && output + [OK] == model.output && model.at == Code
    }

    method Getch() returns (r: Wait<byte>)
      requires Agrees()
      modifies this`pos, this`model
      ensures Fed()
      ensures if r.Never? then pos == old(pos) == |input| && model == old(model)
              else pos == old(pos) + 1 && model == Feed(chip, old(model), r.value)
    {
      if pos == |input| { return Never; }
      r := Got(input[pos]);
      FeedAllTwice(chip, start, input[..pos], [input[pos]]);
      assert input[..pos + 1] == input[..pos] + [input[pos]];
      pos := pos + 1;
      model := Feed(chip, model, r.value);
    }

    method Putch(b: byte)
      modifies this`output
      ensures output == old(output) + [b]
    {
      output := output + [b];
    }

    /** The terminator of command c; INSYNC is sent, or nothing any more. */
    method VerifySpace(ghost c: Command) returns (r: Wait<()>)
      requires Agrees() && model.at == Terminator(c)
      modifies this`pos, this`wdt, this`output, this`model
      ensures old(pos) <= pos && if r.Never? then Ended()
              else Fed() && wdt == old(wdt) && output == old(output) + [INSYNC] && model == OnTerminator(chip, old(model), c, EOP)
    {
      var b :- Getch();
      if b != EOP {
        wdt := Shortest;
        return Never;
      }
      Putch(INSYNC);
      return Got(());
    }

    /** getNch(count) for a command that is ignored. */
    method GetNch(ghost code: byte, count: nat) returns (r: Wait<()>)
      requires Agrees() && model.at == Skip(code, []) && count == Ignores(code) > 0
      modifies this`pos, this`wdt, this`output, this`model
      ensures old(pos) <= pos && if r.Never? then Ended()
              else Fed() && wdt == old(wdt) && output == old(output) + [INSYNC] && exists bytes ::
                model == OnTerminator(chip, old(model), Ignored(code, bytes), EOP)
    {
      var n := count;
      ghost var got: seq<byte> := [];
      while true
        invariant old(pos) <= pos && 0 < n && |got| + n == count && Agrees() && model == old(model).(at := Skip(code, got))
        decreases n
      {
        var b :- Getch();
        got := got + [b];
        n := n - 1;
        if n == 0 { break; }
      }
      r := VerifySpace(Ignored(code, got));
    }

    method GetParameter() returns (r: Wait<()>)
      requires Agrees() && model.at == Which
      modifies this`pos, this`wdt, this`output, this`model
      ensures old(pos) <= pos && if r.Never? then Ended() else Replied()
    {
      var which :- Getch();
      r := VerifySpace(Command.GetParameter(which));
      if r.Never? { return; }
      if which == SW_MINOR { Putch(chip.minor); } else if which == SW_MAJOR { Putch(chip.major); } else { Putch(0x03); }
    }

    method IgnoreBytes(code: byte, count: nat) returns (r: Wait<()>)
      requires Agrees() && model.at == Skip(code, []) && count == Ignores(code) > 0
      modifies this`pos, this`wdt, this`output, this`model
      ensures old(pos) <= pos && if r.Never? then Ended() else Replied()
    {
      r := GetNch(code, count);
      if r.Never? { return; }
      if code == UNIVERSAL { Putch(0x00); }
    }

    method LoadAddressBytes() returns (r: Wait<()>)
      requires Agrees() && model.at == AddrLow
      modifies this`pos, this`address, this`wdt, this`output, this`model
      ensures old(pos) <= pos && if r.Never? then Ended() else Replied()
    {
      var lo :- Getch();
      address := Word(Hi(address), lo);
      var hi :- Getch();
      address := Word(hi, Lo(address));
      r := VerifySpace(LoadAddress(lo, hi));
    }

    method Plain(ghost c: Command) returns (r: Wait<()>)
      requires Agrees() && model.at == Terminator(c) && (c.Other? || c.LeaveProgmode?)
      modifies this`pos, this`wdt, this`output, this`model
      ensures old(pos) <= pos && if r.Never? then Ended() else Replied()
    {
      r := VerifySpace(c);
    }

    method SendSignature() returns (r: Wait<()>)
      requires Agrees() && model.at == Terminator(ReadSign)
      modifies this`pos, this`wdt, this`output, this`model
      ensures old(pos) <= pos && if r.Never? then Ended() else Replied()
    {
      r := VerifySpace(ReadSign);
      if r.Never? { return; }
      Putch(chip.sign.0);
      Putch(chip.sign.1);
      Putch(chip.sign.2);
    }

    /** GETLENGTH: big endian, or only its low byte where pages are small. */
    method GetLength(ghost code: byte) returns (r: Wait<nat>, ghost hi: byte, ghost lo: byte)
      requires Agrees() && model.at == LenHigh(code)
      modifies this`pos, this`model
      ensures old(pos) <= pos && if r.Never? then Ended()
              else Agrees() && model == old(model).(at := Dest(code, hi, lo)) && r.value == if chip.page > 255 then Word(hi, lo) else lo
    {
      hi, lo := 0, 0;
      var h := Getch();
      if h.Never? { return Never, 0, 0; }
      hi := h.value;
      var l := Getch();
      if l.Never? { return Never, 0, 0; }
      lo := l.value;
      r := Got(if chip.page > 255 then Word(h.value, l.value) else l.value);
    }

    /** `--length` in its type. */
    function Decremented(length: nat): nat {
      if length > 0 then length - 1 else if chip.page > 255 then 0xFFFF else 0xFF
    }

    /** The loop that fills the page buffer. */
    method StoreBytes(ghost hi: byte, ghost lo: byte, ghost dest: byte, len: nat) returns (r: Wait<()>, ghost data: seq<byte>)
      requires Agrees() && model.at == Data(hi, lo, dest, []) && len == if chip.page > 255 then Word(hi, lo) else lo
      modifies this`pos, this`nvm, this`address, this`model
      ensures old(pos) <= pos && if r.Never? then Ended() else Agrees() && model.at == Terminator(ProgPage(hi, lo, dest, data))
    {
      var length := len;
      data := [];
      while true
        invariant old(pos) <= pos && Agrees() && model.at == Data(hi, lo, dest, data) && |data| < Count(chip, hi, lo)
        invariant length == if data == [] then len else Count(chip, hi, lo) - |data|
        decreases Count(chip, hi, lo) - |data|
      {
        var b := Getch();
        if b.Never? { return Never, data; }
        if !Mapped(chip, nvm, address) { return Never, data; }
        nvm := Stored(chip, nvm, address, b.value);
        address := Plus(address, 1);
        data := data + [b.value];
        length := Decremented(length);
        if length == 0 { break; }
      }
      r := Got(());
    }

    method ProgramPage() returns (r: Wait<()>)
      requires Agrees() && model.at == LenHigh(PROG_PAGE)
      modifies this`pos, this`nvm, this`address, this`wdt, this`output, this`model
      ensures old(pos) <= pos && if r.Never? then Ended() else Replied()
    {
      ghost var hi, lo;
      var len;
      len, hi, lo := GetLength(PROG_PAGE);
      if len.Never? { return Never; }
      var dest :- Getch();
      address := Plus(address, Start(chip, dest));
      ghost var data;
      r, data := StoreBytes(hi, lo, dest, len.value);
      if r.Never? { return; }
      r := CommitPage(ProgPage(hi, lo, dest, data));
    }

    method CommitPage(ghost c: Command) returns (r: Wait<()>)
      requires Agrees() && model.at == Terminator(c) && c.ProgPage?
      modifies this`pos, this`nvm, this`wdt, this`output, this`model
      ensures old(pos) <= pos && if r.Never? then Ended() else Replied()
    {
      r := VerifySpace(c);
      if r.Never? { return; }
      nvm := Committed(chip, nvm);
    }

    method ReadPageBytes() returns (r: Wait<()>)
      requires Agrees() && model.at == LenHigh(READ_PAGE)
      modifies this`pos, this`address, this`wdt, this`output, this`model
      ensures old(pos) <= pos && if r.Never? then Ended() else Replied()
    {
      ghost var hi, lo;
      var len;
      len, hi, lo := GetLength(READ_PAGE);
      if len.Never? { return Never; }
      var dest :- Getch();
      r := SendPage(hi, lo, dest, len.value);
    }

    method SendPage(ghost hi: byte, ghost lo: byte, dest: byte, len: nat) returns (r: Wait<()>)
      requires Agrees() && model.at == Terminator(ReadPage(hi, lo, dest)) && len == if chip.page > 255 then Word(hi, lo) else lo
      modifies this`pos, this`address, this`wdt, this`output, this`model
      ensures old(pos) <= pos && if r.Never? then Ended() else Replied()
    {
      ghost var c := ReadPage(hi, lo, dest);
      ghost var s := Put(model, [INSYNC]);
      r := VerifySpace(c);
      if r.Never? { return; }
      address := Plus(address, Start(chip, dest));
      r := SendBytes(s.(address := address), c, len);
    }

    /** The loop that sends memory, for a machine that will have sent all of it. */
    method SendBytes(ghost first: Boot, ghost c: Command, len: nat) returns (r: Wait<()>)
      requires Fed() && c.ReadPage? && len == if chip.page > 255 then Word(c.lenHi, c.lenLo) else c.lenLo
      requires first == Boot(nvm, address, wdt, first.at, output, first.done) && first.at != Astray && ValidChip(chip, first.nvm)
      requires model == Finished(Emit(chip, first, Count(chip, c.lenHi, c.lenLo)), c)
      modifies this`address, this`output
      ensures if r.Never? then Ended() else Replied()
    {
      hide FeedAll, ValidChip;
      var length := len;
      ghost var s := first;
      ghost var all := Count(chip, c.lenHi, c.lenLo);
      ghost var left := all;
      EmitKeeps(chip, first, left);
      while true
        invariant 0 < left <= all && length == if left == all then len else left
        invariant s == Boot(nvm, address, wdt, first.at, output, first.done)
        invariant model == Finished(Emit(chip, s, left), c)
        decreases left
      {
        EmitStep(chip, s, left);
        if !Mapped(chip, nvm, address) { return Never; }
        Putch(Loaded(chip, nvm, address));
        address := Plus(address, 1);
        s, left := s.(address := address, output := output), left - 1;
        length := Decremented(length);
        if length == 0 { break; }
      }
      r := Got(());
    }

    /** The chain of comparisons with the command codes. */
    method Dispatch(ch: byte, ghost before: Boot) returns (r: Wait<()>)
      requires Fed() && model == OnCode(before, ch)
      requires nvm == before.nvm && address == before.address && wdt == before.wdt && output == before.output
      modifies this`pos, this`nvm, this`address, this`wdt, this`output, this`model
      ensures old(pos) <= pos && if r.Never? then Ended() else Replied()
    {
      if ch == GET_PARAMETER {
        r := GetParameter();
      } else if ch == SET_DEVICE {
        r := IgnoreBytes(ch, 20);
      } else if ch == SET_DEVICE_EXT {
        r := IgnoreBytes(ch, 5);
      } else if ch == LOAD_ADDRESS {
        r := LoadAddressBytes();
      } else if ch == UNIVERSAL {
        r := IgnoreBytes(ch, 4);
      } else if ch == PROG_PAGE {
        r := ProgramPage();
      } else if ch == READ_PAGE {
        r := ReadPageBytes();
      } else if ch == READ_SIGN {
        r := SendSignature();
      } else if ch == LEAVE_PROGMODE {
        wdt := Shortest;
        r := Plain(LeaveProgmode);
      } else {
        r := Plain(Other(ch));
      }
    }

    /** The forever loop, until it hangs or the host falls silent: it has done what the machine does with all the
        bytes of the host. */
    method Serve()
      requires Agrees() && model.at == Code
      modifies this`pos, this`nvm, this`address, this`wdt, this`output, this`model
      ensures Ended() && model == FeedAll(chip, start, input)
    {
      while true
        invariant Agrees() && model.at == Code
        decreases |input| - pos
      {
        ghost var before := model;
        var ch := Getch();
        if ch.Never? { break; }
        var r := Dispatch(ch.value, before);
        if r.Never? { break; }
        Putch(OK);
      }
      RestIsIgnored();
    }

    lemma RestIsIgnored()
      requires Ended()
      ensures model == FeedAll(chip, start, input)
    {
      assert input[..pos] + input[pos..] == input;
      FeedAllTwice(chip, start, input[..pos], input[pos..]);
      if Stopped(model) { StoppedStays(chip, model, input[pos..]); }
    }
  }
}
