/** The log reader: a total specification of what it does with any bytes, and the imperative reader. */
module LogReader {
  import opened Optional
  import opened Crc32c
  import opened LogFormat

  /** Codes the reader adds to the record types. A damaged type byte can collide with them. */
  const EOF_CODE: nat := 5
  const BAD_RECORD: nat := 6

  /** `buffer` is the unread rest of the current block, `end` the file position after it, `drops` the
      sizes passed to the corruption reporter. */
  datatype State = State(buffer: seq<Byte>, end: nat, eof: bool, drops: seq<nat>)

  datatype Outcome = Outcome(code: nat, fragment: seq<Byte>, state: State)

  /** Bytes not yet consumed. */
  function Unread(file: seq<Byte>, s: State): nat
    requires s.end <= |file|
  {
    |file| - s.end + |s.buffer|
  }

  /** What `file_->Read(kBlockSize)` leaves the reader with. */
  function NextBlock(file: seq<Byte>, s: State): (r: State)
    requires s.end <= |file|
    ensures r.end <= |file| && r.drops == s.drops && (!r.eof ==> r.end == s.end + BLOCK_SIZE)
    ensures Unread(file, r) == |file| - s.end
  {
    var stop := if s.end + BLOCK_SIZE <= |file| then s.end + BLOCK_SIZE else |file|;
    State(file[s.end..stop], stop, stop - s.end < BLOCK_SIZE, s.drops)
  }

  /** One physical record from a buffer that holds at least a header. */
  function ParseRecord(s: State): (o: Outcome)
    requires |s.buffer| >= HEADER_SIZE
    ensures o.state.end == s.end && |o.state.buffer| < |s.buffer|
  {
    var length := s.buffer[4] as nat + (s.buffer[5] as nat) * 256;
    var t := s.buffer[6];
    var dropped := s.(buffer := []);
    if HEADER_SIZE + length > |s.buffer| then
      if s.eof then Outcome(EOF_CODE, [], dropped)
      else Outcome(BAD_RECORD, [], dropped.(drops := s.drops + [|s.buffer|]))
    else if t == ZERO_TYPE && length == 0 then
      Outcome(BAD_RECORD, [], dropped)
    else if Unmask(DecodeFixed32(s.buffer[..4])) != Value(s.buffer[6..HEADER_SIZE + length]) then
      Outcome(BAD_RECORD, [], dropped.(drops := s.drops + [|s.buffer|]))
    else
      Outcome(t, s.buffer[HEADER_SIZE..HEADER_SIZE + length], s.(buffer := s.buffer[HEADER_SIZE + length..]))
  }

  function ReadPhysical(file: seq<Byte>, s: State): (o: Outcome)
    requires s.end <= |file|
    ensures o.state.end <= |file|
    ensures o.code != EOF_CODE ==> Unread(file, o.state) < Unread(file, s)
    ensures Unread(file, o.state) <= Unread(file, s)
    decreases if s.eof then 0 else 1 + |file| - s.end
  {
    if |s.buffer| >= HEADER_SIZE then ParseRecord(s)
    else if s.eof then Outcome(EOF_CODE, [], s.(buffer := []))
    else ReadPhysical(file, NextBlock(file, s))
  }

  datatype Record = Record(record: Option<seq<Byte>>, state: State)

  function Report(s: State, bytes: nat): State {
    s.(drops := s.drops + [bytes])
  }

  /** The local variables of `ReadRecord` and whether it is done. */
  datatype Assembly =
    | Done(record: Option<seq<Byte>>, final: State)
    | More(state: State, inFragment: bool, scratch: seq<Byte>)

  /** What `ReadRecord` does with one physical record. */
  function Take(o: Outcome, inFragment: bool, scratch: seq<Byte>): (a: Assembly)
    ensures a.More? ==> a.state.end == o.state.end && a.state.buffer == o.state.buffer && o.code != EOF_CODE
    ensures a.Done? ==> a.final.end == o.state.end && a.final.buffer == o.state.buffer
    ensures a.Done? && a.record.Some? ==> o.code != EOF_CODE
  {
    var cut := if inFragment && scratch != [] then Report(o.state, |scratch|) else o.state;
    if o.code == EOF_CODE then Done(None, o.state)
    else if o.code == FULL_TYPE then Done(Some(o.fragment), cut)
    else if o.code == FIRST_TYPE then More(cut, true, o.fragment)
    else if o.code == MIDDLE_TYPE then
      if inFragment then More(o.state, true, scratch + o.fragment)
      else More(Report(o.state, |o.fragment|), false, scratch)
    else if o.code == LAST_TYPE then
      if inFragment then Done(Some(scratch + o.fragment), o.state)
      else More(Report(o.state, |o.fragment|), false, scratch)
    else if o.code == BAD_RECORD then
      if inFragment then More(Report(o.state, |scratch|), false, [])
      else More(o.state, false, scratch)
    else
      More(Report(o.state, |o.fragment| + if inFragment then |scratch| else 0), false, [])
  }

  /** Reads fragments until a logical record is complete or the file ends. */
  function ReadFrom(file: seq<Byte>, s: State, inFragment: bool, scratch: seq<Byte>): (r: Record)
    requires s.end <= |file|
    ensures r.state.end <= |file|
    ensures r.record.Some? ==> Unread(file, r.state) < Unread(file, s)
    decreases Unread(file, s)
  {
    match Take(ReadPhysical(file, s), inFragment, scratch)
    case Done(record, final) => Record(record, final)
    case More(next, inFragment', scratch') => ReadFrom(file, next, inFragment', scratch')
  }

  /** All records the reader returns, with its final state. */
  function ReadAll(file: seq<Byte>, s: State): (seq<seq<Byte>>, State)
    requires s.end <= |file|
    decreases Unread(file, s)
  {
    var r := ReadFrom(file, s, false, []);
    if r.record.None? then ([], r.state)
    else
      var (rest, last) := ReadAll(file, r.state);
      ([r.record.value] + rest, last)
  }

  const START: State := State([], 0, false, [])

  // ---------------------------------------------------------------- the imperative reader

  class Reader {
    const file: seq<Byte>
    var buffer: seq<Byte>
    var eof: bool
    var endOfBufferOffset: nat
    var drops: seq<nat>

    ghost predicate Valid()
      reads this
    {
      endOfBufferOffset <= |file|
    }

    function Now(): State
      reads this
    {
      State(buffer, endOfBufferOffset, eof, drops)
    }

    constructor (file: seq<Byte>)
      ensures Valid() && this.file == file && Now() == START
    {
      this.file := file;
      buffer, eof, endOfBufferOffset, drops := [], false, 0, [];
    }

    lemma InFile()
      requires Valid()
      ensures Now().end <= |file| && Now().drops == drops
    {
    }

    /** Reads blocks until the buffer holds a header or the file ends. */
    method FillBuffer()
      requires Valid()
      modifies this
      ensures Valid() && ReadPhysical(file, Now()) == ReadPhysical(file, old(Now()))
      ensures |buffer| >= HEADER_SIZE || eof
    {
      while |buffer| < HEADER_SIZE && !eof
        invariant Valid() && ReadPhysical(file, Now()) == ReadPhysical(file, old(Now()))
        decreases if eof then 0 else 1 + |file| - endOfBufferOffset
      {
        hide ParseRecord;
        ghost var s := Now();
        var stop := if endOfBufferOffset + BLOCK_SIZE <= |file| then endOfBufferOffset + BLOCK_SIZE else |file|;
        buffer, eof := file[endOfBufferOffset..stop], stop - endOfBufferOffset < BLOCK_SIZE;
        endOfBufferOffset := stop;
        assert Now() == NextBlock(file, s);
      }
    }

    method ParseBuffer() returns (code: nat, fragment: seq<Byte>)
      requires Valid() && |buffer| >= HEADER_SIZE
      modifies this
      ensures Valid() && Outcome(code, fragment, Now()) == ParseRecord(old(Now()))
    {
      hide Unmask, DecodeFixed32, Value;
      var length := buffer[4] as nat + (buffer[5] as nat) * 256;
      var t := buffer[6];
      if HEADER_SIZE + length > |buffer| {
        var dropSize := |buffer|;
        buffer := [];
        if !eof {
          drops := drops + [dropSize];
          return BAD_RECORD, [];
        }
        return EOF_CODE, [];
      }
      if t == ZERO_TYPE && length == 0 {
        buffer := [];
        return BAD_RECORD, [];
      }
      if Unmask(DecodeFixed32(buffer[..4])) != Value(buffer[6..HEADER_SIZE + length]) {
        var dropSize := |buffer|;
        buffer := [];
        drops := drops + [dropSize];
        return BAD_RECORD, [];
      }
      code, fragment := t, buffer[HEADER_SIZE..HEADER_SIZE + length];
      buffer := buffer[HEADER_SIZE + length..];
    }

    method ReadPhysicalRecord() returns (code: nat, fragment: seq<Byte>)
      requires Valid()
      modifies this
      ensures Valid() && Outcome(code, fragment, Now()) == ReadPhysical(file, old(Now()))
    {
      FillBuffer();
      hide ParseRecord;
      if |buffer| < HEADER_SIZE {
        buffer := [];
        return EOF_CODE, [];
      }
      code, fragment := ParseBuffer();
    }

    /** The switch of `ReadRecord`. */
    method Dispatch(code: nat, fragment: seq<Byte>, inFragment: bool, scratch: seq<Byte>) returns (a: Assembly)
      requires Valid()
      modifies this`drops
      ensures a == Take(Outcome(code, fragment, old(Now())), inFragment, scratch)
      ensures Now() == if a.Done? then a.final else a.state
    {
      if code == EOF_CODE {
        a := Done(None, Now());
      } else if code == FULL_TYPE {
        if inFragment && scratch != [] { drops := drops + [|scratch|]; }
        a := Done(Some(fragment), Now());
      } else if code == FIRST_TYPE {
        if inFragment && scratch != [] { drops := drops + [|scratch|]; }
        a := More(Now(), true, fragment);
      } else if code == MIDDLE_TYPE {
        if inFragment {
          a := More(Now(), true, scratch + fragment);
        } else {
          drops := drops + [|fragment|];
          a := More(Now(), false, scratch);
        }
      } else if code == LAST_TYPE {
        if inFragment {
          a := Done(Some(scratch + fragment), Now());
        } else {
          drops := drops + [|fragment|];
          a := More(Now(), false, scratch);
        }
      } else if code == BAD_RECORD {
        if inFragment {
          drops := drops + [|scratch|];
          a := More(Now(), false, []);
        } else {
          a := More(Now(), false, scratch);
        }
      } else {
        drops := drops + [|fragment| + if inFragment then |scratch| else 0];
        a := More(Now(), false, []);
      }
    }

    method ReadRecord() returns (record: Option<seq<Byte>>)
      requires Valid()
      modifies this
      ensures Valid() && Record(record, Now()) == ReadFrom(file, old(Now()), false, [])
    {
      var scratch: seq<Byte> := [];
      var inFragment := false;
      while true
        invariant Valid() && ReadFrom(file, Now(), inFragment, scratch) == ReadFrom(file, old(Now()), false, [])
        decreases Unread(file, Now())
      {
        hide ReadPhysical, Take;
        var code, fragment := ReadPhysicalRecord();
        var a := Dispatch(code, fragment, inFragment, scratch);
        if a.Done? {
          return a.record;
        }
        inFragment, scratch := a.inFragment, a.scratch;
      }
    }
  }
}
