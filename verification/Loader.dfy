/**
 * The incremental loader (message.c, `message_subscribe` and `message_notify`). The file is read
 * in chunks of any size; the header block ends at the first CRLF CRLF, what was read beyond it is
 * dropped, and the body is read again from `offset` when the message is opened a second time.
 */
module Loader {
  import opened Text
  import opened Recipients
  import opened Messages
  import opened Growth

  /** An empty line at `i`: CRLF CRLF. */
  predicate SeparatorAt(s: string, i: int) {
    CrlfAt(s, i) && CrlfAt(s, i + 2)
  }

  /** The first empty line at or after `from`; `|s|` when there is none. */
  function FindSeparator(s: string, from: nat): (r: nat)
    requires from <= |s|
    ensures from <= r <= |s|
    ensures r < |s| ==> SeparatorAt(s, r)
    ensures forall j :: from <= j < r ==> !SeparatorAt(s, j)
    decreases |s| - from
  {
    if from == |s| || SeparatorAt(s, from) then from else FindSeparator(s, from + 1)
  }

  const SEPARATOR: string := "\r\n\r\n"

  /** Header block, empty line and body of a file. */
  lemma SeparatorSplits(file: string, k: nat)
    requires SeparatorAt(file, k)
    ensures k + 4 <= |file| && file == file[..k] + SEPARATOR + file[k + 4..]
  {
    assert file[k..k + 4] == [file[k], file[k + 1], file[k + 2], file[k + 3]] == SEPARATOR;
    assert file == file[..k] + file[k..k + 4] + file[k + 4..];
  }

  datatype Outcome = Idle | Pending | ReadError | NoSeparator | HeadersFound | BodyDone

  datatype ReadResult = WouldBlock | Failed | Bytes(count: nat)

  /** The reading loop: every call of `read` but the last has brought bytes. */
  ghost predicate ReadOn(before: seq<ReadResult>, after: seq<ReadResult>) {
    && before <= after && |before| < |after|
    && forall i :: |before| <= i < |after| - 1 ==> after[i].Bytes? && after[i].count > 0
  }

  /** What is made of the last call of `read`. */
  function Conclusion(state: MessageState, last: ReadResult): Outcome {
    match last
    case WouldBlock => Pending
    case Failed => ReadError
    case Bytes(count) => if count > 0 then HeadersFound else if state == LoadingHeaders then NoSeparator else BodyDone
  }

  class Message {
    const file: string          // the content found under the path, taken not to change while it is loaded
    var state: MessageState
    var isOpen: bool            // fd != -1
    var position: nat           // the descriptor's offset in the file
    var offset: nat
    var size: nat
    var buffer: array<char>
    var block: string           // headers_
    var headersLen: nat
    var envelope: Envelope      // sender, headers, destinations
    var body: string
    ghost var base: nat         // where the current reading of the file began
    ghost var readCalls: seq<ReadResult>    // how every call of `read` has ended
    ghost var cost: Cost

    ghost predicate BufferHolds()
      reads this, buffer
    {
      && size <= buffer.Length == cost.capacity
      && Amortised(cost)
      && base + size <= |file|
      && buffer[..size] == file[base..base + size]
      && (isOpen ==> position == base + size)
      && (!isOpen ==> size == 0)
    }

    /** The header block was cut at the first empty line, and the parsers have run on it. */
    ghost predicate HeadersAreCut()
      reads this
    {
      && headersLen == FindSeparator(file, 0) < |file|
      && headersLen + 4 <= |file|
      && block == file[..headersLen]
      && envelope == Parse(block).envelope
      && Parse(block).state == HeadersLoaded
    }

    ghost predicate Valid()
      reads this, buffer
    {
      && NoNul(file)
      && BufferHolds()
      && match state
         case LoadingHeaders =>
           && offset == 0 && base == 0
           && headersLen <= size
           && (headersLen + 4 > size)
           && (forall j :: 0 <= j < headersLen ==> !SeparatorAt(file, j))
         case HeadersLoaded => HeadersAreCut() && offset == headersLen + 4 && !isOpen
         case LoadingBody => HeadersAreCut() && offset == headersLen + 4 && (isOpen ==> base == offset || base == 0)
         case BodyLoaded => HeadersAreCut() && !isOpen && base <= |file| && body == file[base..]
         case LoadingFailed => true
    }

    /** Block and body are the two parts of the file, provided the second reading began at `offset`. */
    ghost predicate Completed(fromOffset: bool)
      reads this
    {
      && block == file[..FindSeparator(file, 0)]
      && if fromOffset then block + SEPARATOR + body == file else body == file
    }

    /** `message_create` */
    constructor (file: string)
      requires NoNul(file)
      ensures Valid() && this.file == file && state == LoadingHeaders && fresh(buffer)
    {
      this.file := file;
      state := LoadingHeaders;
      isOpen := false;
      position, offset, size, headersLen := 0, 0, 0, 0;
      buffer := new char[0];
      block, body := "", "";
      envelope := Envelope(true, "", [], []);
      base := 0;
      cost := FRESH;
      readCalls := [];
    }

    /** `message_start_loading_body`; its assertion is the precondition. */
    method StartLoadingBody()
      requires Valid() && state != LoadingHeaders
      modifies this
      ensures Valid() && buffer == old(buffer) && block == old(block)
      ensures state == if old(state) == HeadersLoaded then LoadingBody else old(state)
    {
      if state == HeadersLoaded {
        state := LoadingBody;
      }
    }

    /** `message_subscribe`: opens the file and moves to `offset`. A failed `lseek` is only logged. */
    method Subscribe(openOk: bool, seekOk: bool)
      requires Valid()
      modifies this
      ensures Valid() && buffer == old(buffer)
      ensures old(state) in {LoadingHeaders, LoadingBody} && !old(isOpen) && openOk ==>
                state == old(state) && isOpen && base == if seekOk then offset else 0
      ensures old(state) in {LoadingHeaders, LoadingBody} && !old(isOpen) && !openOk ==> state == LoadingFailed
      ensures !(old(state) in {LoadingHeaders, LoadingBody} && !old(isOpen)) ==> unchanged(this)
    {
      if (state != LoadingHeaders && state != LoadingBody) || isOpen {
        return;
      }
      if !openOk {
        state := LoadingFailed;
        return;
      }
      isOpen := true;
      position := if seekOk then offset else 0;
      base := position;
    }

    /** `read`: any number of bytes up to the free space; no byte only at the end of the file. */
    method Read() returns (r: ReadResult)
      requires BufferHolds() && isOpen && size < buffer.Length
      modifies this`position, this`readCalls, buffer
      ensures readCalls == old(readCalls) + [r]
      ensures r.Bytes? ==>
                && size + r.count <= buffer.Length && base + size + r.count <= |file|
                && position == base + size + r.count
                && buffer[..size + r.count] == file[base..base + size + r.count]
                && (r.count == 0 <==> base + size == |file|)
      ensures !r.Bytes? ==> position == old(position) && buffer[..] == old(buffer[..])
    {
      var room, left := buffer.Length - size, |file| - position;
      r :| r.Bytes? ==> r.count <= room && r.count <= left && (r.count == 0 <==> left == 0);
      readCalls := readCalls + [r];
      if r.Bytes? {
        CopyIn(r.count);
        position := position + r.count;
      }
    }

    method CopyIn(count: nat)
      requires BufferHolds() && isOpen && size + count <= buffer.Length && position + count <= |file|
      modifies buffer
      ensures buffer[..size + count] == file[base..base + size + count]
    {
      forall i | size <= i < size + count {
        buffer[i] := file[position + (i - size)];
      }
      assert buffer[..size] == old(buffer[..size]);
      assert buffer[size..size + count] == file[position..position + count];
      Continued(buffer[..], file, base, size, count);
    }

    static lemma Continued(read: string, file: string, base: nat, size: nat, count: nat)
      requires size + count <= |read| && base + size + count <= |file|
      requires read[..size] == file[base..base + size]
      requires read[size..size + count] == file[base + size..base + size + count]
      ensures read[..size + count] == file[base..base + size + count]
    {
      assert read[..size + count] == read[..size] + read[size..size + count];
      assert file[base..base + size + count] == file[base..base + size] + file[base + size..base + size + count];
    }

    /** A full buffer grows, then the file is read. */
    method ReadChunk() returns (r: ReadResult)
      requires BufferHolds() && isOpen
      modifies this`position, this`size, this`buffer, this`cost, this`readCalls, buffer
      ensures BufferHolds() && (buffer == old(buffer) || fresh(buffer)) && readCalls == old(readCalls) + [r]
      ensures size == old(size) + if r.Bytes? then r.count else 0
      ensures r == Bytes(0) ==> base + size == |file|
    {
      MakeRoom();
      r := Read();
      if r.Bytes? {
        size := size + r.count;
      } else {
        assert buffer[..size] == buffer[..][..size];
      }
    }

    /** A full buffer grows. */
    method MakeRoom()
      requires BufferHolds()
      modifies this`buffer, this`cost
      ensures BufferHolds() && size < buffer.Length && (buffer == old(buffer) || fresh(buffer))
    {
      if size == buffer.Length {
        GrowKeepsAmortised(cost);
        buffer := Reallocate(buffer, size);
        cost := Grow(cost);
      }
    }

    /** The end of a reading: the descriptor is closed and the buffer is given back. */
    method Cleanup()
      modifies this
      ensures !isOpen && size == 0 && fresh(buffer) && buffer.Length == 0 && cost == FRESH
      ensures state == old(state) && offset == old(offset) && headersLen == old(headersLen) && base == old(base)
      ensures block == old(block) && envelope == old(envelope) && body == old(body) && readCalls == old(readCalls)
    {
      isOpen := false;
      size := 0;
      buffer := new char[0];
      cost := FRESH;
    }

    /** The scan for the empty line goes on where the previous chunk left it. */
    method Scan() returns (found: bool)
      requires size <= buffer.Length && size <= |file| && buffer[..size] == file[..size]
      requires headersLen <= size
      requires forall j :: 0 <= j < headersLen ==> !SeparatorAt(file, j)
      modifies this`headersLen
      ensures headersLen <= size
      ensures forall j :: 0 <= j < headersLen ==> !SeparatorAt(file, j)
      ensures if found then headersLen + 4 <= size && headersLen == FindSeparator(file, 0) else headersLen + 4 > size
    {
      while headersLen + 4 <= size
        invariant headersLen <= size
        invariant forall j :: 0 <= j < headersLen ==> !SeparatorAt(file, j)
      {
        assert forall j :: 0 <= j < size ==> buffer[j] == buffer[..size][j] == file[j];
        if buffer[headersLen] == '\r' && buffer[headersLen + 1] == '\n'
           && buffer[headersLen + 2] == '\r' && buffer[headersLen + 3] == '\n'
        {
          assert SeparatorAt(file, headersLen);
          return true;
        }
        headersLen := headersLen + 1;
      }
      found := false;
    }

    /** The empty line was found: the block is cut off and parsed; the rest of the buffer is dropped. */
    method FinishHeaders()
      requires NoNul(file) && BufferHolds() && base == 0 && offset == 0
      requires isOpen && headersLen + 4 <= size && headersLen == FindSeparator(file, 0)
      modifies this
      ensures Valid() && fresh(buffer) && readCalls == old(readCalls)
      ensures headersLen == FindSeparator(file, 0) < |file| && block == file[..headersLen]
      ensures state == Parse(block).state && envelope == Parse(block).envelope
    {
      assert buffer[..headersLen] == buffer[..size][..headersLen] == file[..headersLen];
      offset := offset + headersLen + 4;
      block := buffer[..headersLen];
      var parsed := ParseMessage(block);
      envelope := parsed.envelope;
      state := parsed.state;
      Cleanup();
    }

    /** A chunk of the header block has come in; the result is `Pending` when more is needed. */
    method AfterHeaderChunk(count: nat) returns (outcome: Outcome)
      requires NoNul(file) && BufferHolds() && isOpen && state == LoadingHeaders && base == 0 && offset == 0
      requires count == 0 ==> size == |file| && headersLen + 4 > size
      requires headersLen <= size && forall j :: 0 <= j < headersLen ==> !SeparatorAt(file, j)
      modifies this
      ensures Valid() && (buffer == old(buffer) || fresh(buffer)) && readCalls == old(readCalls)
      ensures outcome == Pending && count > 0 ==>
                && state == LoadingHeaders && isOpen && base == 0 && offset == 0
                && block == old(block) && position == old(position)
      ensures outcome == NoSeparator ==> state == LoadingFailed && FindSeparator(file, 0) == |file|
      ensures outcome == HeadersFound ==>
                && FindSeparator(file, 0) < |file| && block == file[..FindSeparator(file, 0)]
                && state == Parse(block).state && envelope == Parse(block).envelope
      ensures if count == 0 then outcome == NoSeparator else outcome in {Pending, HeadersFound}
    {
      if count == 0 {
        assert FindSeparator(file, 0) == |file|;
        Fail();
        return NoSeparator;
      }
      var found := Scan();
      if found {
        FinishHeaders();
        return HeadersFound;
      }
      outcome := Pending;
    }

    /** The end of the file was reached while loading the body. */
    method FinishBody()
      requires NoNul(file) && BufferHolds() && HeadersAreCut() && base + size == |file|
      requires offset == headersLen + 4 && (base == offset || base == 0)
      modifies this
      ensures Valid() && fresh(buffer) && state == BodyLoaded && readCalls == old(readCalls)
      ensures block == old(block) && Completed(old(base) == old(offset))
    {
      SeparatorSplits(file, headersLen);
      assert base == 0 ==> file[base..] == file;
      state := BodyLoaded;
      offset := offset + size;
      body := buffer[..size];
      Cleanup();
    }

    method Fail()
      requires NoNul(file) && BufferHolds()
      modifies this
      ensures Valid() && fresh(buffer) && state == LoadingFailed && block == old(block) && readCalls == old(readCalls)
    {
      state := LoadingFailed;
      Cleanup();
    }

    /**
     * What has come of the reading loop: all its reads but the last have brought bytes, the last one decides
     * how it ends, and what is loaded then depends on the file alone.
     */
    twostate predicate Concluded(outcome: Outcome)
      reads this
    {
      && ReadOn(old(readCalls), readCalls) && outcome == Conclusion(old(state), readCalls[|readCalls| - 1])
      && match outcome
         case Idle => false
         case Pending => state == old(state) && block == old(block)
         case ReadError => state == LoadingFailed
         case NoSeparator =>
           old(state) == LoadingHeaders && state == LoadingFailed && FindSeparator(file, 0) == |file|
         case HeadersFound =>
           && old(state) == LoadingHeaders && FindSeparator(file, 0) < |file|
           && block == file[..FindSeparator(file, 0)]
           && state == Parse(block).state && envelope == Parse(block).envelope
         case BodyDone =>
           && old(state) == LoadingBody && state == BodyLoaded
           && block == old(block) && Completed(old(base) == old(offset))
    }

    /**
     * `message_notify`. Whatever the chunks, what is loaded depends on the file alone: the header
     * block is what precedes the first empty line, loading fails for lack of one exactly when there
     * is none, and a body read from `offset` completes the file.
     */
    method Notify(pollin: bool) returns (outcome: Outcome)
      requires Valid()
      requires pollin && state in {LoadingHeaders, LoadingBody} ==> isOpen
      modifies this, buffer
      ensures Valid() && (buffer == old(buffer) || fresh(buffer))
      ensures if pollin && old(state) in {LoadingHeaders, LoadingBody} then Concluded(outcome)
              else outcome == Idle && unchanged(this) && unchanged(buffer)
    {
      if !pollin || (state != LoadingHeaders && state != LoadingBody) {
        return Idle;
      }
      if state == LoadingHeaders {
        outcome := LoadHeaders();
      } else {
        outcome := LoadBody();
      }
    }

    /** The reading loop in state LOADING_HEADERS. */
    method LoadHeaders() returns (outcome: Outcome)
      requires Valid() && state == LoadingHeaders && isOpen
      modifies this, buffer
      ensures Valid() && (buffer == old(buffer) || fresh(buffer))
      ensures ReadOn(old(readCalls), readCalls) && outcome == Conclusion(LoadingHeaders, readCalls[|readCalls| - 1])
      ensures outcome == Pending ==> state == LoadingHeaders && block == old(block)
      ensures outcome == ReadError ==> state == LoadingFailed
      ensures outcome == NoSeparator ==> state == LoadingFailed && FindSeparator(file, 0) == |file|
      ensures outcome == HeadersFound ==>
                && FindSeparator(file, 0) < |file| && block == file[..FindSeparator(file, 0)]
                && state == Parse(block).state && envelope == Parse(block).envelope
      ensures outcome != Idle && outcome != BodyDone
    {
      while true
        invariant Valid() && isOpen && state == LoadingHeaders && block == old(block)
        invariant buffer == old(buffer) || fresh(buffer)
        invariant old(readCalls) <= readCalls
        invariant forall i :: |old(readCalls)| <= i < |readCalls| ==> readCalls[i].Bytes? && readCalls[i].count > 0
        decreases |file| - position
      {
        var r := ReadChunk();
        if r.WouldBlock? {
          return Pending;
        }
        if r.Failed? {
          Fail();
          return ReadError;
        }
        outcome := AfterHeaderChunk(r.count);
        if outcome != Pending {
          return;
        }
      }
    }

    /** The reading loop in state LOADING_BODY. */
    method LoadBody() returns (outcome: Outcome)
      requires Valid() && state == LoadingBody && isOpen
      modifies this, buffer
      ensures Valid() && (buffer == old(buffer) || fresh(buffer)) && block == old(block)
      ensures ReadOn(old(readCalls), readCalls) && outcome == Conclusion(LoadingBody, readCalls[|readCalls| - 1])
      ensures outcome == Pending ==> state == LoadingBody
      ensures outcome == ReadError ==> state == LoadingFailed
      ensures outcome == BodyDone ==> state == BodyLoaded && Completed(old(base) == old(offset))
      ensures outcome in {Pending, ReadError, BodyDone}
    {
      while true
        invariant Valid() && isOpen && state == LoadingBody && block == old(block)
        invariant buffer == old(buffer) || fresh(buffer)
        invariant base == old(base) && offset == old(offset)
        invariant old(readCalls) <= readCalls
        invariant forall i :: |old(readCalls)| <= i < |readCalls| ==> readCalls[i].Bytes? && readCalls[i].count > 0
        decreases |file| - position
      {
        var r := ReadChunk();
        if r.WouldBlock? {
          return Pending;
        }
        if r.Failed? {
          Fail();
          return ReadError;
        }
        if r.count == 0 {
          FinishBody();
          return BodyDone;
        }
      }
    }
  }
}
