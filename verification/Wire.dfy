/**
 * Requests and replies on the connection (session.c, `try_receive_response`, `try_send_request` and the
 * exchange part of `session_notify`), whatever the server says and whenever it says it.
 */
module Wire {
  import opened Text
  import opened Growth

  // ---------------------------------------------------------------- reply codes

  predicate IsDigit(c: char) { '0' <= c <= '9' }

  predicate IsSpace(c: char) { c == ' ' || '\t' <= c <= '\r' }

  function Digits(s: string, value: nat): nat {
    if s == [] || !IsDigit(s[0]) then value else Digits(s[1..], 10 * value + (s[0] as int - '0' as int))
  }

  function SkipSpace(s: string): (r: string)
    ensures |r| <= |s|
  {
    if s != [] && IsSpace(s[0]) then SkipSpace(s[1..]) else s
  }

  /** `sscanf(s, "%d", ...)`: blanks, a sign, digits, and anything after that. */
  function ScanInt(s: string): Option<int> {
    var t := SkipSpace(s);
    var negative := t != [] && t[0] == '-';
    var u := if t != [] && (t[0] == '-' || t[0] == '+') then t[1..] else t;
    if u == [] || !IsDigit(u[0]) then None
    else
      var value: int := Digits(u, 0);
      Some(if negative then -value else value)
  }

  predicate ThreeDigits(s: string) {
    |s| == 3 && IsDigit(s[0]) && IsDigit(s[1]) && IsDigit(s[2])
  }

  function CodeOf(s: string): nat
    requires ThreeDigits(s)
  {
    100 * (s[0] as int - '0' as int) + 10 * (s[1] as int - '0' as int) + (s[2] as int - '0' as int)
  }

  /** On three digits the scanner reads the number they spell. */
  lemma ScanOfDigits(s: string)
    requires ThreeDigits(s)
    ensures ScanInt(s) == Some(CodeOf(s))
  {
    assert SkipSpace(s) == s;
    var t := s[1..];
    var u := t[1..];
    assert t[0] == s[1] && u[0] == s[2] && u[1..] == [];
    var a, b, c := s[0] as int - '0' as int, s[1] as int - '0' as int, s[2] as int - '0' as int;
    assert Digits(s, 0) == Digits(t, a);
    assert Digits(t, a) == Digits(u, 10 * a + b);
    assert Digits(u, 10 * a + b) == Digits([], 10 * (10 * a + b) + c);
  }

  ghost predicate Spells(digits: string) {
    forall i :: 0 <= i < |digits| ==> '0' <= digits[i] <= '9'
  }

  ghost predicate Blank(blanks: string) {
    forall i :: 0 <= i < |blanks| ==> blanks[i] == ' ' || '\t' <= blanks[i] <= '\r'
  }

  /** The number that digits spell, from the last one. */
  ghost function Spelled(digits: string): nat
    requires Spells(digits)
  {
    if digits == "" then 0
    else 10 * Spelled(digits[..|digits| - 1]) + (digits[|digits| - 1] as int - '0' as int)
  }

  /** Reading on from `done` digits. */
  lemma {:induction false} DigitsSpell(digits: string, done: nat, rest: string)
    requires Spells(digits) && done <= |digits| && (rest == "" || !('0' <= rest[0] <= '9'))
    ensures Digits(digits[done..] + rest, Spelled(digits[..done])) == Spelled(digits)
    decreases |digits| - done
  {
    var left := digits[done..] + rest;
    if done == |digits| {
      assert left == rest && digits[..done] == digits;
    } else {
      assert digits[..done + 1][..done] == digits[..done];
      assert left[0] == digits[done] && left[1..] == digits[done + 1..] + rest;
      DigitsSpell(digits, done + 1, rest);
    }
  }

  lemma {:induction false} BlanksAreSkipped(blanks: string, rest: string)
    requires Blank(blanks) && rest != "" && !(rest[0] == ' ' || '\t' <= rest[0] <= '\r')
    ensures SkipSpace(blanks + rest) == rest
  {
    if blanks == "" {
      assert blanks + rest == rest;
    } else {
      assert (blanks + rest)[1..] == blanks[1..] + rest;
      BlanksAreSkipped(blanks[1..], rest);
    }
  }

  /** Blanks, a sign or none, digits, and then anything but a digit: the number that the digits spell. */
  lemma ScanOfNumber(blanks: string, sign: string, digits: string, rest: string)
    requires Blank(blanks) && sign in {"", "+", "-"} && digits != "" && Spells(digits)
    requires rest == "" || !('0' <= rest[0] <= '9')
    ensures ScanInt(blanks + (sign + (digits + rest)))
         == Some(if sign == "-" then -(Spelled(digits) as int) else Spelled(digits))
  {
    var t, u := sign + (digits + rest), digits + rest;
    assert u[0] == digits[0];
    assert sign == "" ==> t == u;
    assert sign != "" ==> t[0] == sign[0] && t[1..] == u;
    BlanksAreSkipped(blanks, t);
    DigitsSpell(digits, 0, rest);
    assert digits[0..] == digits && digits[..0] == "";
  }

  /** Without a digit there is no number. */
  lemma ScanOfNothing(blanks: string, sign: string, rest: string)
    requires Blank(blanks) && sign in {"+", "-"} && (rest == "" || !('0' <= rest[0] <= '9'))
    ensures ScanInt(blanks + (sign + rest)) == None
  {
    BlanksAreSkipped(blanks, sign + rest);
    assert (sign + rest)[1..] == rest;
  }

  /** What the bytes of the server say so far: no whole line yet, a line without a code, or a code. */
  datatype Reply = Incomplete | Malformed | Code(value: int)

  /** The code of a stream is the number that the first three characters of its first line spell. */
  function FirstReply(stream: string): Reply {
    var end := FindCrlf(stream, 0);
    if end == |stream| then Incomplete
    else if end < 3 then Malformed
    else
      match ScanInt(stream[..3])
      case None => Malformed
      case Some(code) => Code(code)
  }

  /** The code does not depend on what comes after the first line. */
  lemma FirstReplyStays(stream: string, more: string)
    requires FirstReply(stream) != Incomplete
    ensures FirstReply(stream + more) == FirstReply(stream)
  {
    var end, all := FindCrlf(stream, 0), stream + more;
    assert forall i :: 0 <= i < |stream| ==> all[i] == stream[i];
    assert forall i :: 0 <= i < end ==> (CrlfAt(all, i) <==> CrlfAt(stream, i));
    assert CrlfAt(all, end);
    assert FindCrlf(all, 0) >= end;
    assert end >= 3 ==> all[..3] == stream[..3];
  }

  /** A reply of the server: one line with its line end, which does not spell the code -1. */
  ghost predicate IsReply(line: string) {
    |line| >= 2 && FindCrlf(line, 0) == |line| - 2 && FirstReply(line) != Code(-1)
  }

  /** A reply line that begins with three digits is a reply, with the code the digits spell. */
  lemma DigitsMakeReply(line: string)
    requires |line| >= 5 && CrlfAt(line, |line| - 2) && forall i :: 0 <= i < |line| - 2 ==> !CrlfAt(line, i)
    requires ThreeDigits(line[..3])
    ensures IsReply(line) && FirstReply(line) == Code(CodeOf(line[..3]))
  {
    ScanOfDigits(line[..3]);
    assert FindCrlf(line, 0) == |line| - 2;
  }

  /** The scanner also accepts "-1", the value that means "no reply yet". */
  lemma MinusOneIsNoReply()
    ensures ScanInt("-1 ") == Some(-1)
  {
    var s := "-1 ";
    assert SkipSpace(s) == s;
    assert s[1..] == "1 ";
    assert "1 "[1..] == " ";
    assert Digits(" ", 1) == 1;
  }

  // ---------------------------------------------------------------- what the system answers

  /** `read` or `write`: a number of bytes, -1 with EAGAIN, or -1 with any other error. */
  datatype IoResult = Moved(count: nat) | Blocked | Broken

  predicate Moves(r: IoResult) {
    r.Moved? && r.count > 0
  }

  /** A loop of calls: it has gone on as long as bytes have been moved. */
  ghost predicate Asked(before: seq<IoResult>, after: seq<IoResult>) {
    && before <= after && |before| < |after|
    && forall i :: |before| <= i < |after| - 1 ==> Moves(after[i])
  }

  function Last(calls: seq<IoResult>): IoResult
    requires calls != []
  {
    calls[|calls| - 1]
  }

  /** The last read has brought the rest of a line that holds a code. */
  ghost predicate Heard(before: seq<IoResult>, after: seq<IoResult>, reply: Reply) {
    |before| < |after| && Moves(Last(after)) && reply.Code?
  }

  /** The last read has failed, or found the connection shut down, or brought the rest of a line without a code. */
  ghost predicate ReadEnds(before: seq<IoResult>, after: seq<IoResult>, reply: Reply) {
    |before| < |after| && (Last(after).Broken? || Last(after) == Moved(0) || (Moves(Last(after)) && reply.Malformed?))
  }

  ghost predicate WriteEnds(before: seq<IoResult>, after: seq<IoResult>) {
    |before| < |after| && Last(after).Broken?
  }

  class Connection {
    var closed: bool
    var response: array<char>
    var responseSize: nat
    var responseLineLen: nat
    var responseCode: int
    var request: string
    var requestOffset: nat
    var incoming: string         // sent by the server and not read yet
    ghost var earlier: string    // what had been written when the current request was made
    ghost var written: string    // every byte written to the socket
    ghost var readCalls: seq<IoResult>    // how every call of `read` has ended
    ghost var writeCalls: seq<IoResult>   // and every call of `write`
    ghost var cost: Cost

    /** What has been written is what had been written before, and a prefix of the current request. */
    ghost predicate WrittenInOrder()
      reads this`request, this`requestOffset, this`earlier, this`written
    {
      requestOffset <= |request| && written == earlier + request[..requestOffset]
    }

    ghost predicate Buffered()
      reads this`response, this`responseSize, this`cost
    {
      responseSize <= response.Length == cost.capacity && Amortised(cost)
    }

    /** Everything the server has sent since the last reply was acted on. */
    ghost function Stream(): string
      requires Buffered()
      reads this`response, this`responseSize, this`cost, this`incoming, response
    {
      response[..responseSize] + incoming
    }

    /** The part of the stream that has been looked at holds no line end. */
    ghost predicate Scanned()
      requires Buffered()
      reads this`response, this`responseSize, this`cost, this`incoming, this`responseLineLen, response
    {
      && responseLineLen <= responseSize && (responseLineLen < responseSize || responseLineLen == 0)
      && forall i :: 0 <= i < responseLineLen ==> !CrlfAt(Stream(), i)
    }

    ghost predicate Valid()
      reads this, response
    {
      && WrittenInOrder() && Buffered() && Scanned()
      && (responseCode != -1 ==> FirstReply(Stream()) == Code(responseCode))
      && (responseCode == -1 && !closed ==> responseLineLen + 2 > responseSize || FirstReply(Stream()) == Code(-1))
    }

    /** A server that keeps to the protocol: it says one reply, and only after the complete request. */
    ghost predicate InStep()
      requires Buffered()
      reads this, response
    {
      Stream() == "" || (IsReply(Stream()) && requestOffset == |request|)
    }

    /** A new connection: nothing has been requested, the greeting is awaited. */
    constructor ()
      ensures Valid() && InStep() && !closed && responseCode == -1 && request == "" && written == "" && earlier == ""
      ensures fresh(response)
    {
      closed := false;
      response := new char[0];
      responseSize, responseLineLen, responseCode := 0, 0, -1;
      request, requestOffset := "", 0;
      incoming, earlier, written := "", "", "";
      readCalls, writeCalls := [], [];
      cost := FRESH;
    }

    /** The server says something, at any time. */
    method ServerSpeaks(bytes: string)
      requires Valid()
      modifies this`incoming
      ensures Valid() && Stream() == old(Stream()) + bytes
      ensures old(Stream()) == "" && requestOffset == |request| && IsReply(bytes) ==> InStep()
    {
      ghost var before := Stream();
      incoming := incoming + bytes;
      assert Stream() == before + bytes;
      assert "" + bytes == bytes;
      if responseCode != -1 || FirstReply(before) == Code(-1) {
        FirstReplyStays(before, bytes);
      }
      forall i | 0 <= i < responseLineLen ensures !CrlfAt(Stream(), i) {
        assert CrlfAt(before, i) <==> CrlfAt(Stream(), i);
      }
    }

    // -------------------------------------------------------------- receiving

    /** `read`: some of the bytes that have come in, 0 after a shutdown, or -1 with or without EAGAIN. */
    method Read() returns (r: IoResult)
      requires Buffered() && responseSize < response.Length
      modifies response, this`incoming, this`readCalls
      ensures readCalls == old(readCalls) + [r]
      ensures !Moves(r) ==> incoming == old(incoming) && Stream() == old(Stream())
      ensures Moves(r) ==>
                && responseSize + r.count <= response.Length && r.count <= |old(incoming)|
                && incoming == old(incoming)[r.count..]
                && response[..responseSize + r.count] + incoming == old(Stream())
    {
      r :| r in {Blocked, Broken} || (r.Moved? && r.count <= response.Length - responseSize && r.count <= |incoming|
                                      && (r.count == 0 ==> incoming == ""));
      readCalls := readCalls + [r];
      if !Moves(r) {
        return;
      }
      var n := r.count;
      ghost var before := response[..responseSize];
      forall i | responseSize <= i < responseSize + n {
        response[i] := incoming[i - responseSize];
      }
      assert response[..responseSize + n] == before + incoming[..n];
      assert before + incoming == before + incoming[..n] + incoming[n..];
      incoming := incoming[n..];
    }

    /** A full buffer grows, then bytes are read. */
    method ReadChunk() returns (r: IoResult)
      requires Buffered()
      modifies response, this`response, this`cost, this`incoming, this`responseSize, this`readCalls
      ensures Buffered() && (response == old(response) || fresh(response)) && Stream() == old(Stream())
      ensures readCalls == old(readCalls) + [r]
      ensures if Moves(r) then responseSize == old(responseSize) + r.count && |incoming| == |old(incoming)| - r.count
              else responseSize == old(responseSize) && incoming == old(incoming)
    {
      if responseSize == response.Length {
        GrowKeepsAmortised(cost);
        response := Reallocate(response, responseSize);
        cost := Grow(cost);
      }
      r := Read();
      if r.Moved? {
        responseSize := responseSize + r.count;
      }
    }

    /** The scan for the line end goes on where the previous chunk left it. */
    method ScanLine() returns (found: bool)
      requires Buffered() && Scanned()
      modifies this`responseLineLen
      ensures Scanned()
      ensures if found then responseLineLen + 2 <= responseSize && FindCrlf(Stream(), 0) == responseLineLen < |Stream()|
              else responseLineLen + 2 > responseSize
    {
      ghost var stream := Stream();
      assert forall i :: 0 <= i < responseSize ==> response[i] == stream[i];
      while responseLineLen + 2 <= responseSize
        invariant Scanned() && Stream() == stream
      {
        if response[responseLineLen] == '\r' && response[responseLineLen + 1] == '\n' {
          assert CrlfAt(stream, responseLineLen);
          return true;
        }
        responseLineLen := responseLineLen + 1;
      }
      found := false;
    }

    /**
     * `try_receive_response`: whatever the chunks, nothing of the stream is lost, and a code is known as soon
     * as the first line has been read, as the number that this line begins with. The session is closed exactly
     * when the last read has failed, or found the connection shut down, or when that line has no code.
     */
    method TryReceive() returns (received: bool)
      requires Valid() && responseCode == -1 && !closed
      modifies response, this`response, this`cost, this`incoming, this`responseSize, this`responseLineLen
      modifies this`responseCode, this`closed, this`readCalls
      ensures Valid() && (response == old(response) || fresh(response)) && Stream() == old(Stream())
      ensures Asked(old(readCalls), readCalls)
      ensures received <==> Heard(old(readCalls), readCalls, FirstReply(Stream()))
      ensures closed <==> ReadEnds(old(readCalls), readCalls, FirstReply(Stream()))
      ensures Moves(Last(readCalls)) ==> FirstReply(Stream()) != Incomplete
      ensures !Moves(Last(readCalls)) ==> responseLineLen + 2 > responseSize || FirstReply(Stream()) == Code(-1)
      ensures received ==> !closed && FirstReply(Stream()) == Code(responseCode) && responseLineLen + 2 <= responseSize
      ensures received ==> FindCrlf(Stream(), 0) == responseLineLen
      ensures !received ==> responseCode == -1
    {
      while true
        invariant Valid() && responseCode == -1 && !closed && Stream() == old(Stream())
        invariant response == old(response) || fresh(response)
        invariant old(readCalls) <= readCalls && forall i :: |old(readCalls)| <= i < |readCalls| ==> Moves(readCalls[i])
        decreases |incoming|
      {
        var r := ReadChunk();
        if !r.Moved? {
          if r.Broken? {
            closed := true;
          }
          return false;
        }
        if r.count == 0 {
          closed := true;
          return false;
        }
        var found := ScanLine();
        if found {
          received := TakeCode();
          return;
        }
      }
    }

    /** The code is taken from the line that has been found. */
    method TakeCode() returns (received: bool)
      requires WrittenInOrder() && Buffered() && Scanned() && responseCode == -1 && !closed
      requires responseLineLen + 2 <= responseSize && FindCrlf(Stream(), 0) == responseLineLen < |Stream()|
      modifies this`responseCode, this`closed
      ensures Valid()
      ensures if received then !closed && FirstReply(Stream()) == Code(responseCode)
              else closed && responseCode == -1 && FirstReply(Stream()) == Malformed
    {
      if responseLineLen < 3 {
        closed := true;
        return false;
      }
      assert response[..3] == Stream()[..3];
      var code := ScanInt(response[..3]);
      if code == None {
        closed := true;
        return false;
      }
      responseCode := code.value;
      received := true;
    }

    // -------------------------------------------------------------- sending

    /** `write`: some of the remaining bytes, none, or -1 with or without EAGAIN. */
    method Write() returns (r: IoResult)
      requires requestOffset <= |request|
      modifies this`written, this`writeCalls
      ensures writeCalls == old(writeCalls) + [r]
      ensures r.Moved? ==> requestOffset + r.count <= |request|
      ensures written == old(written) + if r.Moved? then request[requestOffset..requestOffset + r.count] else ""
    {
      r :| r in {Blocked, Broken} || (r.Moved? && r.count <= |request| - requestOffset);
      writeCalls := writeCalls + [r];
      written := written + if r.Moved? then request[requestOffset..requestOffset + r.count] else "";
    }

    /**
     * `try_send_request`: the request is complete afterwards exactly when the last write has taken the rest of
     * it; the session is closed exactly when the last write has failed.
     */
    method TrySend()
      requires WrittenInOrder() && requestOffset < |request|
      modifies this`requestOffset, this`written, this`closed, this`writeCalls
      ensures Asked(old(writeCalls), writeCalls)
      ensures WrittenInOrder() && old(requestOffset) <= requestOffset && old(written) <= written
      ensures requestOffset == |request| <==> Moves(Last(writeCalls))
      ensures closed <==> old(closed) || WriteEnds(old(writeCalls), writeCalls)
    {
      while requestOffset < |request|
        invariant WrittenInOrder() && old(requestOffset) <= requestOffset && old(written) <= written
        invariant closed == old(closed)
        invariant old(writeCalls) <= writeCalls
        invariant forall i :: |old(writeCalls)| <= i < |writeCalls| ==> Moves(writeCalls[i])
        invariant writeCalls == old(writeCalls) ==> requestOffset < |request|
      {
        ghost var part := request[..requestOffset];
        var r := Write();
        if !r.Moved? {
          if r.Broken? {
            closed := true;
          }
          return;
        }
        if r.count == 0 {
          return;
        }
        assert part + request[requestOffset..requestOffset + r.count] == request[..requestOffset + r.count];
        requestOffset := requestOffset + r.count;
      }
    }

    // -------------------------------------------------------------- the exchange

    /**
     * The reads and writes of `session_notify`; if a code is known afterwards, the reply is dispatched. That
     * happens to a closed session exactly when a whole reply has been read although its request is not
     * complete, and the rest of the request cannot be written. No server in step makes it happen.
     */
    method Transfer(canRead: bool, canWrite: bool)
      requires Valid() && !closed && responseCode == -1
      modifies this, response
      ensures Valid() && (response == old(response) || fresh(response)) && Stream() == old(Stream())
      ensures request == old(request) && earlier == old(earlier) && old(written) <= written
      ensures if canRead then Asked(old(readCalls), readCalls) else readCalls == old(readCalls)
      ensures if canWrite && old(requestOffset) < |request| then Asked(old(writeCalls), writeCalls)
              else writeCalls == old(writeCalls)
      ensures var reply := FirstReply(Stream());
              responseCode == if Heard(old(readCalls), readCalls, reply) then reply.value else -1
      ensures closed <==>
                ReadEnds(old(readCalls), readCalls, FirstReply(Stream())) || WriteEnds(old(writeCalls), writeCalls)
      ensures WriteEnds(old(writeCalls), writeCalls) ==> requestOffset < |request|
      ensures old(InStep()) ==>
                InStep() && (responseCode != -1 ==> !closed && requestOffset == |request| && incoming == "")
    {
      if canRead {
        var received := TryReceive();
      }
      assert old(InStep()) && responseCode != -1 ==> requestOffset == |request| && incoming == "" by {
        if old(InStep()) && responseCode != -1 {
          WholeReplyIsRead();
        }
      }
      if canWrite && requestOffset < |request| {
        TrySend();
      }
    }

    /** In step, the line that gave the code is all that the server has said. */
    lemma WholeReplyIsRead()
      requires Valid() && IsReply(Stream()) && responseLineLen + 2 <= responseSize
      requires FindCrlf(Stream(), 0) == responseLineLen
      ensures incoming == ""
    {
      assert |Stream()| == responseSize + |incoming|;
    }

    /**
     * The frame of `dispatch`: the next request replaces the current one, and what has been read is
     * dropped, be it more than the reply or not.
     */
    method NextRequest(next: string)
      requires Valid()
      modifies this`request, this`requestOffset, this`earlier
      modifies this`responseSize, this`responseLineLen, this`responseCode
      ensures Valid() && request == next && requestOffset == 0 && responseCode == -1
      ensures written == earlier && Stream() == old(incoming)
    {
      earlier := written;
      request, requestOffset := next, 0;
      responseSize, responseLineLen, responseCode := 0, 0, -1;
      assert request[..0] == "" && response[..0] == [] && written == earlier + "";
      assert Stream() == incoming;
    }
  }
}
