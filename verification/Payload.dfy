/** The DATA payload (session.c, `write_data_payload`) and the receiver of section 4.5.2 of RFC 5321. */
module Payload {
  import opened Text
  import opened Headers

  // ---------------------------------------------------------------- the sender

  /** Where the line that starts at `start` ends, its line end not included. */
  function LineEnd(body: string, start: nat): (r: nat)
    requires start <= |body|
    ensures start <= r <= |body|
  {
    FindCrlf(body, start)
  }

  /** One line as it is sent: a line that is exactly "." gets a second dot. */
  function SentLine(line: string): string {
    if line == "." then ".." else line
  }

  /** The body from `start` on as it is sent. */
  function SentBody(body: string, start: nat): string
    requires start <= |body|
    decreases |body| - start
  {
    if start == |body| then ""
    else
      var end := LineEnd(body, start);
      var line := SentLine(body[start..end]);
      if end == |body| then line else line + CRLF + SentBody(body, end + 2)
  }

  const TERMINATOR: string := "\r\n.\r\n"

  /** The payload for NUL-free headers and a NUL-free body. */
  function Encode(headers: seq<Header>, body: string): string {
    PrintHeaders(headers) + CRLF + SentBody(body, 0) + TERMINATOR
  }

  method WriteHeaders(headers: seq<Header>) returns (stream: string)
    ensures stream == PrintHeaders(headers)
  {
    stream := "";
    var i := 0;
    while i < |headers|
      invariant 0 <= i <= |headers|
      invariant stream + PrintHeaders(headers[i..]) == PrintHeaders(headers)
    {
      assert headers[i..][1..] == headers[i + 1..];
      ghost var before, line, rest := stream, PrintLine(headers[i]) + CRLF, PrintHeaders(headers[i + 1..]);
      stream := stream + (PrintLine(headers[i]) + CRLF);
      assert before + (line + rest) == stream + rest;
      i := i + 1;
    }
    assert PrintHeaders(headers[i..]) == "";
  }

  /** The inner loop of `write_data_payload`: the end of the line that starts at `start`. */
  method ScanLine(body: string, start: nat) returns (end: nat)
    requires start <= |body|
    ensures end == LineEnd(body, start)
  {
    end := start;
    while end + 2 <= |body| && !CrlfAt(body, end)
      invariant start <= end <= |body|
      invariant forall j :: start <= j < end ==> !CrlfAt(body, j)
    {
      end := end + 1;
    }
    if end + 2 > |body| {
      end := |body|;
    }
  }

  /**
   * The body is printed in chunks of one line and its line end, each through `%.*s`; on
   * NUL-free text that loses nothing.
   */
  method WriteBody(body: string) returns (stream: string)
    requires NoNul(body)
    ensures stream == SentBody(body, 0)
  {
    stream := "";
    var start := 0;
    ghost var whole := SentBody(body, 0);
    while start < |body|
      invariant 0 <= start <= |body|
      invariant stream + SentBody(body, start) == whole
    {
      var end := ScanLine(body, start);
      ghost var before := stream;
      if end - start == 1 && body[start] == '.' {
        stream := stream + ".";
      } else {
        assert stream + "" == stream;
      }
      if end < |body| {
        end := end + 2;
      }
      stream := stream + CString(body[start..end]);
      PrintedChunk(body, start, end, before);
      start := end;
    }
  }

  /** `write_data_payload` */
  method WriteDataPayload(headers: seq<Header>, body: string) returns (stream: string)
    requires NoNul(body)
    ensures stream == Encode(headers, body)
  {
    var head := WriteHeaders(headers);
    var text := WriteBody(body);
    stream := head + CRLF + text + TERMINATOR;
  }

  ghost function Dot(body: string, start: nat, end: nat): string
    requires start < |body|
  {
    if end - start == 1 && body[start] == '.' then "." else ""
  }

  /** A line with its dot is the line as it is sent. */
  lemma DottedLine(body: string, start: nat)
    requires start < |body|
    ensures var end := LineEnd(body, start);
            Dot(body, start, end) + body[start..end] == SentLine(body[start..end])
  {
    var line := body[start..LineEnd(body, start)];
    assert |line| > 0 ==> line[0] == body[start];
    assert line == "." <==> |line| == 1 && line[0] == '.';
  }

  lemma SentBodyAt(body: string, start: nat, next: nat)
    requires start < |body|
    requires var end := LineEnd(body, start); next == if end < |body| then end + 2 else end
    ensures next <= |body|
    ensures SentBody(body, start) == Dot(body, start, LineEnd(body, start)) + body[start..next] + SentBody(body, next)
  {
    var end := LineEnd(body, start);
    var line, dot := body[start..end], Dot(body, start, end);
    DottedLine(body, start);
    if end < |body| {
      assert body[start..next] == line + CRLF;
      assert dot + (line + CRLF) == dot + line + CRLF;
    } else {
      assert body[start..next] == line && dot + line + "" == dot + line;
    }
  }

  lemma PrintedChunk(body: string, start: nat, next: nat, before: string)
    requires start < |body| && NoNul(body)
    requires var end := LineEnd(body, start); next == if end < |body| then end + 2 else end
    ensures next <= |body|
    ensures before + SentBody(body, start)
         == before + Dot(body, start, LineEnd(body, start)) + CString(body[start..next]) + SentBody(body, next)
  {
    SentBodyAt(body, start, next);
    var dot, chunk, rest := Dot(body, start, LineEnd(body, start)), body[start..next], SentBody(body, next);
    assert NoNul(chunk);
    Assoc(before, dot + chunk, rest);
    Assoc(before, dot, chunk);
  }

  // ---------------------------------------------------------------- framing

  /** A line starts at `i`, with a dot. */
  predicate LeadingDotAt(s: string, i: int) {
    (i == 0 || CrlfAt(s, i - 2)) && 0 <= i < |s| && s[i] == '.'
  }

  /** The line that starts at `i` is exactly "." and is terminated. */
  predicate DotLineAt(s: string, i: int) {
    LeadingDotAt(s, i) && CrlfAt(s, i + 1)
  }

  ghost predicate NoLeadingDot(s: string) {
    forall i :: 0 <= i < |s| ==> !LeadingDotAt(s, i)
  }

  ghost predicate NoDotLine(s: string) {
    forall i :: 0 <= i < |s| ==> !DotLineAt(s, i)
  }

  /** CRLF "." CRLF at position `i` of the stream that follows the "354" line end. */
  predicate EndOfDataAt(s: string, i: int) {
    0 <= i && i + 5 <= |CRLF + s| && (CRLF + s)[i..i + 5] == TERMINATOR
  }

  lemma EndOfDataIsDotLine(s: string, i: nat)
    ensures EndOfDataAt(s, i) <==> DotLineAt(s, i)
  {
    var t := CRLF + s;
    if i + 5 <= |t| {
      var u := t[i..i + 5];
      assert u[0] == t[i] && u[1] == t[i + 1] && u[2] == t[i + 2] && u[3] == t[i + 3] && u[4] == t[i + 4];
      assert t[i + 2] == s[i] && t[i + 3] == s[i + 1] && t[i + 4] == s[i + 2];
      assert i >= 2 ==> t[i] == s[i - 2] && t[i + 1] == s[i - 1];
      assert TERMINATOR == ['\r', '\n', '.', '\r', '\n'];
    }
  }

  lemma DotLineOfConcat(a: string, b: string, i: nat)
    requires Terminated(a)
    ensures DotLineAt(a + b, i) <==> DotLineAt(a, i) || (i >= |a| && DotLineAt(b, i - |a|))
    ensures LeadingDotAt(a + b, i) <==> LeadingDotAt(a, i) || (i >= |a| && LeadingDotAt(b, i - |a|))
  {
    CrlfOfTerminated(a, b, i - 2);
    CrlfOfTerminated(a, b, i + 1);
  }

  lemma DotsOfConcat(a: string, b: string)
    requires Terminated(a)
    ensures NoDotLine(a + b) <==> NoDotLine(a) && NoDotLine(b)
    ensures NoLeadingDot(a + b) <==> NoLeadingDot(a) && NoLeadingDot(b)
  {
    forall i: nat
      ensures DotLineAt(a + b, i) <==> DotLineAt(a, i) || (i >= |a| && DotLineAt(b, i - |a|))
      ensures LeadingDotAt(a + b, i) <==> LeadingDotAt(a, i) || (i >= |a| && LeadingDotAt(b, i - |a|))
    {
      DotLineOfConcat(a, b, i);
    }
    forall i | 0 <= i < |b| && LeadingDotAt(b, i) ensures LeadingDotAt(a + b, |a| + i) {
    }
    forall i | 0 <= i < |b| && DotLineAt(b, i) ensures DotLineAt(a + b, |a| + i) {
    }
  }

  lemma TerminatedConcat(a: string, b: string)
    requires Terminated(a) && Terminated(b)
    ensures Terminated(a + b)
  {
    CrlfOfTerminated(a, b, |a + b| - 2);
    assert b == [] ==> a + b == a;
  }

  /** A header whose printed form opens with a line that is exactly ".". */
  predicate OpensWithDotLine(h: Header) {
    |h.name| >= 3 && h.name[..3] == ".\r\n"
  }

  ghost predicate CleanHeaders(headers: seq<Header>) {
    forall i :: 0 <= i < |headers| ==> ParserMade(headers[i]) && NoNul(headers[i].name) && NoNul(headers[i].value)
  }

  predicate StartsWithDot(s: string) { s != [] && s[0] == '.' }

  /** Which lines of the printed headers start with a dot, and which are only a dot. */
  lemma {:induction false} DotsOfHeaders(headers: seq<Header>)
    requires CleanHeaders(headers)
    ensures Terminated(PrintHeaders(headers))
    ensures NoDotLine(PrintHeaders(headers)) <==> forall i :: 0 <= i < |headers| ==> !OpensWithDotLine(headers[i])
    ensures NoLeadingDot(PrintHeaders(headers)) <==> forall i :: 0 <= i < |headers| ==> !StartsWithDot(headers[i].name)
  {
    if headers != [] {
      var line, rest := PrintLine(headers[0]) + CRLF, headers[1..];
      DotsOfHeaders(rest);
      DotsOfHeader(headers[0]);
      DotsOfConcat(line, PrintHeaders(rest));
      TerminatedConcat(line, PrintHeaders(rest));
      assert headers == [headers[0]] + rest;
    }
  }

  lemma DotsOfHeader(h: Header)
    requires ParserMade(h) && NoNul(h.name) && NoNul(h.value)
    ensures Terminated(PrintLine(h) + CRLF)
    ensures NoDotLine(PrintLine(h) + CRLF) <==> !OpensWithDotLine(h)
    ensures NoLeadingDot(PrintLine(h) + CRLF) <==> !StartsWithDot(h.name)
  {
    var n := |h.name|;
    var s := PrintLine(h) + CRLF;
    assert s == h.name + ": " + h.value + CRLF;
    assert forall j :: 0 <= j < n ==> s[j] == h.name[j];
    assert s[n] == ':' && s[n + 1] == ' ';
    assert forall j :: 0 <= j < |h.value| ==> s[n + 2 + j] == h.value[j];
    assert s[|s| - 2] == '\r' && s[|s| - 1] == '\n';
    forall i | 0 < i < |s| && CrlfAt(s, i - 2) ensures s[i] != '.' {
      if i - 1 < n {
        assert CrlfAt(h.name, i - 2);
      } else if i - 2 >= n + 2 && i - 1 < |s| - 2 {
        assert CrlfAt(h.value, i - 4 - n);
      }
    }
    assert LeadingDotAt(s, 0) <==> StartsWithDot(h.name);
    assert DotLineAt(s, 0) <==> OpensWithDotLine(h) by {
      if n >= 3 {
        assert h.name[..3] == [s[0], s[1], s[2]];
      }
    }
  }

  ghost predicate OneLine(line: string) {
    forall i :: !CrlfAt(line, i)
  }

  lemma DotsOfLine(line: string)
    requires OneLine(line)
    ensures Terminated(line + CRLF)
    ensures NoDotLine(line + CRLF) <==> line != "."
    ensures FindCrlf(line + CRLF, 0) == |line|
  {
    var s := line + CRLF;
    assert forall i :: 0 <= i < |line| ==> s[i] == line[i];
    assert s[|line|] == '\r' && s[|line| + 1] == '\n';
    forall i | 0 <= i < |line| ensures !CrlfAt(s, i) {
      assert !CrlfAt(line, i);
    }
    assert EndsCrlf(s);
    assert FindCrlf(s, 0) >= |line| && CrlfAt(s, |line|);
    assert forall i :: 0 < i < |s| ==> !DotLineAt(s, i);
    assert DotLineAt(s, 0) <==> line == "." by {
      assert line == "." <==> |line| == 1 && line[0] == '.';
    }
  }

  lemma BodyLine(body: string, start: nat)
    requires start <= |body|
    ensures OneLine(body[start..LineEnd(body, start)])
    ensures OneLine(SentLine(body[start..LineEnd(body, start)]))
  {
    var line := body[start..LineEnd(body, start)];
    forall i ensures !CrlfAt(line, i) {
      if CrlfAt(line, i) {
        assert CrlfAt(body, start + i);
      }
    }
  }

  /** The line at `start` as it is sent, and where the next one starts. */
  lemma SentLineAt(body: string, start: nat) returns (line: string, next: nat)
    requires start < |body|
    ensures OneLine(line) && line != "." && next > start
    ensures next == if LineEnd(body, start) < |body| then LineEnd(body, start) + 2 else |body| + 1
    ensures SentBody(body, start) == if next <= |body| then line + CRLF + SentBody(body, next) else line
    ensures line == SentLine(body[start..LineEnd(body, start)])
  {
    BodyLine(body, start);
    line := SentLine(body[start..LineEnd(body, start)]);
    next := if LineEnd(body, start) < |body| then LineEnd(body, start) + 2 else |body| + 1;
  }

  lemma DotsOfMore(line: string, rest: string)
    requires OneLine(line) && line != "." && Terminated(rest) && NoDotLine(rest)
    ensures Terminated(line + CRLF + rest) && NoDotLine(line + CRLF + rest)
  {
    DotsOfLine(line);
    DotsOfConcat(line + CRLF, rest);
    TerminatedConcat(line + CRLF, rest);
  }

  /** No line of the transmitted body is a lone dot. */
  lemma {:induction false} DotsOfBody(body: string, start: nat)
    requires start <= |body|
    ensures Terminated(SentBody(body, start) + CRLF)
    ensures NoDotLine(SentBody(body, start) + CRLF)
    decreases |body| - start
  {
    if start == |body| {
      DotsOfLine("");
    } else {
      var line, next := SentLineAt(body, start);
      DotsOfLine(line);
      if next <= |body| {
        DotsOfBody(body, next);
        DotsOfMore(line, SentBody(body, next) + CRLF);
        Assoc(line + CRLF, SentBody(body, next), CRLF);
      }
    }
  }

  /** The end-of-data mark occurs once in what follows the "354" reply, at the very end. */
  ghost predicate FramedOnce(payload: string) {
    forall i: nat :: EndOfDataAt(payload, i) <==> i + 3 == |payload|
  }

  /**
   * Framing. For headers the parser can produce, the payload is framed exactly when no header
   * name opens with "." CRLF. Such a name exists: a folded line before the ':' belongs to it.
   */
  lemma Framing(headers: seq<Header>, body: string)
    requires CleanHeaders(headers)
    ensures FramedOnce(Encode(headers, body)) <==> forall i :: 0 <= i < |headers| ==> !OpensWithDotLine(headers[i])
  {
    var before := PrintHeaders(headers) + CRLF + (SentBody(body, 0) + CRLF);
    DotsOfHeaders(headers);
    DotsBefore(PrintHeaders(headers), SentBody(body, 0) + CRLF, body);
    var s := Encode(headers, body);
    assert s == before + ".\r\n";
    forall i: nat ensures EndOfDataAt(s, i) <==> DotLineAt(before, i) || i + 3 == |s| {
      EndOfDataIsDotLine(s, i);
      DotLineOfConcat(before, ".\r\n", i);
    }
    if !NoDotLine(before) {
      var i :| 0 <= i < |before| && DotLineAt(before, i);
      assert EndOfDataAt(s, i);
    }
  }

  lemma DotsBefore(head: string, text: string, body: string)
    requires Terminated(head) && text == SentBody(body, 0) + CRLF
    ensures Terminated(head + CRLF + text)
    ensures NoDotLine(head + CRLF + text) <==> NoDotLine(head)
  {
    DotsOfLine("");
    assert "" + CRLF == CRLF;
    DotsOfConcat(head, CRLF);
    TerminatedConcat(head, CRLF);
    DotsOfBody(body, 0);
    DotsOfConcat(head + CRLF, text);
    TerminatedConcat(head + CRLF, text);
  }

  /** A block whose header ends the DATA payload early, straight from the parser. */
  lemma FoldedDotBreaksFraming()
    ensures var headers := ParseBlock(".\r\n x: y").headers;
            headers == [Header(".\r\n x", "y")] && !FramedOnce(Encode(headers, ""))
  {
    FoldedDotIsRead();
    FoldedDotIsClean();
    assert ".\r\n x"[..3] == ".\r\n";
    Framing([Header(".\r\n x", "y")], "");
  }

  lemma FoldedDotIsMade()
    ensures ParserMade(Header(".\r\n x", "y"))
  {
    FoldedDotIsRead();
    ParseBlockShape(".\r\n x: y");
    assert ParserMade(ParseBlock(".\r\n x: y").headers[0]);
  }

  lemma FoldedDotIsClean()
    ensures CleanHeaders([Header(".\r\n x", "y")])
  {
    FoldedDotIsMade();
  }

  lemma FoldedDotIsRead()
    ensures ParseBlock(".\r\n x: y").headers == [Header(".\r\n x", "y")]
  {
    var block := ".\r\n x: y";
    assert CrlfAt(block, 1) && IsBlank(block[3]);
    assert forall i :: 0 <= i < |block| ==> !CutAt(block, i);
    assert FindCut(block, 0) == |block|;
    assert block[0..] == block;
    HeaderAt(block, 5, 5, 7, 8);
    assert block[..5] == ".\r\n x" && block[7..8] == "y";
    assert HeadersOf([]) == HeaderList(true, []);
    assert Pieces(block) == [block] && [block][1..] == [];
  }

  // ---------------------------------------------------------------- the receiver

  datatype Received = Received(text: string, rest: string)

  /** A receiver drops the first dot of a line that has more characters. */
  function StripDot(line: string): string {
    if StartsWithDot(line) then line[1..] else line
  }

  /** The mail data up to the first line that is a lone dot, and what follows that line. */
  function Receive(s: string): Option<Received>
    decreases |s|
  {
    var end := FindCrlf(s, 0);
    if end == |s| then None
    else if s[..end] == "." then Some(Received("", s[end + 2..]))
    else match Receive(s[end + 2..])
      case None => None
      case Some(r) => Some(Received(StripDot(s[..end]) + CRLF + r.text, r.rest))
  }

  /** Terminated text with the first dot of every line dropped. */
  function Unstuff(s: string): string
    decreases |s|
  {
    var end := FindCrlf(s, 0);
    if end == |s| then "" else StripDot(s[..end]) + CRLF + Unstuff(s[end + 2..])
  }

  lemma SplitFirstLine(line: string, rest: string)
    requires OneLine(line)
    ensures var s := line + CRLF + rest; FindCrlf(s, 0) == |line| && s[..|line|] == line && s[|line| + 2..] == rest
  {
    var s := line + CRLF + rest;
    FirstLine(s, 0, line, rest);
    forall i | 0 <= i < |line| ensures !CrlfAt(s, i) {
      assert !CrlfAt(line, i);
    }
  }

  lemma OneLineBefore(s: string)
    ensures OneLine(s[..FindCrlf(s, 0)])
  {
    var end := FindCrlf(s, 0);
    forall i ensures !CrlfAt(s[..end], i) {
      if CrlfAt(s[..end], i) {
        assert CrlfAt(s, i);
      }
    }
  }

  lemma FirstLineOf(s: string)
    requires Terminated(s) && s != []
    ensures var end := FindCrlf(s, 0);
            end < |s| && OneLine(s[..end]) && Terminated(s[end + 2..]) && s == s[..end] + CRLF + s[end + 2..]
  {
    var end, last := FindCrlf(s, 0), |s| - 2;
    assert CrlfAt(s, last);
    OneLineBefore(s);
    var rest := s[end + 2..];
    SplitAtCrlf(s, 0, end);
    assert s[0..end] == s[..end] && s[0..] == s;
    if rest != [] {
      assert end + 1 != last;
      assert rest[last - end - 2] == s[last] && rest[last - end - 1] == s[last + 1];
      assert CrlfAt(rest, |rest| - 2);
    }
  }

  /** What is received when `text` comes before the rest of the mail data. */
  function Before(text: string, r: Option<Received>): Option<Received> {
    match r
    case None => None
    case Some(rest) => Some(Received(text + rest.text, rest.rest))
  }

  lemma ReceiveLine(line: string, rest: string)
    requires OneLine(line)
    ensures Receive(line + CRLF + rest)
         == if line == "." then Some(Received("", rest)) else Before(StripDot(line) + CRLF, Receive(rest))
  {
    SplitFirstLine(line, rest);
  }

  lemma BeforeConcat(a: string, b: string, r: Option<Received>)
    ensures Before(a, Before(b, r)) == Before(a + b, r)
    ensures Before("", r) == r
  {
    if r.Some? {
      assert a + (b + r.value.text) == a + b + r.value.text;
      assert "" + r.value.text == r.value.text;
    }
  }

  /** Text without a lone-dot line is received line by line; one with such a line ends the mail early. */
  lemma {:induction false} ReceiveText(a: string, b: string)
    requires Terminated(a)
    ensures NoDotLine(a) ==> Receive(a + b) == Before(Unstuff(a), Receive(b))
    ensures !NoDotLine(a) && Receive(b).Some? ==> Receive(a + b).Some? && |Receive(a + b).value.rest| >= |b|
    decreases |a|
  {
    if a == [] {
      assert a + b == b;
      BeforeConcat("", "", Receive(b));
    } else {
      FirstLineOf(a);
      var end := FindCrlf(a, 0);
      var line, rest := a[..end], a[end + 2..];
      assert a + b == line + CRLF + (rest + b);
      ReceiveLine(line, rest + b);
      DotsOfLine(line);
      DotsOfConcat(line + CRLF, rest);
      ReceiveText(rest, b);
      BeforeConcat(StripDot(line) + CRLF, Unstuff(rest), Receive(b));
    }
  }

  /** Stripping dots changes the text exactly when some line starts with a dot. */
  lemma {:induction false} UnstuffChanges(s: string)
    requires Terminated(s)
    ensures NoLeadingDot(s) ==> Unstuff(s) == s
    ensures !NoLeadingDot(s) ==> |Unstuff(s)| < |s|
    decreases |s|
  {
    if s != [] {
      FirstLineOf(s);
      var end := FindCrlf(s, 0);
      var line, rest := s[..end], s[end + 2..];
      UnstuffChanges(rest);
      DotsOfLine(line);
      DotsOfConcat(line + CRLF, rest);
      LeadingDotOfLine(line);
    }
  }

  lemma LeadingDotOfLine(line: string)
    requires OneLine(line)
    ensures NoLeadingDot(line + CRLF) <==> !StartsWithDot(line)
  {
    var s := line + CRLF;
    assert forall i :: 0 <= i < |line| ==> s[i] == line[i];
    forall i | 0 < i < |s| ensures !LeadingDotAt(s, i) {
      if CrlfAt(s, i - 2) && i - 1 < |line| {
        assert CrlfAt(line, i - 2);
      }
    }
    assert LeadingDotAt(s, 0) <==> StartsWithDot(line);
  }

  /** What the receiver makes of one transmitted body line. */
  function KeptLine(line: string): string {
    StripDot(SentLine(line))
  }

  function KeptBody(body: string, start: nat): string
    requires start <= |body|
    decreases |body| - start
  {
    if start == |body| then ""
    else
      var end := LineEnd(body, start);
      var line := KeptLine(body[start..end]);
      if end == |body| then line else line + CRLF + KeptBody(body, end + 2)
  }

  lemma UnstuffLine(line: string, rest: string)
    requires OneLine(line)
    ensures Unstuff(line + CRLF + rest) == StripDot(line) + CRLF + Unstuff(rest)
  {
    SplitFirstLine(line, rest);
  }

  lemma {:induction false} UnstuffBody(body: string, start: nat)
    requires start <= |body|
    ensures Unstuff(SentBody(body, start) + CRLF) == KeptBody(body, start) + CRLF
    decreases |body| - start
  {
    if start == |body| {
      UnstuffLast("");
    } else {
      var line, next := SentLineAt(body, start);
      if next <= |body| {
        UnstuffBody(body, next);
        UnstuffNext(line, SentBody(body, next), KeptBody(body, next));
      } else {
        UnstuffLast(line);
      }
    }
  }

  lemma UnstuffNext(line: string, sent: string, kept: string)
    requires OneLine(line) && Unstuff(sent + CRLF) == kept + CRLF
    ensures Unstuff(line + CRLF + sent + CRLF) == StripDot(line) + CRLF + kept + CRLF
  {
    UnstuffLine(line, sent + CRLF);
    Assoc(line + CRLF, sent, CRLF);
    Assoc(StripDot(line) + CRLF, kept, CRLF);
  }

  lemma UnstuffLast(line: string)
    requires OneLine(line)
    ensures Unstuff(line + CRLF) == StripDot(line) + CRLF
  {
    UnstuffLine(line, "");
    assert line + CRLF + "" == line + CRLF;
    assert StripDot(line) + CRLF + "" == StripDot(line) + CRLF;
  }

  /** Every line of the body that starts with a dot is exactly ".". */
  ghost predicate DotLinesAreLone(body: string) {
    forall i :: LeadingDotAt(body, i) ==> i + 1 == |body| || CrlfAt(body, i + 1)
  }

  /** The same, line by line. */
  predicate LoneFrom(body: string, start: nat)
    requires start <= |body|
    decreases |body| - start
  {
    start == |body| || (
      var end := LineEnd(body, start);
      && (StartsWithDot(body[start..end]) ==> end == start + 1)
      && (end == |body| || LoneFrom(body, end + 2)))
  }

  lemma {:induction false} LoneByLine(body: string, start: nat)
    requires start <= |body| && (start == 0 || CrlfAt(body, start - 2))
    ensures LoneFrom(body, start)
       <==> forall i :: i >= start && LeadingDotAt(body, i) ==> i + 1 == |body| || CrlfAt(body, i + 1)
    decreases |body| - start
  {
    if start < |body| {
      LeadingDotsOfLine(body, start);
      if LineEnd(body, start) < |body| {
        LoneByLine(body, LineEnd(body, start) + 2);
      }
    }
  }

  /** Of the positions up to the next line, only the first can be a line start. */
  lemma LeadingDotsOfLine(body: string, start: nat)
    requires start < |body| && (start == 0 || CrlfAt(body, start - 2))
    ensures var end := LineEnd(body, start);
            && (forall i :: start < i < |body| && i < end + 2 ==> !LeadingDotAt(body, i))
            && (LeadingDotAt(body, start) <==> StartsWithDot(body[start..end]))
            && (LeadingDotAt(body, start) ==> (end == start + 1 <==> start + 1 == |body| || CrlfAt(body, start + 1)))
  {
    var end := LineEnd(body, start);
    forall i | start < i < |body| && i < end + 2 ensures !LeadingDotAt(body, i) {
      assert i - 2 >= start ==> !CrlfAt(body, i - 2);
    }
    assert end > start ==> body[start..end][0] == body[start];
  }

  lemma KeptLineChanges(line: string)
    ensures KeptLine(line) == if StartsWithDot(line) && |line| != 1 then line[1..] else line
  {
    if StartsWithDot(line) {
      assert line == "." <==> |line| == 1;
    }
  }

  lemma {:induction false} KeptBodyChanges(body: string, start: nat)
    requires start <= |body|
    ensures if LoneFrom(body, start) then KeptBody(body, start) == body[start..]
            else |KeptBody(body, start)| < |body[start..]|
    decreases |body| - start
  {
    if start < |body| {
      var end := LineEnd(body, start);
      LineIs(body, start, end);
      KeptIs(body, start);
      LoneIs(body, start);
      if end < |body| {
        KeptBodyChanges(body, end + 2);
        KeptCompare(body[start..end], KeptBody(body, end + 2), body[end + 2..], LoneFrom(body, end + 2));
      } else {
        KeptLineChanges(body[start..end]);
      }
    }
  }

  lemma LineIs(body: string, start: nat, end: nat)
    requires start < |body| && end == LineEnd(body, start)
    ensures body[start..] == if end < |body| then body[start..end] + CRLF + body[end + 2..] else body[start..end]
  {
    if end < |body| {
      SplitAtCrlf(body, start, end);
    }
  }

  lemma KeptIs(body: string, start: nat)
    requires start < |body|
    ensures var end := LineEnd(body, start);
            var line := KeptLine(body[start..end]);
            KeptBody(body, start) == if end < |body| then line + CRLF + KeptBody(body, end + 2) else line
  {
  }

  lemma LoneIs(body: string, start: nat)
    requires start < |body|
    ensures var end := LineEnd(body, start);
            var line := body[start..end];
            LoneFrom(body, start) <==>
              (StartsWithDot(line) ==> |line| == 1) && (end < |body| ==> LoneFrom(body, end + 2))
  {
  }

  /** A line and what follows it survive, or something is lost. */
  lemma KeptCompare(line: string, kept: string, rest: string, lone: bool)
    requires if lone then kept == rest else |kept| < |rest|
    ensures if lone && (StartsWithDot(line) ==> |line| == 1) then KeptLine(line) + CRLF + kept == line + CRLF + rest
            else |KeptLine(line) + CRLF + kept| < |line + CRLF + rest|
  {
    KeptLineChanges(line);
  }

  /**
   * Dot transparency. A receiver gets back the header block and the body with one line end
   * added, and is left with exactly what follows the payload, if and only if no header name
   * starts with a dot and every body line that starts with one is a lone dot.
   */
  lemma Transparency(headers: seq<Header>, body: string, tail: string)
    requires CleanHeaders(headers)
    ensures Receive(Encode(headers, body) + tail) == Some(Received(PrintHeaders(headers) + CRLF + body + CRLF, tail))
       <==> (forall i :: 0 <= i < |headers| ==> !StartsWithDot(headers[i].name)) && DotLinesAreLone(body)
  {
    ReceivePayload(headers, body, tail);
    var head := PrintHeaders(headers);
    DotsOfHeaders(headers);
    UnstuffChanges(head);
    KeptBodyChanges(body, 0);
    LoneByLine(body, 0);
    assert body[0..] == body;
    var kept := Unstuff(head) + CRLF + KeptBody(body, 0) + CRLF;
    var sent := head + CRLF + body + CRLF;
    assert |kept| == |Unstuff(head)| + |KeptBody(body, 0)| + 4;
    assert |sent| == |head| + |body| + 4;
  }

  lemma ReceivePayload(headers: seq<Header>, body: string, tail: string)
    requires CleanHeaders(headers)
    ensures var head, r := PrintHeaders(headers), Receive(Encode(headers, body) + tail);
            if NoDotLine(head) then r == Some(Received(Unstuff(head) + CRLF + KeptBody(body, 0) + CRLF, tail))
            else !NoLeadingDot(head) && r.Some? && r.value.rest != tail
  {
    var head, text, last := PrintHeaders(headers), SentBody(body, 0) + CRLF, ".\r\n" + tail;
    EncodedParts(headers, body, tail);
    DotsOfHeaders(headers);
    DotsOfBody(body, 0);
    UnstuffBody(body, 0);
    ReceiveLast(tail);
    ReceiveText(text, last);
    ReceiveEmptyLine(text + last);
    ReceiveText(head, CRLF + (text + last));
    KeptParts(Unstuff(head), KeptBody(body, 0));
  }

  lemma KeptParts(head: string, body: string)
    ensures head + (CRLF + (body + CRLF + "")) == head + CRLF + body + CRLF
  {
  }

  lemma EncodedParts(headers: seq<Header>, body: string, tail: string)
    ensures Encode(headers, body) + tail
         == PrintHeaders(headers) + (CRLF + (SentBody(body, 0) + CRLF + (".\r\n" + tail)))
  {
    assert TERMINATOR == CRLF + ".\r\n";
  }

  lemma ReceiveLast(tail: string)
    ensures Receive(".\r\n" + tail) == Some(Received("", tail))
  {
    ReceiveLine(".", tail);
    assert "." + CRLF + tail == ".\r\n" + tail;
  }

  lemma ReceiveEmptyLine(rest: string)
    ensures Receive(CRLF + rest) == Before(CRLF, Receive(rest))
  {
    ReceiveLine("", rest);
    assert "" + CRLF + rest == CRLF + rest;
    assert "" + CRLF == CRLF;
  }

  /** The bodies "." and ".." are transmitted alike. */
  lemma LoneDotIsAmbiguous(headers: seq<Header>)
    ensures Encode(headers, ".") == Encode(headers, "..")
  {
    assert SentBody(".", 0) == SentBody("..", 0) by {
      assert FindCrlf(".", 0) == 1 && FindCrlf("..", 0) == 2;
      assert "."[0..] == "." && ".."[0..] == "..";
    }
  }
}
