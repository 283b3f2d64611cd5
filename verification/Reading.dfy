/**
 * What becomes of a mail when its receiver reads it as a mail: the text before the first empty line
 * is a header block, the rest is the body (section 2.1 of RFC 5322).
 */
module Reading {
  import opened Text
  import opened Headers
  import opened Recipients
  import opened Payload

  datatype Parts = Parts(ok: bool, headers: seq<Header>, body: string)

  predicate EmptyLineAt(s: string, i: int) {
    (i == 0 || CrlfAt(s, i - 2)) && CrlfAt(s, i)
  }

  /** The first empty line at or after `from`; `|s|` when there is none. */
  function FindEmptyLine(s: string, from: nat): (r: nat)
    requires from <= |s|
    ensures from <= r <= |s|
    ensures r < |s| ==> EmptyLineAt(s, r)
    ensures forall j :: from <= j < r ==> !EmptyLineAt(s, j)
    decreases |s| - from
  {
    if from == |s| || EmptyLineAt(s, from) then from else FindEmptyLine(s, from + 1)
  }

  /** The headers in front of the first empty line. */
  function HeadBlock(text: string, i: nat): HeaderList
    requires i < |text|
  {
    if i < 2 then HeaderList(true, []) else ParseBlock(text[..i - 2])
  }

  /** The text is divided at its first empty line, and what comes before is parsed. */
  function ReadMail(text: string): Parts {
    var i := FindEmptyLine(text, 0);
    if i == |text| then Parts(false, [], "")
    else
      var list := HeadBlock(text, i);
      Parts(list.ok, list.headers, text[i + 2..])
  }

  // ---------------------------------------------------------------- reading header by header

  lemma ReadEmptyLine(rest: string)
    ensures ReadMail(CRLF + rest) == Parts(true, [], rest)
  {
    var s := CRLF + rest;
    assert EmptyLineAt(s, 0);
    assert s[2..] == rest;
  }

  lemma FirstEmptyLine(s: string, k: nat)
    requires k <= |s| && (k < |s| ==> EmptyLineAt(s, k))
    requires forall j :: 0 <= j < k ==> !EmptyLineAt(s, j)
    ensures FindEmptyLine(s, 0) == k
  {
  }

  lemma NoEmptyLineBefore(line: string, t: string, j: nat)
    requires Folded(line) && line != "" && !CrlfAt(line, 0) && j < |line| + 2
    ensures !EmptyLineAt(line + CRLF + t, j)
  {
    var s := line + CRLF + t;
    assert forall i :: 0 <= i < |line| ==> s[i] == line[i];
    if CrlfAt(s, j - 2) && j - 2 < |line| {
      assert CrlfAt(line, j - 2);
    }
  }

  lemma EmptyLineBeyond(line: string, t: string, j: nat)
    ensures EmptyLineAt(line + CRLF + t, |line| + 2 + j) <==> EmptyLineAt(t, j)
  {
    var s, n := line + CRLF + t, |line| + 2;
    assert forall i :: 0 <= i < |t| ==> s[n + i] == t[i];
    assert s[n - 2] == '\r' && s[n - 1] == '\n';
  }

  /** A folded line that is not empty holds no empty line, and ends where the next line starts. */
  lemma EmptyLineAfter(line: string, t: string)
    requires Folded(line) && line != "" && !CrlfAt(line, 0)
    ensures FindEmptyLine(line + CRLF + t, 0) == |line| + 2 + FindEmptyLine(t, 0)
  {
    var s, n, k := line + CRLF + t, |line| + 2, FindEmptyLine(t, 0);
    forall j | 0 <= j < n + k ensures !EmptyLineAt(s, j) {
      if j < n {
        NoEmptyLineBefore(line, t, j);
      } else {
        EmptyLineBeyond(line, t, j - n);
      }
    }
    EmptyLineBeyond(line, t, k);
    FirstEmptyLine(s, n + k);
  }

  lemma PiecesOfOne(line: string)
    requires Folded(line)
    ensures Pieces(line) == [line]
  {
    assert line[0..] == line;
    FirstCut(line, 0, line);
  }

  lemma PiecesOfMore(line: string, t: string)
    requires Folded(line) && t != "" && !IsBlank(t[0])
    ensures Pieces(line + CRLF + t) == [line] + Pieces(t)
  {
    var lines := Pieces(t);
    JoinPieces(t);
    JoinPiecesFrom(t, 0);
    assert t[0..] == t;
    assert ([line] + lines)[1..] == lines;
    assert Join([line] + lines) == line + CRLF + t;
    PiecesOfJoin([line] + lines);
  }

  /** The headers of a block whose first line holds this header, if any. */
  function Added(h: Option<Header>, more: HeaderList): HeaderList {
    if h.None? then HeaderList(false, []) else HeaderList(more.ok, [h.value] + more.headers)
  }

  /** The headers of a block whose first line is followed by `front`. */
  lemma ParseMore(line: string, front: string)
    requires Folded(line) && front != "" && !IsBlank(front[0])
    ensures ParseBlock(line + CRLF + front) == Added(HeaderOf(line), ParseBlock(front))
  {
    PiecesOfMore(line, front);
    assert ([line] + Pieces(front))[1..] == Pieces(front);
  }

  lemma ParseOne(line: string)
    requires Folded(line)
    ensures ParseBlock(line) == Added(HeaderOf(line), HeaderList(true, []))
  {
    PiecesOfOne(line);
    assert [line][1..] == [] && HeadersOf([]) == HeaderList(true, []);
  }

  lemma CutLine(line: string, t: string, k: nat)
    requires k <= |t|
    ensures (line + CRLF + t)[|line| + 2 + k..] == t[k..]
    ensures (line + CRLF + t)[..|line| + 2 + k] == line + CRLF + t[..k]
    ensures (line + CRLF + t)[..|line|] == line
  {
  }

  lemma HeadBlockOf(s: string, line: string, t: string, k: nat)
    requires s == line + CRLF + t && Folded(line) && t != "" && !IsBlank(t[0]) && k < |t| && (k == 0 || k > 2)
    ensures HeadBlock(s, |line| + 2 + k) == Added(HeaderOf(line), HeadBlock(t, k))
  {
    if k == 0 {
      CutLine(line, t, k);
      ParseOne(line);
    } else {
      CutLine(line, t, k - 2);
      ParseMore(line, t[..k - 2]);
    }
  }

  /** The first header line is read, and then the others. */
  lemma ReadHeader(line: string, t: string)
    requires Folded(line) && line != "" && !CrlfAt(line, 0) && t != "" && !IsBlank(t[0])
    ensures HeaderOf(line).None? ==> !ReadMail(line + CRLF + t).ok
    ensures HeaderOf(line).Some? && FindEmptyLine(t, 0) < |t| ==>
              ReadMail(line + CRLF + t) ==
                Parts(ReadMail(t).ok, [HeaderOf(line).value] + ReadMail(t).headers, ReadMail(t).body)
  {
    EmptyLineAfter(line, t);
    ReadFirst(line + CRLF + t, line, t, |line| + 2, FindEmptyLine(t, 0));
  }

  lemma ReadFirst(s: string, line: string, t: string, n: nat, k: nat)
    requires Folded(line) && t != "" && !IsBlank(t[0])
    requires s == line + CRLF + t && n == |line| + 2 && k == FindEmptyLine(t, 0) && n + k == FindEmptyLine(s, 0)
    ensures HeaderOf(line).None? ==> !ReadMail(s).ok
    ensures HeaderOf(line).Some? && k < |t| ==>
              ReadMail(s) == Parts(ReadMail(t).ok, [HeaderOf(line).value] + ReadMail(t).headers, ReadMail(t).body)
  {
    if k < |t| {
      EmptyLineIsAfter(t, k);
      HeadBlockOf(s, line, t, k);
      ReadMore(s, line, t, k, HeaderOf(line));
    }
  }

  lemma ReadMore(s: string, line: string, t: string, k: nat, h: Option<Header>)
    requires s == line + CRLF + t && k == FindEmptyLine(t, 0) && k + 2 <= |t| && FindEmptyLine(s, 0) == |line| + 2 + k
    requires HeadBlock(s, |line| + 2 + k) == Added(h, HeadBlock(t, k))
    ensures h.None? ==> !ReadMail(s).ok
    ensures h.Some? ==> ReadMail(s) == Parts(ReadMail(t).ok, [h.value] + ReadMail(t).headers, ReadMail(t).body)
  {
    CutLine(line, t, k + 2);
  }

  lemma EmptyLineIsAfter(t: string, k: nat)
    requires k == FindEmptyLine(t, 0) && k < |t|
    ensures k + 2 <= |t| && (k == 0 || k > 2)
  {
    assert EmptyLineAt(t, k);
    assert k > 0 ==> !EmptyLineAt(t, 0);
  }

  // ---------------------------------------------------------------- printed headers

  /** What the parser makes, seen from both ends. */
  ghost predicate Shaped(h: Header) {
    && ParserMade(h) && NoNul(h.name) && NoNul(h.value)
    && !EndsBlank(h.name) && !StartsBlank(h.value) && !EndsBlank(h.value)
  }

  ghost predicate AllShaped(headers: seq<Header>) {
    && (forall i :: 0 <= i < |headers| ==> Shaped(headers[i]))
    && (forall i :: 0 < i < |headers| ==> !StartsBlank(headers[i].name))
  }

  /** A header whose printed form has neither an empty line nor a line end that no blank follows. */
  predicate Lasting(h: Header) {
    !CrlfAt(h.name, 0) && !EndsCrlf(h.name) && !EndsCrlf(h.value)
  }

  lemma LastingIsPrintable(h: Header)
    requires Shaped(h) && Lasting(h)
    ensures Printable(h)
  {
  }

  lemma PrintedStart(headers: seq<Header>, rest: string)
    requires AllShaped(headers) && (headers != [] ==> !StartsBlank(headers[0].name))
    ensures var t := PrintHeaders(headers) + CRLF + rest; t != "" && !IsBlank(t[0])
  {
    if headers != [] {
      var h := headers[0];
      Headers.PrintedLine(h.name, h.value);
    }
  }

  lemma {:induction false} PrintedEnds(headers: seq<Header>)
    ensures Terminated(PrintHeaders(headers))
  {
    if headers != [] {
      PrintedEnds(headers[1..]);
    }
  }

  /** Behind the printed headers there is an empty line. */
  lemma PrintedHasEmptyLine(headers: seq<Header>, rest: string)
    ensures var t := PrintHeaders(headers) + CRLF + rest; FindEmptyLine(t, 0) < |t|
  {
    var head := PrintHeaders(headers);
    PrintedEnds(headers);
    assert EmptyLineAt(head + CRLF + rest, |head|);
  }

  lemma ReadLasting(h: Header, t: string)
    requires Shaped(h) && Lasting(h) && t != "" && !IsBlank(t[0]) && FindEmptyLine(t, 0) < |t|
    ensures ReadMail(PrintLine(h) + CRLF + t) == Parts(ReadMail(t).ok, [h] + ReadMail(t).headers, ReadMail(t).body)
  {
    LastingIsPrintable(h);
    Headers.PrintedLine(h.name, h.value);
    FoldedPrint(h);
    ReparseLine(h);
    ReadHeader(PrintLine(h), t);
  }

  /** All of a trimmed text but a line end at its end is folded. */
  lemma FoldedFront(s: string)
    requires Trimmed(s) && EndsCrlf(s)
    ensures Folded(s[..|s| - 2]) && s == s[..|s| - 2] + CRLF
  {
    var a := s[..|s| - 2];
    forall i | CrlfAt(a, i) ensures i + 2 < |a| && IsBlank(a[i + 2]) {
      assert CrlfAt(s, i);
    }
  }

  /** A header that does not last is read as something else, or ends the headers. */
  lemma ReadUnlasting(h: Header, t: string)
    requires Shaped(h) && !Lasting(h)
    ensures var r := ReadMail(PrintLine(h) + CRLF + t); !r.ok || r.headers == [] || r.headers[0] != h
  {
    if CrlfAt(h.name, 0) {
      Headers.PrintedLine(h.name, h.value);
      assert EmptyLineAt(PrintLine(h) + CRLF + t, 0);
    } else if EndsCrlf(h.name) {
      UnlastingName(h, t);
    } else {
      UnlastingValue(h, t);
    }
  }

  lemma UnlastingName(h: Header, t: string)
    requires Shaped(h) && !CrlfAt(h.name, 0) && EndsCrlf(h.name)
    ensures !ReadMail(PrintLine(h) + CRLF + t).ok
  {
    var line, rest := h.name[..|h.name| - 2], ": " + h.value + CRLF + t;
    FoldedFront(h.name);
    assert PrintLine(h) + CRLF + t == line + CRLF + rest;
    NoColonFront(h);
    assert CrlfAt(line, 0) ==> CrlfAt(h.name, 0);
    ReadHeader(line, rest);
  }

  lemma NoColonFront(h: Header)
    requires Shaped(h) && EndsCrlf(h.name)
    ensures HeaderOf(h.name[..|h.name| - 2]).None?
  {
    var line := h.name[..|h.name| - 2];
    assert forall i :: 0 <= i < |line| ==> line[i] == h.name[i];
    assert FindChar(line, ':', 0) == |line|;
  }

  lemma FoldedLine(name: string, value: string)
    requires Folded(name) && Folded(value)
    ensures Folded(name + ": " + value)
  {
    var line, n := name + ": " + value, |name|;
    Headers.PrintedLine(name, value);
    forall i | CrlfAt(line, i) ensures i + 2 < |line| && IsBlank(line[i + 2]) {
      if i < n {
        assert CrlfAt(name, i);
      } else {
        assert CrlfAt(value, i - n - 2);
      }
    }
  }

  /** What is left on the first line when the value ends with a line end: another header. */
  lemma FrontOfLine(h: Header) returns (line: string)
    requires Shaped(h) && !EndsCrlf(h.name) && EndsCrlf(h.value)
    ensures PrintLine(h) == line + CRLF && Folded(line) && line != ""
    ensures CrlfAt(line, 0) ==> CrlfAt(h.name, 0)
    ensures HeaderOf(line).Some? && HeaderOf(line).value != h
  {
    var value := h.value[..|h.value| - 2];
    line := h.name + ": " + value;
    FoldedFront(h.value);
    FoldedLine(h.name, value);
    Headers.PrintedLine(h.name, value);
    assert PrintLine(h) == line + CRLF;
    FirstChar(line, ':', |h.name|);
  }

  lemma UnlastingValue(h: Header, t: string)
    requires Shaped(h) && !CrlfAt(h.name, 0) && !EndsCrlf(h.name) && EndsCrlf(h.value)
    ensures var r := ReadMail(PrintLine(h) + CRLF + t); !r.ok || r.headers == [] || r.headers[0] != h
  {
    var line := FrontOfLine(h);
    assert PrintLine(h) + CRLF + t == line + CRLF + (CRLF + t);
    ReadEmptyLine(t);
    assert EmptyLineAt(CRLF + t, 0);
    ReadHeader(line, CRLF + t);
  }

  ghost predicate AllLasting(headers: seq<Header>) {
    forall i :: 0 <= i < |headers| ==> Lasting(headers[i])
  }

  /** The printed headers are read back, and the body is what follows them, exactly when all of them last. */
  lemma {:induction false} ReadPrinted(headers: seq<Header>, rest: string)
    requires AllShaped(headers)
    ensures ReadMail(PrintHeaders(headers) + CRLF + rest) == Parts(true, headers, rest) <==> AllLasting(headers)
    decreases |headers|
  {
    if headers == [] {
      assert PrintHeaders(headers) + CRLF + rest == CRLF + rest;
      ReadEmptyLine(rest);
    } else {
      var h, more := headers[0], headers[1..];
      var t := PrintHeaders(more) + CRLF + rest;
      assert PrintHeaders(headers) + CRLF + rest == PrintLine(h) + CRLF + t;
      assert headers == [h] + more;
      if Lasting(h) {
        PrintedStart(more, rest);
        PrintedHasEmptyLine(more, rest);
        ReadLasting(h, t);
        ReadPrinted(more, rest);
      } else {
        ReadUnlasting(h, t);
      }
    }
  }

  lemma JoinPrinted(headers: seq<Header>)
    requires headers != []
    ensures Join(PrintLines(headers)) ==
              PrintLine(headers[0]) + (if |headers| == 1 then "" else CRLF + Join(PrintLines(headers[1..])))
  {
    JoinAfter(PrintLine(headers[0]), PrintLines(headers[1..]));
  }

  lemma JoinAfter(line: string, rest: seq<string>)
    ensures Join([line] + rest) == line + (if rest == [] then "" else CRLF + Join(rest))
  {
    assert ([line] + rest)[1..] == rest;
    assert rest == [] ==> line + "" == line;
    assert rest != [] ==> line + CRLF + Join(rest) == line + (CRLF + Join(rest));
  }

  /** Neither name nor value ends with a line end. */
  predicate Closed(h: Header) {
    !EndsCrlf(h.name) && !EndsCrlf(h.value)
  }

  predicate ParsesTo(text: string, headers: seq<Header>) {
    ParseBlock(text) == HeaderList(true, headers)
  }

  ghost predicate AllClosed(headers: seq<Header>) {
    forall i :: 0 <= i < |headers| ==> Closed(headers[i])
  }

  lemma {:induction false} ParsesJoined(headers: seq<Header>, s: string)
    requires headers != [] && AllShaped(headers) && s == Join(PrintLines(headers))
    ensures ParsesTo(s, headers) <==> AllClosed(headers)
    decreases |headers|
  {
    var h, more := headers[0], headers[1..];
    var t := if more == [] then "" else Join(PrintLines(more));
    JoinPrinted(headers);
    assert headers == [h] + more;
    if more != [] {
      ParsesJoined(more, t);
      JoinedStart(more);
    }
    ParsesFirst(h, more, t, if more == [] then "" else CRLF + t);
    assert AllClosed(headers) <==> Closed(h) && AllClosed(more);
  }

  lemma ParsesFirst(h: Header, more: seq<Header>, t: string, rest: string)
    requires Shaped(h) && if more == [] then rest == "" else rest == CRLF + t && t != "" && !IsBlank(t[0])
    ensures ParsesTo(PrintLine(h) + rest, [h] + more) <==> Closed(h) && (more == [] || ParsesTo(t, more))
  {
    if !Closed(h) {
      ReparsedOtherwise(h, rest, more);
    } else if more == [] {
      ReparseOne(h);
      assert [h] + more == [h];
    } else {
      ReparseMore(h, more, t);
    }
  }

  /**
   * Printing and parsing undo each other for headers of the parser's shape exactly when no name and no
   * value ends with a line end. The last line end of the printed text belongs to the separator, so the
   * block that is parsed back comes without it.
   */
  lemma ReparsedExactly(headers: seq<Header>)
    requires headers != [] && AllShaped(headers)
    ensures var text := PrintHeaders(headers);
            && |text| >= 2 && text[|text| - 2..] == CRLF
            && (ParseBlock(text[..|text| - 2]) == HeaderList(true, headers) <==> AllClosed(headers))
  {
    var block := Join(PrintLines(headers));
    PrintIsJoin(headers);
    ParsesJoined(headers, block);
    assert (block + CRLF)[..|block|] == block;
  }

  lemma ReparseOne(h: Header)
    requires Printable(h)
    ensures ParsesTo(PrintLine(h) + "", [h])
  {
    ReparseLine(h);
    FoldedPrint(h);
    ParseOne(PrintLine(h));
    assert PrintLine(h) + "" == PrintLine(h);
  }

  lemma ParsesMore(s: string, line: string, t: string, h: Header, more: seq<Header>)
    requires s == line + CRLF + t && Folded(line) && HeaderOf(line).Some? && t != "" && !IsBlank(t[0])
    ensures ParsesTo(s, [h] + more) <==> HeaderOf(line) == Some(h) && ParsesTo(t, more)
  {
    ParseMore(line, t);
    var first := HeaderOf(line).value;
    assert ParseBlock(s).headers == [first] + ParseBlock(t).headers;
    if ParsesTo(s, [h] + more) {
      assert ([h] + more)[1..] == more && ([first] + ParseBlock(t).headers)[1..] == ParseBlock(t).headers;
      assert ([h] + more)[0] == h;
    }
  }

  lemma ReparseMore(h: Header, more: seq<Header>, t: string)
    requires Printable(h) && t != "" && !IsBlank(t[0])
    ensures ParsesTo(PrintLine(h) + (CRLF + t), [h] + more) <==> ParsesTo(t, more)
  {
    ReparseLine(h);
    FoldedPrint(h);
    Assoc(PrintLine(h), CRLF, t);
    ParsesMore(PrintLine(h) + (CRLF + t), PrintLine(h), t, h, more);
  }

  lemma JoinedStart(headers: seq<Header>)
    requires headers != [] && Shaped(headers[0]) && !StartsBlank(headers[0].name)
    ensures var t := Join(PrintLines(headers)); t != "" && !IsBlank(t[0])
  {
    var h := headers[0];
    Headers.PrintedLine(h.name, h.value);
  }

  lemma ReparsedOtherwise(h: Header, t: string, more: seq<Header>)
    requires Shaped(h) && !Closed(h) && (t == "" || !IsBlank(t[0]))
    ensures !ParsesTo(PrintLine(h) + t, [h] + more)
  {
    if EndsCrlf(h.name) {
      var line, rest := h.name[..|h.name| - 2], ": " + h.value + t;
      FoldedFront(h.name);
      NoColonFront(h);
      assert PrintLine(h) + t == line + CRLF + rest;
      ParseMore(line, rest);
    } else {
      var line := FrontOfLine(h);
      if t == "" {
        assert PrintLine(h) + t == line + CRLF;
        ParseLineEnd(line);
      } else {
        ParsesMore(PrintLine(h) + t, line, t, h, more);
      }
    }
  }

  lemma ParseLineEnd(line: string)
    requires Folded(line)
    ensures !ParseBlock(line + CRLF).ok
  {
    assert Join([line, ""]) == line + CRLF + "" == line + CRLF by {
      assert [line, ""][1..] == [""];
    }
    assert HeaderLines([line, ""]);
    PiecesOfJoin([line, ""]);
    assert HeaderOf("").None?;
    HeadersOfOk([line, ""]);
    assert ':' !in [line, ""][1];
  }

  // ---------------------------------------------------------------- what the parser makes

  lemma ShapedOf(line: string)
    requires Folded(line) && NoNul(line) && HeaderOf(line).Some?
    ensures Shaped(HeaderOf(line).value)
    ensures !StartsBlank(line) ==> !StartsBlank(HeaderOf(line).value.name)
  {
    HeaderOfShape(line);
  }

  ghost predicate EveryShaped(headers: seq<Header>) {
    forall i :: 0 <= i < |headers| ==> Shaped(headers[i])
  }

  ghost predicate NoneIndented(headers: seq<Header>) {
    forall i :: 0 <= i < |headers| ==> !StartsBlank(headers[i].name)
  }

  lemma {:induction false} ParsedIsShaped(lines: seq<string>)
    requires HeaderLines(lines) && forall i :: 0 <= i < |lines| ==> NoNul(lines[i])
    ensures AllShaped(HeadersOf(lines).headers)
    ensures !StartsBlank(lines[0]) ==> NoneIndented(HeadersOf(lines).headers)
  {
    var rest := lines[1..];
    if HeaderOf(lines[0]).Some? {
      ShapedOf(lines[0]);
      if rest != [] {
        ParsedIsShaped(rest);
      } else {
        assert HeadersOf(rest).headers == [];
      }
    }
  }

  lemma {:induction false} RemainingIsShaped(headers: seq<Header>)
    ensures EveryShaped(headers) ==> EveryShaped(Remaining(headers))
    ensures NoneIndented(headers) ==> NoneIndented(Remaining(headers))
    ensures AllShaped(headers) ==> AllShaped(Remaining(headers))
  {
    if headers != [] {
      var rest := headers[1..];
      RemainingIsShaped(rest);
      assert AllShaped(headers) ==> EveryShaped(rest) && NoneIndented(rest);
    }
  }

  /** The headers that are sent on have the parser's shape. */
  lemma RemainingOfBlock(block: string)
    requires NoNul(block)
    ensures AllShaped(Remaining(ParseBlock(block).headers))
  {
    JoinPieces(block);
    NoNulPieces(block, 0);
    ParsedIsShaped(Pieces(block));
    RemainingIsShaped(ParseBlock(block).headers);
  }

  // ---------------------------------------------------------------- counting dots

  function Periods(s: string): nat {
    if s == [] then 0 else (if s[0] == '.' then 1 else 0) + Periods(s[1..])
  }

  function PeriodsOf(headers: seq<Header>): nat {
    if headers == [] then 0 else Periods(headers[0].name) + Periods(headers[0].value) + PeriodsOf(headers[1..])
  }

  lemma {:induction false} PeriodsAdd(a: string, b: string)
    ensures Periods(a + b) == Periods(a) + Periods(b)
  {
    if a == [] {
      assert a + b == b;
    } else {
      assert (a + b)[1..] == a[1..] + b;
      PeriodsAdd(a[1..], b);
    }
  }

  /** The same for a text with something in between that has no dot. */
  lemma PeriodsAround(a: string, between: string, b: string)
    requires '.' !in between
    ensures Periods(a + between + b) == Periods(a) + Periods(b)
  {
    PeriodsAdd(a + between, b);
    PeriodsAdd(a, between);
    NoPeriods(between);
  }

  lemma {:induction false} NoPeriods(s: string)
    requires '.' !in s
    ensures Periods(s) == 0
  {
    if s != [] {
      NoPeriods(s[1..]);
    }
  }

  lemma CutThrice(s: string, i: nat, j: nat, k: nat)
    requires i <= j <= k <= |s|
    ensures s == s[..i] + s[i..j] + (s[j..k] + s[k..] + "")
  {
  }

  lemma PeriodsOfFour(a: string, b: string, c: string, d: string)
    requires '.' !in b && '.' !in d
    ensures Periods(a + b + (c + d + "")) == Periods(a) + Periods(c)
  {
    PeriodsAround(a, b, c + d + "");
    PeriodsAround(c, d, "");
  }

  lemma PeriodsOfCut(s: string, i: nat, j: nat, k: nat)
    requires i <= j <= k <= |s| && '.' !in s[i..j] && '.' !in s[k..]
    ensures Periods(s) == Periods(s[..i]) + Periods(s[j..k])
  {
    CutThrice(s, i, j, k);
    PeriodsOfFour(s[..i], s[i..j], s[j..k], s[k..]);
  }

  /** Trimming and splitting lose no dot. */
  lemma PeriodsOfSplit(line: string)
    requires HeaderOf(line).Some?
    ensures var h := HeaderOf(line).value; Periods(line) == Periods(h.name) + Periods(h.value)
  {
    var colon := FindChar(line, ':', 0);
    var nameEnd, start := EndOfText(line, 0, colon), StartOfText(line, colon + 1);
    var end := EndOfText(line, start, |line|);
    NoPeriodBetween(line, nameEnd, colon, start);
    PeriodsOfCut(line, nameEnd, start, end);
  }

  lemma NoPeriodBetween(line: string, nameEnd: nat, colon: nat, start: nat)
    requires nameEnd <= colon < start <= |line| && line[colon] == ':'
    requires forall j :: nameEnd <= j < colon ==> IsBlank(line[j])
    requires forall j :: colon < j < start ==> IsBlank(line[j])
    ensures '.' !in line[nameEnd..start]
  {
  }

  lemma {:induction false} PeriodsOfLines(lines: seq<string>)
    requires HeadersOf(lines).ok
    ensures Periods(Join(lines)) == PeriodsOf(HeadersOf(lines).headers)
  {
    if lines != [] {
      var list := HeadersOf(lines);
      PeriodsOfSplit(lines[0]);
      PeriodsOfLines(lines[1..]);
      assert list.headers[1..] == HeadersOf(lines[1..]).headers;
      PeriodsAround(lines[0], CRLF, Join(lines[1..]));
    }
  }

  lemma PeriodsOfBlock(front: string, rest: string)
    requires ParseBlock(front).ok
    ensures Periods(front + (CRLF + CRLF) + rest) == PeriodsOf(ParseBlock(front).headers) + Periods(rest)
  {
    JoinPieces(front);
    PeriodsOfLines(Pieces(front));
    PeriodsAround(front, CRLF + CRLF, rest);
  }

  lemma CutAtEmptyLine(text: string, i: nat)
    requires EmptyLineAt(text, i)
    ensures if i < 2 then text == "" + CRLF + text[2..] else text == text[..i - 2] + (CRLF + CRLF) + text[i + 2..]
    ensures i < 2 ==> i == 0
  {
  }

  /** Reading a mail loses no dot, and adds none. */
  lemma PeriodsOfMail(text: string)
    requires ReadMail(text).ok
    ensures Periods(text) == PeriodsOf(ReadMail(text).headers) + Periods(ReadMail(text).body)
  {
    var i := FindEmptyLine(text, 0);
    CutAtEmptyLine(text, i);
    if i < 2 {
      PeriodsAround("", CRLF, text[2..]);
    } else {
      PeriodsOfBlock(text[..i - 2], text[i + 2..]);
    }
  }

  lemma {:induction false} PeriodsOfPrint(headers: seq<Header>)
    requires EveryShaped(headers)
    ensures Periods(PrintHeaders(headers)) == PeriodsOf(headers)
  {
    if headers != [] {
      var h := headers[0];
      PeriodsOfPrint(headers[1..]);
      PeriodsAround(PrintLine(h), CRLF, PrintHeaders(headers[1..]));
      PeriodsAround(h.name, ": ", h.value);
    }
  }

  /** As many characters as dots have gone. */
  predicate OnlyDotsAreLost(before: string, after: string) {
    Periods(after) + |before| == Periods(before) + |after|
  }

  lemma PeriodsOfStrip(line: string)
    ensures OnlyDotsAreLost(line, StripDot(line))
  {
  }

  lemma PeriodsOfNext(line: string, keptLine: string, kept: string, rest: string)
    requires OnlyDotsAreLost(line, keptLine) && OnlyDotsAreLost(rest, kept)
    ensures OnlyDotsAreLost(line + CRLF + rest, keptLine + CRLF + kept)
  {
    PeriodsAround(line, CRLF, rest);
    PeriodsAround(keptLine, CRLF, kept);
  }

  /** A receiver drops nothing but dots. */
  lemma {:induction false} PeriodsOfUnstuff(s: string)
    requires Terminated(s)
    ensures OnlyDotsAreLost(s, Unstuff(s))
    decreases |s|
  {
    if s != [] {
      FirstLineOf(s);
      var end := FindCrlf(s, 0);
      var line, rest := s[..end], s[end + 2..];
      PeriodsOfStrip(line);
      PeriodsOfUnstuff(rest);
      PeriodsOfNext(line, StripDot(line), Unstuff(rest), rest);
    }
  }

  lemma {:induction false} PeriodsOfKept(body: string, start: nat)
    requires start <= |body|
    ensures OnlyDotsAreLost(body[start..], KeptBody(body, start))
    decreases |body| - start
  {
    var end := LineEnd(body, start);
    if start == |body| {
      assert body[start..] == "";
    } else if end < |body| {
      PeriodsOfKept(body, end + 2);
      PeriodsOfMore(body, start, body[start..end], body[end + 2..], KeptBody(body, end + 2));
    } else {
      PeriodsOfLast(body, start);
    }
  }

  lemma PeriodsOfLast(body: string, start: nat)
    requires start < |body| && LineEnd(body, start) == |body|
    ensures OnlyDotsAreLost(body[start..], KeptBody(body, start))
  {
    LineIs(body, start, |body|);
    KeptIs(body, start);
    PeriodsOfKeptLine(body[start..]);
  }

  lemma PeriodsOfMore(body: string, start: nat, line: string, rest: string, kept: string)
    requires start < |body| && LineEnd(body, start) < |body| && OnlyDotsAreLost(rest, kept)
    requires var end := LineEnd(body, start);
             line == body[start..end] && rest == body[end + 2..] && kept == KeptBody(body, end + 2)
    ensures OnlyDotsAreLost(body[start..], KeptBody(body, start))
  {
    assert body[start..] == line + CRLF + rest by {
      LineIs(body, start, LineEnd(body, start));
    }
    assert KeptBody(body, start) == KeptLine(line) + CRLF + kept by {
      KeptIs(body, start);
    }
    PeriodsOfKeptLine(line);
    PeriodsOfNext(line, KeptLine(line), kept, rest);
  }

  lemma PeriodsOfKeptLine(line: string)
    ensures OnlyDotsAreLost(line, KeptLine(line))
  {
    KeptLineChanges(line);
    PeriodsOfStrip(line);
  }

  // ---------------------------------------------------------------- the way back

  /** A receiver finds the end of the data, undoes the dot stuffing, and reads headers and body. */
  ghost predicate GetsBack(headers: seq<Header>, body: string, text: string, tail: string) {
    match Receive(text + tail)
    case None => false
    case Some(r) => r.rest == tail && ReadMail(r.text) == Parts(true, headers, body + CRLF)
  }

  ghost predicate NoneDotted(headers: seq<Header>) {
    forall i :: 0 <= i < |headers| ==> !StartsWithDot(headers[i].name)
  }

  /**
   * The headers and the body arrive as they were, up to one line end at the end of the body, if and only
   * if no header name starts with a dot, every body line that starts with one is a lone dot, and no
   * header brings an empty line or an unfolded line end with it.
   */
  lemma ArrivesExactly(headers: seq<Header>, body: string, tail: string)
    requires AllShaped(headers)
    ensures GetsBack(headers, body, Encode(headers, body), tail) <==>
              NoneDotted(headers) && DotLinesAreLone(body) && AllLasting(headers)
  {
    var head := PrintHeaders(headers);
    Transparency(headers, body, tail);
    ReadPrinted(headers, body + CRLF);
    assert head + CRLF + body + CRLF == head + CRLF + (body + CRLF);
    if GetsBack(headers, body, Encode(headers, body), tail) {
      DotsCameBack(headers, body, tail);
    }
  }

  lemma DotsCameBack(headers: seq<Header>, body: string, tail: string)
    requires AllShaped(headers) && GetsBack(headers, body, Encode(headers, body), tail)
    ensures NoneDotted(headers) && DotLinesAreLone(body)
  {
    var head, kept := PrintHeaders(headers), KeptBody(body, 0);
    ReceivePayload(headers, body, tail);
    DotsOfHeaders(headers);
    UnstuffChanges(head);
    KeptBodyChanges(body, 0);
    LoneByLine(body, 0);
    assert body[0..] == body;
    PeriodsOfUnstuff(head);
    PeriodsOfKept(body, 0);
    PeriodsOfPrint(headers);
    PeriodsOfMail(Unstuff(head) + CRLF + kept + CRLF);
    PeriodsOfBoth(Unstuff(head), kept);
    PeriodsOfBoth("", body);
  }

  lemma PeriodsOfBoth(head: string, body: string)
    ensures Periods(head + CRLF + body + CRLF) == Periods(head) + Periods(body)
    ensures Periods(body + CRLF) == Periods(body)
  {
    PeriodsAdd(head + CRLF + body, CRLF);
    PeriodsAround(head, CRLF, body);
    PeriodsAdd(body, CRLF);
    NoPeriods(CRLF);
  }

  /** Two headers with a line of blanks between them. */
  function Dangling(x: Header, y: Header): string {
    PrintLine(x) + CRLF + " " + CRLF + PrintLine(y)
  }

  lemma FoldedDangling(line: string)
    requires Folded(line)
    ensures Folded(line + CRLF + " ")
  {
    var s := line + CRLF + " ";
    forall i | CrlfAt(s, i) ensures i + 2 < |s| && IsBlank(s[i + 2]) {
      if i < |line| {
        assert CrlfAt(line, i);
        assert s[i + 2] == line[i + 2];
      }
    }
  }

  lemma DanglingLine(x: Header)
    requires Printable(x)
    ensures HeaderOf(PrintLine(x) + CRLF + " ") == Some(Header(x.name, x.value + CRLF))
  {
    var name, value := x.name, x.value + CRLF;
    var line, n := name + ": " + (value + " "), |name|;
    Headers.PrintedLine(name, value + " ");
    assert line == PrintLine(x) + CRLF + " ";
    assert line[..n] == name && line[n + 2..|line| - 1] == value;
    HeaderAt(line, n, n, n + 2, |line| - 1);
  }

  lemma ParseDangling(x: Header, y: Header)
    requires Printable(x) && Printable(y) && !StartsBlank(y.name)
    ensures ParseBlock(Dangling(x, y)) == HeaderList(true, [Header(x.name, x.value + CRLF), y])
  {
    DanglingLine(x);
    FoldedPrint(x);
    FoldedDangling(PrintLine(x));
    Headers.PrintedLine(y.name, y.value);
    ParseMore(PrintLine(x) + CRLF + " ", PrintLine(y));
    ReparseOne(y);
    assert PrintLine(y) + "" == PrintLine(y);
  }

  lemma PrintTwo(x: Header, y: Header)
    ensures PrintHeaders([x, y]) == PrintLine(x) + CRLF + (PrintLine(y) + CRLF)
  {
    assert [x, y][1..] == [y] && [y][1..] == [];
    assert PrintHeaders([]) == "" && PrintLine(y) + CRLF + "" == PrintLine(y) + CRLF;
  }

  lemma PrintEnded(x: Header)
    requires Printable(x)
    ensures PrintLine(Header(x.name, x.value + CRLF)) == PrintLine(x) + CRLF
  {
    assert x.name + ": " + (x.value + CRLF) == x.name + ": " + x.value + CRLF;
  }

  lemma PrintDangling(x: Header, y: Header, rest: string)
    requires Printable(x) && Printable(y)
    ensures PrintHeaders([Header(x.name, x.value + CRLF), y]) + CRLF + rest
         == PrintLine(x) + CRLF + (CRLF + (PrintLine(y) + CRLF + CRLF + rest))
  {
    PrintTwo(Header(x.name, x.value + CRLF), y);
    PrintEnded(x);
    Regrouped(PrintLine(x), PrintLine(y), rest);
  }

  lemma Regrouped(a: string, b: string, c: string)
    ensures a + CRLF + CRLF + (b + CRLF) + CRLF + c == a + CRLF + (CRLF + (b + CRLF + CRLF + c))
  {
  }

  /**
   * A line of blanks between two headers: the block is accepted, and the receiver takes the second header
   * for the first line of the body.
   */
  lemma DanglingFoldLosesHeaders(x: Header, y: Header, rest: string)
    requires Printable(x) && Lasting(x) && Printable(y) && !StartsBlank(y.name)
    ensures ParseBlock(Dangling(x, y)) == HeaderList(true, [Header(x.name, x.value + CRLF), y])
    ensures var headers := ParseBlock(Dangling(x, y)).headers;
            ReadMail(PrintHeaders(headers) + CRLF + rest) == Parts(true, [x], PrintLine(y) + CRLF + CRLF + rest)
  {
    var t := PrintLine(y) + CRLF + CRLF + rest;
    ParseDangling(x, y);
    PrintDangling(x, y, rest);
    ReadEmptyLine(t);
    assert EmptyLineAt(CRLF + t, 0);
    ReadLasting(x, CRLF + t);
  }

  /** Such a block. */
  lemma DanglingFoldExists() returns (x: Header, y: Header)
    ensures Printable(x) && Lasting(x) && Printable(y) && !StartsBlank(y.name)
    ensures Dangling(x, y) == "X: a\r\n \r\nY: b"
  {
    x, y := Header("X", "a"), Header("Y", "b");
  }
}
