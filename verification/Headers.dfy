/** Header unfolding, splitting, trimming and printing (message.c, session.c). */
module Headers {
  import opened Text

  datatype Header = Header(name: string, value: string)

  datatype HeaderList = HeaderList(ok: bool, headers: seq<Header>)

  // ---------------------------------------------------------------- trimming

  /** Where s[start..end] ends once its trailing blanks are dropped. */
  function EndOfText(s: string, start: nat, end: nat): (r: nat)
    requires start <= end <= |s|
    ensures start <= r <= end
    ensures r > start ==> !IsBlank(s[r - 1])
    ensures forall j :: r <= j < end ==> IsBlank(s[j])
  {
    if end > start && IsBlank(s[end - 1]) then EndOfText(s, start, end - 1) else end
  }

  /** Where s[start..] begins once its leading blanks are dropped. */
  function StartOfText(s: string, start: nat): (r: nat)
    requires start <= |s|
    ensures start <= r <= |s|
    ensures r < |s| ==> !IsBlank(s[r])
    ensures forall j :: start <= j < r ==> IsBlank(s[j])
    decreases |s| - start
  {
    if start < |s| && IsBlank(s[start]) then StartOfText(s, start + 1) else start
  }

  predicate StartsBlank(s: string) { s != [] && IsBlank(s[0]) }

  predicate EndsBlank(s: string) { s != [] && IsBlank(s[|s| - 1]) }

  /** The header in one unfolded line: it is split at its first ':' and both parts are trimmed. */
  function HeaderOf(line: string): Option<Header> {
    var colon := FindChar(line, ':', 0);
    if colon == |line| then None
    else
      var value := StartOfText(line, colon + 1);
      Some(Header(line[..EndOfText(line, 0, colon)], line[value..EndOfText(line, value, |line|)]))
  }

  // ---------------------------------------------------------------- unfolding

  /** A line end that separates headers: one that is not followed by a blank. */
  predicate CutAt(s: string, i: int) {
    CrlfAt(s, i) && !(i + 2 < |s| && IsBlank(s[i + 2]))
  }

  /** The first cut at or after `from`; `|s|` when there is none. */
  function FindCut(s: string, from: nat): (r: nat)
    requires from <= |s|
    ensures from <= r <= |s|
    ensures r < |s| ==> CutAt(s, r)
    ensures forall j :: from <= j < r ==> !CutAt(s, j)
    decreases |s| - from
  {
    if from == |s| || CutAt(s, from) then from else FindCut(s, from + 1)
  }

  /** The text from `line` on, cut at every line end that is not followed by a blank. */
  function PiecesFrom(s: string, line: nat): (r: seq<string>)
    requires line <= |s|
    ensures r != []
    decreases |s| - line
  {
    var cut := FindCut(s, line);
    if cut == |s| then [s[line..]] else [s[line..cut]] + PiecesFrom(s, cut + 2)
  }

  function Pieces(s: string): (r: seq<string>) {
    PiecesFrom(s, 0)
  }

  function Join(lines: seq<string>): string {
    if lines == [] then ""
    else if |lines| == 1 then lines[0]
    else lines[0] + CRLF + Join(lines[1..])
  }

  /** Every line end inside the line is a fold. */
  ghost predicate Folded(line: string) {
    forall i :: CrlfAt(line, i) ==> i + 2 < |line| && IsBlank(line[i + 2])
  }

  /** What the pieces of a block look like: folded lines, of which only the first may start blank. */
  ghost predicate HeaderLines(lines: seq<string>) {
    && lines != []
    && Folded(lines[0])
    && (|lines| > 1 ==> !StartsBlank(lines[1]) && HeaderLines(lines[1..]))
  }

  lemma FoldedPiece(s: string, line: nat)
    requires line <= |s|
    ensures Folded(s[line..FindCut(s, line)])
  {
    var cut := FindCut(s, line);
    var piece := s[line..cut];
    forall i | CrlfAt(piece, i) ensures i + 2 < |piece| && IsBlank(piece[i + 2]) {
      assert CrlfAt(s, line + i) && !CutAt(s, line + i);
    }
  }

  /** Cutting loses nothing, and cuts nowhere else than asked. */
  lemma {:induction false} JoinPiecesFrom(s: string, line: nat)
    requires line <= |s|
    ensures Join(PiecesFrom(s, line)) == s[line..]
    ensures HeaderLines(PiecesFrom(s, line))
    ensures PiecesFrom(s, line)[0] <= s[line..]
    decreases |s| - line
  {
    var cut := FindCut(s, line);
    FoldedPiece(s, line);
    if cut < |s| {
      var next := PiecesFrom(s, cut + 2);
      JoinPiecesFrom(s, cut + 2);
      assert PiecesFrom(s, line)[1..] == next;
      assert next[0] != [] ==> next[0][0] == s[cut + 2];
      SplitAtCrlf(s, line, cut);
    } else {
      assert s[line..] == s[line..cut];
    }
  }

  lemma SplitAtCrlf(s: string, line: nat, cut: nat)
    requires line <= cut && CrlfAt(s, cut)
    ensures s[line..] == s[line..cut] + CRLF + s[cut + 2..]
  {
  }

  /** Cutting loses nothing: the pieces of a block, joined, are the block. */
  lemma JoinPieces(s: string)
    ensures Join(Pieces(s)) == s
    ensures HeaderLines(Pieces(s))
  {
    JoinPiecesFrom(s, 0);
  }

  lemma FirstCut(s: string, from: nat, line: string)
    requires Folded(line) && from + |line| <= |s| && s[from..from + |line|] == line
    requires from + |line| == |s| || CutAt(s, from + |line|)
    ensures FindCut(s, from) == from + |line|
  {
    forall i | from <= i < from + |line| ensures !CutAt(s, i) {
      if CrlfAt(s, i) && i + 1 < from + |line| {
        assert s[i] == line[i - from] && s[i + 1] == line[i - from + 1];
        assert CrlfAt(line, i - from);
        assert s[i + 2] == line[i - from + 2];
      }
    }
  }

  lemma FirstLine(s: string, from: nat, line: string, tail: string)
    requires from <= |s| && s[from..] == line + CRLF + tail
    ensures from + |line| + 2 <= |s|
    ensures s[from..from + |line|] == line && s[from + |line| + 2..] == tail
    ensures CrlfAt(s, from + |line|)
    ensures tail != [] ==> from + |line| + 2 < |s| && s[from + |line| + 2] == tail[0]
  {
    var t := line + CRLF + tail;
    assert s[from..][..|line|] == t[..|line|] == line;
    assert t[|line|] == '\r' && t[|line| + 1] == '\n';
    assert s[from + |line|] == t[|line|] && s[from + |line| + 1] == t[|line| + 1];
    assert s[from..][|line| + 2..] == t[|line| + 2..] == tail;
  }

  lemma {:induction false} PiecesOfJoinFrom(s: string, from: nat, lines: seq<string>)
    requires HeaderLines(lines)
    requires from <= |s| && s[from..] == Join(lines)
    ensures PiecesFrom(s, from) == lines
    decreases |lines|
  {
    if |lines| == 1 {
      FirstCut(s, from, lines[0]);
    } else {
      var rest := lines[1..];
      JoinStart(rest);
      FirstLine(s, from, lines[0], Join(rest));
      FirstCut(s, from, lines[0]);
      PiecesOfJoinFrom(s, from + |lines[0]| + 2, rest);
      assert lines == [lines[0]] + rest;
    }
  }

  /** Such lines are the pieces of their join: joining and cutting are inverse to each other. */
  lemma PiecesOfJoin(lines: seq<string>)
    requires HeaderLines(lines)
    ensures Pieces(Join(lines)) == lines
  {
    PiecesOfJoinFrom(Join(lines), 0, lines);
  }

  lemma JoinStart(lines: seq<string>)
    requires lines != [] && !StartsBlank(lines[0])
    ensures !StartsBlank(Join(lines))
  {
  }

  /** The headers of the pieces, up to the first piece that has no ':'. */
  function HeadersOf(lines: seq<string>): (r: HeaderList) {
    if lines == [] then HeaderList(true, [])
    else match HeaderOf(lines[0])
      case None => HeaderList(false, [])
      case Some(h) =>
        var rest := HeadersOf(lines[1..]);
        HeaderList(rest.ok, [h] + rest.headers)
  }

  function ParseBlock(block: string): HeaderList {
    HeadersOf(Pieces(block))
  }

  /** Parsing a block succeeds exactly when every piece has a ':'. */
  lemma {:induction false} HeadersOfOk(lines: seq<string>)
    ensures HeadersOf(lines).ok <==> forall i :: 0 <= i < |lines| ==> ':' in lines[i]
    ensures HeadersOf(lines).ok ==> |HeadersOf(lines).headers| == |lines|
  {
    if lines != [] {
      HeadersOfOk(lines[1..]);
      assert HeaderOf(lines[0]).None? <==> ':' !in lines[0];
      assert forall i :: 0 < i < |lines| ==> lines[i] == lines[1..][i - 1];
      assert lines == [lines[0]] + lines[1..];
    }
  }

  // ------------------------------------------------- the parser as the source runs it

  lemma FirstChar(s: string, c: char, k: nat)
    requires k <= |s|
    requires forall j :: 0 <= j < k ==> s[j] != c
    requires k < |s| ==> s[k] == c
    ensures FindChar(s, c, 0) == k
  {
  }

  lemma HeaderAt(s: string, colon: nat, nameEnd: nat, value: nat, valueEnd: nat)
    requires nameEnd <= colon < value <= valueEnd <= |s|
    requires s[colon] == ':' && forall j :: 0 <= j < colon ==> s[j] != ':'
    requires nameEnd > 0 ==> !IsBlank(s[nameEnd - 1])
    requires forall j :: nameEnd <= j < colon ==> IsBlank(s[j])
    requires forall j :: colon < j < value ==> IsBlank(s[j])
    requires forall j :: valueEnd <= j < |s| ==> IsBlank(s[j])
    requires value < |s| ==> !IsBlank(s[value])
    requires value < valueEnd ==> !IsBlank(s[valueEnd - 1])
    ensures HeaderOf(s) == Some(Header(s[..nameEnd], s[value..valueEnd]))
  {
    FirstChar(s, ':', colon);
    assert EndOfText(s, 0, colon) == nameEnd;
    assert StartOfText(s, colon + 1) == value;
    assert EndOfText(s, value, |s|) == valueEnd;
  }

  lemma HeaderBetween(text: string, line: nat, end: nat, colon: nat, nameEnd: nat, value: nat, valueEnd: nat)
    requires line <= nameEnd <= colon < value <= valueEnd <= end <= |text|
    requires text[colon] == ':' && forall j :: line <= j < colon ==> text[j] != ':'
    requires nameEnd > line ==> !IsBlank(text[nameEnd - 1])
    requires forall j :: nameEnd <= j < colon ==> IsBlank(text[j])
    requires forall j :: colon < j < value ==> IsBlank(text[j])
    requires forall j :: valueEnd <= j < end ==> IsBlank(text[j])
    requires value < end ==> !IsBlank(text[value])
    requires value < valueEnd ==> !IsBlank(text[valueEnd - 1])
    ensures HeaderOf(text[line..end]) == Some(Header(text[line..nameEnd], text[value..valueEnd]))
  {
    var s := text[line..end];
    var c, n, v, e := colon - line, nameEnd - line, value - line, valueEnd - line;
    assert forall j :: 0 <= j < |s| ==> s[j] == text[line + j];
    assert s[..n] == text[line..nameEnd];
    assert s[v..e] == text[value..valueEnd];
    HeaderAt(s, c, n, v, e);
  }

  /** `parse_header`: cursors move over the line [line, lineEnd) of the header block. */
  method ParseHeader(text: string, line: nat, lineEnd: nat) returns (header: Option<Header>)
    requires line <= lineEnd <= |text|
    ensures header == HeaderOf(text[line..lineEnd])
  {
    var colon := line;
    while colon < lineEnd && text[colon] != ':'
      invariant line <= colon <= lineEnd
      invariant forall j :: line <= j < colon ==> text[j] != ':'
    {
      colon := colon + 1;
    }
    if colon == lineEnd {
      FirstChar(text[line..lineEnd], ':', lineEnd - line);
      return None;
    }
    var nameEnd := colon;
    while line < nameEnd && IsBlank(text[nameEnd - 1])
      invariant line <= nameEnd <= colon
      invariant forall j :: nameEnd <= j < colon ==> IsBlank(text[j])
    {
      nameEnd := nameEnd - 1;
    }
    var value := colon + 1;
    while value < lineEnd && IsBlank(text[value])
      invariant colon + 1 <= value <= lineEnd
      invariant forall j :: colon < j < value ==> IsBlank(text[j])
    {
      value := value + 1;
    }
    var valueEnd := lineEnd;
    while value < valueEnd && IsBlank(text[valueEnd - 1])
      invariant value <= valueEnd <= lineEnd
      invariant forall j :: valueEnd <= j < lineEnd ==> IsBlank(text[j])
    {
      valueEnd := valueEnd - 1;
    }
    HeaderBetween(text, line, lineEnd, colon, nameEnd, value, valueEnd);
    header := Some(Header(text[line..nameEnd], text[value..valueEnd]));
  }

  /** `whole` is what comes out when the headers of the lines are put behind `done`. */
  ghost predicate Resumes(whole: HeaderList, done: seq<Header>, lines: seq<string>)
    decreases |lines|
  {
    if lines == [] then whole.ok && whole.headers == done
    else
      match HeaderOf(lines[0])
      case None => !whole.ok && whole.headers == done
      case Some(h) => Resumes(whole, done + [h], lines[1..])
  }

  lemma {:induction false} ResumesIs(whole: HeaderList, done: seq<Header>, lines: seq<string>)
    requires whole.ok == HeadersOf(lines).ok && whole.headers == done + HeadersOf(lines).headers
    ensures Resumes(whole, done, lines)
    decreases |lines|
  {
    if lines != [] && HeaderOf(lines[0]).Some? {
      var h := HeaderOf(lines[0]).value;
      Regroup(done, h, HeadersOf(lines[1..]).headers);
      ResumesIs(whole, done + [h], lines[1..]);
    }
  }

  lemma NextPiece(s: string, line: nat)
    requires line <= |s|
    ensures var end, pieces := FindCut(s, line), PiecesFrom(s, line);
            pieces != [] && pieces[0] == s[line..end] && pieces[1..] == if end < |s| then PiecesFrom(s, end + 2) else []
  {
  }

  lemma Regroup(done: seq<Header>, h: Header, rest: seq<Header>)
    ensures done + ([h] + rest) == done + [h] + rest
  {
  }

  /** One round of `parse_headers`: an unfolded header line is taken off the block. */
  method ParseNext(block: string, line: nat, ghost done: seq<Header>, ghost whole: HeaderList)
    returns (header: Option<Header>, lineEnd: nat)
    requires line <= |block| && Resumes(whole, done, PiecesFrom(block, line))
    ensures line <= lineEnd <= |block|
    ensures header.Some? && lineEnd != |block| ==> lineEnd + 2 <= |block|
    ensures match header
            case None => !whole.ok && whole.headers == done
            case Some(h) =>
              if lineEnd == |block| then whole.ok && whole.headers == done + [h]
              else Resumes(whole, done + [h], PiecesFrom(block, lineEnd + 2))
  {
    lineEnd := Unfold(block, line);
    header := ParseHeader(block, line, lineEnd);
    NextPiece(block, line);
  }

  /** `parse_headers` */
  method ParseHeaders(block: string) returns (failed: bool, headers: seq<Header>)
    ensures HeaderList(!failed, headers) == ParseBlock(block)
  {
    FromTheStart(block);
    failed, headers := ParseFrom(block, ParseBlock(block));
  }

  method ParseFrom(block: string, ghost whole: HeaderList) returns (failed: bool, headers: seq<Header>)
    requires Resumes(whole, [], PiecesFrom(block, 0))
    ensures HeaderList(!failed, headers) == whole
  {
    failed, headers := false, [];
    var line := 0;
    while true
      invariant 0 <= line <= |block|
      invariant Resumes(whole, headers, PiecesFrom(block, line))
      decreases |block| - line
    {
      var header, lineEnd := ParseNext(block, line, headers, whole);
      if header.None? {
        failed := true;
        return;
      }
      headers := headers + [header.value];
      if lineEnd == |block| {
        return;
      }
      line := lineEnd + 2;
    }
  }

  lemma FromTheStart(block: string)
    ensures Resumes(ParseBlock(block), [], PiecesFrom(block, 0))
  {
    assert [] + ParseBlock(block).headers == ParseBlock(block).headers;
    ResumesIs(ParseBlock(block), [], PiecesFrom(block, 0));
  }

  /** The unfolding cursor: it skips folds, and it never passes the end of the block. */
  method Unfold(block: string, line: nat) returns (lineEnd: nat)
    requires line <= |block|
    ensures lineEnd == FindCut(block, line)
  {
    lineEnd := line;
    assert FindCut(block, line) <= |block|;
    while true
      invariant line <= lineEnd <= |block|
      invariant forall i :: line <= i < lineEnd ==> !CutAt(block, i)
      decreases |block| - lineEnd
    {
      while |block| - lineEnd >= 2 && !CrlfAt(block, lineEnd)
        invariant line <= lineEnd <= |block|
        invariant forall i :: line <= i < lineEnd ==> !CutAt(block, i)
      {
        lineEnd := lineEnd + 1;
      }
      if |block| - lineEnd < 2 {
        assert forall i :: lineEnd <= i < |block| ==> !CrlfAt(block, i);
        lineEnd := |block|;
      }
      if !(|block| - lineEnd > 2 && IsBlank(block[lineEnd + 2])) {
        assert lineEnd < |block| ==> CutAt(block, lineEnd);
        assert FindCut(block, line) == lineEnd;
        return;
      }
      assert !CrlfAt(block, lineEnd + 1) && !CrlfAt(block, lineEnd + 2);
      lineEnd := lineEnd + 3;
    }
  }

  // ---------------------------------------------------------------- printing

  function PrintLine(h: Header): string {
    CString(h.name) + ": " + CString(h.value)
  }

  /** The header block as the DATA payload carries it. */
  function PrintHeaders(headers: seq<Header>): string {
    if headers == [] then "" else PrintLine(headers[0]) + CRLF + PrintHeaders(headers[1..])
  }

  function PrintLines(headers: seq<Header>): (r: seq<string>)
    ensures |r| == |headers|
  {
    if headers == [] then [] else [PrintLine(headers[0])] + PrintLines(headers[1..])
  }

  lemma {:induction false} PrintIsJoin(headers: seq<Header>)
    requires headers != []
    ensures PrintHeaders(headers) == Join(PrintLines(headers)) + CRLF
  {
    var rest := headers[1..];
    assert PrintLines(headers)[1..] == PrintLines(rest);
    if rest != [] {
      PrintIsJoin(rest);
    }
  }

  /** A header that printing and parsing keep as it is. */
  ghost predicate Printable(h: Header) {
    && NoNul(h.name) && NoNul(h.value)
    && ':' !in h.name && !EndsBlank(h.name)
    && !StartsBlank(h.value) && !EndsBlank(h.value)
    && Folded(h.name) && Folded(h.value)
  }

  lemma ReparseLine(h: Header)
    requires Printable(h)
    ensures HeaderOf(PrintLine(h)) == Some(h)
  {
    var line := PrintLine(h);
    var colon := |h.name|;
    PrintedLine(h.name, h.value);
    assert line[..colon] == h.name && line[colon + 2..|line|] == h.value;
    assert h.value != [] ==> line[|line| - 1] == h.value[|h.value| - 1];
    HeaderAt(line, colon, colon, colon + 2, |line|);
  }

  lemma PrintedLine(name: string, value: string)
    ensures var line, colon := name + ": " + value, |name|;
            && |line| == colon + 2 + |value|
            && line[colon] == ':' && line[colon + 1] == ' '
            && (forall j :: 0 <= j < colon ==> line[j] == name[j])
            && (forall j :: colon + 2 <= j < |line| ==> line[j] == value[j - colon - 2])
  {
  }

  lemma FoldedPrint(h: Header)
    requires Printable(h)
    ensures Folded(PrintLine(h))
    ensures StartsBlank(PrintLine(h)) <==> StartsBlank(h.name)
  {
    var line := PrintLine(h);
    var n := |h.name|;
    assert line[n] == ':' && line[n + 1] == ' ';
    assert forall j :: 0 <= j < n ==> line[j] == h.name[j];
    assert forall j :: n + 2 <= j < |line| ==> line[j] == h.value[j - n - 2];
    forall i | CrlfAt(line, i) ensures i + 2 < |line| && IsBlank(line[i + 2]) {
      if i < n {
        assert CrlfAt(h.name, i);
      } else {
        assert CrlfAt(h.value, i - n - 2);
      }
    }
  }

  // ------------------------------------------------- what the parser can produce

  /** After trimming, a line end is still followed by a blank, or it ends the text. */
  ghost predicate Trimmed(s: string) {
    forall i :: CrlfAt(s, i) ==> i + 2 == |s| || IsBlank(s[i + 2])
  }

  ghost predicate ParserMade(h: Header) {
    Trimmed(h.name) && Trimmed(h.value) && ':' !in h.name
  }

  lemma HeaderOfShape(line: string)
    requires Folded(line)
    ensures HeaderOf(line).Some? ==> ParserMade(HeaderOf(line).value)
  {
    var colon := FindChar(line, ':', 0);
    if colon < |line| {
      var name := line[..EndOfText(line, 0, colon)];
      forall i | CrlfAt(name, i) ensures i + 2 == |name| || IsBlank(name[i + 2]) {
        assert CrlfAt(line, i);
      }
      var start := StartOfText(line, colon + 1);
      var value := line[start..EndOfText(line, start, |line|)];
      forall i | CrlfAt(value, i) ensures i + 2 == |value| || IsBlank(value[i + 2]) {
        assert CrlfAt(line, start + i);
      }
    }
  }

  lemma {:induction false} ParsedShape(lines: seq<string>)
    requires HeaderLines(lines)
    ensures forall i :: 0 <= i < |HeadersOf(lines).headers| ==> ParserMade(HeadersOf(lines).headers[i])
  {
    HeaderOfShape(lines[0]);
    if |lines| > 1 {
      ParsedShape(lines[1..]);
    } else {
      assert HeadersOf(lines[1..]).headers == [];
    }
  }

  /** Every header of a parsed block has the parser's shape. */
  lemma ParseBlockShape(block: string)
    ensures forall i :: 0 <= i < |ParseBlock(block).headers| ==> ParserMade(ParseBlock(block).headers[i])
  {
    JoinPieces(block);
    ParsedShape(Pieces(block));
  }

  ghost predicate NoNulHeaders(headers: seq<Header>) {
    forall i :: 0 <= i < |headers| ==> NoNul(headers[i].name) && NoNul(headers[i].value)
  }

  lemma NoNulHeader(line: string)
    requires NoNul(line)
    ensures HeaderOf(line).Some? ==> NoNul(HeaderOf(line).value.name) && NoNul(HeaderOf(line).value.value)
  {
  }

  lemma NoNulParsed(s: string, line: nat)
    requires NoNul(s) && line <= |s|
    ensures NoNulHeaders(HeadersOf(PiecesFrom(s, line)).headers)
  {
    NoNulPieces(s, line);
    NoNulParsedPieces(PiecesFrom(s, line));
  }

  lemma {:induction false} NoNulPieces(s: string, line: nat)
    requires NoNul(s) && line <= |s|
    ensures forall i :: 0 <= i < |PiecesFrom(s, line)| ==> NoNul(PiecesFrom(s, line)[i])
    decreases |s| - line
  {
    var cut := FindCut(s, line);
    assert NoNul(s[line..cut]);
    if cut < |s| {
      NoNulPieces(s, cut + 2);
      assert PiecesFrom(s, line) == [s[line..cut]] + PiecesFrom(s, cut + 2);
    }
  }

  lemma {:induction false} NoNulParsedPieces(pieces: seq<string>)
    requires forall i :: 0 <= i < |pieces| ==> NoNul(pieces[i])
    ensures NoNulHeaders(HeadersOf(pieces).headers)
  {
    if pieces != [] {
      NoNulHeader(pieces[0]);
      NoNulParsedPieces(pieces[1..]);
    }
  }
}
