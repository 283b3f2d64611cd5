/** Header blocks as they are written: names, blanks and line ends in literal text (message.c). */
module HeaderText {
  import opened Text
  import opened Headers
  import opened Recipients
  import opened Messages
  import opened Reading

  /** Printable text on one line, without a blank at either end. */
  predicate OnLine(s: string) {
    && (forall c :: c in s ==> c != '\r' && c != '\0')
    && (s != "" ==> s[0] != ' ' && s[0] != '\t' && s[|s| - 1] != ' ' && s[|s| - 1] != '\t')
  }

  /** The name of a header that is sent on. */
  predicate OtherName(s: string) {
    s != "" && OnLine(s) && ':' !in s && s != "X-Original-From" && s != "X-Original-To"
  }

  lemma OnLineIsTrimmed(s: string)
    requires OnLine(s)
    ensures NoNul(s) && '\r' !in s && !StartsBlank(s) && !EndsBlank(s)
  {
    assert forall i :: 0 <= i < |s| ==> s[i] in s;
  }

  function Line(name: string, blank: char, value: string): string {
    name + ":" + [blank] + value
  }

  /** A sender, a recipient and one more header, whose value goes on in a second line. */
  function Written(sender: string, user: string, host: string, name: string, value: string, more: string,
          blank: char): string {
    Line("X-Original-From", blank, sender) + CRLF
    + (Line("X-Original-To", blank, user + "@" + host) + CRLF + Line(name, blank, value + "\r\n" + [blank] + more))
  }

  lemma LineAt(name: string, blank: char, value: string)
    ensures var line, n := Line(name, blank, value), |name|;
            && |line| == n + 2 + |value| && line[n] == ':' && line[n + 1] == blank
            && (forall i :: 0 <= i < n ==> line[i] == name[i])
            && (forall i :: n + 2 <= i < |line| ==> line[i] == value[i - n - 2])
            && line[..n] == name && line[n + 2..] == value
  {
  }

  lemma HeaderOfLine(name: string, blank: char, value: string)
    requires ':' !in name && !EndsBlank(name) && IsBlank(blank) && !StartsBlank(value) && !EndsBlank(value)
    ensures HeaderOf(Line(name, blank, value)) == Some(Header(name, value))
  {
    var line, n := Line(name, blank, value), |name|;
    LineAt(name, blank, value);
    assert line[n + 2..|line|] == line[n + 2..];
    HeaderAt(line, n, n, n + 2, |line|);
  }

  /** A line without a line end in it, but for one that is followed by a blank. */
  lemma FoldedIfOnLine(name: string, blank: char, value: string)
    requires '\r' !in name && '\r' !in value && blank != '\r'
    ensures Folded(Line(name, blank, value))
  {
    LineAt(name, blank, value);
  }

  lemma FoldedAtSecondLine(name: string, blank: char, value: string, more: string)
    requires '\r' !in name && '\r' !in value && '\r' !in more && (blank == ' ' || blank == '\t')
    ensures Folded(Line(name, blank, value + "\r\n" + [blank] + more))
  {
    var v := value + "\r\n" + [blank] + more;
    var line, at := Line(name, blank, v), |name| + 2 + |value|;
    LineAt(name, blank, v);
    assert v[|value|] == '\r' && v[|value| + 1] == '\n' && v[|value| + 2] == blank;
    assert forall i :: 0 <= i < |v| && v[i] == '\r' ==> i == |value|;
    assert forall i :: 0 <= i < |line| && line[i] == '\r' ==> i == at;
  }

  lemma SecondLineText(value: string, blank: char, more: string)
    requires OnLine(value) && OnLine(more) && more != "" && (blank == ' ' || blank == '\t')
    ensures var v := value + "\r\n" + [blank] + more;
            !StartsBlank(v) && !EndsBlank(v) && NoNul(v)
  {
    OnLineIsTrimmed(value);
    OnLineIsTrimmed(more);
    var v := value + "\r\n" + [blank] + more;
    assert v[|v| - 1] == more[|more| - 1];
    assert v[0] == if value == "" then '\r' else value[0];
  }

  /** A line end is a fold before a blank, a tab or a NUL, and a cut before anything else. */
  lemma CutOrFold(first: string, c: char, rest: string)
    requires '\r' !in first && '\r' !in rest && c != '\r'
    ensures var block := first + "\r\n" + ([c] + rest);
            Pieces(block) == if c == ' ' || c == '\t' || c == '\0' then [block] else [first, [c] + rest]
  {
    var line := [c] + rest;
    var block, n := first + "\r\n" + line, |first|;
    assert forall i :: 0 <= i < |line| ==> line[i] != '\r';
    assert block[n] == '\r' && block[n + 1] == '\n' && block[n + 2] == c;
    assert forall i :: 0 <= i < |block| && block[i] == '\r' ==> i == n;
    if IsBlank(c) {
      PiecesOfJoin([block]);
    } else {
      assert [first, line][1..] == [line] && HeaderLines([line]);
      PiecesOfJoin([first, line]);
      assert Join([first, line]) == first + CRLF + Join([line]);
    }
  }

  lemma AddressIs(user: string, host: string)
    requires '@' !in user
    ensures AddressOf(user + "@" + host) == Some(Address(user, host))
  {
    var value := user + "@" + host;
    assert value[|user|] == '@' && value[..|user|] == user && value[|user| + 1..] == host;
    FirstChar(value, '@', |user|);
  }

  lemma EnvelopeIs(sender: string, user: string, host: string, other: Header)
    requires '@' !in user && other.name != "X-Original-From" && other.name != "X-Original-To"
    ensures EnvelopeOf([Header("X-Original-From", sender), Header("X-Original-To", user + "@" + host), other])
         == Envelope(true, sender, [other], [Destination(host, [user])])
  {
    AddressIs(user, host);
    var a, b := Header("X-Original-From", sender), Header("X-Original-To", user + "@" + host);
    assert a.name != b.name by {
      assert |a.name| != |b.name|;
    }
    assert [a, b, other][1..] == [b, other] && [b, other][1..] == [other] && [other][1..] == [];
    assert AddAddress([], Address(user, host)) == [Destination(host, [user])];
    var e := Envelope(true, sender, [], [Destination(host, [user])]);
    assert Scan(e.(headers := [other]), []) == e.(headers := [other]);
    assert Scan(e, [other]) == Scan(e.(headers := [other]), []);
    assert Scan(Envelope(true, sender, [], []), [b, other]) == Scan(e, [other]);
  }

  lemma TwoLines(l1: string, l2: string, h1: Header, h2: Header)
    requires Folded(l1) && Folded(l2) && l2 != "" && !IsBlank(l2[0])
    requires HeaderOf(l1) == Some(h1) && HeaderOf(l2) == Some(h2)
    ensures ParseBlock(l1 + CRLF + l2) == HeaderList(true, [h1, h2])
  {
    ParseOne(l2);
    ParseMore(l1, l2);
  }

  lemma ThreeLines(l1: string, l2: string, l3: string, h1: Header, h2: Header, h3: Header)
    requires Folded(l1) && Folded(l2) && Folded(l3) && l2 != "" && l3 != "" && !IsBlank(l2[0]) && !IsBlank(l3[0])
    requires HeaderOf(l1) == Some(h1) && HeaderOf(l2) == Some(h2) && HeaderOf(l3) == Some(h3)
    ensures ParseBlock(l1 + CRLF + (l2 + CRLF + l3)) == HeaderList(true, [h1, h2, h3])
  {
    TwoLines(l2, l3, h2, h3);
    assert (l2 + CRLF + l3)[0] == l2[0];
    ParseMore(l1, l2 + CRLF + l3);
  }

  /**
   * Such a block is accepted: the sender is the one after "X-Original-From:", there is one destination with
   * one user, the other header is left, and its second line still belongs to it. The blanks after the ':'
   * and before the second line are blanks or tabs.
   */
  lemma WrittenIsRead(sender: string, user: string, host: string, name: string, value: string, more: string,
          blank: char)
    requires OnLine(sender) && OnLine(user + "@" + host) && '@' !in user && OtherName(name)
    requires OnLine(value) && OnLine(more) && more != "" && (blank == ' ' || blank == '\t')
    ensures var block := Written(sender, user, host, name, value, more, blank);
            var left := [Header(name, value + "\r\n" + [blank] + more)];
            && NoNul(block)
            && Parse(block) == Parsed(HeadersLoaded, Envelope(true, sender, left, [Destination(host, [user])]))
  {
    var v, to := value + "\r\n" + [blank] + more, user + "@" + host;
    NamesAreOrdinary();
    LineIsRead("X-Original-From", blank, sender);
    LineIsRead("X-Original-To", blank, to);
    SecondLineIsRead(name, blank, value, more);
    var l1, l2 := Line("X-Original-From", blank, sender), Line("X-Original-To", blank, to);
    ThreeLines(l1, l2, Line(name, blank, v), Header("X-Original-From", sender), Header("X-Original-To", to),
               Header(name, v));
    EnvelopeIs(sender, user, host, Header(name, v));
    NoNulWritten(sender, user, host, name, value, more, blank);
  }

  lemma LineIsRead(name: string, blank: char, value: string)
    requires name != "" && !StartsBlank(name) && '\r' !in name && ':' !in name && !EndsBlank(name) && OnLine(value)
    requires blank == ' ' || blank == '\t'
    ensures var line := Line(name, blank, value);
            line != "" && !IsBlank(line[0]) && Folded(line) && HeaderOf(line) == Some(Header(name, value))
  {
    OnLineIsTrimmed(value);
    HeaderOfLine(name, blank, value);
    FoldedIfOnLine(name, blank, value);
    LineAt(name, blank, value);
  }

  lemma SecondLineIsRead(name: string, blank: char, value: string, more: string)
    requires OtherName(name) && OnLine(value) && OnLine(more) && more != "" && (blank == ' ' || blank == '\t')
    ensures var v := value + "\r\n" + [blank] + more;
            var line := Line(name, blank, v);
            line != "" && !IsBlank(line[0]) && Folded(line) && HeaderOf(line) == Some(Header(name, v))
  {
    var v := value + "\r\n" + [blank] + more;
    OnLineIsTrimmed(name);
    OnLineIsTrimmed(value);
    OnLineIsTrimmed(more);
    SecondLineText(value, blank, more);
    HeaderOfLine(name, blank, v);
    FoldedAtSecondLine(name, blank, value, more);
    LineAt(name, blank, v);
  }

  /** The same without the other header: nothing is left to be sent on. */
  lemma EnvelopeIsRead(sender: string, user: string, host: string, blank: char)
    requires OnLine(sender) && OnLine(user + "@" + host) && '@' !in user && (blank == ' ' || blank == '\t')
    ensures var to := user + "@" + host;
            var block := Line("X-Original-From", blank, sender) + CRLF + Line("X-Original-To", blank, to);
            && NoNul(block)
            && Parse(block) == Parsed(HeadersLoaded, Envelope(true, sender, [], [Destination(host, [user])]))
  {
    var to := user + "@" + host;
    var l1, l2 := Line("X-Original-From", blank, sender), Line("X-Original-To", blank, to);
    NamesAreOrdinary();
    OnLineIsTrimmed(sender);
    OnLineIsTrimmed(to);
    LineIsRead("X-Original-From", blank, sender);
    LineIsRead("X-Original-To", blank, to);
    TwoLines(l1, l2, Header("X-Original-From", sender), Header("X-Original-To", to));
    NoNulLine("X-Original-From", blank, sender);
    NoNulLine("X-Original-To", blank, to);
    NoNulLines(l1, l2);
    ShortEnvelopeIs(sender, user, host);
  }

  lemma ShortEnvelopeIs(sender: string, user: string, host: string)
    requires '@' !in user
    ensures EnvelopeOf([Header("X-Original-From", sender), Header("X-Original-To", user + "@" + host)])
         == Envelope(true, sender, [], [Destination(host, [user])])
  {
    AddressIs(user, host);
    var a, b := Header("X-Original-From", sender), Header("X-Original-To", user + "@" + host);
    assert a.name != b.name by {
      assert |a.name| != |b.name|;
    }
    assert [a, b][1..] == [b] && [b][1..] == [];
    assert AddAddress([], Address(user, host)) == [Destination(host, [user])];
    var e := Envelope(true, sender, [], [Destination(host, [user])]);
    assert Scan(e, []) == e;
    assert Scan(Envelope(true, sender, [], []), [b]) == Scan(e, []);
  }

  lemma NamesAreOrdinary()
    ensures forall s :: s in {"X-Original-From", "X-Original-To"} ==>
              s != "" && !StartsBlank(s) && '\r' !in s && ':' !in s && !EndsBlank(s) && NoNul(s)
  {
  }

  lemma NoNulWritten(sender: string, user: string, host: string, name: string, value: string, more: string,
          blank: char)
    requires OnLine(sender) && OnLine(user + "@" + host) && OnLine(name) && OnLine(value) && OnLine(more) && more != ""
    requires blank == ' ' || blank == '\t'
    ensures NoNul(Written(sender, user, host, name, value, more, blank))
  {
    NamesAreOrdinary();
    OnLineIsTrimmed(sender);
    OnLineIsTrimmed(user + "@" + host);
    OnLineIsTrimmed(name);
    SecondLineText(value, blank, more);
    NoNulLine("X-Original-From", blank, sender);
    NoNulLine("X-Original-To", blank, user + "@" + host);
    NoNulLine(name, blank, value + "\r\n" + [blank] + more);
    var rest := Line(name, blank, value + "\r\n" + [blank] + more);
    NoNulLines(Line("X-Original-To", blank, user + "@" + host), rest);
    NoNulLines(Line("X-Original-From", blank, sender), Line("X-Original-To", blank, user + "@" + host) + CRLF + rest);
  }

  lemma NoNulLines(a: string, b: string)
    requires NoNul(a) && NoNul(b)
    ensures NoNul(a + CRLF + b)
  {
  }

  lemma NoNulLine(name: string, blank: char, value: string)
    requires NoNul(name) && blank != '\0' && NoNul(value)
    ensures NoNul(Line(name, blank, value))
  {
    LineAt(name, blank, value);
  }
}
