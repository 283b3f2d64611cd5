/** The bytes that go out for a file, from literal text to literal text (message.c and session.c). */
module MailText {
  import opened Text
  import opened Recipients
  import opened Headers
  import opened Messages
  import opened Payload
  import opened Delivery
  import opened HeaderText

  /** A body line as it goes out. */
  function Dotted(line: string): string {
    if line == "." then ".." else line
  }

  /** The body of two lines, neither of which holds a line end. */
  lemma TwoLinesSent(first: string, second: string)
    requires '\r' !in first && '\r' !in second
    ensures SentBody(first + "\r\n" + second, 0) == Dotted(first) + "\r\n" + Dotted(second)
  {
    var body, n := first + "\r\n" + second, |first|;
    LineEndsAt(first, "\r\n" + second);
    assert body == first + ("\r\n" + second);
    assert body[0..n] == first && LineEnd(body, 0) == n;
    LastLineSent(body, n + 2, second);
  }

  lemma LineEndsAt(line: string, rest: string)
    requires '\r' !in line && |rest| >= 2 && rest[..2] == "\r\n"
    ensures LineEnd(line + rest, 0) == |line|
  {
    var s := line + rest;
    assert s[|line|] == rest[0] == rest[..2][0] && s[|line| + 1] == rest[1] == rest[..2][1];
    assert forall i :: 0 <= i < |line| ==> s[i] == line[i];
    assert CrlfAt(s, |line|);
  }

  lemma LastLineSent(body: string, start: nat, line: string)
    requires start <= |body| && body[start..] == line && '\r' !in line
    ensures SentBody(body, start) == Dotted(line)
  {
    assert forall i :: start <= i < |body| ==> body[i] == line[i - start];
    assert LineEnd(body, start) == |body|;
    assert body[start..|body|] == line;
  }

  lemma OneHeaderPrinted(name: string, value: string)
    requires NoNul(name) && NoNul(value)
    ensures PrintHeaders([Header(name, value)]) == name + ": " + value + "\r\n"
  {
    var h := Header(name, value);
    assert PrintHeaders([h]) == PrintLine(h) + CRLF + PrintHeaders([h][1..]);
    assert [h][1..] == [] && PrintLine(h) + CRLF + "" == PrintLine(h) + CRLF;
  }

  lemma SecondLinePrinted(name: string, value: string, blank: char, more: string)
    ensures name + ": " + (value + "\r\n" + [blank] + more) + "\r\n"
         == name + ": " + value + "\r\n" + [blank] + more + "\r\n"
  {
  }

  /** The data of a message with one header that goes on in a second line, and a body of two lines. */
  lemma DataIsSent(name: string, value: string, more: string, blank: char, first: string, second: string)
    requires OnLine(name) && OnLine(value) && OnLine(more) && more != "" && (blank == ' ' || blank == '\t')
    requires '\r' !in first && '\r' !in second
    ensures Encode([Header(name, value + "\r\n" + [blank] + more)], first + "\r\n" + second)
         == (name + ": " + value + "\r\n" + [blank] + more + "\r\n") + "\r\n"
            + (Dotted(first) + "\r\n" + Dotted(second)) + "\r\n.\r\n"
  {
    TwoLinesSent(first, second);
    OnLineIsTrimmed(name);
    SecondLineText(value, blank, more);
    OneHeaderPrinted(name, value + "\r\n" + [blank] + more);
    SecondLinePrinted(name, value, blank, more);
  }

  lemma CommandsAreSent(helo: string, sender: string, user: string, host: string, p: Ptr)
    ensures Render(Helo(helo)) == "HELO " + helo + "\r\n"
    ensures Render(MailFrom(p, sender)) == "MAIL FROM:<" + sender + ">\r\n"
    ensures Render(RcptTo(p, user, host)) == "RCPT TO:<" + user + "@" + host + ">\r\n"
  {
    assert ">" + CRLF == ">\r\n";
    assert "MAIL FROM:<" + sender + ">" + CRLF == "MAIL FROM:<" + sender + (">" + CRLF);
    assert "RCPT TO:<" + user + "@" + host + ">" + CRLF == "RCPT TO:<" + user + "@" + host + (">" + CRLF);
  }

  /**
   * For a header block as in `HeaderText.Written` and a body of two lines: the commands for the message, and
   * its data, byte for byte.
   */
  lemma WrittenIsSent(sender: string, user: string, host: string, name: string, value: string, more: string,
          blank: char, first: string, second: string, p: Ptr)
    requires OnLine(sender) && OnLine(user + "@" + host) && '@' !in user && OtherName(name)
    requires OnLine(value) && OnLine(more) && more != "" && (blank == ' ' || blank == '\t')
    requires '\r' !in first && '\r' !in second
    ensures var e := Parse(Written(sender, user, host, name, value, more, blank)).envelope;
            && Render(MailFrom(p, e.sender)) == "MAIL FROM:<" + sender + ">\r\n"
            && |e.destinations| == 1 && |e.destinations[0].recipients| == 1
            && Render(RcptTo(p, e.destinations[0].recipients[0], e.destinations[0].host))
            == "RCPT TO:<" + user + "@" + host + ">\r\n"
            && Encode(e.headers, first + "\r\n" + second)
            == (name + ": " + value + "\r\n" + [blank] + more + "\r\n") + "\r\n"
               + (Dotted(first) + "\r\n" + Dotted(second)) + "\r\n.\r\n"
  {
    WrittenIsRead(sender, user, host, name, value, more, blank);
    DataIsSent(name, value, more, blank, first, second);
    CommandsAreSent("", sender, user, host, p);
  }
}
