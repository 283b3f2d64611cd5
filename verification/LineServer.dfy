/**
 * A server that knows nothing but the bytes it reads: it collects a line up to CRLF, or the data up to
 * the end-of-data mark, and answers each with one reply (sections 2.3.8 and 4.1 of RFC 5321).
 */
module LineServer {
  import opened Text
  import opened Payload
  import opened Delivery
  import S = Server

  /** A mail the server has answered for, as far as it can tell from the bytes. */
  datatype Letter = Letter(sender: string, recipients: seq<string>, text: string)

  datatype Phase =
    | Connected | Greeted | Unwilling | HeloAsked | Idle
    | MailAsked(sender: string)
    | Open(sender: string, recipients: seq<string>)
    | RcptAsked(sender: string, recipients: seq<string>, user: string)
    | DataAsked(sender: string, recipients: seq<string>)
    | Receiving(sender: string, recipients: seq<string>)
    | DataSent(sender: string, recipients: seq<string>, text: string)
    | RsetAsked | QuitAsked | Over
    | Violation    // a byte out of turn, or a line that is no command here

  /** `line`: what has been read of the current line, or of the data. */
  datatype View = View(phase: Phase, line: string, mailbox: seq<Letter>)

  const START: View := View(Connected, "", [])

  predicate Listening(p: Phase) { p.Greeted? || p.Unwilling? || p.Idle? || p.Open? }

  /** The text between `open` and a final '>'. */
  function PathIn(line: string, open: string): Option<string> {
    if open <= line && |line| > |open| && line[|line| - 1] == '>' then Some(line[|open|..|line| - 1]) else None
  }

  /** The user in a path at this host. */
  function UserIn(path: string, host: string): Option<string> {
    var n := |path| - |host| - 1;
    if n >= 0 && path[n..] == "@" + host then Some(path[..n]) else None
  }

  const MAIL: string := "MAIL FROM:<"
  const RCPT: string := "RCPT TO:<"

  /** A complete line, without its line end. */
  function HearLine(p: Phase, line: string, host: string): Phase
    requires Listening(p)
  {
    match p
    case Greeted => if "HELO " <= line then HeloAsked else Violation
    case Unwilling => if line == "QUIT" then QuitAsked else Violation
    case Idle =>
      if line == "QUIT" then QuitAsked
      else (match PathIn(line, MAIL)
            case None => Violation
            case Some(sender) => MailAsked(sender))
    case Open(sender, rs) =>
      if line == "DATA" then (if rs != [] then DataAsked(sender, rs) else Violation)
      else if line == "RSET" then (if rs != [] then RsetAsked else Violation)
      else (match PathIn(line, RCPT)
            case None => Violation
            case Some(path) =>
              match UserIn(path, host)
              case None => Violation
              case Some(user) => RcptAsked(sender, rs, user))
  }

  /** The data ends here. */
  predicate EndsData(text: string) { EndOfDataAt(text, |text| - 3) }

  /** One more byte. */
  function Read(v: View, c: char, host: string): View {
    var line := v.line + [c];
    if Listening(v.phase) then
      if EndsCrlf(line) then v.(phase := HearLine(v.phase, line[..|line| - 2], host), line := "")
      else v.(line := line)
    else if v.phase.Receiving? then
      if EndsData(line) then v.(phase := DataSent(v.phase.sender, v.phase.recipients, line), line := "")
      else v.(line := line)
    else v.(phase := Violation, line := "")
  }

  function ReadAll(v: View, s: string, host: string): View
    decreases |s|
  {
    if s == "" then v else ReadAll(Read(v, s[0], host), s[1..], host)
  }

  /** The server's reply. */
  function Answer(v: View, code: int): View {
    match v.phase
    case Connected => v.(phase := if code == 220 then Greeted else if code == 554 then Unwilling else Over)
    case HeloAsked => v.(phase := if code == 250 then Idle else Over)
    case MailAsked(sender) => v.(phase := if code == 250 then Open(sender, []) else Over)
    case RcptAsked(sender, rs, user) => v.(phase := if code == 250 then Open(sender, rs + [user]) else Over)
    case DataAsked(sender, rs) => v.(phase := if code == 354 then Receiving(sender, rs) else Over)
    case DataSent(sender, rs, text) =>
      if code == 250 then v.(phase := Idle, mailbox := v.mailbox + [Letter(sender, rs, text)]) else v.(phase := Over)
    case RsetAsked => v.(phase := if code == 250 then Idle else Over)
    case QuitAsked => v.(phase := Over)
    case _ => v.(phase := Violation, line := "")
  }

  function Note(v: View, e: Entry, host: string): View {
    match e
    case Sent(c) => ReadAll(v, Render(c), host)
    case Got(code) => Answer(v, code)
  }

  function After(v: View, entries: seq<Entry>, host: string): View
    decreases |entries|
  {
    if entries == [] then v else Note(After(v, entries[..|entries| - 1], host), entries[|entries| - 1], host)
  }

  /** What the server at the other end makes of the bytes of a session. */
  function ViewOf(s: Session): View {
    After(START, Transcript(s), s.destinationHost)
  }

  // ---------------------------------------------------------------- reading a request

  ghost predicate OneCrlf(s: string) {
    forall i :: CrlfAt(s, i) <==> i + 2 == |s|
  }

  /** Nothing may be said before the reply. */
  lemma {:induction false} ReadOutOfTurn(v: View, s: string, host: string)
    requires !Listening(v.phase) && !v.phase.Receiving? && s != ""
    ensures ReadAll(v, s, host) == v.(phase := Violation, line := "")
    decreases |s|
  {
    if |s| > 1 {
      ReadOutOfTurn(Read(v, s[0], host), s[1..], host);
    }
  }

  /** What the server makes of a text that ends with a line end. */
  ghost function HearText(v: View, text: string, host: string): View
    requires Listening(v.phase) && EndsCrlf(text)
  {
    v.(phase := if OneCrlf(text) then HearLine(v.phase, text[..|text| - 2], host) else Violation, line := "")
  }

  /** A request that is exactly one line is heard as that line, any other one is a violation. */
  lemma {:induction false} ReadRequest(v: View, s: string, host: string)
    requires Listening(v.phase) && s != "" && EndsCrlf(v.line + s) && OneLine(v.line)
    ensures ReadAll(v, s, host) == HearText(v, v.line + s, host)
    decreases |s|
  {
    var line, rest, all := v.line + [s[0]], s[1..], v.line + s;
    assert line + rest == all;
    forall i ensures CrlfAt(line, i) <==> CrlfAt(all, i) && i + 2 <= |line| {
      CrlfOfPrefix(line, rest, i);
    }
    forall i ensures CrlfAt(line, i) ==> i + 2 == |line| {
      CrlfOfPrefix(v.line, [s[0]], i);
    }
    if EndsCrlf(line) && rest == "" {
      assert line == all;
    } else if EndsCrlf(line) {
      assert CrlfAt(all, |line| - 2) && !OneCrlf(all);
      ReadOutOfTurn(Read(v, s[0], host), rest, host);
    } else {
      ReadRequest(v.(line := line), rest, host);
    }
  }

  lemma CrlfOfPrefix(a: string, b: string, i: int)
    ensures CrlfAt(a, i) <==> CrlfAt(a + b, i) && i + 2 <= |a|
  {
  }

  /** Data that is framed once is received as it is, other data runs over its end. */
  lemma {:induction false} ReadData(v: View, s: string, host: string)
    requires v.phase.Receiving? && s != "" && EndsData(v.line + s) && forall i :: !EndOfDataAt(v.line, i)
    ensures var all := v.line + s;
            var sent := DataSent(v.phase.sender, v.phase.recipients, all);
            ReadAll(v, s, host) == v.(phase := if FramedOnce(all) then sent else Violation, line := "")
    decreases |s|
  {
    var line, rest, all := v.line + [s[0]], s[1..], v.line + s;
    assert line + rest == all;
    forall i ensures EndOfDataAt(line, i) <==> EndOfDataAt(all, i) && i + 3 <= |line| {
      EndOfDataOfPrefix(line, rest, i);
    }
    forall i ensures EndOfDataAt(line, i) ==> i + 3 == |line| {
      EndOfDataOfPrefix(v.line, [s[0]], i);
    }
    if EndsData(line) {
      if rest == "" {
        assert line == all;
      } else {
        assert EndOfDataAt(all, |line| - 3);
        ReadOutOfTurn(Read(v, s[0], host), rest, host);
      }
    } else {
      ReadData(v.(line := line), rest, host);
    }
  }

  lemma EndOfDataOfPrefix(a: string, b: string, i: int)
    ensures EndOfDataAt(a, i) <==> EndOfDataAt(a + b, i) && i + 3 <= |a|
  {
    assert CRLF + (a + b) == CRLF + a + b;
    if 0 <= i && i + 5 <= |CRLF + a| {
      assert (CRLF + a + b)[i..i + 5] == (CRLF + a)[i..i + 5];
    }
  }

  // ---------------------------------------------------------------- the commands of the client

  function LetterOf(mail: S.Mail): Letter { Letter(mail.sender, mail.recipients, mail.text) }

  function LettersOf(mails: seq<S.Mail>): (r: seq<Letter>)
    ensures |r| == |mails| && forall i :: 0 <= i < |r| ==> r[i] == LetterOf(mails[i])
  {
    seq(|mails|, i requires 0 <= i < |mails| => LetterOf(mails[i]))
  }

  function ErasedPhase(p: S.Phase): Phase {
    match p
    case Connected => Connected
    case Greeted => Greeted
    case Unwilling => Unwilling
    case HeloAsked => HeloAsked
    case Idle => Idle
    case MailAsked(_, sender) => MailAsked(sender)
    case Open(_, sender, rs) => Open(sender, rs)
    case RcptAsked(_, sender, rs, user) => RcptAsked(sender, rs, user)
    case DataAsked(_, sender, rs) => DataAsked(sender, rs)
    case Receiving(_, sender, rs) => Receiving(sender, rs)
    case DataSent(_, sender, rs, text) => DataSent(sender, rs, text)
    case RsetAsked => RsetAsked
    case QuitAsked => QuitAsked
    case Over => Over
    case Violation => Violation
  }

  /** What is left of a view when the message pointers are taken away, between two requests. */
  function Erased(v: S.View): View {
    View(ErasedPhase(v.phase), "", LettersOf(v.mailbox))
  }

  /** A command whose bytes are one line, or data that ends only where it ends. */
  ghost predicate Clean(c: Command) {
    match c
    case Content(_, text) => FramedOnce(text)
    case _ => OneCrlf(Render(c))
  }

  lemma PathOf(open: string, path: string)
    ensures PathIn(open + path + ">", open) == Some(path)
  {
  }

  lemma UserOf(user: string, host: string)
    ensures UserIn(user + "@" + host, host) == Some(user)
  {
    assert (user + "@" + host)[|user|..] == "@" + host;
    assert (user + "@" + host)[..|user|] == user;
  }

  /** A command without its line end. */
  function LineOf(c: Command): string
    requires !c.Content?
  {
    match c
    case Helo(host) => "HELO " + host
    case MailFrom(_, sender) => MAIL + sender + ">"
    case RcptTo(_, user, host) => RCPT + (user + "@" + host) + ">"
    case Data(_) => "DATA"
    case Rset(_) => "RSET"
    case Quit => "QUIT"
  }

  lemma RenderedLine(c: Command)
    requires !c.Content?
    ensures Render(c) == LineOf(c) + CRLF
  {
    if c.RcptTo? {
      assert Render(c) == "RCPT TO:<" + c.user + "@" + c.host + ">" + CRLF;
    }
  }

  /** The line of a command is understood as that command. */
  lemma HearLineOf(v: S.View, c: Command, host: string)
    requires S.Hear(v, c, host).phase != S.Violation && !c.Content?
    ensures var p := ErasedPhase(v.phase);
            Listening(p) && HearLine(p, LineOf(c), host) == ErasedPhase(S.Hear(v, c, host).phase)
  {
    if c.MailFrom? {
      PathOf(MAIL, c.sender);
    } else if c.RcptTo? {
      PathOf(RCPT, c.user + "@" + c.host);
      UserOf(c.user, c.host);
    }
  }

  lemma HearRendered(v: S.View, c: Command, host: string)
    requires S.Hear(v, c, host).phase != S.Violation && !c.Content?
    ensures var text := Render(c);
            && Listening(ErasedPhase(v.phase)) && EndsCrlf(text)
            && HearLine(ErasedPhase(v.phase), text[..|text| - 2], host) == ErasedPhase(S.Hear(v, c, host).phase)
  {
    var line := LineOf(c);
    RenderedLine(c);
    HearLineOf(v, c, host);
    assert (line + CRLF)[..|line|] == line;
  }

  /** One command: it is heard as the command it is, or the server is lost, by its bytes alone. */
  lemma HearBytes(v: S.View, c: Command, host: string)
    requires S.Hear(v, c, host).phase != S.Violation
    requires c.Content? ==> EndsData(c.text)
    ensures ReadAll(Erased(v), Render(c), host)
         == if Clean(c) then Erased(S.Hear(v, c, host)) else Erased(v).(phase := Violation)
  {
    if c.Content? {
      HearContent(v, c, host);
    } else {
      HearRequest(v, c, host);
    }
  }

  lemma HearContent(v: S.View, c: Command, host: string)
    requires S.Hear(v, c, host).phase != S.Violation && c.Content? && EndsData(c.text)
    ensures ReadAll(Erased(v), Render(c), host)
         == if Clean(c) then Erased(S.Hear(v, c, host)) else Erased(v).(phase := Violation)
  {
    assert "" + c.text == c.text;
    ReadData(Erased(v), c.text, host);
  }

  lemma HearRequest(v: S.View, c: Command, host: string)
    requires S.Hear(v, c, host).phase != S.Violation && !c.Content?
    ensures ReadAll(Erased(v), Render(c), host)
         == if Clean(c) then Erased(S.Hear(v, c, host)) else Erased(v).(phase := Violation)
  {
    var text := Render(c);
    assert "" + text == text;
    HearRendered(v, c, host);
    ReadRequest(Erased(v), text, host);
  }

  lemma AnswerErased(v: S.View, code: int)
    requires S.Answer(v, code).phase != S.Violation
    ensures Answer(Erased(v), code) == Erased(S.Answer(v, code))
  {
    if v.phase.DataSent? && code == 250 {
      var letter := Letter(v.phase.sender, v.phase.recipients, v.phase.text);
      assert LettersOf(S.Answer(v, code).mailbox) == LettersOf(v.mailbox) + [letter];
    }
  }

  // ---------------------------------------------------------------- a whole conversation

  ghost predicate AllClean(entries: seq<Entry>) {
    forall i :: 0 <= i < |entries| && entries[i].Sent? ==> Clean(entries[i].command)
  }

  ghost predicate DataEnds(entries: seq<Entry>) {
    forall i :: 0 <= i < |entries| && entries[i].Sent? && entries[i].command.Content? ==>
      EndsData(entries[i].command.text)
  }

  lemma {:induction false} StaysLost(v: View, e: Entry, host: string)
    requires v.phase == Violation && v.line == ""
    ensures Note(v, e, host) == v
  {
    if e.Sent? && Render(e.command) != "" {
      ReadOutOfTurn(v, Render(e.command), host);
    }
  }

  lemma HearStaysLost(v: S.View, e: Entry, host: string)
    requires S.Note(v, e, host).phase != S.Violation
    ensures v.phase != S.Violation
  {
  }

  /**
   * For a conversation in the order of commands, the server that reads bytes comes to the same view as the
   * one that is told the commands, if and only if every command is clean; otherwise it is lost for ever,
   * with the mail it had accepted before.
   */
  lemma {:induction false} BytesAreUnderstood(entries: seq<Entry>, host: string)
    requires S.After(S.START, entries, host).phase != S.Violation && DataEnds(entries)
    ensures var v, told := After(START, entries, host), S.After(S.START, entries, host);
            if AllClean(entries) then v == Erased(told)
            else v.phase == Violation && v.line == "" && v.mailbox <= LettersOf(told.mailbox)
    decreases |entries|
  {
    if entries != [] {
      var front, e := entries[..|entries| - 1], entries[|entries| - 1];
      var told := S.After(S.START, front, host);
      assert entries == front + [e];
      HearStaysLost(told, e, host);
      BytesAreUnderstood(front, host);
      MailboxGrows(told, e, host);
      assert AllClean(entries) <==> AllClean(front) && (e.Sent? ==> Clean(e.command));
      if !AllClean(front) {
        StaysLost(After(START, front, host), e, host);
      } else if e.Sent? {
        HearBytes(told, e.command, host);
      } else {
        AnswerErased(told, e.code);
      }
    }
  }

  lemma MailboxGrows(v: S.View, e: Entry, host: string)
    ensures LettersOf(v.mailbox) <= LettersOf(S.Note(v, e, host).mailbox)
  {
  }

  // ---------------------------------------------------------------- which commands are clean

  lemma OneLineAround(a: string, c: char, b: string)
    requires c != '\r' && c != '\n'
    ensures OneLine(a + [c] + b) <==> OneLine(a) && OneLine(b)
  {
    var s, n := a + [c] + b, |a| + 1;
    assert forall i :: 0 <= i < |a| ==> s[i] == a[i];
    assert forall i :: 0 <= i < |b| ==> s[n + i] == b[i];
    assert forall i :: CrlfAt(a, i) ==> CrlfAt(s, i);
    assert forall i :: CrlfAt(b, i) ==> CrlfAt(s, n + i);
    assert forall i :: CrlfAt(s, i) ==> CrlfAt(a, i) || CrlfAt(b, i - n);
  }

  lemma OneCrlfIs(line: string)
    ensures OneCrlf(line + CRLF) <==> OneLine(line)
  {
    var s := line + CRLF;
    assert forall i :: 0 <= i < |line| ==> s[i] == line[i];
    assert forall i :: CrlfAt(line, i) ==> CrlfAt(s, i) && i + 2 != |s|;
    assert forall i :: CrlfAt(s, i) ==> CrlfAt(line, i) || i + 2 == |s|;
  }

  lemma NoCr(s: string)
    requires '\r' !in s
    ensures OneLine(s)
  {
  }

  lemma OneLinePath(open: string, path: string)
    requires '\r' !in open
    ensures OneLine(open + "<" + path + ">") <==> OneLine(path)
  {
    NoCr(open);
    OneLineAround(open, '<', path + ">");
    OneLineAround(path, '>', "");
    assert open + "<" + path + ">" == open + ['<'] + (path + ">");
    assert path + ">" == path + ['>'] + "";
  }

  /** A command is clean exactly when what it was given has no line end. */
  lemma CleanExactly(c: Command)
    ensures Clean(c) <==>
              match c
              case Helo(host) => OneLine(host)
              case MailFrom(_, sender) => OneLine(sender)
              case RcptTo(_, user, host) => OneLine(user) && OneLine(host)
              case Content(_, text) => FramedOnce(text)
              case _ => true
  {
    if !c.Content? {
      RenderedLine(c);
      OneCrlfIs(LineOf(c));
      if c.Helo? {
        NoCr("HELO");
        OneLineAround("HELO", ' ', c.host);
        assert LineOf(c) == "HELO" + [' '] + c.host;
      } else if c.MailFrom? {
        OneLinePath("MAIL FROM:", c.sender);
        assert MAIL == "MAIL FROM:" + "<";
      } else if c.RcptTo? {
        OneLinePath("RCPT TO:", c.user + "@" + c.host);
        assert RCPT == "RCPT TO:" + "<";
        OneLineAround(c.user, '@', c.host);
      } else {
        NoCr(LineOf(c));
      }
    }
  }

  // ---------------------------------------------------------------- what a line can hold

  ghost predicate AllOneLine(s: seq<string>) {
    forall i :: 0 <= i < |s| ==> OneLine(s[i])
  }

  /** A list of recipients at this host. */
  ghost predicate PlainAddresses(rs: seq<string>, host: string) {
    AllOneLine(rs) && (rs != [] ==> OneLine(host))
  }

  ghost predicate PlainPhase(p: Phase, host: string) {
    match p
    case MailAsked(sender) => OneLine(sender)
    case Open(sender, rs) => OneLine(sender) && PlainAddresses(rs, host)
    case RcptAsked(sender, rs, user) => OneLine(sender) && PlainAddresses(rs + [user], host)
    case DataAsked(sender, rs) => OneLine(sender) && PlainAddresses(rs, host)
    case Receiving(sender, rs) => OneLine(sender) && PlainAddresses(rs, host)
    case DataSent(sender, rs, text) => OneLine(sender) && PlainAddresses(rs, host) && FramedOnce(text)
    case _ => true
  }

  ghost predicate Unended(text: string) {
    forall i :: !EndOfDataAt(text, i)
  }

  ghost predicate Plain(v: View, host: string) {
    && PlainPhase(v.phase, host)
    && (if v.phase.Receiving? then Unended(v.line) else OneLine(v.line))
    && forall l :: l in v.mailbox ==> OneLine(l.sender) && PlainAddresses(l.recipients, host) && FramedOnce(l.text)
  }

  lemma OneLineIsUnended(line: string)
    requires OneLine(line)
    ensures Unended(line)
  {
    forall i ensures !EndOfDataAt(line, i) {
      if EndOfDataAt(line, i) {
        EndOfDataIsDotLine(line, i);
      }
    }
  }

  lemma ReadDataIsPlain(line: string, c: char)
    requires Unended(line)
    ensures if EndsData(line + [c]) then FramedOnce(line + [c]) else Unended(line + [c])
  {
    var all := line + [c];
    forall i ensures EndOfDataAt(all, i) ==> i + 3 == |all| {
      EndOfDataOfPrefix(line, [c], i);
    }
  }

  lemma OneLinePart(s: string, i: nat, j: nat)
    requires OneLine(s) && i <= j <= |s|
    ensures OneLine(s[i..j])
  {
    assert forall k :: CrlfAt(s[i..j], k) ==> CrlfAt(s, i + k);
  }

  lemma UserIsPlain(path: string, host: string)
    requires OneLine(path) && UserIn(path, host).Some?
    ensures OneLine(UserIn(path, host).value) && OneLine(host)
  {
    var n := |path| - |host| - 1;
    OneLinePart(path, 0, n);
    OneLinePart(path, n + 1, |path|);
    assert path[n + 1..|path|] == path[n..][1..] == ("@" + host)[1..] == host;
  }

  lemma HearLineIsPlain(p: Phase, line: string, host: string)
    requires Listening(p) && PlainPhase(p, host) && OneLine(line)
    ensures PlainPhase(HearLine(p, line, host), host) && !HearLine(p, line, host).Receiving?
  {
    forall i, j | 0 <= i <= j <= |line| ensures OneLine(line[i..j]) {
      OneLinePart(line, i, j);
    }
    if p.Open? && PathIn(line, RCPT).Some? && UserIn(PathIn(line, RCPT).value, host).Some? {
      UserIsPlain(PathIn(line, RCPT).value, host);
    }
  }

  lemma ReadIsPlain(v: View, c: char, host: string)
    requires Plain(v, host)
    ensures Plain(Read(v, c, host), host)
  {
    var line := v.line + [c];
    if Listening(v.phase) {
      assert forall i :: CrlfAt(line, i) && i + 2 < |line| ==> CrlfAt(v.line, i);
      if EndsCrlf(line) {
        assert line[..|line| - 2] == v.line[..|line| - 2];
        OneLinePart(v.line, 0, |line| - 2);
        HearLineIsPlain(v.phase, line[..|line| - 2], host);
      }
    } else if v.phase.Receiving? {
      ReadDataIsPlain(v.line, c);
    }
  }

  lemma AnswerIsPlain(v: View, code: int, host: string)
    requires Plain(v, host)
    ensures Plain(Answer(v, code), host)
  {
    if v.phase.DataAsked? {
      OneLineIsUnended(v.line);
    }
  }

  lemma {:induction false} ReadAllIsPlain(v: View, s: string, host: string)
    requires Plain(v, host)
    ensures Plain(ReadAll(v, s, host), host)
    decreases |s|
  {
    if s != "" {
      ReadIsPlain(v, s[0], host);
      ReadAllIsPlain(Read(v, s[0], host), s[1..], host);
    }
  }

  /**
   * Whatever the client says: no sender and no address that the server has understood holds a line end, and
   * the text of every letter ends where its data ends.
   */
  lemma {:induction false} LettersAreLines(entries: seq<Entry>, host: string)
    ensures Plain(After(START, entries, host), host)
    decreases |entries|
  {
    if entries != [] {
      var front, e := entries[..|entries| - 1], entries[|entries| - 1];
      LettersAreLines(front, host);
      if e.Sent? {
        ReadAllIsPlain(After(START, front, host), Render(e.command), host);
      } else {
        AnswerIsPlain(After(START, front, host), e.code, host);
      }
    }
  }

  // ---------------------------------------------------------------- what is lost

  /** The server has answered 250 although it could not make sense of the bytes it was sent. */
  ghost predicate Bluffs(entries: seq<Entry>, host: string) {
    exists k :: 0 <= k < |entries| && entries[k] == Got(250) && After(START, entries[..k], host).phase == Violation
  }

  lemma BluffsLater(entries: seq<Entry>, e: Entry, host: string)
    ensures Bluffs(entries, host) || (e == Got(250) && After(START, entries, host).phase == Violation) ==>
              Bluffs(entries + [e], host)
  {
    var all := entries + [e];
    if Bluffs(entries, host) {
      var k :| 0 <= k < |entries| && entries[k] == Got(250) && After(START, entries[..k], host).phase == Violation;
      assert all[..k] == entries[..k] && all[k] == Got(250);
    } else if e == Got(250) && After(START, entries, host).phase == Violation {
      assert all[..|entries|] == entries && all[|entries|] == Got(250);
    }
  }

  /**
   * A server that does not bluff has accepted what it is counted to have accepted, whatever the client
   * has said: it has at most refused to go on.
   */
  lemma {:induction false} HonestMailbox(entries: seq<Entry>, host: string)
    requires S.After(S.START, entries, host).phase != S.Violation && DataEnds(entries) && !Bluffs(entries, host)
    ensures After(START, entries, host).mailbox == LettersOf(S.After(S.START, entries, host).mailbox)
    decreases |entries|
  {
    if entries != [] {
      var front, e := entries[..|entries| - 1], entries[|entries| - 1];
      var v, told := After(START, front, host), S.After(S.START, front, host);
      assert entries == front + [e];
      HearStaysLost(told, e, host);
      BluffsLater(front, e, host);
      HonestMailbox(front, host);
      BytesAreUnderstood(front, host);
      if !AllClean(front) {
        StaysLost(v, e, host);
      } else if e.Sent? {
        HearBytes(told, e.command, host);
      } else {
        AnswerErased(told, e.code);
      }
    }
  }

  /** A view of a conversation that has not got past HELO. */
  predicate Early(v: View) {
    && v.mailbox == []
    && v.phase in {Connected, Greeted, Unwilling, QuitAsked, Over, Violation}
  }

  ghost predicate OnlyFoldedHelo(entries: seq<Entry>) {
    forall i :: 0 <= i < |entries| && entries[i].Sent? && entries[i].command.Helo? ==> !OneLine(entries[i].command.host)
  }

  lemma EarlyStep(told: S.View, e: Entry, host: string)
    requires Early(Erased(told)) && S.Note(told, e, host).phase != S.Violation
    requires e.Sent? && e.command.Helo? ==> !OneLine(e.command.host)
    requires e.Sent? && e.command.Content? ==> EndsData(e.command.text)
    ensures Early(Note(Erased(told), e, host))
  {
    if e.Sent? {
      HearBytes(told, e.command, host);
      CleanExactly(e.command);
    } else {
      AnswerErased(told, e.code);
    }
  }

  /** If the name in HELO has a line end, the conversation never gets past it. */
  lemma {:induction false} FoldedHelo(entries: seq<Entry>, host: string)
    requires S.After(S.START, entries, host).phase != S.Violation && DataEnds(entries) && OnlyFoldedHelo(entries)
    ensures Early(After(START, entries, host))
    decreases |entries|
  {
    if entries != [] {
      var front, e := entries[..|entries| - 1], entries[|entries| - 1];
      var v, told := After(START, front, host), S.After(S.START, front, host);
      assert entries == front + [e];
      HearStaysLost(told, e, host);
      FoldedHelo(front, host);
      BytesAreUnderstood(front, host);
      if AllClean(front) {
        EarlyStep(told, e, host);
      } else {
        StaysLost(v, e, host);
      }
    }
  }

  lemma {:induction false} FrontIsHeard(entries: seq<Entry>, k: nat, host: string)
    requires k <= |entries| && S.After(S.START, entries, host).phase != S.Violation
    ensures S.After(S.START, entries[..k], host).phase != S.Violation
    decreases |entries|
  {
    if k < |entries| {
      var front, e := entries[..|entries| - 1], entries[|entries| - 1];
      HearStaysLost(S.After(S.START, front, host), e, host);
      FrontIsHeard(front, k, host);
      assert front[..k] == entries[..k];
    } else {
      assert entries[..k] == entries;
    }
  }

  lemma CleanIsHeard(entries: seq<Entry>, host: string)
    requires S.After(S.START, entries, host).phase != S.Violation && DataEnds(entries) && AllClean(entries)
    ensures After(START, entries, host).phase != Violation
  {
    BytesAreUnderstood(entries, host);
  }

  lemma CleanFront(entries: seq<Entry>, k: nat, host: string)
    requires S.After(S.START, entries, host).phase != S.Violation && DataEnds(entries) && AllClean(entries)
    requires k <= |entries|
    ensures After(START, entries[..k], host).phase != Violation
  {
    var front := entries[..k];
    FrontIsHeard(entries, k, host);
    assert forall i :: 0 <= i < k ==> front[i] == entries[i];
    CleanIsHeard(front, host);
  }

  /** With clean commands there is nothing to bluff about. */
  lemma CleanIsHonest(entries: seq<Entry>, host: string)
    requires S.After(S.START, entries, host).phase != S.Violation && DataEnds(entries) && AllClean(entries)
    ensures !Bluffs(entries, host)
  {
    forall k | 0 <= k < |entries| ensures After(START, entries[..k], host).phase != Violation {
      CleanFront(entries, k, host);
    }
  }
}
