/** What the server at the other end of a session has accepted is what the session believes it has delivered. */
module DeliveryViews {
  import opened Recipients
  import opened Sessions
  import opened Payload
  import opened Delivery
  import opened DeliveryInvariants
  import opened Server

  /** The mail of the transactions that were not aborted. */
  function MailOf(transfers: seq<Transfer>): seq<Mail> {
    if transfers == [] then []
    else
      var t := transfers[|transfers| - 1];
      MailOf(transfers[..|transfers| - 1]) +
        match t.text
        case Some(text) => [Mail(t.message, t.sender, t.recipients, text)]
        case None => []
  }

  function MessagesOf(mails: seq<Mail>): (r: seq<Ptr>)
    ensures |r| == |mails| && forall i :: 0 <= i < |r| ==> r[i] == mails[i].message
  {
    seq(|mails|, i requires 0 <= i < |mails| => mails[i].message)
  }

  /** The view between two transactions. */
  function Settled(transfers: seq<Transfer>): View {
    View(Idle, MailOf(transfers), MessagesOf(MailOf(transfers)))
  }

  lemma {:induction false} OpeningView(v: View, p: Ptr, sender: string, host: string, users: seq<string>, k: nat)
    requires v.phase == Idle && k <= |users|
    ensures After(v, Opening(p, sender, host, users, k), host)
         == v.(phase := if k == 0 then MailAsked(p, sender) else RcptAsked(p, sender, users[..k - 1], users[k - 1]))
    ensures After(v, Opening(p, sender, host, users, k) + [Got(250)], host) == v.(phase := Open(p, sender, users[..k]))
  {
    if k == 0 {
      AfterOne(v, Sent(MailFrom(p, sender)), host);
    } else {
      OpeningView(v, p, sender, host, users, k - 1);
      OneMoreRcpt(v, p, sender, host, users, k);
    }
    AfterMore(v, Opening(p, sender, host, users, k), Got(250), host);
    assert k > 0 ==> users[..k - 1] + [users[k - 1]] == users[..k];
  }

  lemma OneMoreRcpt(v: View, p: Ptr, sender: string, host: string, users: seq<string>, k: nat)
    requires 0 < k <= |users|
    requires After(v, Opening(p, sender, host, users, k - 1) + [Got(250)], host)
          == v.(phase := Open(p, sender, users[..k - 1]))
    ensures After(v, Opening(p, sender, host, users, k), host)
         == v.(phase := RcptAsked(p, sender, users[..k - 1], users[k - 1]))
  {
    var before := Opening(p, sender, host, users, k - 1) + [Got(250)];
    assert Opening(p, sender, host, users, k) == before + [Sent(RcptTo(p, users[k - 1], host))];
    AfterMore(v, before, Sent(RcptTo(p, users[k - 1], host)), host);
  }

  lemma AbortedView(v: View, opening: seq<Entry>, p: Ptr, sender: string, users: seq<string>, host: string)
    requires v.phase == Idle && users != [] && After(v, opening, host) == v.(phase := Open(p, sender, users))
    ensures After(v, opening + [Sent(Rset(p))], host) == v.(phase := RsetAsked)
    ensures After(v, opening + [Sent(Rset(p)), Got(250)], host) == v
  {
    AfterMore(v, opening, Sent(Rset(p)), host);
    AfterMore(v, opening + [Sent(Rset(p))], Got(250), host);
    assert opening + [Sent(Rset(p))] + [Got(250)] == opening + [Sent(Rset(p)), Got(250)];
  }

  lemma TransactionView(v: View, t: Transfer, host: string)
    requires v.phase == Idle && t.recipients != []
    ensures After(v, Transaction(t, host), host) ==
              match t.text
              case Some(text) =>
                var mail := Mail(t.message, t.sender, t.recipients, text);
                v.(mailbox := v.mailbox + [mail], offered := v.offered + [t.message])
              case None => v
  {
    var users := t.recipients;
    var opening := Opening(t.message, t.sender, host, users, |users|) + [Got(250)];
    OpeningView(v, t.message, t.sender, host, users, |users|);
    assert users[..|users|] == users;
    match t.text
    case Some(text) =>
      DataView(v, opening, t.message, t.sender, users, text, host);
    case None =>
      AbortedView(v, opening, t.message, t.sender, users, host);
  }

  lemma DataView(v: View, opening: seq<Entry>, p: Ptr, sender: string, users: seq<string>, text: string, host: string)
    requires v.phase == Idle && users != [] && After(v, opening, host) == v.(phase := Open(p, sender, users))
    ensures After(v, opening + [Sent(Data(p))], host) == v.(phase := DataAsked(p, sender, users))
    ensures After(v, opening + [Sent(Data(p)), Got(354), Sent(Content(p, text))], host)
         == v.(phase := DataSent(p, sender, users, text), offered := v.offered + [p])
    ensures After(v, opening + [Sent(Data(p)), Got(354), Sent(Content(p, text)), Got(250)], host)
         == v.(mailbox := v.mailbox + [Mail(p, sender, users, text)], offered := v.offered + [p])
  {
    var a := opening + [Sent(Data(p))];
    var b := a + [Got(354)];
    var c := b + [Sent(Content(p, text))];
    AfterMore(v, opening, Sent(Data(p)), host);
    AfterMore(v, a, Got(354), host);
    AfterMore(v, b, Sent(Content(p, text)), host);
    AfterMore(v, c, Got(250), host);
    assert c == opening + [Sent(Data(p)), Got(354), Sent(Content(p, text))];
    assert c + [Got(250)] == opening + [Sent(Data(p)), Got(354), Sent(Content(p, text)), Got(250)];
  }

  ghost predicate AllAddressed(transfers: seq<Transfer>) {
    forall k :: 0 <= k < |transfers| ==> transfers[k].recipients != []
  }

  lemma {:induction false} TransactionsView(transfers: seq<Transfer>, host: string)
    requires AllAddressed(transfers)
    ensures After(View(Idle, [], []), Transactions(transfers, host), host) == Settled(transfers)
  {
    if transfers != [] {
      var front, t := transfers[..|transfers| - 1], transfers[|transfers| - 1];
      TransactionsView(front, host);
      AfterConcat(View(Idle, [], []), Transactions(front, host), Transaction(t, host), host);
      TransactionView(Settled(front), t, host);
      assert t.text.Some? ==> MessagesOf(MailOf(transfers)) == MessagesOf(MailOf(front)) + [t.message];
    }
  }

  lemma HeloView(helo: string, host: string)
    ensures After(START, [Got(220), Sent(Helo(helo))], host) == START.(phase := HeloAsked)
  {
    AfterOne(START, Got(220), host);
    AfterMore(START, [Got(220)], Sent(Helo(helo)), host);
    assert [Got(220)] + [Sent(Helo(helo))] == [Got(220), Sent(Helo(helo))];
  }

  lemma RefusedView(host: string)
    ensures var v := After(START, [Got(554), Sent(Quit)], host);
            v.mailbox == [] && v.offered == [] && InStep(SendingQuit, v.phase)
  {
    AfterOne(START, Got(554), host);
    AfterMore(START, [Got(554)], Sent(Quit), host);
    assert [Got(554)] + [Sent(Quit)] == [Got(554), Sent(Quit)];
  }

  lemma PastView(helo: string, log: Log, host: string)
    requires AllAddressed(log.transfers)
    ensures After(START, Past(helo, log, host), host) == Settled(log.transfers)
  {
    var greeting := [Got(220), Sent(Helo(helo)), Got(250)];
    HeloView(helo, host);
    AfterMore(START, [Got(220), Sent(Helo(helo))], Got(250), host);
    assert [Got(220), Sent(Helo(helo))] + [Got(250)] == greeting;
    AfterConcat(START, greeting, Transactions(log.transfers, host), host);
    TransactionsView(log.transfers, host);
  }

  // ---------------------------------------------------------------- one session

  /** The state of an open session and the server's view of it. */
  predicate InStep(state: SessionState, phase: Phase) {
    match state
    case ResolvingDns => phase == Connected
    case Connecting => phase == Connected
    case ReceivingGreeting => phase == Connected
    case SendingHelo => phase == HeloAsked
    case SendingMailOrRcpt => phase.MailAsked? || phase.RcptAsked?
    case LoadingMessageBody => phase.Open?
    case SendingData => phase.DataAsked?
    case SendingDataPayload => phase.DataSent?
    case SendingRset => phase == RsetAsked
    case SendingQuit => phase == QuitAsked
    case Closed => false
  }

  lemma CurrentView(v: View, phase: SessionState, p: Ptr, m: Message, host: string, sent: nat, body: string)
    requires v.phase == Idle && InTransaction(phase) && sent <= |Users(m, host)| && Users(m, host) != []
    requires phase != SendingMailOrRcpt ==> sent == |Users(m, host)|
    ensures var v' := After(v, Current(phase, p, m, host, sent, body), host);
            && v'.mailbox == v.mailbox
            && v'.offered == v.offered + (if phase == SendingDataPayload then [p] else [])
            && InStep(phase, v'.phase)
  {
    var users := Users(m, host);
    var opening := Opening(p, m.sender, host, users, sent) + [Got(250)];
    OpeningView(v, p, m.sender, host, users, sent);
    assert users[..|users|] == users;
    match phase
    case SendingMailOrRcpt =>
    case LoadingMessageBody =>
    case SendingRset => AbortedView(v, opening, p, m.sender, users, host);
    case _ => DataView(v, opening, p, m.sender, users, Encode(m.headers, body), host);
  }

  lemma UsersNonempty(m: Message, host: string)
    requires OriginOk(m) && HasHost(m.destinations, host)
    ensures Users(m, host) != []
  {
    var k := FindDestination(m.destinations, host);
    var i :| 0 <= i < |m.destinations| && m.destinations[i].host == host;
    assert k <= i;
  }

  lemma BusyView(helo: string, log: Log, host: string, p: Ptr, m: Message, sent: nat, body: string)
    requires AllAddressed(log.transfers) && InTransaction(log.phase) && sent <= |Users(m, host)| && Users(m, host) != []
    requires log.phase != SendingMailOrRcpt ==> sent == |Users(m, host)|
    ensures var v := After(START, Past(helo, log, host) + Current(log.phase, p, m, host, sent, body), host);
            && v.mailbox == MailOf(log.transfers)
            && v.offered == MessagesOf(v.mailbox) + (if log.phase == SendingDataPayload then [p] else [])
            && InStep(log.phase, v.phase)
  {
    PastView(helo, log, host);
    AfterConcat(START, Past(helo, log, host), Current(log.phase, p, m, host, sent, body), host);
    CurrentView(Settled(log.transfers), log.phase, p, m, host, sent, body);
  }

  /** The view of a session before it is closed. */
  lemma SpokenView(s: Session, helo: string, origin: map<Ptr, Message>, bodies: map<Ptr, string>)
    requires Spoken(s, s.log.said, helo, origin, bodies) && AllAddressed(s.log.transfers)
    requires s.messages != [] && s.messages[0] in origin ==> Users(origin[s.messages[0]], s.destinationHost) != []
    ensures var v := After(START, s.log.said, s.destinationHost);
            && v.mailbox == MailOf(s.log.transfers)
            && v.offered == MessagesOf(v.mailbox) + (if s.log.phase == SendingDataPayload then [s.messages[0]] else [])
            && InStep(s.log.phase, v.phase)
  {
    var log, host := s.log, s.destinationHost;
    if InTransaction(log.phase) {
      var p := s.messages[0];
      BusyView(helo, log, host, p, origin[p], RcptsSent(s.cursor, Users(origin[p], host)), BodyOf(bodies, p));
    } else if log.phase == SendingHelo {
      HeloView(helo, host);
    } else if log.phase == SendingQuit && log.refused {
      RefusedView(host);
    } else if log.phase == SendingQuit {
      PastView(helo, log, host);
      AfterMore(START, Past(helo, log, host), Sent(Quit), host);
    }
  }

  /** An unexpected reply ends the conversation. */
  lemma TailView(state: SessionState, v: View, code: int)
    requires Exchanging(state) && InStep(state, v.phase) && !Expected(state, code)
    ensures Answer(v, code) == v.(phase := Over)
  {
  }

  /** What the server has accepted is what the session counts as delivered, and nobody speaks out of turn. */
  ghost predicate Understood(s: Session) {
    var v := ViewOf(s);
    && v.phase != Violation
    && (s.state != Closed ==> InStep(s.state, v.phase))
    && v.mailbox == MailOf(s.log.transfers)
    && v.offered == MessagesOf(v.mailbox)
                    + (if s.log.phase == SendingDataPayload && s.messages != [] then [s.messages[0]] else [])
    && (s.log.phase == SendingDataPayload ==> s.messages != [])
  }

  /** Every transaction of the session is for somebody. */
  lemma HaveRecipients(s: Session, st: Store, origin: map<Ptr, Message>, next: Ptr)
    requires QueueLogOk(s, st, origin) && StoreOk(st, next, origin)
    ensures AllAddressed(s.log.transfers)
    ensures s.messages != [] ==> s.messages[0] in origin && Users(origin[s.messages[0]], s.destinationHost) != []
  {
    var host := s.destinationHost;
    forall k | 0 <= k < |s.log.transfers| ensures s.log.transfers[k].recipients != [] {
      assert TransferOk(s.log.transfers[k], host, st, origin);
      UsersNonempty(origin[s.log.transfers[k].message], host);
    }
    if s.messages != [] {
      assert s.messages[0] == (TransferMessages(s.log.transfers) + s.messages)[|s.log.transfers|];
      UsersNonempty(origin[s.messages[0]], host);
    }
  }

  lemma SessionUnderstood(s: Session, helo: string, st: Store, origin: map<Ptr, Message>, next: Ptr)
    requires TalkOk(s, helo, origin, st.bodies) && QueueLogOk(s, st, origin) && StoreOk(st, next, origin)
    ensures Understood(s)
  {
    var host := s.destinationHost;
    HaveRecipients(s, st, origin, next);
    SpokenView(s, helo, origin, st.bodies);
    var v := After(START, s.log.said, host);
    if s.log.tail == [] {
      assert Transcript(s) == s.log.said;
    } else {
      assert s.log.tail == [s.log.tail[0]];
      AfterMore(START, s.log.said, s.log.tail[0], host);
      TailView(s.log.phase, v, s.log.tail[0].code);
    }
  }
}
