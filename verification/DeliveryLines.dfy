/**
 * The main theorems once more, for a server that knows nothing but the bytes: what it makes of every run,
 * and for which header blocks that is what the client believes.
 */
module DeliveryLines {
  import opened Text
  import opened Headers
  import opened Recipients
  import opened Messages
  import opened Sessions
  import opened Payload
  import opened Delivery
  import opened DeliveryInvariants
  import opened DeliveryViews
  import opened DeliveryRuns
  import opened DeliverySafety
  import S = Server
  import L = LineServer

  // ---------------------------------------------------------------- where commands come from

  /** A command that this session can have sent, with the fields of routed messages and loaded bodies. */
  ghost predicate Comes(c: Command, helo: string, host: string, origin: map<Ptr, Message>, bodies: map<Ptr, string>) {
    match c
    case Helo(h) => h == helo
    case MailFrom(p, sender) => p in origin && HasHost(origin[p].destinations, host) && sender == origin[p].sender
    case RcptTo(p, user, h) =>
      p in origin && HasHost(origin[p].destinations, h) && h == host && user in Users(origin[p], host)
    case Content(p, text) => p in origin && p in bodies && text == Encode(origin[p].headers, bodies[p])
    case _ => true
  }

  ghost predicate AllCome(entries: seq<Entry>, helo: string, host: string, origin: map<Ptr, Message>,
          bodies: map<Ptr, string>) {
    forall i :: 0 <= i < |entries| && entries[i].Sent? ==> Comes(entries[i].command, helo, host, origin, bodies)
  }

  lemma {:induction false} OpeningComes(p: Ptr, m: Message, helo: string, host: string, users: seq<string>, k: nat,
                                        origin: map<Ptr, Message>, bodies: map<Ptr, string>)
    requires k <= |users| && p in origin && origin[p] == m && HasHost(m.destinations, host) && users == Users(m, host)
    ensures AllCome(Opening(p, m.sender, host, users, k), helo, host, origin, bodies)
  {
    if k > 0 {
      OpeningComes(p, m, helo, host, users, k - 1, origin, bodies);
    }
  }

  lemma TransactionComes(t: Transfer, helo: string, host: string, st: Store, origin: map<Ptr, Message>)
    requires TransferOk(t, host, st, origin)
    ensures AllCome(Transaction(t, host), helo, host, origin, st.bodies)
  {
    OpeningComes(t.message, origin[t.message], helo, host, t.recipients, |t.recipients|, origin, st.bodies);
  }

  lemma {:induction false} TransactionsCome(transfers: seq<Transfer>, helo: string, host: string, st: Store,
          origin: map<Ptr, Message>)
    requires forall k :: 0 <= k < |transfers| ==> TransferOk(transfers[k], host, st, origin)
    ensures AllCome(Transactions(transfers, host), helo, host, origin, st.bodies)
  {
    if transfers != [] {
      TransactionsCome(transfers[..|transfers| - 1], helo, host, st, origin);
      TransactionComes(transfers[|transfers| - 1], helo, host, st, origin);
    }
  }

  lemma CurrentComes(phase: SessionState, p: Ptr, helo: string, host: string, sent: nat, st: Store,
          origin: map<Ptr, Message>)
    requires p in origin && HasHost(origin[p].destinations, host) && sent <= |Users(origin[p], host)|
    requires p in st.bodies || (phase != SendingData && phase != SendingDataPayload)
    ensures AllCome(Current(phase, p, origin[p], host, sent, BodyOf(st.bodies, p)), helo, host, origin, st.bodies)
  {
    OpeningComes(p, origin[p], helo, host, Users(origin[p], host), sent, origin, st.bodies);
  }

  lemma ComeConcat(a: seq<Entry>, b: seq<Entry>, helo: string, host: string, origin: map<Ptr, Message>,
          bodies: map<Ptr, string>)
    requires AllCome(a, helo, host, origin, bodies) && AllCome(b, helo, host, origin, bodies)
    ensures AllCome(a + b, helo, host, origin, bodies)
  {
  }

  lemma PastComes(helo: string, log: Log, host: string, st: Store, origin: map<Ptr, Message>)
    requires forall k :: 0 <= k < |log.transfers| ==> TransferOk(log.transfers[k], host, st, origin)
    ensures AllCome(Past(helo, log, host), helo, host, origin, st.bodies)
  {
    TransactionsCome(log.transfers, helo, host, st, origin);
    ComeConcat([Got(220), Sent(Helo(helo)), Got(250)], Transactions(log.transfers, host), helo, host, origin,
               st.bodies);
  }

  lemma BusyComes(s: Session, helo: string, st: Store, origin: map<Ptr, Message>)
    requires TalkOk(s, helo, origin, st.bodies) && QueueLogOk(s, st, origin) && InTransaction(s.log.phase)
    ensures AllCome(s.log.said, helo, s.destinationHost, origin, st.bodies)
  {
    var log, host, p := s.log, s.destinationHost, s.messages[0];
    PastComes(helo, log, host, st, origin);
    assert p == (TransferMessages(log.transfers) + s.messages)[|log.transfers|];
    var sent := RcptsSent(s.cursor, Users(origin[p], host));
    CurrentComes(log.phase, p, helo, host, sent, st, origin);
    ComeConcat(Past(helo, log, host), Current(log.phase, p, origin[p], host, sent, BodyOf(st.bodies, p)), helo, host,
               origin, st.bodies);
  }

  /** Every command of a session comes from a routed message for its host. */
  lemma TranscriptComes(s: Session, helo: string, st: Store, origin: map<Ptr, Message>)
    requires TalkOk(s, helo, origin, st.bodies) && QueueLogOk(s, st, origin)
    ensures AllCome(Transcript(s), helo, s.destinationHost, origin, st.bodies)
  {
    SaidComes(s, helo, st, origin);
    assert forall i :: 0 <= i < |s.log.tail| ==> s.log.tail[i].Got?;
    ComeConcat(s.log.said, s.log.tail, helo, s.destinationHost, origin, st.bodies);
  }

  lemma SaidComes(s: Session, helo: string, st: Store, origin: map<Ptr, Message>)
    requires TalkOk(s, helo, origin, st.bodies) && QueueLogOk(s, st, origin)
    ensures AllCome(s.log.said, helo, s.destinationHost, origin, st.bodies)
  {
    if InTransaction(s.log.phase) {
      BusyComes(s, helo, st, origin);
    } else if s.log.phase == SendingQuit && !s.log.refused {
      PastComes(helo, s.log, s.destinationHost, st, origin);
      ComeConcat(Past(helo, s.log, s.destinationHost), [Sent(Quit)], helo, s.destinationHost, origin, st.bodies);
    }
  }

  /** The data of every session ends with the end-of-data mark. */
  lemma DataEnds(entries: seq<Entry>, helo: string, host: string, origin: map<Ptr, Message>, bodies: map<Ptr, string>)
    requires AllCome(entries, helo, host, origin, bodies)
    ensures L.DataEnds(entries)
  {
    forall i | 0 <= i < |entries| && entries[i].Sent? && entries[i].command.Content?
      ensures L.EndsData(entries[i].command.text)
    {
      var p := entries[i].command.message;
      EncodeEnds(origin[p].headers, bodies[p]);
    }
  }

  lemma EncodeEnds(headers: seq<Header>, body: string)
    ensures L.EndsData(Encode(headers, body))
  {
    var before := PrintHeaders(headers) + CRLF + SentBody(body, 0);
    var text := before + TERMINATOR;
    assert (CRLF + text)[|text| - 3..|text| + 2] == TERMINATOR;
  }

  lemma ConversationComes(helo: string, events: seq<Event>, s: Session)
    requires s in All(Run(helo, events))
    ensures var w := Run(helo, events);
            && AllCome(Transcript(s), helo, s.destinationHost, w.origin, w.store.bodies)
            && L.DataEnds(Transcript(s))
  {
    RunKeepsInvariant(helo, events);
    HeloStays(helo, events);
    var w := Run(helo, events);
    var i :| 0 <= i < |All(w)| && All(w)[i] == s;
    assert TalkOk(s, w.helo, w.origin, w.store.bodies) by {
      assert i < |w.sessions| || s == w.archive[i - |w.sessions|];
    }
    assert QueueLogOk(All(w)[i], w.store, w.origin);
    TranscriptComes(s, helo, w.store, w.origin);
    DataEnds(Transcript(s), helo, s.destinationHost, w.origin, w.store.bodies);
  }

  lemma {:induction false} RouteAllHelo(w: World, p: Ptr, hosts: seq<string>, refused: set<string>)
    ensures RouteAll(w, p, hosts, refused).helo == w.helo
    decreases |hosts|
  {
    if hosts != [] {
      RouteAllHelo(RouteTo(w, p, hosts[0], hosts[0] in refused), p, hosts[1..], refused);
    }
  }

  lemma RouteHelo(w: World, p: Ptr, refused: set<string>)
    ensures RouteMessage(w, p, refused).helo == w.helo
  {
    if p in w.store.heap && w.store.heap[p].state == HeadersLoaded {
      var m := w.store.heap[p];
      var taken := w.(messages := Without(w.messages, p), origin := w.origin[p := m]);
      RouteAllHelo(taken, p, DestinationHosts(m.destinations), refused);
    }
  }

  lemma StepHelo(w: World, e: Event)
    ensures Step(w, e).helo == w.helo
  {
    if e.Route? {
      RouteHelo(w, e.message, e.refused);
    }
  }

  lemma {:induction false} HeloStays(helo: string, events: seq<Event>)
    ensures Run(helo, events).helo == helo
    decreases |events|
  {
    if events != [] {
      HeloStays(helo, events[..|events| - 1]);
      StepHelo(Run(helo, events[..|events| - 1]), events[|events| - 1]);
    }
  }

  // ---------------------------------------------------------------- the bytes of every run

  /**
   * In every run and for every session: the server that reads bytes comes to the view of the commands if
   * every command is clean. Otherwise it is lost, and has accepted no more than the mail from before.
   */
  lemma BytesAgree(helo: string, events: seq<Event>)
    ensures forall s :: s in All(Run(helo, events)) ==>
              && Understood(s)
              && var v := L.ViewOf(s);
                 if L.AllClean(Transcript(s)) then v == L.Erased(S.ViewOf(s))
                 else v.phase == L.Violation && v.mailbox <= L.LettersOf(S.ViewOf(s).mailbox)
  {
    ServersAgree(helo, events);
    forall s | s in All(Run(helo, events))
      ensures var v := L.ViewOf(s);
              if L.AllClean(Transcript(s)) then v == L.Erased(S.ViewOf(s))
              else v.phase == L.Violation && v.mailbox <= L.LettersOf(S.ViewOf(s).mailbox)
    {
      ConversationComes(helo, events, s);
      L.BytesAreUnderstood(Transcript(s), s.destinationHost);
    }
  }

  /** Every letter that a server has accepted is a mail that the client counts as delivered, and is as written. */
  lemma LettersAreAsWritten(helo: string, events: seq<Event>, s: Session, i: nat)
    requires s in All(Run(helo, events)) && i < |L.ViewOf(s).mailbox|
    ensures i < |S.ViewOf(s).mailbox|
    ensures var mail := S.ViewOf(s).mailbox[i];
            L.ViewOf(s).mailbox[i] == L.LetterOf(mail) && AsWritten(Run(helo, events), mail, s.destinationHost)
    ensures var letter := L.ViewOf(s).mailbox[i];
            && OneLine(letter.sender) && L.PlainAddresses(letter.recipients, s.destinationHost)
            && FramedOnce(letter.text)
  {
    BytesAgree(helo, events);
    MailIsAsWritten(helo, events);
    L.LettersAreLines(Transcript(s), s.destinationHost);
    assert S.ViewOf(s).mailbox[i] in S.ViewOf(s).mailbox;
    assert L.ViewOf(s).mailbox[i] in L.ViewOf(s).mailbox;
  }

  // ---------------------------------------------------------------- which header blocks can be sent

  /** The addresses that a block makes the client write into commands have no line end. */
  ghost predicate Addressable(block: string) {
    && (NamedAddresses(block) != [] ==> OneLine(LastSender(ParseBlock(block).headers, "")))
    && forall a :: a in NamedAddresses(block) ==> OneLine(a.user) && OneLine(a.host)
  }

  /** No header is taken for the end of the data. */
  ghost predicate Enclosed(block: string) {
    var headers := Remaining(ParseBlock(block).headers);
    forall i :: 0 <= i < |headers| ==> !OpensWithDotLine(headers[i])
  }

  lemma OneClean(c: Command)
    ensures L.AllClean([Sent(c)]) <==> L.Clean(c)
    ensures L.AllClean([Got(250), Sent(c)]) <==> L.Clean(c)
  {
    assert [Sent(c)][0].Sent? && [Got(250), Sent(c)][1].Sent?;
  }

  lemma {:induction false} OpeningClean(p: Ptr, sender: string, host: string, users: seq<string>, k: nat)
    requires k <= |users|
    ensures L.AllClean(Opening(p, sender, host, users, k)) <==>
              OneLine(sender) && forall i :: 0 <= i < k ==> OneLine(users[i]) && OneLine(host)
  {
    if k == 0 {
      L.CleanExactly(MailFrom(p, sender));
      OneClean(MailFrom(p, sender));
    } else {
      var rcpt := RcptTo(p, users[k - 1], host);
      OpeningClean(p, sender, host, users, k - 1);
      L.CleanExactly(rcpt);
      OneClean(rcpt);
      CleanConcat(Opening(p, sender, host, users, k - 1), [Got(250), Sent(rcpt)]);
    }
  }

  lemma CleanConcat(a: seq<Entry>, b: seq<Entry>)
    ensures L.AllClean(a + b) <==> L.AllClean(a) && L.AllClean(b)
  {
    assert forall i :: 0 <= i < |a| ==> (a + b)[i] == a[i];
    assert forall i :: 0 <= i < |b| ==> (a + b)[|a| + i] == b[i];
  }

  /** MAIL and RCPT for one destination. */
  ghost predicate OpensCleanly(p: Ptr, sender: string, d: Destination) {
    L.AllClean(Opening(p, sender, d.host, d.recipients, |d.recipients|))
  }

  /**
   * Every MAIL and RCPT command for an accepted block is one line if and only if the last sender, if
   * anybody is named, and every named user and host have no line end.
   */
  lemma AddressesFitLines(p: Ptr, m: Message)
    requires FromBlock(m)
    ensures (forall d :: d in m.destinations ==> OpensCleanly(p, m.sender, d)) <==> Addressable(m.block)
  {
    if forall d :: d in m.destinations ==> OpensCleanly(p, m.sender, d) {
      CleanIsAddressable(p, m);
    }
    if Addressable(m.block) {
      AddressableIsClean(p, m);
    }
  }

  lemma CleanIsAddressable(p: Ptr, m: Message)
    requires FromBlock(m) && forall d :: d in m.destinations ==> OpensCleanly(p, m.sender, d)
    ensures Addressable(m.block)
  {
    OriginAddresses(m);
    var named := NamedAddresses(m.block);
    forall a | a in named ensures OneLine(m.sender) && OneLine(a.user) && OneLine(a.host) {
      var d := DestinationOf(m, a.host);
      DestinationFitsLines(p, m, d);
      assert a.user in d.recipients;
    }
    assert named != [] ==> named[0] in named;
  }

  lemma AddressableIsClean(p: Ptr, m: Message)
    requires FromBlock(m) && Addressable(m.block)
    ensures forall d :: d in m.destinations ==> OpensCleanly(p, m.sender, d)
  {
    OriginAddresses(m);
    var named := NamedAddresses(m.block);
    forall d | d in m.destinations ensures OpensCleanly(p, m.sender, d) {
      DestinationFitsLines(p, m, d);
      var a :| a in named && a.host == d.host;
      forall u | u in d.recipients ensures OneLine(u) {
        assert u in FirstOccurrences(UsersAt(named, d.host));
        assert Address(u, d.host) in named;
      }
    }
  }

  lemma DestinationOf(m: Message, host: string) returns (d: Destination)
    requires HasHost(m.destinations, host)
    ensures d in m.destinations && d.host == host && d.recipients == Users(m, host)
  {
    FoundIfThere(m.destinations, host);
    d := m.destinations[FindDestination(m.destinations, host)];
  }

  lemma DestinationFitsLines(p: Ptr, m: Message, d: Destination)
    requires FromBlock(m) && d in m.destinations
    ensures OpensCleanly(p, m.sender, d) <==> OneLine(m.sender) && OneLine(d.host) && forall u :: u in d.recipients ==>
              OneLine(u)
    ensures d.recipients == Users(m, d.host)
  {
    ParseAccepts(m.block);
    OpeningClean(p, m.sender, d.host, d.recipients, |d.recipients|);
    var i :| 0 <= i < |m.destinations| && m.destinations[i] == d;
    assert FindDestination(m.destinations, d.host) == i;
    assert d.recipients != [];
    assert d.recipients[0] in d.recipients;
  }

  // ---------------------------------------------------------------- runs that can be sent

  /** The block can be written into commands and data. */
  ghost predicate Fits(block: string) {
    Addressable(block) && Enclosed(block)
  }

  /** So can everything that has been routed, and the name in HELO. */
  ghost predicate Sendable(w: World) {
    OneLine(w.helo) && forall p :: p in w.origin ==> Fits(w.origin[p].block)
  }

  lemma SendableIsClean(w: World, c: Command, host: string)
    requires Invariant(w) && Sendable(w) && Comes(c, w.helo, host, w.origin, w.store.bodies)
    ensures L.Clean(c)
  {
    L.CleanExactly(c);
    if c.MailFrom? {
      OriginAddresses(w.origin[c.message]);
    } else if c.RcptTo? {
      var m := w.origin[c.message];
      OriginAddresses(m);
      assert Address(c.user, host) in NamedAddresses(m.block);
    } else if c.Content? {
      var block := w.origin[c.message].block;
      OriginAddresses(w.origin[c.message]);
      BlockIsClean(block);
      Framing(Remaining(ParseBlock(block).headers), w.store.bodies[c.message]);
    }
  }

  lemma SendableTranscript(helo: string, events: seq<Event>, s: Session)
    requires Sendable(Run(helo, events)) && s in All(Run(helo, events))
    ensures L.AllClean(Transcript(s))
  {
    var w := Run(helo, events);
    RunKeepsInvariant(helo, events);
    HeloStays(helo, events);
    ConversationComes(helo, events, s);
    forall i | 0 <= i < |Transcript(s)| && Transcript(s)[i].Sent? ensures L.Clean(Transcript(s)[i].command) {
      SendableIsClean(w, Transcript(s)[i].command, s.destinationHost);
    }
  }

  /** Then every server comes to the view of the commands. */
  lemma SendableIsUnderstood(helo: string, events: seq<Event>)
    requires Sendable(Run(helo, events))
    ensures forall s :: s in All(Run(helo, events)) ==> L.ViewOf(s) == L.Erased(S.ViewOf(s))
  {
    BytesAgree(helo, events);
    forall s | s in All(Run(helo, events)) ensures L.AllClean(Transcript(s)) {
      SendableTranscript(helo, events, s);
    }
  }
}
