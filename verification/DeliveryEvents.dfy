/** Every event of the program keeps the invariant; in particular none of them faults. */
module DeliveryEvents {
  import opened Text
  import opened Recipients
  import opened Messages
  import opened Sessions
  import opened Payload
  import opened Delivery
  import opened DeliveryInvariants
  import opened DeliverySteps

  // ---------------------------------------------------------------- transcripts

  /** A session that has heard the last reply to everything it said, and is about to start a transaction. */
  ghost predicate Ready(s: Session, helo: string) {
    s.log.tail == [] && !s.log.refused && s.log.said == Past(helo, s.log, s.destinationHost)
  }

  lemma ClosedOnOk(s: Session, code: int, helo: string, origin: map<Ptr, Message>, bodies: map<Ptr, string>)
    requires TalkOk(s, helo, origin, bodies) && Exchanging(s.state) && !Expected(s.state, code)
    ensures TalkOk(ClosedOn(s, code), helo, origin, bodies)
  {
  }

  lemma GreetingOk(s: Session, helo: string, origin: map<Ptr, Message>, bodies: map<Ptr, string>)
    requires TalkOk(s, helo, origin, bodies) && s.state == ReceivingGreeting
    ensures TalkOk(Say(Heard(s, 220), SendingHelo, Helo(helo)), helo, origin, bodies)
    ensures var heard := Heard(s, 554);
            TalkOk(Say(heard.(log := heard.log.(refused := true)), SendingQuit, Quit), helo, origin, bodies)
  {
    assert [] + [Got(220)] + [Sent(Helo(helo))] == [Got(220), Sent(Helo(helo))];
    assert [] + [Got(554)] + [Sent(Quit)] == [Got(554), Sent(Quit)];
  }

  lemma HeloReady(s: Session, helo: string, origin: map<Ptr, Message>, bodies: map<Ptr, string>)
    requires TalkOk(s, helo, origin, bodies) && s.state == SendingHelo
    ensures Ready(Heard(s, 250), helo)
  {
    assert s.log.said + [Got(250)] == [Got(220), Sent(Helo(helo)), Got(250)] + Transactions([], s.destinationHost);
  }

  /** The next RCPT: the transcript grows by the reply and the command. */
  lemma RcptOk(s: Session, helo: string, st: Store, origin: map<Ptr, Message>)
    requires TalkOk(s, helo, origin, st.bodies) && s.state == SendingMailOrRcpt && PhaseOk(s, st, origin)
    requires s.cursor.At?
    requires st.heap[s.messages[0]].state in {LoadingBody, BodyLoaded, LoadingFailed}
    ensures var users := Users(origin[s.messages[0]], s.destinationHost);
            var rcpt := RcptTo(s.messages[0], users[s.cursor.index], s.destinationHost);
            var s' := Say(Heard(s, 250), SendingMailOrRcpt, rcpt)
                        .(cursor := NodeAt(s.messages[0], Destination(s.destinationHost, users), s.cursor.index + 1));
            TalkOk(s', helo, origin, st.bodies) && PhaseOk(s', st, origin)
  {
    var p, host, k := s.messages[0], s.destinationHost, s.cursor.index;
    var m := origin[p];
    var users := Users(m, host);
    var before := Past(helo, s.log, host);
    var opening := Opening(p, m.sender, host, users, k);
    assert opening + [Got(250), Sent(RcptTo(p, users[k], host))] == Opening(p, m.sender, host, users, k + 1);
    assert before + opening + [Got(250)] + [Sent(RcptTo(p, users[k], host))]
        == before + (opening + [Got(250), Sent(RcptTo(p, users[k], host))]);
  }

  /** All recipients have been accepted: the transcript before the body has arrived. */
  ghost predicate Addressed(s: Session, helo: string, origin: map<Ptr, Message>) {
    && s.messages != [] && s.messages[0] in origin && s.log.tail == [] && !s.log.refused && s.cursor == Null
    && s.log.said == Past(helo, s.log, s.destinationHost) +
         (var m := origin[s.messages[0]];
          var users := Users(m, s.destinationHost);
          Opening(s.messages[0], m.sender, s.destinationHost, users, |users|) + [Got(250)])
  }

  lemma LastRcptAddressed(s: Session, helo: string, st: Store, origin: map<Ptr, Message>)
    requires TalkOk(s, helo, origin, st.bodies) && s.state == SendingMailOrRcpt && PhaseOk(s, st, origin)
    requires s.cursor == Null
    ensures Addressed(Heard(s, 250), helo, origin)
  {
    var m := origin[s.messages[0]];
    var users := Users(m, s.destinationHost);
    var opening := Opening(s.messages[0], m.sender, s.destinationHost, users, |users|);
    var past := Past(helo, s.log, s.destinationHost);
    assert past + opening + [Got(250)] == past + (opening + [Got(250)]);
  }

  lemma PollAddressed(s: Session, helo: string, st: Store, origin: map<Ptr, Message>)
    requires TalkOk(s, helo, origin, st.bodies) && s.state == LoadingMessageBody && PhaseOk(s, st, origin)
    ensures Addressed(s, helo, origin)
  {
  }

  /** From there the session waits for the body, asks to send it, or gives the message up. */
  lemma AddressedOk(s: Session, helo: string, st: Store, origin: map<Ptr, Message>)
    requires Addressed(s, helo, origin) && s.messages[0] in st.heap
    requires st.heap[s.messages[0]].state == BodyLoaded ==> s.messages[0] in st.bodies
    ensures var p := s.messages[0];
            && (st.heap[p].state == LoadingBody ==>
                  var s' := Moved(s, LoadingMessageBody);
                  TalkOk(s', helo, origin, st.bodies) && PhaseOk(s', st, origin))
            && (st.heap[p].state == BodyLoaded ==>
                  var s' := Say(s, SendingData, Data(p));
                  TalkOk(s', helo, origin, st.bodies) && PhaseOk(s', st, origin))
            && (st.heap[p].state == LoadingFailed ==>
                  var s' := Say(s, SendingRset, Rset(p));
                  TalkOk(s', helo, origin, st.bodies) && PhaseOk(s', st, origin))
  {
    var p := s.messages[0];
    var users := Users(origin[p], s.destinationHost);
    var opening := Opening(p, origin[p].sender, s.destinationHost, users, |users|) + [Got(250)];
    var before := Past(helo, s.log, s.destinationHost);
    assert before + opening + [Sent(Data(p))] == before + (opening + [Sent(Data(p))]);
    assert before + opening + [Sent(Rset(p))] == before + (opening + [Sent(Rset(p))]);
  }

  /** DATA is answered by 354: the payload is sent. */
  lemma ContentOk(s: Session, helo: string, st: Store, origin: map<Ptr, Message>)
    requires TalkOk(s, helo, origin, st.bodies) && s.state == SendingData && PhaseOk(s, st, origin)
    requires LiveOk(st, s.messages[0], origin[s.messages[0]])
    ensures var p := s.messages[0];
            var s' := Say(Heard(s, 354), SendingDataPayload, Content(p, Encode(st.heap[p].headers, st.heap[p].body)));
            TalkOk(s', helo, origin, st.bodies) && PhaseOk(s', st, origin)
  {
    var p := s.messages[0];
    var m := st.heap[p];
    var users := Users(origin[p], s.destinationHost);
    var opening := Opening(p, origin[p].sender, s.destinationHost, users, |users|) + [Got(250)];
    var before := Past(helo, s.log, s.destinationHost);
    var text := Encode(m.headers, m.body);
    assert before + (opening + [Sent(Data(p))]) + [Got(354)] + [Sent(Content(p, text))]
        == before + (opening + [Sent(Data(p)), Got(354), Sent(Content(p, text))]);
  }

  lemma TransactionsAppend(transfers: seq<Transfer>, t: Transfer, host: string)
    ensures Transactions(transfers + [t], host) == Transactions(transfers, host) + Transaction(t, host)
  {
    assert (transfers + [t])[..|transfers|] == transfers;
  }

  /** A transaction and its last reply. */
  lemma CurrentEnds(p: Ptr, m: Message, host: string, text: Option<string>, body: string)
    requires text.Some? ==> text.value == Encode(m.headers, body)
    ensures var phase := if text.Some? then SendingDataPayload else SendingRset;
            (Current(phase, p, m, host, |Users(m, host)|, body) + [Got(250)]
             == Transaction(Transfer(p, m.sender, Users(m, host), text), host))
  {
  }

  lemma PastGrows(helo: string, log: Log, host: string, t: Transfer, current: seq<Entry>, log': Log)
    requires current + [Got(250)] == Transaction(t, host) && log'.transfers == log.transfers + [t]
    ensures Past(helo, log, host) + current + [Got(250)] == Past(helo, log', host)
  {
    TransactionsAppend(log.transfers, t, host);
    assert Past(helo, log, host) + current + [Got(250)] == Past(helo, log, host) + (current + [Got(250)]);
    assert Past(helo, log, host) + Transaction(t, host)
        == [Got(220), Sent(Helo(helo)), Got(250)] + (Transactions(log.transfers, host) + Transaction(t, host));
  }

  /** The last reply of a transaction makes it part of the past. */
  lemma FinishedReady(s: Session, helo: string, st: Store, origin: map<Ptr, Message>, sent: bool)
    requires TalkOk(s, helo, origin, st.bodies) && PhaseOk(s, st, origin) && QueueOk(s, st, origin)
    requires s.state == if sent then SendingDataPayload else SendingRset
    requires LiveOk(st, s.messages[0], origin[s.messages[0]])
    ensures Ready(FinishTransfer(st, Heard(s, 250), sent).session, helo)
  {
    var p, host := s.messages[0], s.destinationHost;
    var m := st.heap[p];
    LiveRecipients(st, p, origin[p], host);
    var t := Transfer(p, m.sender, RecipientsAt(m, host), if sent then Some(Encode(m.headers, m.body)) else None);
    var current := Current(s.log.phase, p, origin[p], host, |t.recipients|, BodyOf(st.bodies, p));
    CurrentEnds(p, origin[p], host, t.text, BodyOf(st.bodies, p));
    PastGrows(helo, s.log, host, t, current, FinishTransfer(st, Heard(s, 250), sent).session.log);
  }

  // ---------------------------------------------------------------- dispatch

  /** The start of a transaction, or QUIT when the queue is empty. */
  lemma StartTransferOk(w: World, i: nat)
    requires i < |w.sessions| && Holding(w, multiset{}, Some(i)) && Ready(w.sessions[i], w.helo)
    ensures Holding(WithOutcome(w, i, StartTransfer(w.store, w.sessions[i])), multiset{}, None)
  {
    var s := w.sessions[i];
    assert QueueOk(s, w.store, w.origin);
    if s.messages == [] {
      var s' := Say(s, SendingQuit, Quit);
      UpdateSession(w, i, s', multiset{}, Some(i));
    } else {
      var p := s.messages[0];
      assert LiveOk(w.store, p, w.origin[p]);
      LiveRecipients(w.store, p, w.origin[p], s.destinationHost);
      var w1 := w.(store := StartLoadingBody(w.store, p));
      StartLoadingOk(w, p, Some(i));
      var s' := StartTransfer(w.store, s).session;
      TransferStarted(w, i);
      UpdateSession(w1, i, s', multiset{}, Some(i));
    }
  }

  lemma TransferStarted(w: World, i: nat)
    requires i < |w.sessions| && Ready(w.sessions[i], w.helo) && w.sessions[i].messages != []
    requires var p := w.sessions[i].messages[0];
             && p in w.store.heap && p in w.origin && OriginOk(w.origin[p]) && LiveOk(w.store, p, w.origin[p])
             && HasHost(w.origin[p].destinations, w.sessions[i].destinationHost)
             && (p, w.sessions[i].destinationHost) !in w.store.delivered
    ensures var o := StartTransfer(w.store, w.sessions[i]);
            && o.store == StartLoadingBody(w.store, w.sessions[i].messages[0])
            && PhaseOk(o.session, o.store, w.origin) && TalkOk(o.session, w.helo, w.origin, o.store.bodies)
            && o.session.destinationHost == w.sessions[i].destinationHost
            && o.session.messages == w.sessions[i].messages
            && o.session.log.transfers == w.sessions[i].log.transfers
            && o.session.log.enqueued == w.sessions[i].log.enqueued
  {
    var s := w.sessions[i];
    var p := s.messages[0];
    LiveRecipients(w.store, p, w.origin[p], s.destinationHost);
  }

  /** The world when a transaction has ended, before the next one is started. */
  function AfterTransfer(w: World, i: nat, sent: bool): World
    requires i < |w.sessions|
  {
    WithOutcome(w, i, FinishTransfer(w.store, Heard(w.sessions[i], 250), sent))
  }

  lemma TransferEnds(w: World, i: nat, sent: bool)
    requires i < |w.sessions| && Holding(w, multiset{}, None)
    requires w.sessions[i].state == if sent then SendingDataPayload else SendingRset
    ensures CanFinish(w, i, sent)
    ensures var s := w.sessions[i];
            && Finished(s, FinishTransfer(w.store, Heard(s, 250), sent).session, w.store.heap[s.messages[0]], sent)
            && Ready(FinishTransfer(w.store, Heard(s, 250), sent).session, w.helo)
  {
    var s := w.sessions[i];
    assert PhaseOk(s, w.store, w.origin) && QueueOk(s, w.store, w.origin);
    assert TalkOk(s, w.helo, w.origin, w.store.bodies);
    assert LiveOk(w.store, s.messages[0], w.origin[s.messages[0]]);
    FinishedReady(s, w.helo, w.store, w.origin, sent);
  }

  lemma AfterTransferOk(w: World, i: nat, sent: bool)
    requires i < |w.sessions| && Holding(w, multiset{}, None)
    requires w.sessions[i].state == if sent then SendingDataPayload else SendingRset
    ensures Holding(AfterTransfer(w, i, sent), multiset{}, Some(i))
    ensures Ready(AfterTransfer(w, i, sent).sessions[i], w.helo)
  {
    var s := w.sessions[i];
    TransferEnds(w, i, sent);
    var p, s' := s.messages[0], FinishTransfer(w.store, Heard(s, 250), sent).session;
    var w1 := w.(sessions := w.sessions[i := s'], store := Marked(w.store, p, s.destinationHost, sent));
    FinishOk(w, i, s', sent, None);
    ReleaseHand(w1, p, multiset{p}, Some(i));
    assert multiset{p} - multiset{p} == multiset{};
    assert AfterTransfer(w, i, sent) == w1.(store := Release(w1.store, p));
  }

  lemma OutcomeThen(w: World, i: nat, o: Outcome)
    requires i < |w.sessions|
    ensures var w' := WithOutcome(w, i, o);
            WithOutcome(w', i, StartTransfer(w'.store, w'.sessions[i])) == WithOutcome(w, i, Then(o))
  {
    assert w.sessions[i := o.session][i := Then(o).session] == w.sessions[i := Then(o).session];
  }

  /** The end of a transaction and the start of the next one. */
  lemma FinishAndGoOn(w: World, i: nat, sent: bool)
    requires i < |w.sessions| && Holding(w, multiset{}, None)
    requires w.sessions[i].state == if sent then SendingDataPayload else SendingRset
    ensures Holding(WithOutcome(w, i, Then(FinishTransfer(w.store, Heard(w.sessions[i], 250), sent))), multiset{}, None)
  {
    AfterTransferOk(w, i, sent);
    StartTransferOk(AfterTransfer(w, i, sent), i);
    OutcomeThen(w, i, FinishTransfer(w.store, Heard(w.sessions[i], 250), sent));
  }

  /** A reply that moves the session on without touching the queue or the heap. */
  lemma Answered(w: World, i: nat, s': Session)
    requires i < |w.sessions| && Holding(w, multiset{}, None)
    requires SameQueue(w.sessions[i], s')
    requires PhaseOk(s', w.store, w.origin) && TalkOk(s', w.helo, w.origin, w.store.bodies)
    ensures Holding(WithOutcome(w, i, Outcome(w.store, s')), multiset{}, None)
  {
    UpdateSession(w, i, s', multiset{}, None);
  }

  lemma RefusedReply(w: World, i: nat, code: int)
    requires i < |w.sessions| && Holding(w, multiset{}, None)
    requires Exchanging(w.sessions[i].state) && !Expected(w.sessions[i].state, code)
    ensures Holding(WithOutcome(w, i, Outcome(w.store, ClosedOn(w.sessions[i], code))), multiset{}, None)
  {
    ClosedOnOk(w.sessions[i], code, w.helo, w.origin, w.store.bodies);
    Answered(w, i, ClosedOn(w.sessions[i], code));
  }

  lemma GreetingReply(w: World, i: nat, code: int)
    requires i < |w.sessions| && Holding(w, multiset{}, None) && w.sessions[i].state == ReceivingGreeting
    requires code in {220, 554}
    ensures Holding(WithOutcome(w, i, DispatchReply(w.helo, w.store, w.sessions[i], code)), multiset{}, None)
  {
    GreetingOk(w.sessions[i], w.helo, w.origin, w.store.bodies);
    Answered(w, i, DispatchReply(w.helo, w.store, w.sessions[i], code).session);
  }

  lemma HeloReply(w: World, i: nat)
    requires i < |w.sessions| && Holding(w, multiset{}, None) && w.sessions[i].state == SendingHelo
    ensures Holding(WithOutcome(w, i, StartTransfer(w.store, Heard(w.sessions[i], 250))), multiset{}, None)
  {
    var s := w.sessions[i];
    var heard := Heard(s, 250);
    var w1 := w.(sessions := w.sessions[i := heard]);
    Interrupt(w, i, heard);
    HeloReady(s, w.helo, w.origin, w.store.bodies);
    StartTransferOk(w1, i);
    var o := StartTransfer(w.store, heard);
    assert w1.sessions[i := o.session] == w.sessions[i := o.session];
  }

  lemma RecipientReply(w: World, i: nat)
    requires i < |w.sessions| && Holding(w, multiset{}, None) && w.sessions[i].state == SendingMailOrRcpt
    ensures Holding(WithOutcome(w, i, DispatchReply(w.helo, w.store, w.sessions[i], 250)), multiset{}, None)
  {
    var s := w.sessions[i];
    var p := s.messages[0];
    assert QueueOk(s, w.store, w.origin) && PhaseOk(s, w.store, w.origin);
    assert TalkOk(s, w.helo, w.origin, w.store.bodies);
    assert LiveOk(w.store, p, w.origin[p]);
    RecipientAnswered(s, w.helo, w.store, w.origin);
    Answered(w, i, DispatchReply(w.helo, w.store, s, 250).session);
  }

  /** What the session says next is in order. */
  lemma RecipientAnswered(s: Session, helo: string, st: Store, origin: map<Ptr, Message>)
    requires TalkOk(s, helo, origin, st.bodies) && s.state == SendingMailOrRcpt && PhaseOk(s, st, origin)
    requires QueueOk(s, st, origin) && LiveOk(st, s.messages[0], origin[s.messages[0]])
    ensures var o := DispatchReply(helo, st, s, 250);
            && o.store == st && SameQueue(s, o.session)
            && PhaseOk(o.session, st, origin) && TalkOk(o.session, helo, origin, st.bodies)
  {
    var p := s.messages[0];
    LiveRecipients(st, p, origin[p], s.destinationHost);
    if s.cursor.At? {
      RcptOk(s, helo, st, origin);
    } else {
      LastRcptAddressed(s, helo, st, origin);
      AddressedOk(Heard(s, 250), helo, st, origin);
    }
  }

  lemma DataReply(w: World, i: nat)
    requires i < |w.sessions| && Holding(w, multiset{}, None) && w.sessions[i].state == SendingData
    ensures Holding(WithOutcome(w, i, DispatchReply(w.helo, w.store, w.sessions[i], 354)), multiset{}, None)
  {
    var s := w.sessions[i];
    var p := s.messages[0];
    assert QueueOk(s, w.store, w.origin) && PhaseOk(s, w.store, w.origin);
    assert TalkOk(s, w.helo, w.origin, w.store.bodies);
    assert LiveOk(w.store, p, w.origin[p]);
    ContentOk(s, w.helo, w.store, w.origin);
    Answered(w, i, DispatchReply(w.helo, w.store, s, 354).session);
  }

  lemma RefusedIs(helo: string, st: Store, s: Session, code: int)
    requires Exchanging(s.state) && !Expected(s.state, code)
    ensures DispatchReply(helo, st, s, code) == Outcome(st, ClosedOn(s, code))
  {
  }

  lemma ExpectedReply(w: World, i: nat, code: int)
    requires Holding(w, multiset{}, None) && Enabled(w, Reply(i, code)) && Expected(w.sessions[i].state, code)
    ensures Holding(WithOutcome(w, i, DispatchReply(w.helo, w.store, w.sessions[i], code)), multiset{}, None)
  {
    match w.sessions[i].state
    case ReceivingGreeting => GreetingReply(w, i, code);
    case SendingHelo => HeloReply(w, i);
    case SendingMailOrRcpt => RecipientReply(w, i);
    case SendingData => DataReply(w, i);
    case SendingDataPayload => FinishAndGoOn(w, i, true);
    case SendingRset => FinishAndGoOn(w, i, false);
  }

  /** `dispatch` on any reply code. */
  lemma ReplyOk(w: World, i: nat, code: int)
    requires Holding(w, multiset{}, None) && Enabled(w, Reply(i, code))
    ensures Holding(Apply(w, Reply(i, code)), multiset{}, None)
  {
    if Expected(w.sessions[i].state, code) {
      ExpectedReply(w, i, code);
    } else {
      RefusedIs(w.helo, w.store, w.sessions[i], code);
      RefusedReply(w, i, code);
    }
  }

  lemma PollSession(s: Session, helo: string, st: Store, origin: map<Ptr, Message>)
    requires TalkOk(s, helo, origin, st.bodies) && s.state == LoadingMessageBody && PhaseOk(s, st, origin)
    requires st.heap[s.messages[0]].state == BodyLoaded ==> s.messages[0] in st.bodies
    ensures var o := DispatchBodyPoll(st, s);
            && o.store == st && SameQueue(s, o.session)
            && PhaseOk(o.session, st, origin) && TalkOk(o.session, helo, origin, st.bodies)
  {
    PollAddressed(s, helo, st, origin);
    AddressedOk(s, helo, st, origin);
  }

  /** `dispatch` while the body is being loaded. */
  lemma BodyPollOk(w: World, i: nat)
    requires Holding(w, multiset{}, None) && Enabled(w, BodyPoll(i))
    ensures Holding(Apply(w, BodyPoll(i)), multiset{}, None)
  {
    var s := w.sessions[i];
    assert PhaseOk(s, w.store, w.origin) && TalkOk(s, w.helo, w.origin, w.store.bodies);
    PollSession(s, w.helo, w.store, w.origin);
    Answered(w, i, DispatchBodyPoll(w.store, s).session);
  }

  lemma NetworkOk(w: World, i: nat, state: SessionState)
    requires Holding(w, multiset{}, None) && Enabled(w, Network(i, state))
    ensures Holding(Apply(w, Network(i, state)), multiset{}, None)
  {
    var s := w.sessions[i];
    assert TalkOk(s, w.helo, w.origin, w.store.bodies);
    Answered(w, i, NetworkMove(s, state));
  }

  lemma EndedFrame(w: World, aborted: bool)
    requires Holding(w, multiset{}, None)
    ensures Holding(w.(finished := aborted, aborted := aborted), multiset{}, None)
  {
    assert All(w.(finished := aborted, aborted := aborted)) == All(w);
  }

  lemma CollisionOk(w: World, i: nat, code: int)
    requires Holding(w, multiset{}, None) && Enabled(w, Collision(i, code))
    ensures Holding(Apply(w, Collision(i, code)), multiset{}, None)
    ensures Apply(w, Collision(i, code)).aborted
  {
    NetworkOk(w, i, Closed);
    CollisionEnds(w, i, code);
    EndedFrame(Apply(w, Network(i, Closed)), true);
  }

  /** The session is closed as by an error on the socket, and the program ends. */
  lemma CollisionEnds(w: World, i: nat, code: int)
    requires Enabled(w, Collision(i, code))
    ensures Enabled(w, Network(i, Closed))
    ensures Apply(w, Collision(i, code)) == Apply(w, Network(i, Closed)).(finished := true, aborted := true)
  {
  }

  // ---------------------------------------------------------------- routing

  lemma RouteOk(w: World, p: Ptr, refused: set<string>)
    requires Holding(w, multiset{}, None) && Enabled(w, Route(p, refused))
    ensures Holding(Apply(w, Route(p, refused)), multiset{}, None)
  {
    if w.store.heap[p].state == LoadingFailed {
      GiveUpOk(w, p, refused);
    } else if w.store.heap[p].state == HeadersLoaded {
      RoutedOk(w, p, refused);
    }
  }

  lemma GiveUpOk(w: World, p: Ptr, refused: set<string>)
    requires Holding(w, multiset{}, None) && p in w.messages && w.store.heap[p].state == LoadingFailed
    ensures Holding(RouteMessage(w, p, refused), multiset{}, None)
  {
    assert multiset{p} - multiset{p} == multiset{};
    TakeListed(w, p);
    ReleaseHand(w.(messages := Without(w.messages, p)), p, multiset{p}, None);
  }

  lemma RoutedOk(w: World, p: Ptr, refused: set<string>)
    requires Holding(w, multiset{}, None) && p in w.messages && w.store.heap[p].state == HeadersLoaded
    ensures Holding(RouteMessage(w, p, refused), multiset{}, None)
  {
    assert multiset{p} - multiset{p} == multiset{};
    var m := w.store.heap[p];
    var taken := w.(messages := Without(w.messages, p), origin := w.origin[p := m]);
    TakeForRouting(w, p);
    var hosts := DestinationHosts(m.destinations);
    FreshIsRoutable(w, taken, p);
    RouteAllOk(taken, p, hosts, refused, multiset{p});
    ReleaseHand(RouteAll(taken, p, hosts, refused), p, multiset{p}, None);
  }

  lemma FreshIsRoutable(w: World, taken: World, p: Ptr)
    requires Holding(w, multiset{}, None) && p in w.messages && w.store.heap[p].state == HeadersLoaded
    requires taken == w.(messages := Without(w.messages, p), origin := w.origin[p := w.store.heap[p]])
    ensures Routable(taken, p, DestinationHosts(w.store.heap[p].destinations))
  {
    var m := w.store.heap[p];
    var hosts := DestinationHosts(m.destinations);
    assert p !in w.origin && OriginOk(m);
    forall k | 0 <= k < |hosts| ensures HasHost(m.destinations, hosts[k]) && NotYetAt(All(taken), p, hosts[k]) {
      assert m.destinations[k].host == hosts[k];
      forall i | 0 <= i < |All(taken)| ensures p !in All(taken)[i].log.enqueued {
        assert QueueLogOk(All(w)[i], w.store, w.origin);
      }
    }
  }

  // ---------------------------------------------------------------- finalizing

  ghost predicate Releasable(w: World, ps: seq<Ptr>) {
    Distinct(ps) && forall p :: p in ps ==> p in w.store.heap && (p in w.origin || ListedOk(w.store.heap[p]))
  }

  lemma {:induction false} ReleaseAllHand(w: World, ps: seq<Ptr>, hand: multiset<Ptr>)
    requires Holding(w, hand + multiset(ps), None) && Releasable(w, ps)
    ensures Holding(w.(store := ReleaseAll(w.store, ps)), hand, None)
    decreases |ps|
  {
    if ps == [] {
      assert hand + multiset([]) == hand;
    } else {
      var p, rest := ps[0], ps[1..];
      DistinctTail(ps);
      assert ps == [p] + rest;
      var w1 := w.(store := Release(w.store, p));
      assert hand + multiset(ps) - multiset{p} == hand + multiset(rest);
      ReleaseHand(w, p, hand + multiset(ps), None);
      ReleaseEffect(w.store, p);
      assert Releasable(w1, rest);
      ReleaseAllHand(w1, rest, hand);
    }
  }

  /** A session leaves the client's list; the references of its queue are in hand. */
  function Archived(w: World, i: nat): World
    requires i < |w.sessions|
  {
    w.(sessions := w.sessions[..i] + w.sessions[i + 1..], archive := w.archive + [w.sessions[i]])
  }

  /** Where a session stands in `All` before another one is archived. */
  function OldIndex(n: nat, i: nat, total: nat, j: nat): nat
    requires i < n <= total && j < total
  {
    if j < i then j else if j < total - 1 then j + 1 else i
  }

  lemma ArchivedAt(w: World, i: nat, j: nat)
    requires i < |w.sessions| && j < |All(w)|
    ensures |All(Archived(w, i))| == |All(w)|
    ensures All(Archived(w, i))[j] == All(w)[OldIndex(|w.sessions|, i, |All(w)|, j)]
  {
  }

  lemma ArchivedLogs(w: World, i: nat)
    requires i < |w.sessions| && Logs(w)
    ensures Logs(Archived(w, i))
  {
    var w', all, n := Archived(w, i), All(w), |w.sessions|;
    forall j | 0 <= j < |all| ensures All(w')[j] == all[OldIndex(n, i, |all|, j)] && |All(w')| == |all| {
      ArchivedAt(w, i, j);
    }
    forall j, k, p |
      && 0 <= j < k < |all| && All(w')[j].destinationHost == All(w')[k].destinationHost
      && p in All(w')[j].log.enqueued
      ensures p !in All(w')[k].log.enqueued
    {
      var a, b := OldIndex(n, i, |all|, j), OldIndex(n, i, |all|, k);
      assert a != b;
    }
    forall p, h | (p, h) in w.store.delivered ensures Logged(All(w'), p, h) {
      var k :| 0 <= k < |all| && Delivers(all[k], p, h);
      var j := if k < i then k else if k == i then |all| - 1 else k - 1;
      assert OldIndex(n, i, |all|, j) == k;
      assert Delivers(All(w')[j], p, h);
    }
  }

  lemma ArchivedCounted(w: World, i: nat, hand: multiset<Ptr>)
    requires i < |w.sessions| && Counted(w.messages, w.sessions, w.store, hand) && Distinct(w.sessions[i].messages)
    ensures Counted(w.messages, w.sessions[..i] + w.sessions[i + 1..], w.store, hand + multiset(w.sessions[i].messages))
  {
    var a, s, b := w.sessions[..i], w.sessions[i], w.sessions[i + 1..];
    assert w.sessions == a + ([s] + b);
    forall p | p in w.store.heap ensures Holders(w.sessions, p) == Holders(a + b, p) + multiset(s.messages)[p] {
      HoldersConcat(a, [s] + b, p);
      HoldersConcat(a, b, p);
      assert ([s] + b)[1..] == b;
      MultiplicityOfDistinct(s.messages, p);
    }
  }

  lemma {:induction false} MultiplicityOfDistinct(ps: seq<Ptr>, p: Ptr)
    requires Distinct(ps)
    ensures multiset(ps)[p] == InList(ps, p)
  {
    if ps != [] {
      DistinctTail(ps);
      MultiplicityOfDistinct(ps[1..], p);
      assert ps == [ps[0]] + ps[1..];
    }
  }

  lemma ArchivedQueues(w: World, i: nat)
    requires i < |w.sessions| && Queues(w) && Talks(w, None)
    ensures Queues(Archived(w, i)) && Talks(Archived(w, i), None)
  {
    var w' := Archived(w, i);
    assert forall j :: 0 <= j < |w'.sessions| ==> w'.sessions[j] == w.sessions[if j < i then j else j + 1];
  }

  lemma ArchiveOk(w: World, i: nat, hand: multiset<Ptr>)
    requires i < |w.sessions| && Holding(w, hand, None)
    ensures Holding(Archived(w, i), hand + multiset(w.sessions[i].messages), None)
    ensures Releasable(Archived(w, i), w.sessions[i].messages)
  {
    var w' := Archived(w, i);
    assert QueueOk(w.sessions[i], w.store, w.origin);
    ArchivedLogs(w, i);
    ArchivedCounted(w, i, hand);
    ArchivedQueues(w, i);
  }

  /** The client finalizes a closed session. */
  lemma ReapOk(w: World, i: nat)
    requires Holding(w, multiset{}, None) && Enabled(w, Reap(i))
    ensures Holding(Apply(w, Reap(i)), multiset{}, None)
  {
    ArchiveOk(w, i, multiset{});
    ReleaseAllHand(Archived(w, i), w.sessions[i].messages, multiset{});
  }

  /** The world after all sessions have been finalized. */
  function Finalized(w: World): World {
    w.(store := FinalizeAll(w.store, w.sessions), sessions := [], archive := w.archive + w.sessions)
  }

  /** The world after the first session has been finalized. */
  function FirstFinalized(w: World): World
    requires w.sessions != []
  {
    w.(store := ReleaseAll(w.store, w.sessions[0].messages), sessions := w.sessions[1..],
       archive := w.archive + [w.sessions[0]])
  }

  lemma FinalizedIs(w: World)
    requires w.sessions != []
    ensures Finalized(FirstFinalized(w)) == Finalized(w)
  {
    assert w.archive + [w.sessions[0]] + w.sessions[1..] == w.archive + w.sessions;
  }

  lemma FirstFinalizedOk(w: World)
    requires Holding(w, multiset{}, None) && w.sessions != []
    ensures Holding(FirstFinalized(w), multiset{}, None)
  {
    assert w.sessions[..0] + w.sessions[1..] == w.sessions[1..];
    ArchiveOk(w, 0, multiset{});
    ReleaseAllHand(Archived(w, 0), w.sessions[0].messages, multiset{});
  }

  lemma {:induction false} FinalizeAllOk(w: World)
    requires Holding(w, multiset{}, None)
    ensures Holding(Finalized(w), multiset{}, None)
    decreases |w.sessions|
  {
    if w.sessions == [] {
      assert w.archive + [] == w.archive;
      assert Finalized(w) == w;
    } else {
      FirstFinalizedOk(w);
      FinalizeAllOk(FirstFinalized(w));
      FinalizedIs(w);
    }
  }

  /** `client_finalize` gives every message back. */
  lemma ShutdownOk(w: World)
    requires Holding(w, multiset{}, None)
    ensures Holding(Apply(w, Shutdown), multiset{}, None)
    ensures Apply(w, Shutdown).store.heap == map[]
  {
    var w1 := Finalized(w);
    FinalizeAllOk(w);
    var w2 := w1.(messages := []);
    EmptiedList(w1);
    ReleaseAllHand(w2, w.messages, multiset{});
    var w3 := w2.(store := ReleaseAll(w2.store, w.messages));
    HoldingFrame(w3, Apply(w, Shutdown), multiset{}, multiset{}, None);
  }

  lemma EmptiedList(w: World)
    requires Holding(w, multiset{}, None)
    ensures Holding(w.(messages := []), multiset{} + multiset(w.messages), None)
    ensures Releasable(w.(messages := []), w.messages)
  {
    forall p | p in w.store.heap ensures multiset(w.messages)[p] == InList(w.messages, p) {
      MultiplicityOfDistinct(w.messages, p);
    }
    HoldingFrame(w, w.(messages := []), multiset{}, multiset{} + multiset(w.messages), None);
  }
}
