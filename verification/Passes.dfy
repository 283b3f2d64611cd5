/**
 * What one pass of the event loop (client.c, `client_notify`) does to every file, message and session there
 * is, whatever the file system and the network have to say.
 */
module Passes {
  import opened Text
  import opened Recipients
  import opened Messages
  import opened Sessions
  import opened Payload
  import opened Delivery
  import opened DeliveryInvariants
  import DeliveryEvents
  import DeliverySteps
  import opened DeliveryRuns
  import opened DeliveryRouting
  import opened Rounds

  // ---------------------------------------------------------------- messages that wait for their bodies

  predicate InBodyState(state: MessageState) {
    state == LoadingBody || state == BodyLoaded || state == LoadingFailed
  }

  /** What becomes of a message once it has been notified: the state, and the body of a loaded one. */
  datatype Due = Due(state: MessageState, body: string)

  function DueOf(w: World, p: Ptr, loads: map<string, LoadResult>): Due
    requires p in w.store.heap
  {
    var m := w.store.heap[p];
    if m.state == LoadingBody && m.path in loads then
      match loads[m.path]
      case BodyRead(text) => if NoNul(text) then Due(BodyLoaded, text) else Due(LoadingBody, "")
      case LoadFailed => Due(LoadingFailed, "")
      case HeadersRead(_) => Due(LoadingBody, "")
    else Due(m.state, if p in w.store.bodies then w.store.bodies[p] else "")
  }

  /** The message is there, notified or not. */
  ghost predicate Awaits(w: World, p: Ptr, loads: map<string, LoadResult>, due: Due) {
    p in w.store.heap && InBodyState(w.store.heap[p].state) && DueOf(w, p, loads) == due
  }

  /** The message has been notified; it may have been freed since. */
  ghost predicate Done(w: World, p: Ptr, loads: map<string, LoadResult>, due: Due) {
    && p < w.next && InBodyState(due.state)
    && (p in w.store.heap ==> w.store.heap[p].state == due.state && DueOf(w, p, loads) == due)
    && (due.state == BodyLoaded ==> p in w.store.bodies && w.store.bodies[p] == due.body)
  }

  lemma AwaitsShallow(w: World, w': World, p: Ptr, loads: map<string, LoadResult>, due: Due)
    requires Awaits(w, p, loads, due) && Shallow(w.store, w'.store) && p in w'.store.heap
    ensures Awaits(w', p, loads, due)
  {
  }

  lemma DoneShallow(w: World, w': World, p: Ptr, loads: map<string, LoadResult>, due: Due)
    requires Done(w, p, loads, due) && Shallow(w.store, w'.store) && w'.next == w.next
    ensures Done(w', p, loads, due)
  {
  }

  /** What is needed of a state in which something is loaded. */
  ghost predicate Open(w: World) {
    && !w.store.fault && !w.finished
    && forall p :: p in w.store.heap ==> p < w.next && (p in w.store.bodies <==> w.store.heap[p].state == BodyLoaded)
  }

  lemma SoundIsOpen(w: World)
    requires Sound(w)
    ensures Open(w)
  {
  }

  lemma AwaitsLoad(w: World, q: Ptr, p: Ptr, loads: map<string, LoadResult>, due: Due)
    requires Open(w) && Awaits(w, p, loads, due)
    ensures Awaits(LoadStep(w, q, loads), p, loads, due)
    ensures q == p ==> Done(LoadStep(w, q, loads), p, loads, due)
  {
  }

  lemma DoneLoad(w: World, q: Ptr, p: Ptr, loads: map<string, LoadResult>, due: Due)
    requires Open(w) && Done(w, p, loads, due)
    ensures Done(LoadStep(w, q, loads), p, loads, due)
  {
  }

  /** An event of the pass that loads nothing. */
  lemma StepShallow(w: World, e: Event)
    requires Invariant(w) && !e.Discover? && !e.Loaded?
    ensures Shallow(w.store, Step(w, e).store) && Step(w, e).next == w.next
  {
    if !w.finished && Enabled(w, e) {
      ApplyShallow(w, e);
    }
  }

  /** Nothing is loaded, and neither the list nor what has been is touched. */
  ghost predicate Elsewhere(w: World, w': World) {
    && Shallow(w.store, w'.store) && w'.next == w.next && w'.messages == w.messages && w'.origin == w.origin
    && w'.archive == w.archive
  }

  lemma ElsewhereThen(a: World, b: World, c: World)
    requires Elsewhere(a, b) && Elsewhere(b, c)
    ensures Elsewhere(a, c)
  {
    ShallowThen(a.store, b.store, c.store);
  }

  /** An event of one session. */
  lemma SessionEvent(w: World, e: Event)
    requires Invariant(w) && (e.Network? || e.Reply? || e.Collision? || e.BodyPoll?)
    ensures Elsewhere(w, Step(w, e))
  {
    StepShallow(w, e);
    SessionEventFields(w, e);
  }

  lemma SessionEventFields(w: World, e: Event)
    requires e.Network? || e.Reply? || e.Collision? || e.BodyPoll?
    ensures var w' := Step(w, e);
            w'.messages == w.messages && w'.origin == w.origin && w'.archive == w.archive && w'.next == w.next
  {
  }

  lemma {:induction false} PathKeeps(w: World, k: nat, path: seq<SessionState>)
    requires Sound(w)
    ensures Elsewhere(w, NetworkSteps(w, k, path))
    decreases |path|
  {
    if path != [] {
      SoundStep(w, Network(k, path[0]));
      SessionEvent(w, Network(k, path[0]));
      PathKeeps(Step(w, Network(k, path[0])), k, path[1..]);
      ElsewhereThen(w, Step(w, Network(k, path[0])), NetworkSteps(w, k, path));
    }
  }

  /** A session's own step loads nothing, and does not touch the list. */
  lemma OwnKeeps(w: World, s: Session, k: nat, signals: map<string, Signal>)
    requires Sound(w)
    ensures Elsewhere(w, OwnStep(w, s, k, signals))
  {
    if s.state == LoadingMessageBody {
      SessionEvent(w, BodyPoll(k));
    } else if s.destinationHost in signals {
      match signals[s.destinationHost]
      case Changed(path) => PathKeeps(w, k, path);
      case Replied(code) => SessionEvent(w, Reply(k, code));
      case Collided(code) => SessionEvent(w, Collision(k, code));
    }
  }

  lemma HeadKeeps(w: World, k: nat, loads: map<string, LoadResult>)
    requires k < |w.sessions|
    ensures var w' := HeadStep(w, k, loads);
            && w'.sessions == w.sessions && w'.next == w.next && w'.messages == w.messages && w'.origin == w.origin
            && w'.archive == w.archive
  {
  }

  /** The head message of a session is live. */
  lemma HeadIsLive(w: World, j: nat)
    requires Invariant(w) && j < |w.sessions| && w.sessions[j].messages != []
    ensures w.sessions[j].messages[0] in w.store.heap && w.sessions[j].messages[0] in w.origin
  {
    assert QueueOk(w.sessions[j], w.store, w.origin);
    assert w.sessions[j].messages[0] in w.sessions[j].messages;
  }

  /** The turn of another session: the message still waits, or has been notified on the way. */
  lemma OtherVisit(w: World, k: nat, j: nat, loads: map<string, LoadResult>, signals: map<string, Signal>, due: Due)
    requires Sound(w) && k < |w.sessions| && j < |w.sessions| && j != k && w.sessions[j].messages != []
    requires Awaits(w, w.sessions[j].messages[0], loads, due)
    ensures var w' := SessionStep(w, k, loads, signals);
            j < |w'.sessions| && w'.sessions[j] == w.sessions[j] && Awaits(w', w.sessions[j].messages[0], loads, due)
  {
    var p, w1 := w.sessions[j].messages[0], HeadStep(w, k, loads);
    var w' := SessionStep(w, k, loads, signals);
    assert Awaits(w1, p, loads, due) by {
      HeadAwaits(w, k, p, loads, due);
    }
    assert Shallow(w1.store, w'.store) by {
      SoundHead(w, k, loads);
      OwnKeeps(w1, w.sessions[k], k, signals);
    }
    assert w'.sessions[j] == w.sessions[j] by {
      SessionStepOthers(w, k, loads, signals);
    }
    assert p in w'.store.heap by {
      SoundSession(w, k, loads, signals);
      HeadIsLive(w', j);
    }
    AwaitsShallow(w1, w', p, loads, due);
  }

  lemma HeadAwaits(w: World, k: nat, p: Ptr, loads: map<string, LoadResult>, due: Due)
    requires Sound(w) && k < |w.sessions| && Awaits(w, p, loads, due)
    ensures Awaits(HeadStep(w, k, loads), p, loads, due)
    ensures w.sessions[k].messages != [] && w.sessions[k].messages[0] == p ==>
              Done(HeadStep(w, k, loads), p, loads, due)
  {
    SoundIsOpen(w);
    if w.sessions[k].messages != [] {
      AwaitsLoad(w, w.sessions[k].messages[0], p, loads, due);
    }
  }

  lemma HeadDone(w: World, k: nat, p: Ptr, loads: map<string, LoadResult>, due: Due)
    requires Sound(w) && k < |w.sessions| && Done(w, p, loads, due)
    ensures Done(HeadStep(w, k, loads), p, loads, due)
  {
    SoundIsOpen(w);
    if w.sessions[k].messages != [] {
      DoneLoad(w, w.sessions[k].messages[0], p, loads, due);
    }
  }

  /** Once it has been notified, it stays so at every turn. */
  lemma DoneVisit(w: World, k: nat, p: Ptr, loads: map<string, LoadResult>, signals: map<string, Signal>, due: Due)
    requires Sound(w) && k < |w.sessions|
    requires || Done(w, p, loads, due)
             || (w.sessions[k].messages != [] && w.sessions[k].messages[0] == p && Awaits(w, p, loads, due))
    ensures Done(SessionStep(w, k, loads, signals), p, loads, due)
  {
    var w1 := HeadStep(w, k, loads);
    if Done(w, p, loads, due) {
      HeadDone(w, k, p, loads, due);
    } else {
      HeadAwaits(w, k, p, loads, due);
    }
    SoundHead(w, k, loads);
    HeadKeeps(w, k, loads);
    OwnKeeps(w1, w.sessions[k], k, signals);
    DoneShallow(w1, SessionStep(w, k, loads, signals), p, loads, due);
  }

  // ---------------------------------------------------------------- how a session reacts

  predicate Unmoved(s: Session, s': Session) {
    s'.state == s.state && Transcript(s') == Transcript(s)
  }

  predicate Says(s: Session, s': Session, state: SessionState, c: Command) {
    s'.state == state && Transcript(s') == Transcript(s) + [Sent(c)]
  }

  /** The session has heard this code once, and said at most one thing to it; it is closed if it did not expect it. */
  predicate Hears(s: Session, s': Session, code: int) {
    var n := |Transcript(s)|;
    && Transcript(s) + [Got(code)] <= Transcript(s') && |Transcript(s')| <= n + 2
    && (|Transcript(s')| == n + 2 ==> Transcript(s')[n + 1].Sent?)
    && (!Expected(s.state, code) ==> s'.state == Closed && |Transcript(s')| == n + 1)
  }

  /**
   * What a turn does to a session, given the state its head message is in once it has been notified: a session
   * that waits for a body goes on when it is there, or could not be read; one that has been answered hears the
   * code; and resolver, `connect` and socket take it where they lead.
   */
  predicate Reacts(s: Session, head: MessageState, s': Session, signals: map<string, Signal>) {
    && s'.destinationHost == s.destinationHost
    && if s.state == LoadingMessageBody then
         && s.messages != []
         && match head
            case BodyLoaded => Says(s, s', SendingData, Data(s.messages[0]))
            case LoadingFailed => Says(s, s', SendingRset, Rset(s.messages[0]))
            case _ => Unmoved(s, s')
       else if s.destinationHost !in signals then Unmoved(s, s')
       else
         match signals[s.destinationHost]
         case Changed(path) =>
           Transcript(s') == Transcript(s) && (NetworkPath(s.state, path) ==> s'.state == EndOf(s.state, path))
         case Replied(code) =>
           if Exchanging(s.state) && code != -1 then Hears(s, s', code) else Unmoved(s, s')
         case Collided(code) => !(Requesting(s.state) && code != -1) && Unmoved(s, s')
  }

  lemma PollReacts(st: Store, s: Session, signals: map<string, Signal>)
    requires s.state == LoadingMessageBody && s.messages != [] && s.messages[0] in st.heap && s.log.tail == []
    requires InBodyState(st.heap[s.messages[0]].state)
    ensures Reacts(s, st.heap[s.messages[0]].state, DispatchBodyPoll(st, s).session, signals)
  {
    assert s.log.said + [] == s.log.said;
  }

  lemma SayHears(s: Session, s': Session, state: SessionState, c: Command, code: int)
    requires s.log.tail == [] && Expected(s.state, code)
    requires s'.log.said == s.log.said + [Got(code)] + [Sent(c)] && s'.log.tail == []
    ensures Hears(s, s', code)
  {
    assert Transcript(s) == s.log.said;
    assert Transcript(s') == Transcript(s) + [Got(code)] + [Sent(c)];
  }

  lemma ClosedHears(s: Session, code: int)
    requires s.log.tail == []
    ensures Hears(s, ClosedOn(s, code), code)
  {
    assert Transcript(s) == s.log.said && Transcript(ClosedOn(s, code)) == s.log.said + [Got(code)];
  }

  lemma StartHears(st: Store, s: Session, heard: Session, code: int)
    requires s.log.tail == [] && Expected(s.state, code) && !st.fault && !StartTransfer(st, heard).store.fault
    requires heard.log.said == s.log.said + [Got(code)] && heard.log.tail == []
    ensures Hears(s, StartTransfer(st, heard).session, code)
  {
    var c := if heard.messages == [] then Quit else MailFrom(heard.messages[0], st.heap[heard.messages[0]].sender);
    SayHears(s, StartTransfer(st, heard).session, StartTransfer(st, heard).session.state, c, code);
  }

  lemma RecipientHears(helo: string, st: Store, s: Session)
    requires s.state == SendingMailOrRcpt && s.log.tail == [] && !st.fault
    requires !DispatchReply(helo, st, s, 250).store.fault
    ensures Hears(s, DispatchReply(helo, st, s, 250).session, 250)
  {
    var s' := DispatchReply(helo, st, s, 250).session;
    if s.cursor.At? {
      var c := RcptTo(s.cursor.message, UserAt(st, s.cursor).value, s.destinationHost);
      SayHears(s, s', s'.state, c, 250);
    } else {
      var p := s.messages[0];
      assert Transcript(s) == s.log.said;
      if st.heap[p].state == LoadingFailed {
        SayHears(s, s', s'.state, Rset(p), 250);
      } else if st.heap[p].state == BodyLoaded {
        SayHears(s, s', s'.state, Data(p), 250);
      } else {
        assert Transcript(s') == s.log.said + [Got(250)];
      }
    }
  }

  lemma FinishHears(helo: string, st: Store, s: Session)
    requires s.state in {SendingDataPayload, SendingRset} && s.log.tail == [] && !st.fault
    requires !DispatchReply(helo, st, s, 250).store.fault
    ensures Hears(s, DispatchReply(helo, st, s, 250).session, 250)
  {
    var o := FinishTransfer(st, Heard(s, 250), s.state == SendingDataPayload);
    StartHears(o.store, s, o.session, 250);
  }

  lemma DispatchHears(helo: string, st: Store, s: Session, code: int)
    requires Exchanging(s.state) && s.log.tail == [] && !st.fault && !DispatchReply(helo, st, s, code).store.fault
    ensures Hears(s, DispatchReply(helo, st, s, code).session, code)
  {
    if !Expected(s.state, code) {
      ClosedHears(s, code);
    } else {
      var heard, s' := Heard(s, code), DispatchReply(helo, st, s, code).session;
      match s.state
      case ReceivingGreeting => SayHears(s, s', s'.state, if code == 554 then Quit else Helo(helo), code);
      case SendingHelo => StartHears(st, s, heard, code);
      case SendingMailOrRcpt => RecipientHears(helo, st, s);
      case SendingData =>
        var p := s.messages[0];
        SayHears(s, s', s'.state, Content(p, Encode(st.heap[p].headers, st.heap[p].body)), code);
      case _ => FinishHears(helo, st, s);
    }
  }

  lemma {:induction false} PathReacts(w: World, k: nat, path: seq<SessionState>)
    requires Sound(w) && k < |w.sessions| && w.sessions[k].log.tail == []
    ensures var s, w' := w.sessions[k], NetworkSteps(w, k, path);
            && |w'.sessions| == |w.sessions|
            && Transcript(w'.sessions[k]) == Transcript(s) && w'.sessions[k].destinationHost == s.destinationHost
            && (NetworkPath(s.state, path) ==> w'.sessions[k].state == EndOf(s.state, path))
    decreases |path|
  {
    if path != [] {
      SoundStep(w, Network(k, path[0]));
      MoveKeeps(w, k, path[0]);
      PathReacts(Step(w, Network(k, path[0])), k, path[1..]);
    }
  }

  lemma MoveKeeps(w: World, k: nat, state: SessionState)
    requires !w.store.fault && !w.finished && k < |w.sessions| && w.sessions[k].log.tail == []
    ensures var s, w' := w.sessions[k], Step(w, Network(k, state));
            && |w'.sessions| == |w.sessions| && w'.sessions[k].log.tail == []
            && Transcript(w'.sessions[k]) == Transcript(s) && w'.sessions[k].destinationHost == s.destinationHost
            && w'.sessions[k].state == if NetworkEdge(s.state, state) then state else s.state
  {
  }

  /** Before anything has been heard on closing, the tail is empty; an open session has none. */
  lemma OpenHasNoTail(w: World, k: nat)
    requires Invariant(w) && k < |w.sessions|
    ensures w.sessions[k].state != Closed ==> w.sessions[k].log.tail == []
    ensures w.sessions[k].state == LoadingMessageBody ==> w.sessions[k].messages != []
  {
    assert TalkOk(w.sessions[k], w.helo, w.origin, w.store.bodies);
  }

  lemma ClosedStays(w: World, k: nat, path: seq<SessionState>)
    requires k < |w.sessions| && w.sessions[k].state == Closed
    ensures NetworkSteps(w, k, path) == w
    decreases |path|
  {
    if path != [] {
      ClosedStays(w, k, path[1..]);
    }
  }

  /** A session's own step, with its head message in the state it is in. */
  lemma OwnReacts(w: World, k: nat, head: MessageState, signals: map<string, Signal>)
    requires Sound(w) && k < |w.sessions|
    requires w.sessions[k].state == LoadingMessageBody ==>
               && w.sessions[k].messages != [] && w.sessions[k].messages[0] in w.store.heap
               && w.store.heap[w.sessions[k].messages[0]].state == head && InBodyState(head)
    ensures var w' := OwnStep(w, w.sessions[k], k, signals);
            w'.finished || (|w'.sessions| == |w.sessions| && Reacts(w.sessions[k], head, w'.sessions[k], signals))
  {
    var s := w.sessions[k];
    OpenHasNoTail(w, k);
    if s.state == LoadingMessageBody {
      PollTurn(w, k, signals);
    } else if s.destinationHost in signals {
      match signals[s.destinationHost]
      case Changed(path) => PathTurn(w, k, path);
      case Replied(code) => ReplyTurn(w, k, code);
      case Collided(code) => CollisionReacts(w, k, code);
    }
  }

  lemma PollTurn(w: World, k: nat, signals: map<string, Signal>)
    requires !w.store.fault && !w.finished && k < |w.sessions| && w.sessions[k].state == LoadingMessageBody
    requires w.sessions[k].log.tail == [] && w.sessions[k].messages != [] && w.sessions[k].messages[0] in w.store.heap
    requires InBodyState(w.store.heap[w.sessions[k].messages[0]].state)
    ensures var s, w' := w.sessions[k], Step(w, BodyPoll(k));
            && |w'.sessions| == |w.sessions|
            && Reacts(s, w.store.heap[s.messages[0]].state, w'.sessions[k], signals)
  {
    PollReacts(w.store, w.sessions[k], signals);
  }

  lemma PathTurn(w: World, k: nat, path: seq<SessionState>)
    requires Sound(w) && k < |w.sessions|
    ensures var s, w' := w.sessions[k], NetworkSteps(w, k, path);
            && |w'.sessions| == |w.sessions|
            && Transcript(w'.sessions[k]) == Transcript(s) && w'.sessions[k].destinationHost == s.destinationHost
            && (NetworkPath(s.state, path) ==> w'.sessions[k].state == EndOf(s.state, path))
  {
    if w.sessions[k].state == Closed {
      ClosedStays(w, k, path);
    } else {
      OpenHasNoTail(w, k);
      PathReacts(w, k, path);
    }
  }

  lemma ReplyTurn(w: World, k: nat, code: int)
    requires Sound(w) && k < |w.sessions|
    ensures var s, w' := w.sessions[k], Step(w, Reply(k, code));
            && |w'.sessions| == |w.sessions| && w'.sessions[k].destinationHost == s.destinationHost
            && if Exchanging(s.state) && code != -1 then Hears(s, w'.sessions[k], code) else w' == w
  {
    if Exchanging(w.sessions[k].state) && code != -1 {
      OpenHasNoTail(w, k);
      ReplyIsFaultless(w, k, code);
      ReplyIsHeard(w, k, code);
    }
  }

  lemma ReplyIsFaultless(w: World, k: nat, code: int)
    requires Sound(w) && Enabled(w, Reply(k, code))
    ensures !w.store.fault && !DispatchReply(w.helo, w.store, w.sessions[k], code).store.fault
  {
    SoundStep(w, Reply(k, code));
  }

  lemma ReplyIsHeard(w: World, k: nat, code: int)
    requires !w.store.fault && !w.finished && Enabled(w, Reply(k, code)) && w.sessions[k].log.tail == []
    requires !DispatchReply(w.helo, w.store, w.sessions[k], code).store.fault
    ensures var s, w' := w.sessions[k], Step(w, Reply(k, code));
            && |w'.sessions| == |w.sessions| && w'.sessions[k].destinationHost == s.destinationHost
            && Hears(s, w'.sessions[k], code)
  {
    DispatchHears(w.helo, w.store, w.sessions[k], code);
    DispatchLater(w.helo, w.store, w.sessions[k], code);
  }

  lemma CollisionReacts(w: World, k: nat, code: int)
    requires Sound(w) && k < |w.sessions|
    ensures var w' := Step(w, Collision(k, code));
            w'.finished || (w' == w && !(Requesting(w.sessions[k].state) && code != -1))
  {
    if Requesting(w.sessions[k].state) && code != -1 {
      DeliveryEvents.CollisionEnds(w, k, code);
    }
  }

  // ---------------------------------------------------------------- a round over the sessions

  /** The turn of a session, which may load its head message first. */
  lemma VisitReacts(w: World, k: nat, loads: map<string, LoadResult>, signals: map<string, Signal>, due: Due)
    requires Sound(w) && k < |w.sessions|
    requires w.sessions[k].state == LoadingMessageBody ==>
               w.sessions[k].messages != [] && Awaits(w, w.sessions[k].messages[0], loads, due)
    ensures var w' := SessionStep(w, k, loads, signals);
            w'.finished || (|w'.sessions| == |w.sessions| && Reacts(w.sessions[k], due.state, w'.sessions[k], signals))
  {
    var w1 := HeadStep(w, k, loads);
    SoundHead(w, k, loads);
    HeadKeeps(w, k, loads);
    if w.sessions[k].state == LoadingMessageBody {
      HeadAwaits(w, k, w.sessions[k].messages[0], loads, due);
      HeadIsLive(w1, k);
    }
    OwnReacts(w1, k, due.state, signals);
  }

  /** The state that a message is in once it has been notified. */
  function StateDue(m: Message, loads: map<string, LoadResult>): MessageState {
    if m.state == LoadingBody && m.path in loads then
      match loads[m.path]
      case BodyRead(text) => if NoNul(text) then BodyLoaded else LoadingBody
      case LoadFailed => LoadingFailed
      case HeadersRead(_) => LoadingBody
    else m.state
  }

  function TurnState(w: World, k: nat, loads: map<string, LoadResult>): MessageState
    requires k < |w.sessions|
  {
    var ps := w.sessions[k].messages;
    if ps != [] && ps[0] in w.store.heap then StateDue(w.store.heap[ps[0]], loads) else HeadersLoaded
  }

  lemma TurnStateIs(w: World, k: nat, loads: map<string, LoadResult>)
    requires k < |w.sessions| && Ready(w, k, loads, HeadDue(w, k, loads)) && w.sessions[k].state == LoadingMessageBody
    ensures TurnState(w, k, loads) == HeadDue(w, k, loads).state
  {
  }

  /** The turn of a session, with the state that its head message comes to in it. */
  lemma TurnReacts(w: World, k: nat, loads: map<string, LoadResult>, signals: map<string, Signal>)
    requires Sound(w) && k < |w.sessions|
    ensures var s, w' := w.sessions[k], SessionStep(w, k, loads, signals);
            w'.finished || (|w'.sessions| == |w.sessions| && Reacts(s, TurnState(w, k, loads), w'.sessions[k], signals))
  {
    var s := w.sessions[k];
    if s.state == LoadingMessageBody {
      HeadIsReady(w, k, loads);
      TurnStateIs(w, k, loads);
      VisitReacts(w, k, loads, signals, HeadDue(w, k, loads));
    } else {
      VisitReacts(w, k, loads, signals, Due(TurnState(w, k, loads), ""));
    }
  }

  /** And the message has been notified. */
  lemma TurnNotifies(w: World, k: nat, p: Ptr, loads: map<string, LoadResult>, signals: map<string, Signal>)
    requires Sound(w) && k < |w.sessions| && w.sessions[k].messages != [] && w.sessions[k].messages[0] == p
    requires p in w.store.heap && InBodyState(w.store.heap[p].state)
    ensures Done(SessionStep(w, k, loads, signals), p, loads, DueOf(w, p, loads))
  {
    DoneVisit(w, k, p, loads, signals, DueOf(w, p, loads));
  }

  /** What a round leaves alone: the sessions before `k`, those that are gone, and the list. */
  ghost predicate Spared(w: World, k: nat, w': World) {
    && k <= |w.sessions| && k <= |w'.sessions| && w'.sessions[..k] == w.sessions[..k] && w.archive <= w'.archive
    && w'.messages == w.messages && w'.origin == w.origin && w'.next == w.next
  }

  lemma SparedThen(a: World, j: nat, b: World, k: nat, c: World)
    requires Spared(a, j, b) && Spared(b, k, c) && j <= k
    ensures Spared(a, j, c)
  {
    assert b.sessions[..k][..j] == b.sessions[..j] && c.sessions[..k][..j] == c.sessions[..j];
  }

  lemma StepSpares(w: World, k: nat, loads: map<string, LoadResult>, signals: map<string, Signal>)
    requires Sound(w) && k < |w.sessions|
    ensures var w' := SessionStep(w, k, loads, signals);
            Spared(w, k, w') && w'.archive == w.archive && |w'.sessions| == |w.sessions|
  {
    SoundHead(w, k, loads);
    HeadKeeps(w, k, loads);
    OwnKeeps(HeadStep(w, k, loads), w.sessions[k], k, signals);
    SessionStepOthers(w, k, loads, signals);
  }

  lemma ReapSpares(w: World, k: nat)
    requires Sound(w) && IsClosed(w, k)
    ensures var w' := Step(w, Reap(k));
            && Spared(w, k, w') && w'.archive == w.archive + [w.sessions[k]]
            && w'.sessions == w.sessions[..k] + w.sessions[k + 1..] && Shallow(w.store, w'.store)
  {
    StepShallow(w, Reap(k));
  }

  /** One visit, and where the round goes on. */
  lemma Visits(w: World, k: nat, loads: map<string, LoadResult>, signals: map<string, Signal>)
    returns (w': World, next: nat)
    requires Sound(w) && k < |w.sessions|
    ensures Visited(w, k, loads, signals, w', next) && Spared(w, k, w') && k <= next <= |w'.sessions|
    ensures if w'.finished then w'.aborted else Sound(w') && |w'.sessions| - next == |w.sessions| - k - 1
  {
    var w1 := SessionStep(w, k, loads, signals);
    SoundSession(w, k, loads, signals);
    StepSpares(w, k, loads, signals);
    w', next := w1, k;
    if !w1.finished {
      if IsClosed(w1, k) {
        w' := Step(w1, Reap(k));
        SoundStep(w1, Reap(k));
        ReapSpares(w1, k);
        SparedThen(w, k, w1, k, w');
      } else {
        next := k + 1;
      }
    }
  }

  lemma {:induction false} RoundSpares(w: World, k: nat, n: nat, loads: map<string, LoadResult>,
          signals: map<string, Signal>, after: World)
    requires Sound(w) && k <= |w.sessions| && n == |w.sessions| - k
    requires after == SessionRound(w, k, n, loads, signals)
    ensures Spared(w, k, after)
    decreases n
  {
    if n == 0 {
      RoundIsOver(w, k, n, loads, signals);
    } else {
      var w', next := Visits(w, k, loads, signals);
      var left := RoundGoesOn(w, k, n, loads, signals, w', next, after);
      if w'.finished {
        RoundIsOver(w', next, left, loads, signals);
      } else {
        RoundSpares(w', next, left, loads, signals, after);
        SparedThen(w, k, w', next, after);
      }
    }
  }

  /** One visit to a message that has been notified. */
  lemma VisitDone(w: World, k: nat, loads: map<string, LoadResult>, signals: map<string, Signal>, w': World, next: nat,
          p: Ptr, due: Due)
    requires Sound(w) && k < |w.sessions| && Visited(w, k, loads, signals, w', next)
    requires || Done(w, p, loads, due)
             || (w.sessions[k].messages != [] && w.sessions[k].messages[0] == p && Awaits(w, p, loads, due))
    ensures Done(w', p, loads, due)
  {
    var w1 := SessionStep(w, k, loads, signals);
    DoneVisit(w, k, p, loads, signals, due);
    SoundSession(w, k, loads, signals);
    if !w1.finished && IsClosed(w1, k) {
      ReapSpares(w1, k);
      DoneShallow(w1, w', p, loads, due);
    }
  }

  lemma {:induction false} RoundDone(w: World, k: nat, n: nat, loads: map<string, LoadResult>,
          signals: map<string, Signal>, after: World, p: Ptr, due: Due)
    requires Sound(w) && k <= |w.sessions| && n == |w.sessions| - k && Done(w, p, loads, due)
    requires after == SessionRound(w, k, n, loads, signals)
    ensures Done(after, p, loads, due)
    decreases n
  {
    if n == 0 {
      RoundIsOver(w, k, n, loads, signals);
    } else {
      var w', next := Visits(w, k, loads, signals);
      VisitDone(w, k, loads, signals, w', next, p, due);
      var left := RoundGoesOn(w, k, n, loads, signals, w', next, after);
      if w'.finished {
        RoundIsOver(w', next, left, loads, signals);
      } else {
        RoundDone(w', next, left, loads, signals, after, p, due);
      }
    }
  }

  /** Another session only moves up when this one is finalized. */
  lemma OtherLeft(w: World, k: nat, w': World, next: nat, j: nat, i: nat)
    requires Sound(w) && Left(w, k, w', next) && k < j < |w.sessions| && i + k + 1 == j + next
    ensures i < |w'.sessions| && w'.sessions[i] == w.sessions[j]
  {
    if IsClosed(w, k) {
      ReapSpares(w, k);
    }
  }

  lemma AwaitsLeft(w: World, k: nat, w': World, next: nat, p: Ptr, loads: map<string, LoadResult>, due: Due)
    requires Sound(w) && Left(w, k, w', next) && Awaits(w, p, loads, due) && p in w'.store.heap
    ensures Awaits(w', p, loads, due)
  {
    if IsClosed(w, k) {
      ReapSpares(w, k);
      AwaitsShallow(w, w', p, loads, due);
    }
  }

  /** The message at the head of the queue, if it waits for its body or has it, waits for its turn. */
  ghost predicate Ready(w: World, j: nat, loads: map<string, LoadResult>, due: Due) {
    && j < |w.sessions|
    && (w.sessions[j].state == LoadingMessageBody ==> InBodyState(due.state))
    && (InBodyState(due.state) ==> w.sessions[j].messages != [] && Awaits(w, w.sessions[j].messages[0], loads, due))
  }

  /** The session has had its turn, and is still in the list if it is not closed. */
  ghost predicate HasTurned(s: Session, head: MessageState, gone: nat, after: World, signals: map<string, Signal>) {
    exists s' ::
      && Reacts(s, head, s', signals) && gone <= |after.archive|
      && if s'.state == Closed then s' in after.archive[gone..] else s' in after.sessions
  }

  /** And the message at the head of its queue has been notified. */
  ghost predicate Served(s: Session, gone: nat, loads: map<string, LoadResult>, due: Due, after: World,
          signals: map<string, Signal>) {
    && HasTurned(s, due.state, gone, after, signals)
    && (InBodyState(due.state) ==> s.messages != [] && Done(after, s.messages[0], loads, due))
  }

  lemma OtherIsReady(w: World, k: nat, j: nat, loads: map<string, LoadResult>, signals: map<string, Signal>,
          w': World, next: nat, i: nat, due: Due)
    requires Sound(w) && k < j && Ready(w, j, loads, due) && Visited(w, k, loads, signals, w', next) && Sound(w')
    requires i + k + 1 == j + next
    ensures Ready(w', i, loads, due) && w'.sessions[i] == w.sessions[j]
  {
    var w1, s := SessionStep(w, k, loads, signals), w.sessions[j];
    StepIsSound(w, k, loads, signals, w', next);
    SessionStepOthers(w, k, loads, signals);
    OtherLeft(w1, k, w', next, j, i);
    if InBodyState(due.state) {
      OtherVisit(w, k, j, loads, signals, due);
      HeadIsLive(w', i);
      AwaitsLeft(w1, k, w', next, s.messages[0], loads, due);
    }
  }

  lemma StepIsSound(w: World, k: nat, loads: map<string, LoadResult>, signals: map<string, Signal>,
          w': World, next: nat)
    requires Sound(w) && k < |w.sessions| && Visited(w, k, loads, signals, w', next) && Sound(w')
    ensures Sound(SessionStep(w, k, loads, signals))
  {
    SoundSession(w, k, loads, signals);
  }

  /** After the turn the session stays where the rest of the round does not come. */
  lemma LeftTurned(w: World, k: nat, w': World, next: nat, after: World, s: Session, head: MessageState,
          signals: map<string, Signal>)
    requires Sound(w) && k < |w.sessions| && Left(w, k, w', next) && Spared(w', next, after)
    requires Reacts(s, head, w.sessions[k], signals)
    ensures HasTurned(s, head, |w.archive|, after, signals)
  {
    var s' := w.sessions[k];
    if IsClosed(w, k) {
      ReapSpares(w, k);
      assert w'.archive[|w.archive|] == s' && after.archive[|w.archive|] == s';
      assert s' in after.archive[|w.archive|..];
    } else {
      assert after.sessions[..next][k] == s';
    }
  }

  lemma OwnIsServed(w: World, k: nat, loads: map<string, LoadResult>, signals: map<string, Signal>,
          w': World, next: nat, left: nat, after: World, due: Due)
    requires Sound(w) && Ready(w, k, loads, due) && Visited(w, k, loads, signals, w', next) && Sound(w')
    requires next <= |w'.sessions| && left == |w'.sessions| - next
    requires after == SessionRound(w', next, left, loads, signals)
    ensures Served(w.sessions[k], |w.archive|, loads, due, after, signals)
  {
    var w1, s := SessionStep(w, k, loads, signals), w.sessions[k];
    StepIsSound(w, k, loads, signals, w', next);
    VisitReacts(w, k, loads, signals, due);
    StepSpares(w, k, loads, signals);
    RoundSpares(w', next, left, loads, signals, after);
    LeftTurned(w1, k, w', next, after, s, due.state, signals);
    if InBodyState(due.state) {
      VisitDone(w, k, loads, signals, w', next, s.messages[0], due);
      RoundDone(w', next, left, loads, signals, after, s.messages[0], due);
    }
  }

  lemma TurnedBefore(s: Session, head: MessageState, a: nat, b: nat, after: World, signals: map<string, Signal>)
    requires HasTurned(s, head, b, after, signals) && a <= b
    ensures HasTurned(s, head, a, after, signals)
  {
    var s' :|
      && Reacts(s, head, s', signals) && b <= |after.archive|
      && if s'.state == Closed then s' in after.archive[b..] else s' in after.sessions;
    assert after.archive[a..][b - a..] == after.archive[b..];
  }

  /**
   * A round over all sessions, unless the assertion ends it: each session has had exactly its turn, and the
   * message at the head of its queue has been notified.
   */
  lemma {:induction false} RoundServes(w: World, k: nat, n: nat, loads: map<string, LoadResult>,
          signals: map<string, Signal>, after: World, j: nat, due: Due)
    requires Sound(w) && k <= j && n == |w.sessions| - k && Ready(w, j, loads, due)
    requires after == SessionRound(w, k, n, loads, signals)
    ensures after.aborted || Served(w.sessions[j], |w.archive|, loads, due, after, signals)
    decreases n
  {
    var w', next := Visits(w, k, loads, signals);
    var left := RoundGoesOn(w, k, n, loads, signals, w', next, after);
    if w'.finished {
      RoundIsOver(w', next, left, loads, signals);
    } else if j == k {
      OwnIsServed(w, k, loads, signals, w', next, left, after, due);
    } else {
      var i := j + next - k - 1;
      OtherIsReady(w, k, j, loads, signals, w', next, i, due);
      RoundServes(w', next, left, loads, signals, after, i, due);
      if !after.aborted {
        TurnedBefore(w.sessions[j], due.state, |w.archive|, |w'.archive|, after, signals);
      }
    }
  }

  // ---------------------------------------------------------------- messages of the list

  /** What becomes of a message of the list: it stays, or it is given up, or its headers are known and it is routed. */
  datatype Fate = Kept | Dropped | Routed(message: Message)

  function FateOf(m: Message, loads: map<string, LoadResult>): Fate {
    if m.state == HeadersLoaded then Routed(m)
    else if m.state != LoadingHeaders then Dropped
    else if m.path !in loads then Kept
    else
      match loads[m.path]
      case LoadFailed => Dropped
      case BodyRead(_) => Kept
      case HeadersRead(block) =>
        if !NoNul(block) then Kept
        else if Parse(block).state != HeadersLoaded then Dropped
        else Routed(WithHeaders(m, block))
  }

  function WithHeaders(m: Message, block: string): Message {
    var e := Parse(block).envelope;
    m.(state := HeadersLoaded, block := block, sender := e.sender, headers := e.headers,
       destinations := e.destinations)
  }

  ghost predicate Fated(w: World, p: Ptr, fate: Fate) {
    && p < w.next
    && match fate
       case Kept => p in w.messages && p in w.store.heap && w.store.heap[p].state == LoadingHeaders
       case Dropped => p !in w.messages && p !in w.store.heap && p !in w.origin
       case Routed(m) => p !in w.messages && p in w.origin && w.origin[p] == m
  }

  /** The client's list as an event changes it. */
  lemma ListAfter(w: World, e: Event)
    requires Invariant(w) && !w.finished && Enabled(w, e) && e != Shutdown
    ensures var w' := Apply(w, e);
            forall q :: q in w'.messages <==>
              if e.Discover? then q in w.messages || q == w.next
              else if e.Route? && w.store.heap[e.message].state != LoadingHeaders then q in w.messages && q != e.message
              else q in w.messages
  {
    if e.Route? {
      ListAfterRoute(w, e.message, e.refused);
    }
  }

  lemma ListAfterRoute(w: World, p: Ptr, refused: set<string>)
    requires p in w.store.heap && Distinct(w.messages)
    requires w.store.heap[p].state in {LoadingHeaders, HeadersLoaded, LoadingFailed}
    ensures forall q :: q in RouteMessage(w, p, refused).messages <==>
              q in w.messages && (q != p || w.store.heap[p].state == LoadingHeaders)
  {
    DeliverySteps.WithoutIs(w.messages, p);
    if w.store.heap[p].state == HeadersLoaded {
      var taken := w.(messages := Without(w.messages, p), origin := w.origin[p := w.store.heap[p]]);
      RouteAllKeeps(taken, p, DestinationHosts(w.store.heap[p].destinations), refused);
    }
  }

  lemma FatedLoaded(w: World, q: Ptr, r: LoadResult, p: Ptr, fate: Fate)
    requires Fated(w, p, fate) && q in w.store.heap && (fate.Kept? ==> q != p)
    ensures Fated(w.(store := Load(w.store, q, r)), p, fate)
  {
  }

  /** The fate of a message is not changed by anything that happens to others. */
  lemma FatedStep(w: World, e: Event, p: Ptr, fate: Fate)
    requires Invariant(w) && Fated(w, p, fate) && e != Shutdown
    requires fate.Kept? && (e.Loaded? || e.Route?) ==> e.message != p
    ensures Fated(Step(w, e), p, fate)
  {
    if !w.finished && Enabled(w, e) {
      if e.Loaded? {
        FatedLoaded(w, e.message, e.result, p, fate);
      } else if e.Discover? {
        assert p != w.next;
      } else {
        ApplyShallow(w, e);
        FatedApply(w, e, p, fate);
      }
    }
  }

  lemma FatedApply(w: World, e: Event, p: Ptr, fate: Fate)
    requires Invariant(w) && !w.finished && Enabled(w, e) && Fated(w, p, fate) && e != Shutdown
    requires !e.Loaded? && !e.Discover? && (fate.Kept? && e.Route? ==> e.message != p)
    requires Shallow(w.store, Apply(w, e).store) && Apply(w, e).next == w.next
    ensures Fated(Apply(w, e), p, fate)
  {
    var w' := Apply(w, e);
    ListAfter(w, e);
    OriginGrows(w, e);
    if fate.Kept? {
      assert p in w'.store.heap by {
        StepKeepsInvariant(w, e);
      }
    } else if fate.Routed? {
      OriginStays(w, e, p);
    }
  }

  lemma OriginStays(w: World, e: Event, p: Ptr)
    requires Invariant(w) && !w.finished && Enabled(w, e) && p in w.origin
    ensures p in Apply(w, e).origin && Apply(w, e).origin[p] == w.origin[p]
  {
    if e.Route? {
      assert e.message !in w.origin;
      RoutedOrigin(w, e.message, e.refused);
    }
  }

  /** A message that nothing holds and that has not been routed has been freed. */
  lemma NotHeld(w: World, p: Ptr)
    requires Invariant(w) && p !in w.messages && p !in w.origin
    ensures p !in w.store.heap
  {
    if p in w.store.heap {
      forall i | 0 <= i < |w.sessions| ensures p !in w.sessions[i].messages {
        assert QueueOk(w.sessions[i], w.store, w.origin);
      }
      DeliverySteps.HoldersZero(w.sessions, p);
      assert false;
    }
  }

  /** A message whose body has been asked for has been routed. */
  lemma BodyIsRouted(w: World, p: Ptr)
    requires Invariant(w) && p in w.store.heap && InBodyState(w.store.heap[p].state) && p !in w.messages
    ensures p in w.origin
  {
    if p !in w.origin {
      NotHeld(w, p);
    }
  }

  lemma SoundLoad(w: World, p: Ptr, loads: map<string, LoadResult>)
    requires Sound(w)
    ensures Sound(LoadStep(w, p, loads))
  {
    if p in w.store.heap && w.store.heap[p].path in loads {
      SoundStep(w, Loaded(p, loads[w.store.heap[p].path]));
    }
  }

  /** The message as it is when the client looks at it. */
  lemma LoadedFate(w: World, p: Ptr, loads: map<string, LoadResult>)
    requires !w.store.fault && !w.finished && p in w.store.heap
    requires w.store.heap[p].state in {LoadingHeaders, HeadersLoaded, LoadingFailed}
    ensures var w1 := LoadStep(w, p, loads);
            && p in w1.store.heap && w1.messages == w.messages && w1.origin == w.origin && w1.next == w.next
            && match FateOf(w.store.heap[p], loads)
               case Kept => w1 == w && w.store.heap[p].state == LoadingHeaders
               case Dropped => w1.store.heap[p].state == LoadingFailed
               case Routed(m) => w1.store.heap[p] == m && m.state == HeadersLoaded
  {
  }

  /** The client's look at a message of its list decides its fate. */
  lemma OwnFate(w: World, p: Ptr, loads: map<string, LoadResult>, refused: set<string>)
    requires Sound(w) && p in w.messages && p in w.store.heap
    ensures Fated(Step(LoadStep(w, p, loads), Route(p, refused)), p, FateOf(w.store.heap[p], loads))
  {
    var w1 := LoadStep(w, p, loads);
    var w' := Step(w1, Route(p, refused));
    assert ListedOk(w.store.heap[p]) && p !in w.origin && p < w.next;
    LoadedFate(w, p, loads);
    SoundLoad(w, p, loads);
    SoundStep(w1, Route(p, refused));
    StepShallow(w1, Route(p, refused));
    ListAfterRoute(w1, p, refused);
    RoutedOrigin(w1, p, refused);
    match FateOf(w.store.heap[p], loads)
    case Kept =>
    case Dropped => NotHeld(w', p);
    case Routed(_) =>
  }

  /** The other messages of the list stay as they are. */
  lemma OthersStay(w: World, q: Ptr, loads: map<string, LoadResult>, refused: set<string>, p: Ptr)
    requires Sound(w) && q in w.messages && p in w.messages && p != q
    ensures var w' := Step(LoadStep(w, q, loads), Route(q, refused));
            p in w'.messages && p in w'.store.heap && w'.store.heap[p] == w.store.heap[p]
  {
    ListIsLive(w, q);
    ListIsLive(w, p);
    LoadLeaves(w, q, loads, p);
    SoundLoad(w, q, loads);
    LookLeaves(LoadStep(w, q, loads), q, refused, p);
  }

  lemma ListIsLive(w: World, p: Ptr)
    requires Invariant(w) && p in w.messages
    ensures p in w.store.heap && Distinct(w.messages) && ListedOk(w.store.heap[p])
  {
  }

  lemma LoadLeaves(w: World, q: Ptr, loads: map<string, LoadResult>, p: Ptr)
    requires p in w.store.heap && p != q
    ensures var w' := LoadStep(w, q, loads);
            w'.messages == w.messages && p in w'.store.heap && w'.store.heap[p] == w.store.heap[p]
  {
  }

  lemma LookLeaves(w: World, q: Ptr, refused: set<string>, p: Ptr)
    requires Sound(w) && q in w.messages && p in w.messages && p in w.store.heap && p != q
    ensures var w' := Step(w, Route(q, refused));
            p in w'.messages && p in w'.store.heap && w'.store.heap[p] == w.store.heap[p]
  {
    ListIsLive(w, q);
    ListAfterRoute(w, q, refused);
    RouteLeaves(w, q, refused, p);
  }

  lemma RouteLeaves(w: World, q: Ptr, refused: set<string>, p: Ptr)
    requires q in w.store.heap && p in w.store.heap && p != q
    ensures var w' := RouteMessage(w, q, refused); p in w'.store.heap && w'.store.heap[p] == w.store.heap[p]
  {
    if w.store.heap[q].state == HeadersLoaded {
      var taken := w.(messages := Without(w.messages, q), origin := w.origin[q := w.store.heap[q]]);
      RouteAllLeaves(taken, q, DestinationHosts(w.store.heap[q].destinations), refused, p);
    }
  }

  lemma {:induction false} RouteAllLeaves(w: World, q: Ptr, hosts: seq<string>, refused: set<string>, p: Ptr)
    requires p in w.store.heap && p != q
    ensures var w' := RouteAll(w, q, hosts, refused); p in w'.store.heap && w'.store.heap[p] == w.store.heap[p]
    decreases |hosts|
  {
    if hosts != [] {
      RouteAllLeaves(RouteTo(w, q, hosts[0], hosts[0] in refused), q, hosts[1..], refused, p);
    }
  }

  lemma LookIsSound(w: World, q: Ptr, loads: map<string, LoadResult>, refused: set<string>)
    requires Sound(w)
    ensures Sound(Step(LoadStep(w, q, loads), Route(q, refused)))
  {
    SoundLoad(w, q, loads);
    SoundStep(LoadStep(w, q, loads), Route(q, refused));
  }

  lemma LookFated(w: World, q: Ptr, loads: map<string, LoadResult>, refused: set<string>, p: Ptr, fate: Fate)
    requires Sound(w) && p != q && Fated(w, p, fate)
    ensures Fated(Step(LoadStep(w, q, loads), Route(q, refused)), p, fate)
  {
    SoundLoad(w, q, loads);
    if q in w.store.heap && w.store.heap[q].path in loads {
      FatedStep(w, Loaded(q, loads[w.store.heap[q].path]), p, fate);
    }
    FatedStep(LoadStep(w, q, loads), Route(q, refused), p, fate);
  }

  lemma {:induction false} RestFated(w: World, ps: seq<Ptr>, loads: map<string, LoadResult>, refused: set<string>,
          p: Ptr, fate: Fate)
    requires Sound(w) && p !in ps && Fated(w, p, fate)
    ensures Fated(MessageRound(w, ps, loads, refused), p, fate)
    decreases |ps|
  {
    if ps != [] {
      LookIsSound(w, ps[0], loads, refused);
      LookFated(w, ps[0], loads, refused, p, fate);
      RestFated(Step(LoadStep(w, ps[0], loads), Route(ps[0], refused)), ps[1..], loads, refused, p, fate);
    }
  }

  lemma RestIsListed(w: World, ps: seq<Ptr>, loads: map<string, LoadResult>, refused: set<string>)
    requires Sound(w) && Distinct(ps) && ps != [] && forall q :: q in ps ==> q in w.messages
    ensures forall q :: q in ps[1..] ==> q in Step(LoadStep(w, ps[0], loads), Route(ps[0], refused)).messages
  {
    forall q | q in ps[1..] ensures q in Step(LoadStep(w, ps[0], loads), Route(ps[0], refused)).messages {
      var i :| 0 <= i < |ps| - 1 && ps[1..][i] == q;
      assert ps[i + 1] == q && ps[0] in ps;
      OthersStay(w, ps[0], loads, refused, q);
    }
  }

  /** Every message of the list meets its fate. */
  lemma {:induction false} ListFates(w: World, ps: seq<Ptr>, loads: map<string, LoadResult>, refused: set<string>,
          p: Ptr, fate: Fate)
    requires Sound(w) && Distinct(ps) && p in ps && forall q :: q in ps ==> q in w.messages
    requires p in w.store.heap && fate == FateOf(w.store.heap[p], loads)
    ensures Fated(MessageRound(w, ps, loads, refused), p, fate)
    decreases |ps|
  {
    var w1 := Step(LoadStep(w, ps[0], loads), Route(ps[0], refused));
    LookIsSound(w, ps[0], loads, refused);
    DeliverySteps.DistinctTail(ps);
    if p == ps[0] {
      OwnFate(w, p, loads, refused);
      RestFated(w1, ps[1..], loads, refused, p, fate);
    } else {
      OthersStay(w, ps[0], loads, refused, p);
      RestIsListed(w, ps, loads, refused);
      assert p in ps[1..];
      ListFates(w1, ps[1..], loads, refused, p, fate);
    }
  }

  // ---------------------------------------------------------------- sessions while the list is looked at

  /** More messages may have joined the queue. */
  predicate Extended(s: Session, s': Session) {
    && s.messages <= s'.messages
    && s' == s.(messages := s'.messages, log := s.log.(enqueued := s'.log.enqueued))
  }

  lemma ExtendedTwice(a: Session, b: Session, c: Session)
    requires Extended(a, b) && Extended(b, c)
    ensures Extended(a, c)
  {
  }

  /** Where the session stands after a message has been routed. */
  lemma RouteExtends(w: World, q: Ptr, refused: set<string>, j: nat) returns (i: nat)
    requires Sound(w) && j < |w.sessions|
    ensures var w' := Step(w, Route(q, refused)); i < |w'.sessions| && Extended(w.sessions[j], w'.sessions[i])
  {
    i := j;
    if q in w.messages {
      ListIsLive(w, q);
      if w.store.heap[q].state == HeadersLoaded {
        RouteGivesExactly(w, q, refused);
        i := GivenStands(w, Step(w, Route(q, refused)), q, DestinationHosts(w.store.heap[q].destinations), refused, j);
      }
    }
  }

  lemma GivenStands(w: World, w': World, q: Ptr, hosts: seq<string>, refused: set<string>, j: nat) returns (i: nat)
    requires Invariant(w) && j < |w.sessions| && GivenTo(w.sessions, w'.sessions, q, hosts, refused)
    ensures i < |w'.sessions| && Extended(w.sessions[j], w'.sessions[i])
  {
    var host := w.sessions[j].destinationHost;
    FoundAt(w.sessions, j);
    i := FindSession(w'.sessions, host);
    assert Known(w.sessions, host) && Known(w'.sessions, host);
    assert SessionFor(w.sessions, host, refused) == w.sessions[j];
    assert SessionFor(w'.sessions, host, refused) == w'.sessions[i];
  }

  lemma LookReady(w: World, q: Ptr, loads: map<string, LoadResult>, refused: set<string>, j: nat, due: Due)
    returns (i: nat)
    requires Sound(w) && Ready(w, j, loads, due)
    ensures var w' := Step(LoadStep(w, q, loads), Route(q, refused));
            Ready(w', i, loads, due) && Extended(w.sessions[j], w'.sessions[i])
  {
    var w1, s := LoadStep(w, q, loads), w.sessions[j];
    var w' := Step(w1, Route(q, refused));
    SoundLoad(w, q, loads);
    assert w1.sessions == w.sessions;
    i := RouteExtends(w1, q, refused, j);
    if InBodyState(due.state) {
      SoundIsOpen(w);
      AwaitsLoad(w, q, s.messages[0], loads, due);
      LookIsSound(w, q, loads, refused);
      HeadIsLive(w', i);
      StepShallow(w1, Route(q, refused));
      AwaitsShallow(w1, w', s.messages[0], loads, due);
    }
  }

  lemma {:induction false} ListReady(w: World, ps: seq<Ptr>, loads: map<string, LoadResult>, refused: set<string>,
          j: nat, due: Due)
    returns (i: nat)
    requires Sound(w) && Ready(w, j, loads, due)
    ensures var w' := MessageRound(w, ps, loads, refused);
            Sound(w') && Ready(w', i, loads, due) && Extended(w.sessions[j], w'.sessions[i])
    decreases |ps|
  {
    if ps == [] {
      i := j;
    } else {
      var w1 := Step(LoadStep(w, ps[0], loads), Route(ps[0], refused));
      LookIsSound(w, ps[0], loads, refused);
      var k := LookReady(w, ps[0], loads, refused, j, due);
      i := ListReady(w1, ps[1..], loads, refused, k, due);
      ExtendedTwice(w.sessions[j], w1.sessions[k], MessageRound(w, ps, loads, refused).sessions[i]);
    }
  }

  lemma {:induction false} ListIsSound(w: World, ps: seq<Ptr>, loads: map<string, LoadResult>, refused: set<string>)
    requires Sound(w)
    ensures var w' := MessageRound(w, ps, loads, refused);
            Sound(w') && w'.next == w.next && w'.archive == w.archive
    decreases |ps|
  {
    if ps != [] {
      LookIsSound(w, ps[0], loads, refused);
      LookKeeps(w, ps[0], loads, refused);
      ListIsSound(Step(LoadStep(w, ps[0], loads), Route(ps[0], refused)), ps[1..], loads, refused);
    }
  }

  lemma LookKeeps(w: World, q: Ptr, loads: map<string, LoadResult>, refused: set<string>)
    ensures var w' := Step(LoadStep(w, q, loads), Route(q, refused));
            w'.next == w.next && w'.archive == w.archive
  {
    var w1 := LoadStep(w, q, loads);
    if q in w1.store.heap && w1.store.heap[q].state == HeadersLoaded {
      var taken := w1.(messages := Without(w1.messages, q), origin := w1.origin[q := w1.store.heap[q]]);
      RouteAllKeeps(taken, q, DestinationHosts(w1.store.heap[q].destinations), refused);
    }
  }

  /** What a session does after more messages have joined its queue. */
  lemma ServedBefore(s: Session, s': Session, gone: nat, loads: map<string, LoadResult>, due: Due, after: World,
          signals: map<string, Signal>)
    requires Extended(s, s') && Served(s', gone, loads, due, after, signals)
    requires InBodyState(due.state) ==> s.messages != []
    requires s.state == LoadingMessageBody ==> s.messages != []
    ensures Served(s, gone, loads, due, after, signals)
  {
    var t :|
      && Reacts(s', due.state, t, signals) && gone <= |after.archive|
      && if t.state == Closed then t in after.archive[gone..] else t in after.sessions;
    assert Transcript(s) == Transcript(s');
    assert Reacts(s, due.state, t, signals);
  }

  // ---------------------------------------------------------------- new files

  function NewMessage(path: string): Message {
    Message(LoadingHeaders, path, "", "", [], [], "", 1)
  }

  /** The files have been found, in this order; each waits for its headers at the end of the list. */
  ghost predicate Found(w: World, paths: seq<string>, w': World) {
    && w' == w.(next := w'.next, messages := w'.messages, store := w.store.(heap := w'.store.heap))
    && w'.next == w.next + |paths|
    && w'.messages == w.messages + seq(|paths|, i requires 0 <= i < |paths| => w.next + i)
    && (forall p :: p in w'.store.heap <==> p in w.store.heap || w.next <= p < w'.next)
    && (forall p :: p in w.store.heap && p < w.next ==> w'.store.heap[p] == w.store.heap[p])
    && forall i :: 0 <= i < |paths| ==> w'.store.heap[w.next + i] == NewMessage(paths[i])
  }

  lemma {:induction false} DiscoverRoundFinds(w: World, paths: seq<string>)
    requires Sound(w)
    ensures Found(w, paths, DiscoverRound(w, paths)) && Sound(DiscoverRound(w, paths))
    decreases |paths|
  {
    if paths != [] {
      var w1 := Step(w, Discover(paths[0]));
      SoundStep(w, Discover(paths[0]));
      assert w1 == Apply(w, Discover(paths[0])) && Open(w) by {
        SoundIsOpen(w);
      }
      DiscoverRoundFinds(w1, paths[1..]);
      FoundMore(w, w1, paths, DiscoverRound(w, paths));
    } else {
      assert w.messages + [] == w.messages;
    }
  }

  lemma FoundMore(w: World, w1: World, paths: seq<string>, w': World)
    requires paths != [] && w1 == Apply(w, Discover(paths[0])) && Found(w1, paths[1..], w') && w.next !in w.store.heap
    ensures Found(w, paths, w')
  {
    var more := seq(|paths|, i requires 0 <= i < |paths| => w.next + i);
    var rest := seq(|paths| - 1, i requires 0 <= i < |paths| - 1 => w1.next + i);
    assert more == [w.next] + rest;
    assert w.messages + more == w1.messages + rest;
    forall i | 0 <= i < |paths| ensures w'.store.heap[w.next + i] == NewMessage(paths[i]) {
      if i > 0 {
        assert w'.store.heap[w1.next + (i - 1)] == NewMessage(paths[1..][i - 1]);
      }
    }
  }

  // ---------------------------------------------------------------- a pass

  lemma FatedShallow(w: World, w': World, p: Ptr, fate: Fate)
    requires Fated(w, p, fate) && Shallow(w.store, w'.store) && Invariant(w')
    requires w'.messages == w.messages && w'.origin == w.origin && w'.next == w.next
    ensures Fated(w', p, fate)
  {
  }

  lemma HeadFated(w: World, k: nat, loads: map<string, LoadResult>, p: Ptr, fate: Fate)
    requires Sound(w) && k < |w.sessions| && Fated(w, p, fate)
    ensures Fated(HeadStep(w, k, loads), p, fate)
  {
    if w.sessions[k].messages != [] {
      HeadIsLive(w, k);
      var q := w.sessions[k].messages[0];
      if w.store.heap[q].path in loads {
        FatedStep(w, Loaded(q, loads[w.store.heap[q].path]), p, fate);
      }
    }
  }

  lemma VisitFated(w: World, k: nat, loads: map<string, LoadResult>, signals: map<string, Signal>, w': World, next: nat,
          p: Ptr, fate: Fate)
    requires Sound(w) && k < |w.sessions| && Visited(w, k, loads, signals, w', next) && Fated(w, p, fate)
    ensures Fated(w', p, fate)
  {
    var w0, w1 := HeadStep(w, k, loads), SessionStep(w, k, loads, signals);
    HeadFated(w, k, loads, p, fate);
    SoundHead(w, k, loads);
    OwnKeeps(w0, w.sessions[k], k, signals);
    SoundSession(w, k, loads, signals);
    FatedShallow(w0, w1, p, fate);
    if !w1.finished && IsClosed(w1, k) {
      FatedStep(w1, Reap(k), p, fate);
    }
  }

  lemma {:induction false} RoundFated(w: World, k: nat, n: nat, loads: map<string, LoadResult>,
          signals: map<string, Signal>, after: World, p: Ptr, fate: Fate)
    requires Sound(w) && k <= |w.sessions| && n == |w.sessions| - k && Fated(w, p, fate)
    requires after == SessionRound(w, k, n, loads, signals)
    ensures Fated(after, p, fate)
    decreases n
  {
    if n == 0 {
      RoundIsOver(w, k, n, loads, signals);
    } else {
      var w', next := Visits(w, k, loads, signals);
      VisitFated(w, k, loads, signals, w', next, p, fate);
      var left := RoundGoesOn(w, k, n, loads, signals, w', next, after);
      if w'.finished {
        RoundIsOver(w', next, left, loads, signals);
      } else {
        RoundFated(w', next, left, loads, signals, after, p, fate);
      }
    }
  }

  /** The message as it is when the list is looked at: one of the list, or a new one. */
  lemma ListMeetsFate(w1: World, loads: map<string, LoadResult>, refused: set<string>, signals: map<string, Signal>,
          after: World, p: Ptr)
    requires Sound(w1) && p in w1.messages
    requires var w2 := MessageRound(w1, w1.messages, loads, refused);
             after == SessionRound(w2, 0, |w2.sessions|, loads, signals)
    ensures p in w1.store.heap && Fated(after, p, FateOf(w1.store.heap[p], loads))
  {
    var w2 := MessageRound(w1, w1.messages, loads, refused);
    ListIsLive(w1, p);
    ListFates(w1, w1.messages, loads, refused, p, FateOf(w1.store.heap[p], loads));
    ListIsSound(w1, w1.messages, loads, refused);
    RoundFated(w2, 0, |w2.sessions|, loads, signals, after, p, FateOf(w1.store.heap[p], loads));
  }

  /**
   * One pass of the event loop decides about every message of the list and about every new file: one whose
   * headers have been read is routed as they say, one that could not be read or whose headers are not
   * accepted is given up, and the others stay, as they are.
   */
  lemma PassDecides(w: World, paths: seq<string>, loads: map<string, LoadResult>, refused: set<string>,
          signals: map<string, Signal>, after: World)
    requires Sound(w) && after == ClientRound(w, paths, loads, refused, signals)
    ensures after.next == w.next + |paths|
    ensures forall p :: p in w.messages ==> p in w.store.heap && Fated(after, p, FateOf(w.store.heap[p], loads))
    ensures forall i :: 0 <= i < |paths| ==> Fated(after, w.next + i, FateOf(NewMessage(paths[i]), loads))
  {
    forall p | p in w.messages ensures p in w.store.heap && Fated(after, p, FateOf(w.store.heap[p], loads)) {
      PassDecidesListed(w, paths, loads, refused, signals, after, p);
    }
    forall i | 0 <= i < |paths| ensures Fated(after, w.next + i, FateOf(NewMessage(paths[i]), loads)) {
      PassDecidesNew(w, paths, loads, refused, signals, after, i, w.next + i);
    }
    PassNumbers(w, paths, loads, refused, signals, after);
  }

  lemma PassNumbers(w: World, paths: seq<string>, loads: map<string, LoadResult>, refused: set<string>,
          signals: map<string, Signal>, after: World)
    requires Sound(w) && after == ClientRound(w, paths, loads, refused, signals)
    ensures after.next == w.next + |paths|
  {
    var w1 := DiscoverRound(w, paths);
    DiscoverRoundFinds(w, paths);
    ListIsSound(w1, w1.messages, loads, refused);
    var w2 := MessageRound(w1, w1.messages, loads, refused);
    RoundSpares(w2, 0, |w2.sessions|, loads, signals, after);
  }

  lemma PassDecidesListed(w: World, paths: seq<string>, loads: map<string, LoadResult>, refused: set<string>,
          signals: map<string, Signal>, after: World, p: Ptr)
    requires Sound(w) && after == ClientRound(w, paths, loads, refused, signals) && p in w.messages
    ensures p in w.store.heap && Fated(after, p, FateOf(w.store.heap[p], loads))
  {
    var w1 := DiscoverRound(w, paths);
    DiscoverRoundFinds(w, paths);
    ListIsFound(w, paths, w1, p);
    ListMeetsFate(w1, loads, refused, signals, after, p);
  }

  lemma PassDecidesNew(w: World, paths: seq<string>, loads: map<string, LoadResult>, refused: set<string>,
          signals: map<string, Signal>, after: World, i: nat, p: Ptr)
    requires Sound(w) && after == ClientRound(w, paths, loads, refused, signals) && i < |paths| && p == w.next + i
    ensures Fated(after, p, FateOf(NewMessage(paths[i]), loads))
  {
    var w1 := DiscoverRound(w, paths);
    DiscoverRoundFinds(w, paths);
    NewIsFound(w, paths, w1, i, p);
    ListMeetsFate(w1, loads, refused, signals, after, p);
  }

  lemma NewIsFound(w: World, paths: seq<string>, w1: World, i: nat, p: Ptr)
    requires Found(w, paths, w1) && i < |paths| && p == w.next + i
    ensures p in w1.messages && p in w1.store.heap && w1.store.heap[p] == NewMessage(paths[i])
  {
    assert w1.messages[|w.messages| + i] == p;
  }

  lemma ListIsFound(w: World, paths: seq<string>, w1: World, p: Ptr)
    requires Sound(w) && Found(w, paths, w1) && p in w.messages
    ensures p in w1.messages && p in w.store.heap && p in w1.store.heap && w1.store.heap[p] == w.store.heap[p]
  {
    ListIsLive(w, p);
    SoundIsOpen(w);
  }

  /** What becomes of the message at the head of a queue, if its body is loaded or was to be. */
  function HeadDue(w: World, j: nat, loads: map<string, LoadResult>): Due
    requires j < |w.sessions|
  {
    var ps := w.sessions[j].messages;
    if ps != [] && ps[0] in w.store.heap && InBodyState(w.store.heap[ps[0]].state) then DueOf(w, ps[0], loads)
    else Due(HeadersLoaded, "")
  }

  lemma HeadIsReady(w: World, j: nat, loads: map<string, LoadResult>)
    requires Invariant(w) && j < |w.sessions|
    ensures Ready(w, j, loads, HeadDue(w, j, loads))
  {
    assert PhaseOk(w.sessions[j], w.store, w.origin);
    PhaseIsReady(w, j, loads);
  }

  lemma PhaseIsReady(w: World, j: nat, loads: map<string, LoadResult>)
    requires j < |w.sessions| && PhaseOk(w.sessions[j], w.store, w.origin)
    ensures Ready(w, j, loads, HeadDue(w, j, loads))
  {
  }

  lemma FoundReady(w: World, paths: seq<string>, w1: World, j: nat, loads: map<string, LoadResult>, due: Due)
    requires Open(w) && Found(w, paths, w1) && Ready(w, j, loads, due)
    ensures Ready(w1, j, loads, due) && w1.sessions == w.sessions && w1.archive == w.archive
  {
  }

  /**
   * And it serves every session, unless it ends in the failed assertion: the message at the head of the queue
   * is loaded if its body has come in, and then the session has its turn, once.
   */
  lemma PassServes(w: World, paths: seq<string>, loads: map<string, LoadResult>, refused: set<string>,
          signals: map<string, Signal>, after: World, j: nat)
    requires Sound(w) && after == ClientRound(w, paths, loads, refused, signals) && j < |w.sessions|
    ensures after.aborted || Served(w.sessions[j], |w.archive|, loads, HeadDue(w, j, loads), after, signals)
  {
    var w1, due := DiscoverRound(w, paths), HeadDue(w, j, loads);
    DiscoverRoundFinds(w, paths);
    HeadIsReady(w, j, loads);
    SoundIsOpen(w);
    FoundReady(w, paths, w1, j, loads, due);
    var i := ListReady(w1, w1.messages, loads, refused, j, due);
    ListIsSound(w1, w1.messages, loads, refused);
    var w2 := MessageRound(w1, w1.messages, loads, refused);
    RoundServes(w2, 0, |w2.sessions|, loads, signals, after, i, due);
    if !after.aborted {
      ServedBefore(w.sessions[j], w2.sessions[i], |w.archive|, loads, due, after, signals);
    }
  }

  lemma HeadIsServed(w: World, paths: seq<string>, loads: map<string, LoadResult>, refused: set<string>,
          signals: map<string, Signal>, after: World, j: nat, p: Ptr)
    requires Sound(w) && after == ClientRound(w, paths, loads, refused, signals) && !after.aborted
    requires j < |w.sessions| && w.sessions[j].messages != [] && w.sessions[j].messages[0] == p
    requires p in w.store.heap && InBodyState(w.store.heap[p].state)
    ensures Done(after, p, loads, DueOf(w, p, loads))
  {
    PassServes(w, paths, loads, refused, signals, after, j);
    HeadDueIs(w, j, loads);
  }

  lemma HeadDueIs(w: World, j: nat, loads: map<string, LoadResult>)
    requires j < |w.sessions| && w.sessions[j].messages != [] && w.sessions[j].messages[0] in w.store.heap
    requires InBodyState(w.store.heap[w.sessions[j].messages[0]].state)
    ensures HeadDue(w, j, loads) == DueOf(w, w.sessions[j].messages[0], loads)
    ensures InBodyState(HeadDue(w, j, loads).state)
  {
  }
}