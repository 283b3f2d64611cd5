/** Theorems about single steps of a run, and about the order of what a session sends. */
module DeliveryOrder {
  import opened Recipients
  import opened Messages
  import opened Sessions
  import opened Delivery
  import opened DeliveryInvariants
  import opened DeliverySteps
  import opened DeliveryRuns
  import opened Server
  import opened DeliveryViews
  import opened DeliverySafety

  lemma RunStep(helo: string, events: seq<Event>, e: Event)
    ensures Run(helo, events + [e]) == Step(Run(helo, events), e)
  {
    assert (events + [e])[..|events|] == events;
  }

  // ---------------------------------------------------------------- when files are unlinked

  ghost predicate Acknowledges(w: World, e: Event, p: Ptr) {
    && e.Reply? && e.code == 250 && e.session < |w.sessions|
    && w.sessions[e.session].state == SendingDataPayload
    && w.sessions[e.session].messages != [] && w.sessions[e.session].messages[0] == p
  }

  lemma StartTransferKeeps(st: Store, s: Session)
    ensures StartTransfer(st, s).store.delivered == st.delivered
    ensures StartTransfer(st, s).session.destinationHost == s.destinationHost
  {
  }

  lemma FinishTransferKeeps(st: Store, s: Session, sent: bool)
    ensures var o := FinishTransfer(st, s, sent);
            && o.session.destinationHost == s.destinationHost
            && (!sent || s.messages == [] ==> o.store.delivered == st.delivered)
            && (s.messages != [] ==> o.store.delivered <= st.delivered + {(s.messages[0], s.destinationHost)})
            && st.delivered <= o.store.delivered
  {
  }

  /** Only the reply to a payload can record a delivery. */
  lemma ReplyDelivers(w: World, i: nat, code: int)
    requires i < |w.sessions|
    ensures var s, o := w.sessions[i], DispatchReply(w.helo, w.store, w.sessions[i], code);
            && o.session.destinationHost == s.destinationHost
            && w.store.delivered <= o.store.delivered
            && if s.messages != [] && Acknowledges(w, Reply(i, code), s.messages[0])
               then o.store.delivered <= w.store.delivered + {(s.messages[0], s.destinationHost)}
               else o.store.delivered == w.store.delivered
  {
    var s, heard := w.sessions[i], Heard(w.sessions[i], code);
    match s.state
    case SendingHelo => StartTransferKeeps(w.store, heard);
    case SendingDataPayload =>
      FinishTransferKeeps(w.store, heard, true);
      StartTransferKeeps(FinishTransfer(w.store, heard, true).store, FinishTransfer(w.store, heard, true).session);
    case SendingRset =>
      FinishTransferKeeps(w.store, heard, false);
      StartTransferKeeps(FinishTransfer(w.store, heard, false).store, FinishTransfer(w.store, heard, false).session);
    case _ =>
  }

  lemma ReleaseKeeps(st: Store, p: Ptr)
    ensures Release(st, p).delivered == st.delivered
  {
  }

  lemma RouteDelivers(w: World, p: Ptr, refused: set<string>)
    requires p !in w.origin
    ensures var w' := RouteMessage(w, p, refused);
            w'.store.delivered == w.store.delivered && Extends(w.origin, w'.origin)
  {
    if p in w.store.heap && w.store.heap[p].state == HeadersLoaded {
      var m := w.store.heap[p];
      var taken := w.(messages := Without(w.messages, p), origin := w.origin[p := m]);
      RouteAllShallow(taken, p, DestinationHosts(m.destinations), refused);
      ReleaseKeeps(RouteAll(taken, p, DestinationHosts(m.destinations), refused).store, p);
    } else {
      ReleaseKeeps(w.store, p);
    }
  }

  lemma StepDelivers(w: World, e: Event)
    requires e.Route? ==> e.message !in w.messages || e.message !in w.origin
    ensures var w' := Step(w, e);
            && Extends(w.origin, w'.origin)
            && forall q, h :: (q, h) in w'.store.delivered && !Acknowledges(w, e, q) ==> (q, h) in w.store.delivered
  {
    if !w.store.fault && !w.finished && Enabled(w, e) {
      match e
      case Reply(i, code) => ReplyDelivers(w, i, code);
      case Route(p, refused) => RouteDelivers(w, p, refused);
      case Reap(i) => ReleaseAllShallow(w.store, w.sessions[i].messages);
      case Shutdown =>
        FinalizeAllShallow(w.store, w.sessions);
        ReleaseAllShallow(FinalizeAll(w.store, w.sessions), w.messages);
      case _ =>
    }
  }

  /**
   * A file is unlinked at one moment only: when a session hears 250 for the payload of that very
   * message. In particular neither finalizing a closed session nor `client_finalize` unlinks any.
   */
  lemma UnlinkedOnAcknowledgement(helo: string, events: seq<Event>, e: Event)
    ensures var w, w' := Run(helo, events), Run(helo, events + [e]);
            forall p :: p in w'.store.unlinked && p !in w.store.unlinked ==> Acknowledges(w, e, p)
  {
    var w, w' := Run(helo, events), Step(Run(helo, events), e);
    RunStep(helo, events, e);
    RunKeepsInvariant(helo, events);
    StepKeepsInvariant(w, e);
    StepDelivers(w, e);
    forall p | p in w'.store.unlinked && p !in w.store.unlinked ensures Acknowledges(w, e, p) {
      UnlinkedIsDelivered(w, p);
      UnlinkedIsDelivered(w', p);
      var ds := w'.origin[p].destinations;
      assert (p, ds[0].host) in w'.store.delivered;
    }
  }

  // ---------------------------------------------------------------- order

  /** `at` says where the elements of `a` stand in `b`. */
  ghost predicate Picks(a: seq<Ptr>, b: seq<Ptr>, at: seq<nat>) {
    && |at| == |a|
    && (forall i, j :: 0 <= i < j < |at| ==> at[i] < at[j])
    && forall i :: 0 <= i < |at| ==> at[i] < |b| && b[at[i]] == a[i]
  }

  /** `a` is what is left of `b` when some elements are left out. */
  ghost predicate Subsequence(a: seq<Ptr>, b: seq<Ptr>) {
    exists at: seq<nat> :: Picks(a, b, at)
  }

  lemma SubsequenceGrows(a: seq<Ptr>, b: seq<Ptr>, x: Ptr, more: seq<Ptr>)
    requires Subsequence(a, b)
    ensures Subsequence(a, b + more) && Subsequence(a + [x], b + [x])
  {
    var at: seq<nat> :| Picks(a, b, at);
    assert Picks(a, b + more, at);
    assert Picks(a + [x], b + [x], at + [|b|]);
  }

  lemma {:induction false} MailInOrder(transfers: seq<Transfer>)
    ensures Subsequence(MessagesOf(MailOf(transfers)), TransferMessages(transfers))
  {
    if transfers == [] {
      assert Picks([], [], []);
    } else {
      var front, t := transfers[..|transfers| - 1], transfers[|transfers| - 1];
      MailInOrder(front);
      SubsequenceGrows(MessagesOf(MailOf(front)), TransferMessages(front), t.message, [t.message]);
      assert TransferMessages(transfers) == TransferMessages(front) + [t.message];
      match t.text
      case Some(text) => assert MessagesOf(MailOf(transfers)) == MessagesOf(MailOf(front)) + [t.message];
      case None => assert MailOf(transfers) == MailOf(front);
    }
  }

  lemma SessionInOrder(s: Session, st: Store, origin: map<Ptr, Message>)
    requires QueueLogOk(s, st, origin) && Understood(s)
    ensures Subsequence(ViewOf(s).offered, s.log.enqueued)
  {
    var done := TransferMessages(s.log.transfers);
    MailInOrder(s.log.transfers);
    if s.log.phase == SendingDataPayload {
      var p := s.messages[0];
      SubsequenceGrows(MessagesOf(MailOf(s.log.transfers)), done, p, []);
      SubsequenceGrows(ViewOf(s).offered, done + [p], p, s.messages[1..]);
      assert done + [p] + s.messages[1..] == s.log.enqueued;
    } else {
      assert ViewOf(s).offered == MessagesOf(MailOf(s.log.transfers));
      SubsequenceGrows(ViewOf(s).offered, done, 0, s.messages);
    }
  }

  /**
   * First in, first out: a session sends its payloads in the order in which the messages were
   * enqueued. And at most once: in all sessions there ever were for a host, the payload of a
   * message has been sent at most once, whether it was accepted or not.
   */
  lemma PayloadsAreSentOnceInOrder(helo: string, events: seq<Event>)
    ensures var all := All(Run(helo, events));
            && (forall i :: 0 <= i < |all| ==> Subsequence(ViewOf(all[i]).offered, all[i].log.enqueued))
            && (forall i, j, a, b |
                  && 0 <= i <= j < |all| && all[i].destinationHost == all[j].destinationHost
                  && 0 <= a < |ViewOf(all[i]).offered| && 0 <= b < |ViewOf(all[j]).offered|
                  && ViewOf(all[i]).offered[a] == ViewOf(all[j]).offered[b] :: i == j && a == b)
  {
    RunKeepsInvariant(helo, events);
    ServersAgree(helo, events);
    var w := Run(helo, events);
    var all := All(w);
    forall i | 0 <= i < |all| ensures Subsequence(ViewOf(all[i]).offered, all[i].log.enqueued) {
      assert all[i] in all;
      SessionInOrder(all[i], w.store, w.origin);
    }
    forall i, j, a, b |
      && 0 <= i <= j < |all| && all[i].destinationHost == all[j].destinationHost
      && 0 <= a < |ViewOf(all[i]).offered| && 0 <= b < |ViewOf(all[j]).offered|
      && ViewOf(all[i]).offered[a] == ViewOf(all[j]).offered[b]
      ensures i == j && a == b
    {
      OfferedOnce(all, i, j, a, b);
    }
  }

  lemma OfferedOnce(all: seq<Session>, i: nat, j: nat, a: nat, b: nat)
    requires i <= j < |all| && EnqueuedOnce(all) && all[i].destinationHost == all[j].destinationHost
    requires Distinct(all[i].log.enqueued)
    requires Subsequence(ViewOf(all[i]).offered, all[i].log.enqueued)
    requires Subsequence(ViewOf(all[j]).offered, all[j].log.enqueued)
    requires a < |ViewOf(all[i]).offered| && b < |ViewOf(all[j]).offered|
    requires ViewOf(all[i]).offered[a] == ViewOf(all[j]).offered[b]
    ensures i == j && a == b
  {
    var at: seq<nat> :| Picks(ViewOf(all[i]).offered, all[i].log.enqueued, at);
    var at': seq<nat> :| Picks(ViewOf(all[j]).offered, all[j].log.enqueued, at');
    assert all[i].log.enqueued[at[a]] in all[i].log.enqueued;
    assert all[j].log.enqueued[at'[b]] in all[j].log.enqueued;
    assert i == j ==> all[i].log.enqueued[at[a]] == all[i].log.enqueued[at[b]];
  }

  // ---------------------------------------------------------------- the documented automaton

  /**
   * A session stays, takes an edge of the documented automaton, or starts to receive the greeting
   * at once because `connect` has succeeded without delay.
   */
  predicate Moves(a: SessionState, b: SessionState) {
    a == b || DocumentedEdge(a, b) || (a == ResolvingDns && b == ReceivingGreeting)
  }

  lemma ReplyMoves(helo: string, st: Store, s: Session, code: int)
    ensures Moves(s.state, DispatchReply(helo, st, s, code).session.state)
  {
    match s.state
    case SendingHelo => StartMoves(st, Heard(s, code));
    case SendingDataPayload => FinishMoves(st, Heard(s, code), true);
    case SendingRset => FinishMoves(st, Heard(s, code), false);
    case _ =>
  }

  lemma StartMoves(st: Store, s: Session)
    ensures StartTransfer(st, s).session.state in {s.state, SendingQuit, SendingMailOrRcpt}
  {
  }

  lemma FinishMoves(st: Store, s: Session, sent: bool)
    ensures Then(FinishTransfer(st, s, sent)).session.state in {s.state, SendingQuit, SendingMailOrRcpt}
  {
    StartMoves(FinishTransfer(st, s, sent).store, FinishTransfer(st, s, sent).session);
  }

  /** Sessions are only added at the front, just created. */
  ghost predicate Joined(a: seq<Session>, b: seq<Session>) {
    && |a| <= |b|
    && (forall i :: 0 <= i < |a| ==>
          b[|b| - |a| + i].destinationHost == a[i].destinationHost && b[|b| - |a| + i].state == a[i].state)
    && (forall j :: 0 <= j < |b| - |a| ==> b[j].state in {ResolvingDns, Closed})
  }

  lemma JoinedThen(a: seq<Session>, b: seq<Session>, c: seq<Session>)
    requires Joined(a, b) && Joined(b, c)
    ensures Joined(a, c)
  {
    var d := |c| - |b|;
    forall i | 0 <= i < |a|
      ensures c[|c| - |a| + i].destinationHost == a[i].destinationHost && c[|c| - |a| + i].state == a[i].state
    {
      assert c[d + (|b| - |a| + i)].destinationHost == b[|b| - |a| + i].destinationHost;
    }
    forall j | 0 <= j < |c| - |a| ensures c[j].state in {ResolvingDns, Closed} {
      if j >= d {
        assert c[d + (j - d)].state == b[j - d].state;
      }
    }
  }

  lemma RouteToJoins(w: World, p: Ptr, host: string, refused: bool)
    ensures Joined(w.sessions, RouteTo(w, p, host, refused).sessions)
  {
    var k := FindSession(w.sessions, host);
    if k == |w.sessions| {
      AddedJoins(w.sessions, Enqueued(NewSession(host, refused), p));
    } else {
      EnqueuedJoins(w.sessions, k, p);
    }
  }

  lemma AddedJoins(a: seq<Session>, s: Session)
    requires s.state in {ResolvingDns, Closed}
    ensures Joined(a, [s] + a)
  {
  }

  lemma EnqueuedJoins(a: seq<Session>, k: nat, p: Ptr)
    requires k < |a|
    ensures Joined(a, a[k := Enqueued(a[k], p)])
  {
  }

  lemma {:induction false} RouteAllJoins(w: World, p: Ptr, hosts: seq<string>, refused: set<string>)
    ensures Joined(w.sessions, RouteAll(w, p, hosts, refused).sessions)
    decreases |hosts|
  {
    if hosts != [] {
      var w1 := RouteTo(w, p, hosts[0], hosts[0] in refused);
      RouteToJoins(w, p, hosts[0], hosts[0] in refused);
      RouteAllJoins(w1, p, hosts[1..], refused);
      JoinedThen(w.sessions, w1.sessions, RouteAll(w, p, hosts, refused).sessions);
    }
  }

  lemma RouteJoins(w: World, p: Ptr, refused: set<string>)
    ensures Joined(w.sessions, RouteMessage(w, p, refused).sessions)
  {
    if p in w.store.heap && w.store.heap[p].state == HeadersLoaded {
      var m := w.store.heap[p];
      RouteAllJoins(w.(messages := Without(w.messages, p), origin := w.origin[p := m]), p,
                    DestinationHosts(m.destinations), refused);
    }
  }

  /** How the sessions of two successive states are related: by their hosts. */
  ghost predicate Followed(a: seq<Session>, b: seq<Session>) {
    && (forall i, j :: 0 <= i < |a| && 0 <= j < |b| && a[i].destinationHost == b[j].destinationHost ==>
          Moves(a[i].state, b[j].state))
    && (forall j :: 0 <= j < |b| && (forall i :: 0 <= i < |a| ==> a[i].destinationHost != b[j].destinationHost) ==>
          b[j].state in {ResolvingDns, Closed})
  }

  lemma JoinedFollowed(a: seq<Session>, b: seq<Session>)
    requires Joined(a, b) && DistinctHosts(b)
    ensures Followed(a, b)
  {
    var d := |b| - |a|;
    forall i, j | 0 <= i < |a| && 0 <= j < |b| && a[i].destinationHost == b[j].destinationHost
      ensures Moves(a[i].state, b[j].state)
    {
      assert b[d + i].destinationHost == a[i].destinationHost;
      assert j == d + i;
    }
    forall j | d <= j < |b| ensures exists i :: 0 <= i < |a| && a[i].destinationHost == b[j].destinationHost {
      assert b[d + (j - d)].destinationHost == a[j - d].destinationHost;
    }
  }

  lemma ReplacedFollowed(a: seq<Session>, k: nat, s: Session)
    requires k < |a| && DistinctHosts(a) && s.destinationHost == a[k].destinationHost && Moves(a[k].state, s.state)
    ensures Followed(a, a[k := s])
  {
    assert forall j :: 0 <= j < |a| ==> a[k := s][j].destinationHost == a[j].destinationHost;
  }

  lemma RemovedFollowed(a: seq<Session>, k: nat)
    requires k < |a| && DistinctHosts(a)
    ensures Followed(a, a[..k] + a[k + 1..])
  {
    var b := a[..k] + a[k + 1..];
    assert forall j :: 0 <= j < |b| ==> b[j] == a[if j < k then j else j + 1];
  }

  lemma PollMoves(st: Store, s: Session, origin: map<Ptr, Message>)
    requires PhaseOk(s, st, origin) && s.state == LoadingMessageBody
    ensures var s' := DispatchBodyPoll(st, s).session;
            Moves(s.state, s'.state) && s'.destinationHost == s.destinationHost
  {
  }

  lemma StepFollows(w: World, e: Event)
    requires Enabled(w, e) && DistinctHosts(w.sessions) && DistinctHosts(Apply(w, e).sessions)
    requires e.BodyPoll? ==> PhaseOk(w.sessions[e.session], w.store, w.origin)
    ensures Followed(w.sessions, Apply(w, e).sessions)
  {
    match e
    case Reply(i, code) =>
      ReplyMoves(w.helo, w.store, w.sessions[i], code);
      ReplyDelivers(w, i, code);
      ReplacedFollowed(w.sessions, i, DispatchReply(w.helo, w.store, w.sessions[i], code).session);
    case BodyPoll(i) =>
      PollMoves(w.store, w.sessions[i], w.origin);
      ReplacedFollowed(w.sessions, i, DispatchBodyPoll(w.store, w.sessions[i]).session);
    case Network(i, state) =>
      ReplacedFollowed(w.sessions, i, NetworkMove(w.sessions[i], state));
    case Collision(i, _) =>
      ReplacedFollowed(w.sessions, i, NetworkMove(w.sessions[i], Closed));
    case Route(p, refused) =>
      RouteJoins(w, p, refused);
      JoinedFollowed(w.sessions, RouteMessage(w, p, refused).sessions);
    case Reap(i) => RemovedFollowed(w.sessions, i);
    case Shutdown =>
    case Discover(_) => JoinedFollowed(w.sessions, w.sessions);
    case Loaded(_, _) => JoinedFollowed(w.sessions, w.sessions);
  }

  /** Every step of a run moves its sessions along the documented automaton; report/fsm.dot lacks one edge. */
  lemma MovesAreDocumented(helo: string, events: seq<Event>, e: Event)
    ensures Followed(Run(helo, events).sessions, Run(helo, events + [e]).sessions)
  {
    var w := Run(helo, events);
    RunStep(helo, events, e);
    RunKeepsInvariant(helo, events);
    StepKeepsInvariant(w, e);
    if w.finished || !Enabled(w, e) {
      JoinedFollowed(w.sessions, w.sessions);
    } else {
      StepFollows(w, e);
    }
  }
}
