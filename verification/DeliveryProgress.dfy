/**
 * What is always possible: a message that waits in the queue of a session which is neither closed nor
 * quitting can still be delivered, whatever has happened before.
 */
module DeliveryProgress {
  import opened Text
  import opened Recipients
  import opened Messages
  import opened Sessions
  import opened Delivery
  import opened DeliveryInvariants
  import opened DeliveryRuns
  import opened DeliverySafety
  import opened DeliveryOrder

  // ---------------------------------------------------------------- what brings a session on

  /** The code that lets the session go on. */
  function GoodCode(state: SessionState): int {
    if state == ReceivingGreeting then 220 else if state == SendingData then 354 else 250
  }

  /** The next good thing that can happen to a session; `body` is what is read when a body is awaited. */
  function Favour(w: World, k: nat, body: string): Event
    requires k < |w.sessions|
  {
    var s := w.sessions[k];
    match s.state
    case ResolvingDns => Network(k, ReceivingGreeting)
    case Connecting => Network(k, ReceivingGreeting)
    case LoadingMessageBody => if BodyAwaited(w.store, s) then Loaded(s.messages[0], BodyRead(body)) else BodyPoll(k)
    case _ => Reply(k, GoodCode(s.state))
  }

  predicate BodyAwaited(st: Store, s: Session) {
    s.messages != [] && s.messages[0] in st.heap && st.heap[s.messages[0]].state == LoadingBody
  }

  /** The message waits in the queue of a session that still talks, and has not failed. */
  predicate Waiting(st: Store, s: Session, p: Ptr) {
    s.state != Closed && s.state != SendingQuit && p in s.messages && p in st.heap && st.heap[p].state != LoadingFailed
  }

  // ---------------------------------------------------------------- how far it has come

  /** The number of messages before this one. */
  function Place(ps: seq<Ptr>, p: Ptr): nat {
    if ps == [] || ps[0] == p then 0 else 1 + Place(ps[1..], p)
  }

  function Stage(state: SessionState): nat {
    match state
    case ResolvingDns => 8
    case Connecting => 8
    case ReceivingGreeting => 7
    case SendingHelo => 6
    case SendingMailOrRcpt => 5
    case LoadingMessageBody => 4
    case SendingData => 3
    case SendingDataPayload => 2
    case SendingRset => 2
    case _ => 0
  }

  /** The recipients that have not been named yet, or the body that has not been read. */
  function Left(st: Store, s: Session): nat {
    if s.state == SendingMailOrRcpt then RecipientsLeft(st, s.cursor)
    else if s.state == LoadingMessageBody && BodyAwaited(st, s) then 1
    else 0
  }

  function RecipientsLeft(st: Store, c: Cursor): nat {
    if c.At? && c.message in st.heap then
      var n := |RecipientsAt(st.heap[c.message], c.host)|;
      if c.index < n then n - c.index else 0
    else 0
  }

  predicate Nearer(st: Store, s: Session, st': Store, s': Session, p: Ptr) {
    || Place(s'.messages, p) < Place(s.messages, p)
    || (Place(s'.messages, p) == Place(s.messages, p) && (
          || Stage(s'.state) < Stage(s.state)
          || (Stage(s'.state) == Stage(s.state) && Left(st', s') < Left(st, s))))
  }

  /** No message fails to load. */
  ghost predicate NoneFails(st: Store, st': Store) {
    forall q :: q in st'.heap && st'.heap[q].state == LoadingFailed ==>
      q in st.heap && st.heap[q].state == LoadingFailed
  }

  /** The message was delivered, or it has come nearer to that. */
  ghost predicate Progress(st: Store, s: Session, st': Store, s': Session, p: Ptr) {
    && s'.destinationHost == s.destinationHost && st.delivered <= st'.delivered
    && NoneFails(st, st')
    && ((p, s.destinationHost) in st'.delivered || (Waits(s', p) && Nearer(st, s, st', s', p)))
  }

  predicate Waits(s: Session, p: Ptr) {
    s.state != Closed && s.state != SendingQuit && p in s.messages
  }

  // ---------------------------------------------------------------- one step, state by state

  /** MAIL for the head of the queue. */
  lemma StartsTransfer(st: Store, s: Session)
    requires s.messages != [] && !StartTransfer(st, s).store.fault && !st.fault
    ensures var o := StartTransfer(st, s);
            && o.session.state == SendingMailOrRcpt && o.session.messages == s.messages
            && o.session.destinationHost == s.destinationHost && o.store.delivered == st.delivered
            && NoneFails(st, o.store)
  {
  }

  lemma HeloProgress(helo: string, st: Store, s: Session, p: Ptr)
    requires Waiting(st, s, p) && s.state == SendingHelo && !st.fault
    requires !DispatchReply(helo, st, s, 250).store.fault
    ensures var o := DispatchReply(helo, st, s, 250); Progress(st, s, o.store, o.session, p)
  {
    StartsTransfer(st, Heard(s, 250));
  }

  lemma RcptProgress(helo: string, st: Store, s: Session, p: Ptr, origin: map<Ptr, Message>)
    requires Waiting(st, s, p) && s.state == SendingMailOrRcpt && PhaseOk(s, st, origin)
    requires !DispatchReply(helo, st, s, 250).store.fault
    ensures var o := DispatchReply(helo, st, s, 250); Progress(st, s, o.store, o.session, p)
  {
    var o := DispatchReply(helo, st, s, 250);
    if s.cursor.At? {
      assert o.session.state == SendingMailOrRcpt && o.store == st;
      assert RecipientsLeft(st, o.session.cursor) < RecipientsLeft(st, s.cursor);
    }
  }

  lemma PollProgress(st: Store, s: Session, p: Ptr, origin: map<Ptr, Message>)
    requires Waiting(st, s, p) && s.state == LoadingMessageBody && PhaseOk(s, st, origin) && !BodyAwaited(st, s)
    ensures var o := DispatchBodyPoll(st, s); Progress(st, s, o.store, o.session, p)
  {
  }

  lemma ReadProgress(st: Store, s: Session, p: Ptr, body: string)
    requires Waiting(st, s, p) && s.state == LoadingMessageBody && BodyAwaited(st, s)
    ensures Progress(st, s, Load(st, s.messages[0], BodyRead(body)), s, p)
  {
  }

  /** The head of the queue has been dealt with, and it was not this message. */
  lemma {:induction false} PlaceFalls(ps: seq<Ptr>, p: Ptr)
    requires p in ps && ps[0] != p
    ensures p in ps[1..] && Place(ps[1..], p) < Place(ps, p)
  {
  }

  lemma FinishProgress(helo: string, st: Store, s: Session, p: Ptr, origin: map<Ptr, Message>)
    requires Waiting(st, s, p) && s.state in {SendingDataPayload, SendingRset} && PhaseOk(s, st, origin) && !st.fault
    requires !DispatchReply(helo, st, s, 250).store.fault
    ensures var o := DispatchReply(helo, st, s, 250); Progress(st, s, o.store, o.session, p)
  {
    var sent := s.state == SendingDataPayload;
    var mid := FinishTransfer(st, Heard(s, 250), sent);
    FinishEffect(st, Heard(s, 250), sent);
    if s.messages[0] != p {
      PlaceFalls(s.messages, p);
      StartsTransfer(mid.store, mid.session);
    } else {
      LastTransfer(mid.store, mid.session);
    }
  }

  lemma LastTransfer(st: Store, s: Session)
    ensures var o := StartTransfer(st, s);
            && o.session.destinationHost == s.destinationHost && o.store.delivered == st.delivered
            && NoneFails(st, o.store)
  {
  }

  lemma FinishEffect(st: Store, s: Session, sent: bool)
    requires s.messages != [] && s.messages[0] in st.heap && !st.fault
    requires (sent ==> st.heap[s.messages[0]].state == BodyLoaded)
    ensures var o := FinishTransfer(st, s, sent);
            && o.session.messages == s.messages[1..] && o.session.destinationHost == s.destinationHost
            && o.store.delivered == st.delivered + (if sent then {(s.messages[0], s.destinationHost)} else {})
            && NoneFails(st, o.store)
  {
  }

  // ---------------------------------------------------------------- one step of the whole program

  ghost predicate Started(w: World, k: nat, p: Ptr) {
    !w.finished && k < |w.sessions| && Waiting(w.store, w.sessions[k], p)
  }

  /** What such a step leaves as it is; bodies that are read are `body`. */
  ghost predicate Undisturbed(w: World, w': World, k: nat, body: string) {
    && !w'.finished && w'.origin == w.origin && |w'.sessions| == |w.sessions|
    && (forall j :: 0 <= j < |w.sessions| && j != k ==> w'.sessions[j] == w.sessions[j])
    && (forall q :: q in w'.store.bodies ==>
          w'.store.bodies[q] == body || (q in w.store.bodies && w'.store.bodies[q] == w.store.bodies[q]))
  }

  lemma ReplyProgress(helo: string, st: Store, s: Session, p: Ptr, origin: map<Ptr, Message>)
    requires Waiting(st, s, p) && Exchanging(s.state) && PhaseOk(s, st, origin) && !st.fault
    requires !DispatchReply(helo, st, s, GoodCode(s.state)).store.fault
    ensures var o := DispatchReply(helo, st, s, GoodCode(s.state)); Progress(st, s, o.store, o.session, p)
  {
    match s.state
    case SendingHelo => HeloProgress(helo, st, s, p);
    case SendingMailOrRcpt => RcptProgress(helo, st, s, p, origin);
    case SendingDataPayload => FinishProgress(helo, st, s, p, origin);
    case SendingRset => FinishProgress(helo, st, s, p, origin);
    case _ =>
  }

  /** What the invariant says about one session. */
  lemma PhaseOf(w: World, k: nat)
    requires Invariant(w) && k < |w.sessions|
    ensures PhaseOk(w.sessions[k], w.store, w.origin) && !w.store.fault
  {
  }

  lemma StepIsFaultless(w: World, e: Event)
    requires Invariant(w) && !w.finished && Enabled(w, e)
    ensures Step(w, e) == Apply(w, e) && !Apply(w, e).store.fault
  {
    StepKeepsInvariant(w, e);
  }

  lemma FavourReply(w: World, k: nat, p: Ptr, body: string, w': World)
    requires !w.finished && k < |w.sessions| && Waiting(w.store, w.sessions[k], p)
    requires PhaseOk(w.sessions[k], w.store, w.origin) && !w.store.fault && !w'.store.fault
    requires Exchanging(w.sessions[k].state) && w' == Apply(w, Reply(k, GoodCode(w.sessions[k].state)))
    ensures Undisturbed(w, w', k, body)
    ensures Progress(w.store, w.sessions[k], w'.store, w'.sessions[k], p)
  {
    var s := w.sessions[k];
    ReplyProgress(w.helo, w.store, s, p, w.origin);
    DispatchShallow(w.helo, w.store, s, GoodCode(s.state));
  }

  lemma FavourPoll(w: World, k: nat, p: Ptr, body: string, w': World)
    requires !w.finished && k < |w.sessions| && Waiting(w.store, w.sessions[k], p)
    requires PhaseOk(w.sessions[k], w.store, w.origin)
    requires w.sessions[k].state == LoadingMessageBody && !BodyAwaited(w.store, w.sessions[k])
    requires w' == Apply(w, BodyPoll(k))
    ensures Undisturbed(w, w', k, body)
    ensures Progress(w.store, w.sessions[k], w'.store, w'.sessions[k], p)
  {
    PollProgress(w.store, w.sessions[k], p, w.origin);
    PollShallow(w.store, w.sessions[k]);
  }

  lemma FavourRead(w: World, k: nat, p: Ptr, body: string, w': World)
    requires k < |w.sessions| && !w.finished && Waiting(w.store, w.sessions[k], p) && NoNul(body)
    requires w.sessions[k].state == LoadingMessageBody && BodyAwaited(w.store, w.sessions[k])
    requires w' == Apply(w, Loaded(w.sessions[k].messages[0], BodyRead(body)))
    ensures Undisturbed(w, w', k, body)
    ensures Progress(w.store, w.sessions[k], w'.store, w'.sessions[k], p)
  {
    ReadProgress(w.store, w.sessions[k], p, body);
  }

  lemma FavourNetwork(w: World, k: nat, p: Ptr, body: string, w': World)
    requires k < |w.sessions| && !w.finished && Waiting(w.store, w.sessions[k], p)
    requires w.sessions[k].state in {ResolvingDns, Connecting} && w' == Apply(w, Network(k, ReceivingGreeting))
    ensures Undisturbed(w, w', k, body)
    ensures Progress(w.store, w.sessions[k], w'.store, w'.sessions[k], p)
  {
  }

  lemma FavourIsEnabled(w: World, k: nat, p: Ptr, body: string)
    requires k < |w.sessions| && Waiting(w.store, w.sessions[k], p) && NoNul(body)
    ensures Enabled(w, Favour(w, k, body))
  {
  }

  lemma FavourStep(w: World, k: nat, p: Ptr, body: string, w': World)
    requires Invariant(w) && Started(w, k, p) && NoNul(body) && w' == Step(w, Favour(w, k, body))
    ensures Undisturbed(w, w', k, body)
    ensures Progress(w.store, w.sessions[k], w'.store, w'.sessions[k], p)
  {
    FavourIsEnabled(w, k, p, body);
    StepIsFaultless(w, Favour(w, k, body));
    PhaseOf(w, k);
    FavourApply(w, k, p, body, w');
  }

  lemma FavourApply(w: World, k: nat, p: Ptr, body: string, w': World)
    requires Started(w, k, p) && NoNul(body) && PhaseOk(w.sessions[k], w.store, w.origin)
    requires Enabled(w, Favour(w, k, body)) && w' == Apply(w, Favour(w, k, body))
    requires !w.store.fault && !w'.store.fault
    ensures Undisturbed(w, w', k, body)
    ensures Progress(w.store, w.sessions[k], w'.store, w'.sessions[k], p)
  {
    var s := w.sessions[k];
    if Exchanging(s.state) {
      FavourReply(w, k, p, body, w');
    } else if s.state != LoadingMessageBody {
      FavourNetwork(w, k, p, body, w');
    } else if BodyAwaited(w.store, s) {
      FavourRead(w, k, p, body, w');
    } else {
      FavourPoll(w, k, p, body, w');
    }
  }

  // ---------------------------------------------------------------- from any state

  /** What the continuation reaches. */
  ghost predicate Brought(w: World, w': World, k: nat, p: Ptr, body: string)
    requires k < |w.sessions|
  {
    && Undisturbed(w, w', k, body) && w.store.delivered <= w'.store.delivered
    && (p, w.sessions[k].destinationHost) in w'.store.delivered
    && (p in w'.store.heap ==> w'.store.heap[p].state != LoadingFailed)
  }

  /** How far the message is from being delivered, compared lexicographically. */
  datatype Distance = Distance(place: nat, stage: nat, left: nat)

  function DistanceOf(w: World, k: nat, p: Ptr): Distance
    requires k < |w.sessions|
  {
    Distance(Place(w.sessions[k].messages, p), Stage(w.sessions[k].state), Left(w.store, w.sessions[k]))
  }

  predicate Closer(a: Distance, b: Distance) {
    a.place < b.place || (a.place == b.place && (a.stage < b.stage || (a.stage == b.stage && a.left < b.left)))
  }

  /** One more event: the message is delivered, or closer to that. */
  ghost predicate Advanced(w: World, w': World, k: nat, p: Ptr, body: string)
    requires k < |w.sessions|
  {
    && Undisturbed(w, w', k, body) && w.store.delivered <= w'.store.delivered
    && w'.sessions[k].destinationHost == w.sessions[k].destinationHost
    && (p in w'.store.heap ==> w'.store.heap[p].state != LoadingFailed)
    && ((p, w.sessions[k].destinationHost) in w'.store.delivered
        || (Started(w', k, p) && Closer(DistanceOf(w', k, p), DistanceOf(w, k, p))))
  }

  /** Some run has reached this state. */
  ghost predicate Reachable(helo: string, w: World) {
    exists events :: w == Run(helo, events)
  }

  lemma ReachableStep(helo: string, w: World, e: Event)
    requires Reachable(helo, w)
    ensures Invariant(w) && Invariant(Step(w, e)) && Reachable(helo, Step(w, e))
  {
    var events :| w == Run(helo, events);
    RunKeepsInvariant(helo, events);
    StepKeepsInvariant(w, e);
    RunStep(helo, events, e);
  }

  lemma Advances(helo: string, w: World, k: nat, p: Ptr, body: string) returns (e: Event, w': World)
    requires Reachable(helo, w) && Started(w, k, p) && NoNul(body)
    ensures w' == Step(w, e) && Reachable(helo, w') && Advanced(w, w', k, p, body)
  {
    e := Favour(w, k, body);
    w' := Step(w, e);
    ReachableStep(helo, w, e);
    FavourStep(w, k, p, body, w');
    if (p, w.sessions[k].destinationHost) !in w'.store.delivered {
      StillStarted(w', k, p);
    }
  }

  lemma StillStarted(w: World, k: nat, p: Ptr)
    requires Invariant(w) && !w.finished && k < |w.sessions| && Waits(w.sessions[k], p)
    requires p in w.store.heap ==> w.store.heap[p].state != LoadingFailed
    ensures Started(w, k, p)
  {
    assert QueueOk(w.sessions[k], w.store, w.origin);
  }

  lemma {:induction false} ContinueFirst(w: World, e: Event, more: seq<Event>)
    ensures Continue(w, [e] + more) == Continue(Step(w, e), more)
    decreases |more|
  {
    var all := [e] + more;
    if more == [] {
      assert all[..0] == [];
    } else {
      assert all[..|all| - 1] == [e] + more[..|more| - 1];
      ContinueFirst(w, e, more[..|more| - 1]);
    }
  }

  lemma {:induction false} ContinueRun(helo: string, events: seq<Event>, more: seq<Event>)
    ensures Run(helo, events + more) == Continue(Run(helo, events), more)
    decreases |more|
  {
    var all := events + more;
    if more == [] {
      assert all == events;
    } else {
      assert all[..|all| - 1] == events + more[..|more| - 1];
      ContinueRun(helo, events, more[..|more| - 1]);
    }
  }

  lemma BroughtThen(w: World, w1: World, w2: World, k: nat, p: Ptr, body: string)
    requires k < |w.sessions| && Advanced(w, w1, k, p, body) && Brought(w1, w2, k, p, body)
    ensures Brought(w, w2, k, p, body)
  {
  }

  lemma {:induction false} Brings(helo: string, w: World, k: nat, p: Ptr, body: string, d: Distance)
    returns (more: seq<Event>, after: World)
    requires Reachable(helo, w) && Started(w, k, p) && NoNul(body) && d == DistanceOf(w, k, p)
    ensures after == Continue(w, more) && Reachable(helo, after) && Brought(w, after, k, p, body)
    decreases d.place, d.stage, d.left
  {
    var e, w' := Advances(helo, w, k, p, body);
    if (p, w.sessions[k].destinationHost) in w'.store.delivered {
      more, after := [], w';
    } else {
      more, after := Brings(helo, w', k, p, body, DistanceOf(w', k, p));
      BroughtThen(w, w', after, k, p, body);
    }
    ContinueFirst(w, e, more);
    more := [e] + more;
  }

  /**
   * From every state that a run has reached: a message in the queue of a session that is neither closed
   * nor quitting can still be delivered, whatever waits before it, whatever has been said, and whatever
   * its body is, as long as its loading has not failed.
   */
  lemma QueuedMailCanBeDelivered(helo: string, events: seq<Event>, k: nat, p: Ptr, body: string)
    returns (more: seq<Event>)
    requires Started(Run(helo, events), k, p) && NoNul(body)
    ensures AcceptedAt(Run(helo, events + more), p, Run(helo, events).sessions[k].destinationHost)
  {
    var w, after := Run(helo, events), Run(helo, events);
    more, after := Brings(helo, w, k, p, body, DistanceOf(w, k, p));
    ContinueRun(helo, events, more);
    RunKeepsInvariant(helo, events + more);
    ServersAgree(helo, events + more);
    DeliveredIsAccepted(after, p, w.sessions[k].destinationHost);
  }

  // ---------------------------------------------------------------- a mail from its file to all its hosts

  /** No session is closed or quitting. */
  ghost predicate AllTalking(w: World) {
    forall i :: 0 <= i < |w.sessions| ==> w.sessions[i].state != Closed && w.sessions[i].state != SendingQuit
  }

  ghost predicate QueuedAt(w: World, p: Ptr, host: string) {
    exists k :: 0 <= k < |w.sessions| && w.sessions[k].destinationHost == host && Waits(w.sessions[k], p)
  }

  lemma RouteToQueues(w: World, p: Ptr, host: string)
    requires AllTalking(w)
    ensures var w' := RouteTo(w, p, host, false);
            AllTalking(w') && QueuedAt(w', p, host) && forall h :: QueuedAt(w, p, h) ==> QueuedAt(w', p, h)
  {
    var k, w' := FindSession(w.sessions, host), RouteTo(w, p, host, false);
    if k == |w.sessions| {
      assert Waits(w'.sessions[0], p);
      forall h | QueuedAt(w, p, h) ensures QueuedAt(w', p, h) {
        var j :| 0 <= j < |w.sessions| && w.sessions[j].destinationHost == h && Waits(w.sessions[j], p);
        assert w'.sessions[j + 1] == w.sessions[j];
      }
    } else {
      assert Waits(w'.sessions[k], p);
      forall h | QueuedAt(w, p, h) ensures QueuedAt(w', p, h) {
        var j :| 0 <= j < |w.sessions| && w.sessions[j].destinationHost == h && Waits(w.sessions[j], p);
        assert Waits(w'.sessions[j], p);
      }
    }
  }

  lemma {:induction false} RouteAllQueues(w: World, p: Ptr, hosts: seq<string>)
    requires AllTalking(w)
    ensures var w' := RouteAll(w, p, hosts, {});
            && (forall h :: h in hosts || QueuedAt(w, p, h) ==> QueuedAt(w', p, h))
            && (p in w'.store.heap ==> p in w.store.heap && w'.store.heap[p].state == w.store.heap[p].state)
    decreases |hosts|
  {
    if hosts != [] {
      RouteToQueues(w, p, hosts[0]);
      RouteAllQueues(RouteTo(w, p, hosts[0], false), p, hosts[1..]);
    }
  }

  /** The message has been routed: every host has it, or has a session that will. */
  ghost predicate Spread(w: World, p: Ptr, hosts: seq<string>, body: string) {
    && !w.finished && p in w.origin && (p in w.store.heap ==> w.store.heap[p].state != LoadingFailed)
    && (p in w.store.bodies ==> w.store.bodies[p] == body)
    && forall h :: h in hosts ==> (p, h) in w.store.delivered || QueuedAt(w, p, h)
  }

  lemma SpreadStays(w: World, w': World, k: nat, p: Ptr, hosts: seq<string>, body: string)
    requires Spread(w, p, hosts, body) && k < |w.sessions| && Brought(w, w', k, p, body)
    ensures Spread(w', p, hosts, body)
  {
    forall h | h in hosts && (p, h) !in w'.store.delivered ensures QueuedAt(w', p, h) {
      var j :| 0 <= j < |w.sessions| && w.sessions[j].destinationHost == h && Waits(w.sessions[j], p);
      assert j != k && w'.sessions[j] == w.sessions[j];
    }
  }

  lemma {:induction false} BringsEverywhere(helo: string, w: World, p: Ptr, hosts: seq<string>, body: string)
    returns (more: seq<Event>, after: World)
    requires Reachable(helo, w) && Spread(w, p, hosts, body) && NoNul(body)
    ensures after == Continue(w, more) && Reachable(helo, after) && Spread(after, p, [], body)
    ensures after.origin == w.origin && w.store.delivered <= after.store.delivered
    ensures forall h :: h in hosts ==> (p, h) in after.store.delivered
    decreases |hosts|
  {
    if hosts == [] {
      more, after := [], w;
    } else if (p, hosts[0]) in w.store.delivered {
      more, after := BringsEverywhere(helo, w, p, hosts[1..], body);
    } else {
      var first, w1 := BringsTo(helo, w, p, hosts, body);
      more, after := BringsEverywhere(helo, w1, p, hosts[1..], body);
      ContinueConcat(w, first, more);
      more := first + more;
    }
  }

  lemma BringsTo(helo: string, w: World, p: Ptr, hosts: seq<string>, body: string)
    returns (more: seq<Event>, after: World)
    requires Reachable(helo, w) && Spread(w, p, hosts, body) && NoNul(body)
    requires hosts != [] && (p, hosts[0]) !in w.store.delivered
    ensures after == Continue(w, more) && Reachable(helo, after) && Spread(after, p, hosts, body)
    ensures after.origin == w.origin && w.store.delivered <= after.store.delivered
    ensures (p, hosts[0]) in after.store.delivered
  {
    var k :| 0 <= k < |w.sessions| && w.sessions[k].destinationHost == hosts[0] && Waits(w.sessions[k], p);
    ReachableStep(helo, w, Shutdown);
    StillStarted(w, k, p);
    more, after := Brings(helo, w, k, p, body, DistanceOf(w, k, p));
    SpreadStays(w, after, k, p, hosts, body);
  }

  lemma {:induction false} ContinueConcat(w: World, a: seq<Event>, b: seq<Event>)
    ensures Continue(w, a + b) == Continue(Continue(w, a), b)
    decreases |b|
  {
    var all := a + b;
    if b == [] {
      assert all == a;
    } else {
      assert all[..|all| - 1] == a + b[..|b| - 1];
      ContinueConcat(w, a, b[..|b| - 1]);
    }
  }

  /** A message that has just been listed and has no body. */
  ghost predicate Listed(w: World, p: Ptr, state: MessageState) {
    && !w.finished && AllTalking(w) && p in w.messages && p in w.store.heap && w.store.heap[p].state == state
    && p !in w.store.bodies
  }

  lemma Discovers(helo: string, w: World, path: string)
    requires Reachable(helo, w) && !w.finished && AllTalking(w)
    ensures var w' := Step(w, Discover(path));
            Listed(w', w.next, LoadingHeaders) && Reachable(helo, w') && w'.origin == w.origin
  {
    ReachableStep(helo, w, Discover(path));
  }

  lemma ReadsHeaders(helo: string, w: World, p: Ptr, block: string)
    requires Reachable(helo, w) && Listed(w, p, LoadingHeaders) && NoNul(block) && Parse(block).state == HeadersLoaded
    ensures var w' := Step(w, Loaded(p, HeadersRead(block)));
            && Reachable(helo, w') && Listed(w', p, HeadersLoaded) && w'.store.heap[p].block == block
            && w'.origin == w.origin
  {
    assert Reachable(helo, Step(w, Loaded(p, HeadersRead(block)))) && !w.store.fault by {
      ReachableStep(helo, w, Loaded(p, HeadersRead(block)));
    }
  }

  lemma Routes(helo: string, w: World, p: Ptr, body: string)
    requires Reachable(helo, w) && Listed(w, p, HeadersLoaded)
    ensures var w' := Step(w, Route(p, {}));
            && Reachable(helo, w') && w'.origin == w.origin[p := w.store.heap[p]]
            && Spread(w', p, DestinationHosts(w.store.heap[p].destinations), body)
            && forall h :: h in DestinationHosts(w.store.heap[p].destinations) ==> QueuedAt(w', p, h)
  {
    assert Reachable(helo, Step(w, Route(p, {}))) && !w.store.fault by {
      ReachableStep(helo, w, Route(p, {}));
    }
    RoutesTo(w, p, body);
  }

  lemma RoutesTo(w: World, p: Ptr, body: string)
    requires Listed(w, p, HeadersLoaded)
    ensures var w' := RouteMessage(w, p, {});
            && w'.origin == w.origin[p := w.store.heap[p]]
            && Spread(w', p, DestinationHosts(w.store.heap[p].destinations), body)
            && forall h :: h in DestinationHosts(w.store.heap[p].destinations) ==> QueuedAt(w', p, h)
  {
    var m := w.store.heap[p];
    var hosts := DestinationHosts(m.destinations);
    var taken := w.(messages := Without(w.messages, p), origin := w.origin[p := m]);
    var routed := RouteAll(taken, p, hosts, {});
    RouteAllQueues(taken, p, hosts);
    RouteAllShallow(taken, p, hosts, {});
    RoutingGoesOn(w, p, {});
    assert RouteMessage(w, p, {}) == routed.(store := Release(routed.store, p));
    forall h | h in hosts ensures QueuedAt(RouteMessage(w, p, {}), p, h) {
      var k :| 0 <= k < |routed.sessions| && routed.sessions[k].destinationHost == h && Waits(routed.sessions[k], p);
      assert Waits(RouteMessage(w, p, {}).sessions[k], p);
    }
  }

  lemma ContinueThrice(w: World, a: Event, b: Event, c: Event)
    ensures Continue(w, [a, b, c]) == Step(Step(Step(w, a), b), c)
  {
    ContinueFirst(w, a, [b, c]);
    ContinueFirst(Step(w, a), b, [c]);
    ContinueFirst(Step(Step(w, a), b), c, []);
    assert [a] + [b, c] == [a, b, c] && [b] + [c] == [b, c] && [c] + [] == [c];
  }

  /** A file has been found, its header block read, and the message routed. */
  lemma Spreads(helo: string, w: World, path: string, block: string, body: string)
    returns (events: seq<Event>, w': World)
    requires Reachable(helo, w) && !w.finished && AllTalking(w)
    requires NoNul(block) && Parse(block).state == HeadersLoaded
    ensures w' == Continue(w, events) && Reachable(helo, w')
    ensures w.next in w'.origin && w'.origin[w.next].block == block
    ensures w'.origin == w.origin[w.next := w'.origin[w.next]]
    ensures Spread(w', w.next, DestinationHosts(w'.origin[w.next].destinations), body)
    ensures forall h :: h in DestinationHosts(w'.origin[w.next].destinations) ==> QueuedAt(w', w.next, h)
  {
    var p := w.next;
    var w1 := Step(w, Discover(path));
    var w2 := Step(w1, Loaded(p, HeadersRead(block)));
    w' := Step(w2, Route(p, {}));
    events := [Discover(path), Loaded(p, HeadersRead(block)), Route(p, {})];
    ContinueThrice(w, Discover(path), Loaded(p, HeadersRead(block)), Route(p, {}));
    Discovers(helo, w, path);
    ReadsHeaders(helo, w1, p, block);
    Routes(helo, w2, p, body);
  }

  // ---------------------------------------------------------------- sessions that stand in the way

  /** Nothing has changed but sessions, their messages and what they keep in memory. */
  ghost predicate SameMail(w: World, w': World) {
    !w'.finished && w'.origin == w.origin && w'.next == w.next
  }

  lemma ReapsFirst(helo: string, w: World, k: nat)
    requires Reachable(helo, w) && !w.finished && k < |w.sessions| && w.sessions[k].state == Closed
    ensures var w' := Step(w, Reap(k));
            Reachable(helo, w') && SameMail(w, w') && |w'.sessions| == |w.sessions| - 1
  {
    assert Reachable(helo, Step(w, Reap(k))) && !w.store.fault by {
      ReachableStep(helo, w, Reap(k));
    }
  }

  /** The server answers QUIT. */
  lemma QuitsNow(helo: string, w: World, k: nat)
    requires Reachable(helo, w) && !w.finished && k < |w.sessions| && w.sessions[k].state == SendingQuit
    ensures var w' := Step(w, Reply(k, 221));
            && Reachable(helo, w') && SameMail(w, w')
            && |w'.sessions| == |w.sessions| && w'.sessions[k].state == Closed
  {
    assert Reachable(helo, Step(w, Reply(k, 221))) && !w.store.fault by {
      ReachableStep(helo, w, Reply(k, 221));
    }
  }

  /** A closed or quitting session is brought to its end. */
  lemma Removes(helo: string, w: World, k: nat) returns (more: seq<Event>, after: World)
    requires Reachable(helo, w) && !w.finished && k < |w.sessions|
    requires w.sessions[k].state == Closed || w.sessions[k].state == SendingQuit
    ensures after == Continue(w, more) && Reachable(helo, after) && SameMail(w, after)
    ensures |after.sessions| == |w.sessions| - 1
  {
    var first, w1 := [], w;
    if w.sessions[k].state == SendingQuit {
      QuitsNow(helo, w, k);
      first, w1 := [Reply(k, 221)], Step(w, Reply(k, 221));
      ContinueFirst(w, Reply(k, 221), []);
      assert [Reply(k, 221)] + [] == [Reply(k, 221)];
    }
    ReapsFirst(helo, w1, k);
    after := Step(w1, Reap(k));
    more := first + [Reap(k)];
    assert more[..|more| - 1] == first;
  }

  /** Every closed or quitting session can be brought to its end. */
  lemma {:induction false} Clears(helo: string, w: World, n: nat) returns (more: seq<Event>, after: World)
    requires Reachable(helo, w) && !w.finished && n == |w.sessions|
    ensures after == Continue(w, more) && Reachable(helo, after) && SameMail(w, after) && AllTalking(after)
    decreases n
  {
    if AllTalking(w) {
      more, after := [], w;
    } else {
      var k :| 0 <= k < |w.sessions| && (w.sessions[k].state == Closed || w.sessions[k].state == SendingQuit);
      var first, w1 := Removes(helo, w, k);
      more, after := Clears(helo, w1, n - 1);
      ContinueConcat(w, first, more);
      more := first + more;
    }
  }

  /** The file of one more mail has been unlinked; everything else that was routed has been before. */
  ghost predicate Unlinked(w: World, w': World, block: string, body: string) {
    var p := w.next;
    && p in w'.origin && w'.origin[p].block == block && w'.origin == w.origin[p := w'.origin[p]]
    && p in w'.store.bodies && w'.store.bodies[p] == body
    && p in w'.store.unlinked
  }

  /**
   * From every state that a run has reached, before the end, every new mail can be delivered: whatever its
   * header block is, as long as it is accepted and names somebody, and whatever its body is, it can reach
   * all its hosts, so that its file is unlinked.
   */
  lemma EveryMailCanBeDelivered(helo: string, events: seq<Event>, path: string, block: string, body: string)
    returns (more: seq<Event>)
    requires !Run(helo, events).finished
    requires NoNul(block) && NoNul(body) && Parse(block).state == HeadersLoaded && NamedAddresses(block) != []
    ensures Unlinked(Run(helo, events), Run(helo, events + more), block, body)
  {
    var w := Run(helo, events);
    var clear, w0 := Clears(helo, w, |w.sessions|);
    var first, w1 := Spreads(helo, w0, path, block, body);
    var second, after := BringsEverywhere(helo, w1, w.next, DestinationHosts(w1.origin[w.next].destinations), body);
    more := clear + (first + second);
    ContinueConcat(w0, first, second);
    ContinueConcat(w, clear, first + second);
    ContinueRun(helo, events, more);
    Unlinks(helo, events + more, w.next);
  }

  /** A message that has reached all hosts of a block that names somebody has been unlinked. */
  lemma Unlinks(helo: string, events: seq<Event>, p: Ptr)
    requires var w := Run(helo, events);
             && p in w.origin && NamedAddresses(w.origin[p].block) != []
             && forall h :: h in DestinationHosts(w.origin[p].destinations) ==> (p, h) in w.store.delivered
    ensures var w := Run(helo, events); p in w.store.unlinked && p in w.store.bodies
  {
    var w := Run(helo, events);
    RunKeepsInvariant(helo, events);
    OriginAddresses(w.origin[p]);
    AllDelivered(w.origin[p].destinations, p, w.store.delivered);
    UnlinkedIsDelivered(w, p);
    DeliveredWasRead(w, p, w.origin[p].destinations[0].host);
  }

  lemma AllDelivered(ds: seq<Destination>, p: Ptr, delivered: set<(Ptr, string)>)
    requires forall h :: h in DestinationHosts(ds) ==> (p, h) in delivered
    ensures forall i :: 0 <= i < |ds| ==> (p, ds[i].host) in delivered
  {
    forall i | 0 <= i < |ds| ensures (p, ds[i].host) in delivered {
      assert DestinationHosts(ds)[i] in DestinationHosts(ds);
    }
  }

  lemma DeliveredWasRead(w: World, p: Ptr, host: string)
    requires Invariant(w) && (p, host) in w.store.delivered
    ensures p in w.store.bodies
  {
    var i :| 0 <= i < |All(w)| && Delivers(All(w)[i], p, host);
    assert QueueLogOk(All(w)[i], w.store, w.origin);
  }
}
