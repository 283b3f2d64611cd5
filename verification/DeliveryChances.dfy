/** Exactly which queued messages can still be delivered, and that the one assertion can fail. */
module DeliveryChances {
  import opened Text
  import opened Recipients
  import opened Messages
  import opened Sessions
  import opened Delivery
  import opened DeliveryInvariants
  import opened DeliveryRuns
  import opened DeliverySafety
  import opened DeliveryOrder
  import opened DeliveryProgress

  // ---------------------------------------------------------------- messages that have failed

  /** The message could not be loaded; it may have been freed since. */
  ghost predicate Failed(w: World, p: Ptr) {
    p in w.origin && (p in w.store.heap ==> w.store.heap[p].state == LoadingFailed)
  }

  lemma FailedShallow(w: World, w': World, p: Ptr)
    requires Failed(w, p) && Shallow(w.store, w'.store) && p in w'.origin
    ensures Failed(w', p)
  {
  }

  lemma FailedRoute(w: World, p: Ptr, q: Ptr, refused: set<string>)
    requires Failed(w, p)
    ensures Failed(RouteMessage(w, q, refused), p)
  {
    if q in w.store.heap && w.store.heap[q].state == HeadersLoaded {
      var m := w.store.heap[q];
      var taken := w.(messages := Without(w.messages, q), origin := w.origin[q := m]);
      var routed := RouteAll(taken, q, DestinationHosts(m.destinations), refused);
      RouteAllShallow(taken, q, DestinationHosts(m.destinations), refused);
      ReleaseShallow(routed.store, q);
      FailedShallow(w, routed, p);
      FailedShallow(routed, routed.(store := Release(routed.store, q)), p);
    } else {
      ReleaseShallow(w.store, q);
    }
  }

  lemma FailedApply(w: World, e: Event, p: Ptr)
    requires Failed(w, p) && Enabled(w, e) && p < w.next
    ensures Failed(Apply(w, e), p)
  {
    match e
    case Reply(i, code) => DispatchShallow(w.helo, w.store, w.sessions[i], code);
    case BodyPoll(i) => PollShallow(w.store, w.sessions[i]);
    case Route(q, refused) => FailedRoute(w, p, q, refused);
    case Reap(i) => ReleaseAllShallow(w.store, w.sessions[i].messages);
    case Shutdown =>
      FinalizeAllShallow(w.store, w.sessions);
      ReleaseAllShallow(FinalizeAll(w.store, w.sessions), w.messages);
      ShallowThen(w.store, FinalizeAll(w.store, w.sessions), Apply(w, e).store);
    case Discover(_) =>
    case Loaded(_, _) =>
    case Network(_, _) =>
    case Collision(_, _) =>
  }

  /** A message that is being acknowledged has its body. */
  lemma AcknowledgedIsLoaded(w: World, e: Event, p: Ptr)
    requires Invariant(w) && Acknowledges(w, e, p)
    ensures p in w.store.heap && w.store.heap[p].state == BodyLoaded
  {
    assert PhaseOk(w.sessions[e.session], w.store, w.origin);
  }

  // ---------------------------------------------------------------- sessions that have come to their end

  predicate Leaving(s: Session) {
    s.state == Closed || s.state == SendingQuit
  }

  /** The message was given to a session for the host that has been closed, or says QUIT. */
  ghost predicate Stranded(w: World, p: Ptr, host: string) {
    exists i :: 0 <= i < |All(w)| && StrandedAt(w, i, p, host)
  }

  predicate StrandedAt(w: World, i: nat, p: Ptr, host: string)
    requires i < |All(w)|
  {
    var s := All(w)[i];
    s.destinationHost == host && p in s.log.enqueued && (i >= |w.sessions| || Leaving(s))
  }

  /** One session has changed; if it was leaving, it still is. */
  lemma StrandedReplaced(w: World, w': World, k: nat, p: Ptr, host: string)
    requires Stranded(w, p, host) && k < |w.sessions| && w'.archive == w.archive
    requires |w'.sessions| == |w.sessions| && w'.sessions == w.sessions[k := w'.sessions[k]]
    requires w'.sessions[k].destinationHost == w.sessions[k].destinationHost
    requires Leaving(w.sessions[k]) ==>
               Leaving(w'.sessions[k]) && w'.sessions[k].log.enqueued == w.sessions[k].log.enqueued
    ensures Stranded(w', p, host)
  {
    var i :| 0 <= i < |All(w)| && StrandedAt(w, i, p, host);
    assert All(w')[i] == if i == k then w'.sessions[k] else All(w)[i];
    assert StrandedAt(w', i, p, host);
  }

  lemma StrandedRouteTo(w: World, q: Ptr, h: string, refused: bool, p: Ptr, host: string)
    requires Stranded(w, p, host)
    ensures Stranded(RouteTo(w, q, h, refused), p, host)
  {
    var i :| 0 <= i < |All(w)| && StrandedAt(w, i, p, host);
    var k, w' := FindSession(w.sessions, h), RouteTo(w, q, h, refused);
    if k == |w.sessions| {
      assert All(w')[i + 1] == All(w)[i];
      assert StrandedAt(w', i + 1, p, host);
    } else {
      assert i != k ==> All(w')[i] == All(w)[i];
      assert StrandedAt(w', i, p, host);
    }
  }

  lemma {:induction false} StrandedRouteAll(w: World, q: Ptr, hosts: seq<string>, refused: set<string>,
          p: Ptr, host: string)
    requires Stranded(w, p, host)
    ensures Stranded(RouteAll(w, q, hosts, refused), p, host)
    decreases |hosts|
  {
    if hosts != [] {
      StrandedRouteTo(w, q, hosts[0], hosts[0] in refused, p, host);
      StrandedRouteAll(RouteTo(w, q, hosts[0], hosts[0] in refused), q, hosts[1..], refused, p, host);
    }
  }

  lemma StrandedFrame(w: World, w': World, p: Ptr, host: string)
    requires Stranded(w, p, host) && w'.sessions == w.sessions && w'.archive == w.archive
    ensures Stranded(w', p, host)
  {
    var i :| 0 <= i < |All(w)| && StrandedAt(w, i, p, host);
    assert StrandedAt(w', i, p, host);
  }

  lemma StrandedRoute(w: World, q: Ptr, refused: set<string>, p: Ptr, host: string)
    requires Stranded(w, p, host)
    ensures Stranded(RouteMessage(w, q, refused), p, host)
  {
    if q in w.store.heap && w.store.heap[q].state == HeadersLoaded {
      var m := w.store.heap[q];
      var taken := w.(messages := Without(w.messages, q), origin := w.origin[q := m]);
      var routed := RouteAll(taken, q, DestinationHosts(m.destinations), refused);
      StrandedFrame(w, taken, p, host);
      StrandedRouteAll(taken, q, DestinationHosts(m.destinations), refused, p, host);
      StrandedFrame(routed, routed.(store := Release(routed.store, q)), p, host);
    } else {
      StrandedFrame(w, RouteMessage(w, q, refused), p, host);
    }
  }

  lemma StrandedReap(w: World, k: nat, p: Ptr, host: string)
    requires Stranded(w, p, host) && Enabled(w, Reap(k))
    ensures Stranded(Apply(w, Reap(k)), p, host)
  {
    var i :| 0 <= i < |All(w)| && StrandedAt(w, i, p, host);
    var w', n := Apply(w, Reap(k)), |w.sessions|;
    if i == k {
      assert All(w')[|All(w')| - 1] == w.sessions[k];
      assert StrandedAt(w', |All(w')| - 1, p, host);
    } else {
      var j := if i < k then i else i - 1;
      assert All(w')[j] == All(w)[i];
      assert StrandedAt(w', j, p, host);
    }
  }

  lemma StrandedShutdown(w: World, p: Ptr, host: string)
    requires Stranded(w, p, host)
    ensures Stranded(Apply(w, Shutdown), p, host)
  {
    var i :| 0 <= i < |All(w)| && StrandedAt(w, i, p, host);
    var w', n := Apply(w, Shutdown), |w.sessions|;
    var j := if i < n then |w.archive| + i else i - n;
    assert All(w')[j] == All(w)[i];
    assert StrandedAt(w', j, p, host);
  }

  lemma StrandedApply(w: World, e: Event, p: Ptr, host: string)
    requires Stranded(w, p, host) && Enabled(w, e)
    ensures Stranded(Apply(w, e), p, host)
  {
    match e
    case Reply(i, code) =>
      ReplyDelivers(w, i, code);
      StrandedReplaced(w, Apply(w, e), i, p, host);
    case BodyPoll(i) =>
      StrandedReplaced(w, Apply(w, e), i, p, host);
    case Network(i, state) => StrandedReplaced(w, Apply(w, e), i, p, host);
    case Collision(i, _) => StrandedReplaced(w, Apply(w, e), i, p, host);
    case Route(q, refused) => StrandedRoute(w, q, refused, p, host);
    case Reap(k) => StrandedReap(w, k, p, host);
    case Shutdown => StrandedShutdown(w, p, host);
    case Discover(_) => StrandedFrame(w, Apply(w, e), p, host);
    case Loaded(_, _) => StrandedFrame(w, Apply(w, e), p, host);
  }

  lemma EnqueuedElsewhere(all: seq<Session>, i: nat, j: nat, p: Ptr)
    requires EnqueuedOnce(all) && i < |all| && j < |all| && i != j
    requires all[i].destinationHost == all[j].destinationHost && p in all[j].log.enqueued
    ensures p !in all[i].log.enqueued
  {
  }

  /** A message is acknowledged by the one session for the host that was given it, and that still talks. */
  lemma AcknowledgedIsNotStranded(w: World, e: Event, p: Ptr)
    requires Invariant(w) && Acknowledges(w, e, p)
    ensures !Stranded(w, p, w.sessions[e.session].destinationHost)
  {
    var j, s := e.session, w.sessions[e.session];
    assert All(w)[j] == s && QueueLogOk(All(w)[j], w.store, w.origin);
    assert (TransferMessages(s.log.transfers) + s.messages)[|s.log.transfers|] == p;
    forall i | 0 <= i < |All(w)| ensures !StrandedAt(w, i, p, s.destinationHost) {
      if i != j && All(w)[i].destinationHost == s.destinationHost {
        EnqueuedElsewhere(All(w), i, j, p);
      }
    }
  }

  // ---------------------------------------------------------------- for good

  /** There is nothing that could deliver the message to the host. */
  ghost predicate Hopeless(w: World, p: Ptr, host: string) {
    (p, host) !in w.store.delivered && (Failed(w, p) || Stranded(w, p, host))
  }

  lemma HopelessStep(w: World, e: Event, p: Ptr, host: string)
    requires Invariant(w) && Hopeless(w, p, host)
    ensures Hopeless(Step(w, e), p, host)
  {
    if !w.store.fault && !w.finished && Enabled(w, e) {
      DeliversNothing(w, e, p, host);
      if Failed(w, p) {
        FailedApply(w, e, p);
      } else {
        StrandedApply(w, e, p, host);
      }
    }
  }

  lemma DeliversNothing(w: World, e: Event, p: Ptr, host: string)
    requires Invariant(w) && Hopeless(w, p, host)
    ensures (p, host) !in Step(w, e).store.delivered
  {
    StepDelivers(w, e);
    if Acknowledges(w, e, p) {
      AcknowledgesElsewhere(w, e, p, host);
      AcknowledgedDelivers(w, e, p, host);
    }
  }

  lemma AcknowledgesElsewhere(w: World, e: Event, p: Ptr, host: string)
    requires Invariant(w) && Hopeless(w, p, host) && Acknowledges(w, e, p)
    ensures w.sessions[e.session].destinationHost != host
  {
    AcknowledgedIsLoaded(w, e, p);
    AcknowledgedIsNotStranded(w, e, p);
  }

  lemma AcknowledgedDelivers(w: World, e: Event, p: Ptr, host: string)
    requires Acknowledges(w, e, p) && w.sessions[e.session].destinationHost != host && (p, host) !in w.store.delivered
    ensures (p, host) !in Step(w, e).store.delivered
  {
    ReplyDelivers(w, e.session, e.code);
  }

  lemma {:induction false} HopelessRun(helo: string, w: World, more: seq<Event>, p: Ptr, host: string)
    requires Reachable(helo, w) && Hopeless(w, p, host)
    ensures Hopeless(Continue(w, more), p, host) && Reachable(helo, Continue(w, more))
    decreases |more|
  {
    if more != [] {
      var front := more[..|more| - 1];
      HopelessRun(helo, w, front, p, host);
      ReachableStep(helo, Continue(w, front), more[|more| - 1]);
      HopelessStep(Continue(w, front), more[|more| - 1], p, host);
    }
  }

  lemma NeverAccepted(helo: string, events: seq<Event>, more: seq<Event>, p: Ptr, host: string)
    requires Hopeless(Run(helo, events), p, host)
    ensures !AcceptedAt(Run(helo, events + more), p, host)
  {
    HopelessRun(helo, Run(helo, events), more, p, host);
    ContinueRun(helo, events, more);
    RunKeepsInvariant(helo, events + more);
    ServersAgree(helo, events + more);
    DeliveredIsAccepted(Run(helo, events + more), p, host);
  }

  /**
   * In every state that a run has reached: a queued message can still be accepted by a server for the host if
   * and only if the program goes on, its session is neither closed nor quitting, and its loading has not failed.
   */
  lemma QueuedMailCanBeDeliveredExactly(helo: string, events: seq<Event>, k: nat, p: Ptr)
    requires k < |Run(helo, events).sessions| && p in Run(helo, events).sessions[k].messages
    ensures var w := Run(helo, events);
            var host := w.sessions[k].destinationHost;
            (exists more :: AcceptedAt(Run(helo, events + more), p, host)) <==> Started(w, k, p)
  {
    var w := Run(helo, events);
    if Started(w, k, p) {
      var more := QueuedMailCanBeDelivered(helo, events, k, p, "");
    } else {
      forall more ensures !AcceptedAt(Run(helo, events + more), p, w.sessions[k].destinationHost) {
        NotStarted(helo, events, more, k, p);
      }
    }
  }

  lemma NotStarted(helo: string, events: seq<Event>, more: seq<Event>, k: nat, p: Ptr)
    requires k < |Run(helo, events).sessions| && p in Run(helo, events).sessions[k].messages
    requires !Started(Run(helo, events), k, p)
    ensures !AcceptedAt(Run(helo, events + more), p, Run(helo, events).sessions[k].destinationHost)
  {
    var w := Run(helo, events);
    RunKeepsInvariant(helo, events);
    assert QueueOk(w.sessions[k], w.store, w.origin);
    if w.finished {
      FinishedStays(w, more);
      ContinueRun(helo, events, more);
      ServersAgree(helo, events);
      DeliveredIsAccepted(w, p, w.sessions[k].destinationHost);
    } else {
      if Leaving(w.sessions[k]) {
        LeavingIsStranded(w, k, p);
      }
      NeverAccepted(helo, events, more, p, w.sessions[k].destinationHost);
    }
  }

  lemma LeavingIsStranded(w: World, k: nat, p: Ptr)
    requires Invariant(w) && k < |w.sessions| && p in w.sessions[k].messages && Leaving(w.sessions[k])
    ensures Stranded(w, p, w.sessions[k].destinationHost)
  {
    assert All(w)[k] == w.sessions[k] && QueueLogOk(All(w)[k], w.store, w.origin);
    assert p in TransferMessages(w.sessions[k].log.transfers) + w.sessions[k].messages;
    assert StrandedAt(w, k, p, w.sessions[k].destinationHost);
  }

  lemma {:induction false} FinishedStays(w: World, more: seq<Event>)
    requires w.finished
    ensures Continue(w, more) == w
    decreases |more|
  {
    if more != [] {
      FinishedStays(w, more[..|more| - 1]);
    }
  }

  // ---------------------------------------------------------------- the assertion that can fail

  lemma TowardsRequest(helo: string, w: World, k: nat)
    requires Reachable(helo, w) && !w.finished && k < |w.sessions|
    requires w.sessions[k].state != Closed && !Requesting(w.sessions[k].state)
    ensures var w' := Step(w, Favour(w, k, ""));
            && Reachable(helo, w') && !w'.finished && |w'.sessions| == |w.sessions| && w'.sessions[k].state != Closed
            && (Requesting(w'.sessions[k].state) || Sooner(w, w', k))
  {
    ReachableStep(helo, w, Favour(w, k, ""));
    PhaseOf(w, k);
    NearsRequest(w, k);
  }

  predicate Sooner(w: World, w': World, k: nat)
    requires k < |w.sessions| && k < |w'.sessions|
  {
    var a, b := w.sessions[k], w'.sessions[k];
    || Stage(b.state) < Stage(a.state)
    || (Stage(b.state) == Stage(a.state) && Left(w'.store, b) < Left(w.store, a))
  }

  lemma NearsRequest(w: World, k: nat)
    requires !w.store.fault && !w.finished && k < |w.sessions| && PhaseOk(w.sessions[k], w.store, w.origin)
    requires w.sessions[k].state != Closed && !Requesting(w.sessions[k].state)
    ensures var w' := Step(w, Favour(w, k, ""));
            && !w'.finished && |w'.sessions| == |w.sessions| && w'.sessions[k].state != Closed
            && (Requesting(w'.sessions[k].state) || Sooner(w, w', k))
  {
  }

  /** Every session that is not closed can come to make a request. */
  lemma {:induction false} Requests(helo: string, w: World, k: nat, stage: nat, left: nat)
    returns (more: seq<Event>, after: World)
    requires Reachable(helo, w) && !w.finished && k < |w.sessions| && w.sessions[k].state != Closed
    requires stage == Stage(w.sessions[k].state) && left == Left(w.store, w.sessions[k])
    ensures after == Continue(w, more) && Reachable(helo, after) && !after.finished
    ensures k < |after.sessions| && Requesting(after.sessions[k].state)
    decreases stage, left
  {
    if Requesting(w.sessions[k].state) {
      more, after := [], w;
    } else {
      var e := Favour(w, k, "");
      var w1 := Step(w, e);
      TowardsRequest(helo, w, k);
      if Requesting(w1.sessions[k].state) {
        more, after := [], w1;
      } else {
        more, after := Requests(helo, w1, k, Stage(w1.sessions[k].state), Left(w1.store, w1.sessions[k]));
      }
      ContinueFirst(w, e, more);
      more := [e] + more;
    }
  }

  lemma CollisionAborts(helo: string, w: World, k: nat, code: int)
    requires Reachable(helo, w) && !w.finished && k < |w.sessions| && Requesting(w.sessions[k].state) && code != -1
    ensures Step(w, Collision(k, code)).aborted
  {
    assert !w.store.fault by {
      ReachableStep(helo, w, Collision(k, code));
    }
  }

  /**
   * From every state that a run has reached, before the end: each session that is not closed can come to
   * make a request, and then the assertion can fail, with any code.
   */
  lemma AbortIsPossible(helo: string, events: seq<Event>, k: nat, code: int) returns (more: seq<Event>)
    requires var w := Run(helo, events); !w.finished && k < |w.sessions| && w.sessions[k].state != Closed
    requires code != -1
    ensures Run(helo, events + more).aborted
  {
    var w := Run(helo, events);
    var first, after := Requests(helo, w, k, Stage(w.sessions[k].state), Left(w.store, w.sessions[k]));
    CollisionAborts(helo, after, k, code);
    more := first + [Collision(k, code)];
    assert more[..|more| - 1] == first;
    ContinueRun(helo, events, more);
  }

  /** There are such runs, for every header block that is accepted and names somebody. */
  lemma SomeRunAborts(helo: string, path: string, block: string, code: int) returns (events: seq<Event>)
    requires NoNul(block) && Parse(block).state == HeadersLoaded && NamedAddresses(block) != [] && code != -1
    ensures Run(helo, events).aborted
  {
    assert Initial(helo) == Run(helo, []);
    var first, w := Spreads(helo, Initial(helo), path, block, "");
    ContinueRun(helo, [], first);
    assert [] + first == first;
    RunKeepsInvariant(helo, first);
    OriginAddresses(w.origin[0]);
    var hosts := DestinationHosts(w.origin[0].destinations);
    assert hosts[0] in hosts;
    var k :| 0 <= k < |w.sessions| && w.sessions[k].destinationHost == hosts[0] && Waits(w.sessions[k], 0);
    var more := AbortIsPossible(helo, first, k, code);
    events := first + more;
  }
}
