/** What routing does: which sessions a message is given to, and that none of its hosts is ever forgotten. */
module DeliveryRouting {
  import opened Recipients
  import opened Messages
  import opened Sessions
  import opened Delivery
  import opened DeliveryInvariants
  import opened DeliveryRuns

  // ---------------------------------------------------------------- one message

  predicate Known(sessions: seq<Session>, host: string) {
    FindSession(sessions, host) < |sessions|
  }

  /** The session for a host; one that is not there yet resolves, or is closed when the resolver is refused. */
  function SessionFor(sessions: seq<Session>, host: string, refused: set<string>): Session {
    var k := FindSession(sessions, host);
    if k < |sessions| then sessions[k]
    else Session(if host in refused then Closed else ResolvingDns, host, [], Unset,
                 Log([], [], [], [], ResolvingDns, false))
  }

  /** The message is at the end of the queue, once more than before; nothing else has changed. */
  predicate Given(s: Session, s': Session, p: Ptr) {
    && s'.messages == s.messages + [p] && s'.log.enqueued == s.log.enqueued + [p]
    && s' == s.(messages := s'.messages, log := s.log.(enqueued := s'.log.enqueued))
  }

  /** Exactly the sessions of these hosts have been given the message; they are there now. */
  ghost predicate GivenTo(before: seq<Session>, after: seq<Session>, p: Ptr, hosts: seq<string>, refused: set<string>) {
    && DistinctHosts(after)
    && (forall h :: Known(after, h) <==> Known(before, h) || h in hosts)
    && forall h :: Known(after, h) ==>
         if h in hosts then Given(SessionFor(before, h, refused), SessionFor(after, h, refused), p)
         else SessionFor(after, h, refused) == SessionFor(before, h, refused)
  }

  lemma FoundAt(sessions: seq<Session>, k: nat)
    requires DistinctHosts(sessions) && k < |sessions|
    ensures FindSession(sessions, sessions[k].destinationHost) == k
  {
  }

  /** Another session stays where it can be found. */
  lemma FoundBehind(s: Session, sessions: seq<Session>, host: string)
    requires s.destinationHost != host
    ensures FindSession([s] + sessions, host) == 1 + FindSession(sessions, host)
  {
    assert ([s] + sessions)[1..] == sessions;
  }

  lemma {:induction false} FoundReplaced(sessions: seq<Session>, k: nat, s: Session, host: string)
    requires k < |sessions| && s.destinationHost == sessions[k].destinationHost
    ensures FindSession(sessions[k := s], host) == FindSession(sessions, host)
  {
    if k > 0 {
      assert sessions[k := s][1..] == sessions[1..][k - 1 := s];
      FoundReplaced(sessions[1..], k - 1, s, host);
    } else {
      assert sessions[k := s][1..] == sessions[1..];
    }
  }

  lemma RouteToGives(w: World, p: Ptr, host: string, refused: set<string>)
    requires DistinctHosts(w.sessions)
    ensures GivenTo(w.sessions, RouteTo(w, p, host, host in refused).sessions, p, [host], refused)
  {
    var k, s := FindSession(w.sessions, host), SessionFor(w.sessions, host, refused);
    if k == |w.sessions| {
      GivenToNew(w.sessions, Enqueued(s, p), p, host, refused);
    } else {
      GivenToKnown(w.sessions, Enqueued(s, p), p, host, refused);
    }
  }

  lemma GivenToNew(sessions: seq<Session>, s: Session, p: Ptr, host: string, refused: set<string>)
    requires DistinctHosts(sessions) && !Known(sessions, host) && Given(SessionFor(sessions, host, refused), s, p)
    ensures GivenTo(sessions, [s] + sessions, p, [host], refused)
  {
    var after := [s] + sessions;
    forall h | h != host
      ensures Known(after, h) <==> Known(sessions, h)
      ensures SessionFor(after, h, refused) == SessionFor(sessions, h, refused)
    {
      FoundBehind(s, sessions, h);
    }
    assert SessionFor(after, host, refused) == s;
  }

  lemma GivenToKnown(sessions: seq<Session>, s: Session, p: Ptr, host: string, refused: set<string>)
    requires DistinctHosts(sessions) && Known(sessions, host) && Given(SessionFor(sessions, host, refused), s, p)
    ensures GivenTo(sessions, sessions[FindSession(sessions, host) := s], p, [host], refused)
  {
    var after := sessions[FindSession(sessions, host) := s];
    forall h
      ensures Known(after, h) <==> Known(sessions, h)
      ensures Known(after, h) && h == host ==> SessionFor(after, h, refused) == s
      ensures Known(after, h) && h != host ==> SessionFor(after, h, refused) == SessionFor(sessions, h, refused)
    {
      FoundReplaced(sessions, FindSession(sessions, host), s, h);
    }
  }

  lemma GivenToMore(a: seq<Session>, b: seq<Session>, c: seq<Session>, p: Ptr, host: string, hosts: seq<string>,
          refused: set<string>)
    requires GivenTo(a, b, p, [host], refused) && GivenTo(b, c, p, hosts, refused) && host !in hosts
    ensures GivenTo(a, c, p, [host] + hosts, refused)
  {
  }

  lemma {:induction false} RouteAllGives(w: World, p: Ptr, hosts: seq<string>, refused: set<string>)
    requires DistinctHosts(w.sessions) && Distinct(hosts)
    ensures GivenTo(w.sessions, RouteAll(w, p, hosts, refused).sessions, p, hosts, refused)
    decreases |hosts|
  {
    if hosts != [] {
      var w1 := RouteTo(w, p, hosts[0], hosts[0] in refused);
      RouteToGives(w, p, hosts[0], refused);
      RouteAllGives(w1, p, hosts[1..], refused);
      assert hosts == [hosts[0]] + hosts[1..];
      GivenToMore(w.sessions, w1.sessions, RouteAll(w, p, hosts, refused).sessions, p, hosts[0], hosts[1..], refused);
    }
  }

  /**
   * A message whose headers were accepted is given to the sessions of exactly its hosts, at the end of their
   * queues. The sessions that are made for it begin with the search for a server, but for those whose
   * resolver is refused. It is remembered as it is now, and leaves the list.
   */
  lemma RouteGivesExactly(w: World, p: Ptr, refused: set<string>)
    requires Invariant(w) && !w.finished && p in w.messages && w.store.heap[p].state == HeadersLoaded
    ensures var w', m := Step(w, Route(p, refused)), w.store.heap[p];
            && GivenTo(w.sessions, w'.sessions, p, DestinationHosts(m.destinations), refused)
            && w'.origin == w.origin[p := m] && w'.messages == Without(w.messages, p) && w'.archive == w.archive
  {
    ListedHosts(w, p);
    RouteMessageGives(w, p, refused);
  }

  lemma ListedHosts(w: World, p: Ptr)
    requires Invariant(w) && p in w.messages && p in w.store.heap && w.store.heap[p].state == HeadersLoaded
    ensures DistinctHosts(w.sessions) && Distinct(DestinationHosts(w.store.heap[p].destinations)) && !w.store.fault
  {
    assert ListedOk(w.store.heap[p]);
    HostsAreDistinct(w.store.heap[p].destinations);
  }

  lemma RouteMessageGives(w: World, p: Ptr, refused: set<string>)
    requires p in w.store.heap && w.store.heap[p].state == HeadersLoaded && DistinctHosts(w.sessions)
    requires Distinct(DestinationHosts(w.store.heap[p].destinations))
    ensures var w', m := RouteMessage(w, p, refused), w.store.heap[p];
            && GivenTo(w.sessions, w'.sessions, p, DestinationHosts(m.destinations), refused)
            && w'.origin == w.origin[p := m] && w'.messages == Without(w.messages, p) && w'.archive == w.archive
  {
    var m := w.store.heap[p];
    var taken := w.(messages := Without(w.messages, p), origin := w.origin[p := m]);
    RouteAllGives(taken, p, DestinationHosts(m.destinations), refused);
    RouteAllKeeps(taken, p, DestinationHosts(m.destinations), refused);
  }

  lemma HostsAreDistinct(ds: seq<Destination>)
    requires DistinctDestinations(ds)
    ensures Distinct(DestinationHosts(ds))
  {
    var hosts := DestinationHosts(ds);
    forall i, j | 0 <= i < j < |hosts| ensures hosts[i] != hosts[j] {
      assert ds[i].host != ds[j].host;
    }
  }

  lemma {:induction false} RouteAllKeeps(w: World, p: Ptr, hosts: seq<string>, refused: set<string>)
    ensures var w' := RouteAll(w, p, hosts, refused);
            w'.messages == w.messages && w'.origin == w.origin && w'.archive == w.archive && w'.next == w.next
    decreases |hosts|
  {
    if hosts != [] {
      RouteAllKeeps(RouteTo(w, p, hosts[0], hosts[0] in refused), p, hosts[1..], refused);
    }
  }

  // ---------------------------------------------------------------- all runs

  /** A session for the host has been given the message, whether it is still there or not. */
  ghost predicate WasGiven(w: World, p: Ptr, host: string) {
    exists i :: 0 <= i < |All(w)| && All(w)[i].destinationHost == host && p in All(w)[i].log.enqueued
  }

  ghost predicate AllGiven(w: World) {
    forall p, h :: p in w.origin && h in DestinationHosts(w.origin[p].destinations) ==> WasGiven(w, p, h)
  }

  /** The same session later. */
  predicate Later(s: Session, s': Session) {
    s'.destinationHost == s.destinationHost && s.log.enqueued <= s'.log.enqueued
  }

  lemma DispatchLater(helo: string, st: Store, s: Session, code: int)
    ensures Later(s, DispatchReply(helo, st, s, code).session)
  {
    var heard := Heard(s, code);
    match s.state
    case SendingHelo => StartLater(st, heard);
    case SendingDataPayload => ThenLater(st, heard, true);
    case SendingRset => ThenLater(st, heard, false);
    case _ =>
  }

  lemma StartLater(st: Store, s: Session)
    ensures Later(s, StartTransfer(st, s).session)
  {
  }

  lemma ThenLater(st: Store, s: Session, sent: bool)
    ensures Later(s, Then(FinishTransfer(st, s, sent)).session)
  {
    var o := FinishTransfer(st, s, sent);
    StartLater(o.store, o.session);
  }

  lemma GivenIfReplaced(w: World, w': World, k: nat, p: Ptr, host: string)
    requires WasGiven(w, p, host) && k < |w.sessions| && w'.archive == w.archive
    requires |w'.sessions| == |w.sessions| && w'.sessions == w.sessions[k := w'.sessions[k]]
    requires Later(w.sessions[k], w'.sessions[k])
    ensures WasGiven(w', p, host)
  {
    var i :| 0 <= i < |All(w)| && All(w)[i].destinationHost == host && p in All(w)[i].log.enqueued;
    assert All(w')[i] == if i == k then w'.sessions[k] else All(w)[i];
    assert All(w')[i].destinationHost == host && p in All(w')[i].log.enqueued;
  }

  lemma GivenIfMoved(w: World, w': World, p: Ptr, host: string)
    requires WasGiven(w, p, host)
    requires forall s :: s in All(w) ==> s in All(w')
    ensures WasGiven(w', p, host)
  {
    var i :| 0 <= i < |All(w)| && All(w)[i].destinationHost == host && p in All(w)[i].log.enqueued;
    assert All(w)[i] in All(w');
    var j :| 0 <= j < |All(w')| && All(w')[j] == All(w)[i];
    assert All(w')[j].destinationHost == host && p in All(w')[j].log.enqueued;
  }

  lemma GivenIfRouted(w: World, w': World, q: Ptr, hosts: seq<string>, refused: set<string>, p: Ptr, host: string)
    requires DistinctHosts(w.sessions) && GivenTo(w.sessions, w'.sessions, q, hosts, refused) && w'.archive == w.archive
    requires WasGiven(w, p, host) || (p == q && host in hosts)
    ensures WasGiven(w', p, host)
  {
    if p == q && host in hosts {
      var k := FindSession(w'.sessions, host);
      assert Known(w'.sessions, host) && All(w')[k] == w'.sessions[k];
    } else {
      var i :| 0 <= i < |All(w)| && All(w)[i].destinationHost == host && p in All(w)[i].log.enqueued;
      if i < |w.sessions| {
        FoundAt(w.sessions, i);
        var k := FindSession(w'.sessions, host);
        assert Known(w.sessions, host) && Known(w'.sessions, host) && All(w')[k] == w'.sessions[k];
        assert SessionFor(w.sessions, host, refused) == w.sessions[i];
      } else {
        assert All(w')[i - |w.sessions| + |w'.sessions|] == All(w)[i];
      }
    }
  }

  lemma GivenStays(w: World, e: Event, p: Ptr, host: string)
    requires Invariant(w) && !w.finished && Enabled(w, e) && WasGiven(w, p, host)
    ensures WasGiven(Apply(w, e), p, host)
  {
    match e
    case Reply(i, _) => GivenIfDispatched(w, e, i, p, host);
    case BodyPoll(i) => GivenIfDispatched(w, e, i, p, host);
    case Network(i, _) => GivenIfDispatched(w, e, i, p, host);
    case Collision(i, _) => GivenIfDispatched(w, e, i, p, host);
    case Route(q, refused) => GivenIfLookedAt(w, q, refused, p, host);
    case Reap(i) =>
      ReapMoves(w, i);
      GivenIfMoved(w, Apply(w, e), p, host);
    case Shutdown =>
      ShutdownMoves(w);
      GivenIfMoved(w, Apply(w, e), p, host);
    case Discover(_) => GivenIfMoved(w, Apply(w, e), p, host);
    case Loaded(_, _) => GivenIfMoved(w, Apply(w, e), p, host);
  }

  lemma GivenIfDispatched(w: World, e: Event, i: nat, p: Ptr, host: string)
    requires WasGiven(w, p, host) && Enabled(w, e)
    requires match e
             case Reply(k, _) => i == k
             case BodyPoll(k) => i == k
             case Network(k, _) => i == k
             case Collision(k, _) => i == k
             case _ => false
    ensures WasGiven(Apply(w, e), p, host)
  {
    if e.Reply? {
      DispatchLater(w.helo, w.store, w.sessions[i], e.code);
    }
    GivenIfReplaced(w, Apply(w, e), i, p, host);
  }

  lemma GivenIfLookedAt(w: World, q: Ptr, refused: set<string>, p: Ptr, host: string)
    requires Invariant(w) && !w.finished && Enabled(w, Route(q, refused)) && WasGiven(w, p, host)
    ensures WasGiven(RouteMessage(w, q, refused), p, host)
  {
    if w.store.heap[q].state == HeadersLoaded {
      RouteGivesExactly(w, q, refused);
      var hosts := DestinationHosts(w.store.heap[q].destinations);
      GivenIfRouted(w, RouteMessage(w, q, refused), q, hosts, refused, p, host);
    } else {
      GivenIfMoved(w, RouteMessage(w, q, refused), p, host);
    }
  }

  lemma ReapMoves(w: World, k: nat)
    requires Enabled(w, Reap(k))
    ensures forall s :: s in All(w) ==> s in All(Apply(w, Reap(k)))
  {
    var w' := Apply(w, Reap(k));
    forall s | s in All(w) ensures s in All(w') {
      var i :| 0 <= i < |All(w)| && All(w)[i] == s;
      var j := if i < k then i else if i == k then |All(w')| - 1 else i - 1;
      assert All(w')[j] == s;
    }
  }

  lemma ShutdownMoves(w: World)
    ensures forall s :: s in All(w) ==> s in All(Apply(w, Shutdown))
  {
  }

  lemma AllGivenStep(w: World, e: Event)
    requires Invariant(w) && !w.finished && Enabled(w, e) && AllGiven(w)
    ensures AllGiven(Apply(w, e))
  {
    var w' := Apply(w, e);
    OriginGrows(w, e);
    forall p, h | p in w'.origin && h in DestinationHosts(w'.origin[p].destinations) ensures WasGiven(w', p, h) {
      if p in w.origin && w'.origin[p] == w.origin[p] {
        GivenStays(w, e, p, h);
      } else {
        RouteGivesExactly(w, p, e.refused);
        GivenIfRouted(w, w', p, DestinationHosts(w.store.heap[p].destinations), e.refused, p, h);
      }
    }
  }

  /** Only routing adds to what has been routed. */
  lemma OriginGrows(w: World, e: Event)
    requires Invariant(w) && !w.finished && Enabled(w, e)
    ensures forall p :: p in Apply(w, e).origin ==>
              || (p in w.origin && Apply(w, e).origin[p] == w.origin[p])
              || (e.Route? && e.message == p && w.store.heap[p].state == HeadersLoaded && p in w.messages
                  && Apply(w, e).origin[p] == w.store.heap[p])
  {
    if e.Route? {
      RoutedOrigin(w, e.message, e.refused);
    }
  }

  lemma RoutedOrigin(w: World, p: Ptr, refused: set<string>)
    requires p in w.store.heap
    ensures RouteMessage(w, p, refused).origin
         == if w.store.heap[p].state == HeadersLoaded then w.origin[p := w.store.heap[p]] else w.origin
  {
    if w.store.heap[p].state == HeadersLoaded {
      var m := w.store.heap[p];
      var taken := w.(messages := Without(w.messages, p), origin := w.origin[p := m]);
      RouteAllKeeps(taken, p, DestinationHosts(m.destinations), refused);
    }
  }

  /**
   * In every run: each message that has been routed was given to a session for each of the hosts it names,
   * and no session was ever given one that does not name its host.
   */
  lemma {:induction false} EveryHostIsGiven(helo: string, events: seq<Event>)
    ensures AllGiven(Run(helo, events))
    ensures forall s, p :: s in All(Run(helo, events)) && p in s.log.enqueued ==>
              && p in Run(helo, events).origin
              && s.destinationHost in DestinationHosts(Run(helo, events).origin[p].destinations)
    decreases |events|
  {
    RunKeepsInvariant(helo, events);
    GivenIsNamed(Run(helo, events));
    if events != [] {
      var before, e := events[..|events| - 1], events[|events| - 1];
      EveryHostIsGiven(helo, before);
      RunKeepsInvariant(helo, before);
      if !Run(helo, before).finished && Enabled(Run(helo, before), e) {
        AllGivenStep(Run(helo, before), e);
      }
    }
  }

  lemma GivenIsNamed(w: World)
    requires Invariant(w)
    ensures forall s, p :: s in All(w) && p in s.log.enqueued ==>
              p in w.origin && s.destinationHost in DestinationHosts(w.origin[p].destinations)
  {
    forall s, p | s in All(w) && p in s.log.enqueued
      ensures p in w.origin && s.destinationHost in DestinationHosts(w.origin[p].destinations)
    {
      var i :| 0 <= i < |All(w)| && All(w)[i] == s;
      assert QueueLogOk(All(w)[i], w.store, w.origin);
      var k :| 0 <= k < |w.origin[p].destinations| && w.origin[p].destinations[k].host == s.destinationHost;
      assert DestinationHosts(w.origin[p].destinations)[k] == s.destinationHost;
    }
  }

  // ---------------------------------------------------------------- names of files

  /** The files that the maildir has reported, in order. */
  function Discovered(helo: string, events: seq<Event>): seq<string>
    decreases |events|
  {
    if events == [] then []
    else
      var before, e := events[..|events| - 1], events[|events| - 1];
      Discovered(helo, before) + if e.Discover? && !Run(helo, before).finished then [e.path] else []
  }

  /** Messages are numbered in the order of their files, and each keeps the name of its own. */
  ghost predicate NamedAfter(w: World, paths: seq<string>) {
    && w.next == |paths|
    && (forall p :: p in w.store.heap ==> p < w.next && w.store.heap[p].path == paths[p])
    && (forall p :: p in w.origin ==> p < w.next && w.origin[p].path == paths[p])
  }

  lemma NamedIfShallow(w: World, w': World, paths: seq<string>)
    requires NamedAfter(w, paths) && Shallow(w.store, w'.store) && w'.next == w.next
    requires forall p :: p in w'.origin ==>
               (p in w.origin && w'.origin[p] == w.origin[p]) || (p in w.store.heap && w'.origin[p] == w.store.heap[p])
    ensures NamedAfter(w', paths)
  {
  }

  /** What an event that neither finds nor reads a file does to the messages. */
  lemma ApplyShallow(w: World, e: Event)
    requires Invariant(w) && !w.finished && Enabled(w, e) && !e.Discover? && !e.Loaded?
    ensures Shallow(w.store, Apply(w, e).store) && Apply(w, e).next == w.next
  {
    match e
    case Reply(i, code) => DispatchShallow(w.helo, w.store, w.sessions[i], code);
    case BodyPoll(i) => PollShallow(w.store, w.sessions[i]);
    case Network(_, _) =>
    case Collision(_, _) =>
    case Reap(i) => ReleaseAllShallow(w.store, w.sessions[i].messages);
    case Route(p, refused) => RouteShallow(w, p, refused);
    case Shutdown =>
      FinalizeAllShallow(w.store, w.sessions);
      ReleaseAllShallow(FinalizeAll(w.store, w.sessions), w.messages);
      ShallowThen(w.store, FinalizeAll(w.store, w.sessions), Apply(w, e).store);
  }

  lemma RouteShallow(w: World, p: Ptr, refused: set<string>)
    requires p in w.store.heap
    ensures Shallow(w.store, RouteMessage(w, p, refused).store) && RouteMessage(w, p, refused).next == w.next
  {
    if w.store.heap[p].state == HeadersLoaded {
      var m := w.store.heap[p];
      var taken := w.(messages := Without(w.messages, p), origin := w.origin[p := m]);
      var routed := RouteAll(taken, p, DestinationHosts(m.destinations), refused);
      RouteAllShallow(taken, p, DestinationHosts(m.destinations), refused);
      RouteAllKeeps(taken, p, DestinationHosts(m.destinations), refused);
      ReleaseShallow(routed.store, p);
      ShallowThen(w.store, routed.store, Release(routed.store, p));
    } else {
      NotRoutedShallow(w, p, refused);
    }
  }

  lemma NotRoutedShallow(w: World, p: Ptr, refused: set<string>)
    requires p in w.store.heap && w.store.heap[p].state != HeadersLoaded
    ensures Shallow(w.store, RouteMessage(w, p, refused).store) && RouteMessage(w, p, refused).next == w.next
  {
    ReleaseShallow(w.store, p);
  }

  lemma NamedStep(w: World, e: Event, paths: seq<string>)
    requires Invariant(w) && !w.finished && Enabled(w, e) && NamedAfter(w, paths)
    ensures NamedAfter(Apply(w, e), paths + if e.Discover? then [e.path] else [])
  {
    assert paths + [] == paths;
    if e.Discover? {
      NamedDiscovered(w, e.path, paths);
    } else if e.Loaded? {
      NamedLoaded(w, e.message, e.result, paths);
    } else {
      ApplyShallow(w, e);
      OriginGrows(w, e);
      NamedIfShallow(w, Apply(w, e), paths);
    }
  }

  lemma NamedDiscovered(w: World, path: string, paths: seq<string>)
    requires NamedAfter(w, paths)
    ensures NamedAfter(Apply(w, Discover(path)), paths + [path])
  {
  }

  lemma NamedLoaded(w: World, p: Ptr, r: LoadResult, paths: seq<string>)
    requires NamedAfter(w, paths) && p in w.store.heap
    ensures NamedAfter(w.(store := Load(w.store, p, r)), paths)
  {
  }

  /** In every run: the messages are the files that were reported, in that order, under their own names. */
  lemma {:induction false} MessagesAreFiles(helo: string, events: seq<Event>)
    ensures NamedAfter(Run(helo, events), Discovered(helo, events))
    decreases |events|
  {
    if events != [] {
      var before, e := events[..|events| - 1], events[|events| - 1];
      MessagesAreFiles(helo, before);
      RunKeepsInvariant(helo, before);
      var w, paths := Run(helo, before), Discovered(helo, before);
      assert paths + [] == paths;
      if !w.finished && Enabled(w, e) {
        NamedStep(w, e, paths);
      }
    }
  }
}
