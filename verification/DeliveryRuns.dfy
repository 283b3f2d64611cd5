/** The invariant of the delivery protocol holds after every run. */
module DeliveryRuns {
  import opened Text
  import opened Recipients
  import opened Messages
  import opened Delivery
  import opened DeliveryInvariants
  import opened DeliverySteps
  import opened DeliveryEvents

  // ---------------------------------------------------------------- accepted messages stay as they were parsed

  ghost predicate SameHeaders(a: Message, b: Message) {
    && a.path == b.path && a.block == b.block
    && a.sender == b.sender && a.headers == b.headers && a.destinations == b.destinations
  }

  /** Nothing new is read. */
  ghost predicate Shallow(a: Store, b: Store) {
    b.bodies == a.bodies && KeepsParsed(a, b) && KeepsStages(a, b)
  }

  /** No message is new, and none goes on to another state but those whose bodies begin to be loaded. */
  ghost predicate KeepsStages(a: Store, b: Store) {
    forall q :: q in b.heap ==>
      && q in a.heap && b.heap[q].path == a.heap[q].path
      && (a.heap[q].state != HeadersLoaded ==> b.heap[q].state == a.heap[q].state)
  }

  /** No message becomes HeadersLoaded, and one that stays HeadersLoaded keeps what was parsed. */
  ghost predicate KeepsParsed(a: Store, b: Store) {
    forall q :: q in b.heap && b.heap[q].state == HeadersLoaded ==>
      q in a.heap && a.heap[q].state == HeadersLoaded && SameHeaders(a.heap[q], b.heap[q])
  }

  lemma {:induction false} ReleaseAllShallow(st: Store, ps: seq<Ptr>)
    ensures Shallow(st, ReleaseAll(st, ps)) && ReleaseAll(st, ps).delivered == st.delivered
    decreases |ps|
  {
    if ps != [] {
      assert Shallow(st, Release(st, ps[0]));
      ReleaseAllShallow(Release(st, ps[0]), ps[1..]);
    }
  }

  lemma {:induction false} FinalizeAllShallow(st: Store, sessions: seq<Session>)
    ensures Shallow(st, FinalizeAll(st, sessions)) && FinalizeAll(st, sessions).delivered == st.delivered
    decreases |sessions|
  {
    if sessions != [] {
      ReleaseAllShallow(st, sessions[0].messages);
      FinalizeAllShallow(ReleaseAll(st, sessions[0].messages), sessions[1..]);
    }
  }

  lemma {:induction false} RouteAllShallow(w: World, p: Ptr, hosts: seq<string>, refused: set<string>)
    ensures Shallow(w.store, RouteAll(w, p, hosts, refused).store)
    ensures RouteAll(w, p, hosts, refused).origin == w.origin
    ensures RouteAll(w, p, hosts, refused).store.delivered == w.store.delivered
    decreases |hosts|
  {
    if hosts != [] {
      var w1 := RouteTo(w, p, hosts[0], hosts[0] in refused);
      assert Shallow(w.store, w1.store);
      RouteAllShallow(w1, p, hosts[1..], refused);
    }
  }

  lemma StartTransferShallow(st: Store, s: Session)
    ensures Shallow(st, StartTransfer(st, s).store)
  {
    if s.messages != [] {
      StartLoadingShallow(st, s.messages[0]);
    }
  }

  lemma StartLoadingShallow(st: Store, p: Ptr)
    ensures Shallow(st, StartLoadingBody(st, p))
  {
  }

  lemma ShallowThen(a: Store, b: Store, c: Store)
    requires Shallow(a, b) && Shallow(b, c)
    ensures Shallow(a, c)
  {
  }

  lemma ReleaseShallow(st: Store, p: Ptr)
    ensures Shallow(st, Release(st, p))
  {
  }

  lemma FinishShallow(st: Store, s: Session, sent: bool)
    ensures Shallow(st, FinishTransfer(st, s, sent).store)
  {
    if s.messages != [] {
      var marked := Marked(st, s.messages[0], s.destinationHost, sent);
      assert Shallow(st, marked);
      ReleaseShallow(marked, s.messages[0]);
      ShallowThen(st, marked, Release(marked, s.messages[0]));
    }
  }

  lemma PollShallow(st: Store, s: Session)
    ensures Shallow(st, DispatchBodyPoll(st, s).store)
  {
  }

  /** The end of a transaction and the start of the next. */
  lemma ThenShallow(st: Store, s: Session, sent: bool)
    ensures Shallow(st, Then(FinishTransfer(st, s, sent)).store)
  {
    var o := FinishTransfer(st, s, sent);
    FinishShallow(st, s, sent);
    StartTransferShallow(o.store, o.session);
    ShallowThen(st, o.store, Then(o).store);
  }

  lemma DispatchShallow(helo: string, st: Store, s: Session, code: int)
    ensures Shallow(st, DispatchReply(helo, st, s, code).store)
  {
    var heard := Heard(s, code);
    match s.state
    case SendingHelo => StartTransferShallow(st, heard);
    case SendingDataPayload => ThenShallow(st, heard, true);
    case SendingRset => ThenShallow(st, heard, false);
    case _ => assert DispatchReply(helo, st, s, code).store in {st, Crash(st)};
  }

  lemma FaithfulFrame(w: World, w': World)
    requires Faithful(w) && w'.origin == w.origin && KeepsParsed(w.store, w'.store)
    ensures Faithful(w')
  {
  }

  lemma FaithfulRouted(w: World, p: Ptr, hosts: seq<string>, refused: set<string>)
    requires Faithful(w)
    ensures var routed := RouteAll(w, p, hosts, refused); Faithful(routed.(store := Release(routed.store, p)))
  {
    var routed := RouteAll(w, p, hosts, refused);
    RouteAllShallow(w, p, hosts, refused);
    ReleaseShallow(routed.store, p);
    FaithfulFrame(w, routed);
    FaithfulFrame(routed, routed.(store := Release(routed.store, p)));
  }

  lemma FaithfulTaken(w: World, p: Ptr)
    requires Faithful(w) && p in w.store.heap && p !in w.origin && w.store.heap[p].state == HeadersLoaded
    ensures Faithful(w.(messages := Without(w.messages, p), origin := w.origin[p := w.store.heap[p]]))
  {
  }

  lemma GivenUpShallow(w: World, p: Ptr, refused: set<string>)
    requires p in w.store.heap && w.store.heap[p].state != HeadersLoaded
    ensures RouteMessage(w, p, refused).origin == w.origin && Shallow(w.store, RouteMessage(w, p, refused).store)
  {
    ReleaseShallow(w.store, p);
  }

  lemma FaithfulRoute(w: World, p: Ptr, refused: set<string>)
    requires Faithful(w) && p in w.store.heap && p !in w.origin
    ensures Faithful(RouteMessage(w, p, refused))
  {
    var m := w.store.heap[p];
    if m.state == HeadersLoaded {
      FaithfulTaken(w, p);
      FaithfulRouted(w.(messages := Without(w.messages, p), origin := w.origin[p := m]), p,
                     DestinationHosts(m.destinations), refused);
    } else {
      GivenUpShallow(w, p, refused);
      FaithfulFrame(w, RouteMessage(w, p, refused));
    }
  }

  lemma FaithfulRead(w: World, p: Ptr, block: string)
    requires Faithful(w) && Enabled(w, Loaded(p, HeadersRead(block)))
    ensures Faithful(Apply(w, Loaded(p, HeadersRead(block))))
  {
    ParsedIsListed(w.store, p, block);
  }

  lemma LoadKeepsParsed(st: Store, p: Ptr, r: LoadResult)
    requires p in st.heap && !r.HeadersRead?
    ensures KeepsParsed(st, Load(st, p, r))
  {
  }

  lemma FaithfulLoaded(w: World, p: Ptr, r: LoadResult)
    requires Faithful(w) && Enabled(w, Loaded(p, r))
    ensures Faithful(Apply(w, Loaded(p, r)))
  {
    if r.HeadersRead? {
      FaithfulRead(w, p, r.block);
    } else {
      LoadKeepsParsed(w.store, p, r);
      FaithfulFrame(w, w.(store := Load(w.store, p, r)));
    }
  }

  lemma FaithfulApply(w: World, e: Event)
    requires Holding(w, multiset{}, None) && Faithful(w) && Enabled(w, e)
    ensures Faithful(Apply(w, e))
  {
    match e
    case Loaded(p, r) => FaithfulLoaded(w, p, r);
    case Route(p, refused) => FaithfulRoute(w, p, refused);
    case Reply(i, code) =>
      DispatchShallow(w.helo, w.store, w.sessions[i], code);
      FaithfulFrame(w, Apply(w, e));
    case BodyPoll(i) =>
      PollShallow(w.store, w.sessions[i]);
      FaithfulFrame(w, Apply(w, e));
    case Reap(i) =>
      ReleaseAllShallow(w.store, w.sessions[i].messages);
      FaithfulFrame(w, Apply(w, e));
    case Shutdown =>
      FinalizeAllShallow(w.store, w.sessions);
      ReleaseAllShallow(FinalizeAll(w.store, w.sessions), w.messages);
      FaithfulFrame(w, Apply(w, e));
    case Collision(i, _) =>
    case Discover(path) =>
    case Network(i, state) =>
  }

  // ---------------------------------------------------------------- steps and runs

  lemma ApplyOk(w: World, e: Event)
    requires Holding(w, multiset{}, None) && Enabled(w, e)
    ensures Holding(Apply(w, e), multiset{}, None)
  {
    match e
    case Discover(path) => DiscoverOk(w, path);
    case Loaded(p, r) => LoadedOk(w, p, r);
    case Route(p, refused) => RouteOk(w, p, refused);
    case Network(i, state) => NetworkOk(w, i, state);
    case Reply(i, code) => ReplyOk(w, i, code);
    case Collision(i, code) => CollisionOk(w, i, code);
    case BodyPoll(i) => BodyPollOk(w, i);
    case Reap(i) => ReapOk(w, i);
    case Shutdown => ShutdownOk(w);
  }

  /** Every event keeps the invariant, whatever comes from the network and the file system. */
  lemma StepKeepsInvariant(w: World, e: Event)
    requires Invariant(w)
    ensures Invariant(Step(w, e))
  {
    if !w.finished && Enabled(w, e) {
      ApplyOk(w, e);
      FaithfulApply(w, e);
    }
  }

  lemma InitialOk(helo: string)
    ensures Invariant(Initial(helo))
  {
    assert Counted([], [], Initial(helo).store, multiset{});
  }

  lemma {:induction false} RunKeepsInvariant(helo: string, events: seq<Event>)
    ensures Invariant(Run(helo, events))
    decreases |events|
  {
    if events == [] {
      InitialOk(helo);
    } else {
      RunKeepsInvariant(helo, events[..|events| - 1]);
      StepKeepsInvariant(Run(helo, events[..|events| - 1]), events[|events| - 1]);
    }
  }
}
