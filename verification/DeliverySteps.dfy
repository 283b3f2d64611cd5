/** The building blocks of the program's steps, each of which keeps the invariant. */
module DeliverySteps {
  import opened Text
  import opened Recipients
  import opened Messages
  import opened Payload
  import opened Delivery
  import opened DeliveryInvariants

  // ---------------------------------------------------------------- lists

  lemma DistinctCons<T(!new)>(x: T, s: seq<T>)
    requires Distinct(s) && x !in s
    ensures Distinct([x] + s)
  {
    var t := [x] + s;
    forall i, j | 0 <= i < j < |t| ensures t[i] != t[j] {
      assert t[j] == s[j - 1];
    }
  }

  lemma DistinctAppend<T(!new)>(s: seq<T>, x: T)
    requires Distinct(s) && x !in s
    ensures Distinct(s + [x])
  {
  }

  lemma DistinctTail<T(!new)>(s: seq<T>)
    requires Distinct(s) && s != []
    ensures Distinct(s[1..]) && s[0] !in s[1..]
  {
    var t := s[1..];
    assert forall i :: 0 <= i < |t| ==> t[i] == s[i + 1];
  }

  lemma {:induction false} WithoutIs(ps: seq<Ptr>, p: Ptr)
    requires Distinct(ps)
    ensures Distinct(Without(ps, p))
    ensures forall q :: q in Without(ps, p) <==> q in ps && q != p
  {
    if ps != [] {
      var rest := ps[1..];
      DistinctTail(ps);
      assert ps == [ps[0]] + rest;
      WithoutIs(rest, p);
      if ps[0] != p {
        DistinctCons(ps[0], Without(rest, p));
      }
    }
  }

  lemma {:induction false} HoldersPositive(sessions: seq<Session>, p: Ptr, i: nat)
    requires i < |sessions| && p in sessions[i].messages
    ensures Holders(sessions, p) > 0
  {
    if i > 0 {
      HoldersPositive(sessions[1..], p, i - 1);
    }
  }

  lemma {:induction false} HoldersZero(sessions: seq<Session>, p: Ptr)
    requires forall i :: 0 <= i < |sessions| ==> p !in sessions[i].messages
    ensures Holders(sessions, p) == 0
  {
    if sessions != [] {
      HoldersZero(sessions[1..], p);
    }
  }

  lemma {:induction false} HoldersUpdate(sessions: seq<Session>, i: nat, s: Session, p: Ptr)
    requires i < |sessions|
    ensures Holders(sessions[i := s], p) + InList(sessions[i].messages, p)
         == Holders(sessions, p) + InList(s.messages, p)
  {
    var updated := sessions[i := s];
    if i > 0 {
      HoldersUpdate(sessions[1..], i - 1, s, p);
      assert updated[1..] == sessions[1..][i - 1 := s];
    } else {
      assert updated[1..] == sessions[1..];
    }
  }

  lemma {:induction false} HoldersConcat(a: seq<Session>, b: seq<Session>, p: Ptr)
    ensures Holders(a + b, p) == Holders(a, p) + Holders(b, p)
  {
    if a == [] {
      assert a + b == b;
    } else {
      HoldersConcat(a[1..], b, p);
      assert (a + b)[1..] == a[1..] + b;
    }
  }

  // ---------------------------------------------------------------- destinations

  /** A destination is pending exactly when its host has not acknowledged the message. */
  lemma {:induction false} PendingHas(ds: seq<Destination>, p: Ptr, delivered: set<(Ptr, string)>, host: string)
    ensures HasHost(Pending(ds, p, delivered), host) <==> HasHost(ds, host) && (p, host) !in delivered
  {
    if ds == [] {
    } else {
      var rest := ds[1..];
      PendingHas(rest, p, delivered, host);
      HasHostCons(ds[0], rest, host);
      HasHostCons(ds[0], Pending(rest, p, delivered), host);
      assert ds == [ds[0]] + rest;
    }
  }

  lemma HasHostCons(d: Destination, rest: seq<Destination>, host: string)
    ensures HasHost([d] + rest, host) <==> d.host == host || HasHost(rest, host)
  {
    var ds := [d] + rest;
    if HasHost(rest, host) {
      var i :| 0 <= i < |rest| && rest[i].host == host;
      assert ds[i + 1].host == host;
    }
    if HasHost(ds, host) && d.host != host {
      var i :| 0 <= i < |ds| && ds[i].host == host;
      assert rest[i - 1].host == host;
    }
    assert ds[0] == d;
  }

  lemma WellGroupedDistinct(ds: seq<Destination>)
    requires WellGrouped(ds)
    ensures DistinctDestinations(ds)
  {
    var hosts := DestinationHosts(ds);
    assert forall i, j :: 0 <= i < j < |ds| ==> hosts[i] != hosts[j];
  }

  /** A pending destination is found, with the recipients it had from the start. */
  lemma {:induction false} PendingRecipients(ds: seq<Destination>, p: Ptr, delivered: set<(Ptr, string)>, host: string)
    requires (p, host) !in delivered && HasHost(ds, host)
    ensures var pending := Pending(ds, p, delivered);
            var k, n := FindDestination(pending, host), FindDestination(ds, host);
            k < |pending| && n < |ds| && pending[k] == ds[n]
  {
    var rest := ds[1..];
    assert ds == [ds[0]] + rest;
    HasHostCons(ds[0], rest, host);
    if ds[0].host == host {
      assert Pending(ds, p, delivered)[0] == ds[0];
    } else {
      PendingRecipients(rest, p, delivered, host);
      FindBehind(ds[0], rest, host);
      FindBehind(ds[0], Pending(rest, p, delivered), host);
    }
  }

  /** The search passes over a destination with another host. */
  lemma FindBehind(d: Destination, rest: seq<Destination>, host: string)
    requires d.host != host
    ensures FindDestination([d] + rest, host) == 1 + FindDestination(rest, host)
  {
    assert ([d] + rest)[1..] == rest;
  }

  /** Removing the destination of a host is what recording its acknowledgement does. */
  lemma {:induction false} PendingRemove(ds: seq<Destination>, p: Ptr, delivered: set<(Ptr, string)>, host: string)
    requires DistinctDestinations(ds) && (p, host) !in delivered
    ensures WithoutHost(Pending(ds, p, delivered), host) == Pending(ds, p, delivered + {(p, host)})
  {
    if ds != [] {
      var rest := ds[1..];
      var pending := Pending(rest, p, delivered);
      assert forall i, j :: 0 <= i < j < |rest| ==> rest[i] == ds[i + 1] && rest[j] == ds[j + 1];
      PendingRemove(rest, p, delivered, host);
      if ds[0].host == host {
        NoOther(ds);
        PendingHas(rest, p, delivered, host);
        WithoutFirst(ds[0], pending);
      } else if (p, ds[0].host) !in delivered {
        WithoutHostCons(ds[0], pending, host);
      }
    }
  }

  lemma NoOther(ds: seq<Destination>)
    requires DistinctDestinations(ds) && ds != []
    ensures !HasHost(ds[1..], ds[0].host)
  {
    assert forall i :: 0 <= i < |ds[1..]| ==> ds[1..][i] == ds[i + 1];
  }

  lemma WithoutFirst(d: Destination, rest: seq<Destination>)
    requires !HasHost(rest, d.host)
    ensures WithoutHost([d] + rest, d.host) == rest == WithoutHost(rest, d.host)
  {
    assert FindDestination(rest, d.host) == |rest|;
    var ds := [d] + rest;
    assert FindDestination(ds, d.host) == 0 && ds[..0] + ds[1..] == rest;
  }

  lemma WithoutHostCons(d: Destination, rest: seq<Destination>, host: string)
    requires d.host != host
    ensures WithoutHost([d] + rest, host) == [d] + WithoutHost(rest, host)
  {
    FindBehind(d, rest, host);
    if FindDestination(rest, host) < |rest| {
      CutCons(d, rest, FindDestination(rest, host));
    }
  }

  lemma CutCons(d: Destination, rest: seq<Destination>, k: nat)
    requires k < |rest|
    ensures ([d] + rest)[..k + 1] + ([d] + rest)[k + 2..] == [d] + (rest[..k] + rest[k + 1..])
  {
  }

  /** Acknowledgements of other messages do not matter. */
  lemma {:induction false} PendingFrame(ds: seq<Destination>, p: Ptr, a: set<(Ptr, string)>, b: set<(Ptr, string)>)
    requires forall h :: (p, h) in a <==> (p, h) in b
    ensures Pending(ds, p, a) == Pending(ds, p, b)
  {
    if ds != [] {
      PendingFrame(ds[1..], p, a, b);
    }
  }

  lemma {:induction false} PendingEmpty(ds: seq<Destination>, p: Ptr, delivered: set<(Ptr, string)>)
    ensures Pending(ds, p, delivered) == [] <==> forall i :: 0 <= i < |ds| ==> (p, ds[i].host) in delivered
  {
    if ds != [] {
      PendingEmpty(ds[1..], p, delivered);
      assert ds == [ds[0]] + ds[1..];
    }
  }

  // ---------------------------------------------------------------- frames

  /** The states a message can still get to. */
  predicate Advances(a: MessageState, b: MessageState) {
    a == b || (a == HeadersLoaded && b != LoadingHeaders) || (a == LoadingBody && b in {BodyLoaded, LoadingFailed})
  }

  /** A change of the store that a session with this queue does not have to notice. */
  ghost predicate Keeps(s: Session, a: Store, b: Store) {
    && (forall p :: p in s.messages && p in a.heap ==> p in b.heap && Advances(a.heap[p].state, b.heap[p].state))
    && (forall p :: p in s.messages && (p, s.destinationHost) in b.delivered ==> (p, s.destinationHost) in a.delivered)
  }

  ghost predicate Extends<K(!new), V>(a: map<K, V>, b: map<K, V>) {
    forall k :: k in a ==> k in b && b[k] == a[k]
  }

  lemma QueueFrame(s: Session, a: Store, b: Store, origin: map<Ptr, Message>, origin': map<Ptr, Message>)
    requires Keeps(s, a, b) && Extends(origin, origin') && QueueOk(s, a, origin)
    ensures QueueOk(s, b, origin')
    ensures PhaseOk(s, a, origin) ==> PhaseOk(s, b, origin')
  {
  }

  lemma TalkFrame(s: Session, helo: string, origin: map<Ptr, Message>, origin': map<Ptr, Message>,
          bodies: map<Ptr, string>, bodies': map<Ptr, string>)
    requires Extends(origin, origin') && Extends(bodies, bodies') && TalkOk(s, helo, origin, bodies)
    ensures TalkOk(s, helo, origin', bodies')
  {
    if InTransaction(s.log.phase) {
      var p, host := s.messages[0], s.destinationHost;
      var sent := RcptsSent(s.cursor, Users(origin[p], host));
      assert Current(s.log.phase, p, origin[p], host, sent, BodyOf(bodies, p))
          == Current(s.log.phase, p, origin'[p], host, sent, BodyOf(bodies', p));
    }
  }

  lemma QueueLogFrame(s: Session, a: Store, b: Store, origin: map<Ptr, Message>, origin': map<Ptr, Message>)
    requires Extends(origin, origin') && Extends(a.bodies, b.bodies) && a.delivered <= b.delivered
    requires QueueLogOk(s, a, origin)
    ensures QueueLogOk(s, b, origin')
  {
    forall k | 0 <= k < |s.log.transfers| ensures TransferOk(s.log.transfers[k], s.destinationHost, b, origin') {
      assert TransferOk(s.log.transfers[k], s.destinationHost, a, origin);
    }
  }

  ghost predicate KeepsAll(sessions: seq<Session>, a: Store, b: Store) {
    forall i :: 0 <= i < |sessions| ==> Keeps(sessions[i], a, b)
  }

  /** A change that leaves the sessions and the deliveries alone. */
  ghost predicate StoreChange(w: World, w': World) {
    && w'.sessions == w.sessions && w'.archive == w.archive && w'.helo == w.helo
    && Extends(w.origin, w'.origin) && Extends(w.store.bodies, w'.store.bodies)
    && w'.store.delivered == w.store.delivered
    && KeepsAll(w.sessions, w.store, w'.store)
  }

  lemma QueuesFrame(w: World, w': World, busy: Option<nat>)
    requires Queues(w) && Talks(w, busy) && StoreChange(w, w')
    ensures Queues(w') && Talks(w', busy)
  {
    forall i | 0 <= i < |w.sessions|
      ensures QueueOk(w.sessions[i], w'.store, w'.origin)
      ensures PhaseOk(w.sessions[i], w.store, w.origin) ==> PhaseOk(w.sessions[i], w'.store, w'.origin)
      ensures TalkOk(w.sessions[i], w.helo, w.origin, w.store.bodies) ==>
                TalkOk(w.sessions[i], w.helo, w'.origin, w'.store.bodies)
    {
      SessionFrame(w, w', w.sessions[i]);
    }
    forall i | 0 <= i < |w.archive| ensures TalkOk(w.archive[i], w.helo, w'.origin, w'.store.bodies) {
      TalkFrame(w.archive[i], w.helo, w.origin, w'.origin, w.store.bodies, w'.store.bodies);
    }
  }

  lemma SessionFrame(w: World, w': World, s: Session)
    requires Keeps(s, w.store, w'.store) && Extends(w.origin, w'.origin) && Extends(w.store.bodies, w'.store.bodies)
    requires QueueOk(s, w.store, w.origin)
    ensures QueueOk(s, w'.store, w'.origin)
    ensures PhaseOk(s, w.store, w.origin) ==> PhaseOk(s, w'.store, w'.origin)
    ensures TalkOk(s, w.helo, w.origin, w.store.bodies) ==> TalkOk(s, w.helo, w'.origin, w'.store.bodies)
  {
    QueueFrame(s, w.store, w'.store, w.origin, w'.origin);
    if TalkOk(s, w.helo, w.origin, w.store.bodies) {
      TalkFrame(s, w.helo, w.origin, w'.origin, w.store.bodies, w'.store.bodies);
    }
  }

  /** The histories do not depend on the heap. */
  lemma LogsFrame(w: World, w': World)
    requires Logs(w) && All(w') == All(w)
    requires Extends(w.origin, w'.origin) && Extends(w.store.bodies, w'.store.bodies)
    requires w'.store.delivered == w.store.delivered
    ensures Logs(w')
  {
    forall i | 0 <= i < |All(w')| ensures QueueLogOk(All(w')[i], w'.store, w'.origin) {
      QueueLogFrame(All(w)[i], w.store, w'.store, w.origin, w'.origin);
    }
  }

  lemma HoldingFrame(w: World, w': World, hand: multiset<Ptr>, hand': multiset<Ptr>, busy: Option<nat>)
    requires Holding(w, hand, busy) && StoreChange(w, w')
    requires Memory(w') && ListOk(w'.messages, w'.store, w'.origin)
    requires Counted(w'.messages, w'.sessions, w'.store, hand')
    ensures Holding(w', hand', busy)
  {
    QueuesFrame(w, w', busy);
    LogsFrame(w, w');
  }

  // ---------------------------------------------------------------- releasing

  lemma HeldElsewhere(w: World, p: Ptr, hand: multiset<Ptr>)
    requires Counted(w.messages, w.sessions, w.store, hand) && p in w.store.heap
    ensures p in w.messages ==> w.store.heap[p].refCount > hand[p]
    ensures forall i :: 0 <= i < |w.sessions| && p in w.sessions[i].messages ==> w.store.heap[p].refCount > hand[p]
  {
    forall i | 0 <= i < |w.sessions| && p in w.sessions[i].messages ensures w.store.heap[p].refCount > hand[p] {
      HoldersPositive(w.sessions, p, i);
    }
  }

  lemma ReleaseStore(st: Store, p: Ptr, next: Ptr, origin: map<Ptr, Message>)
    requires StoreOk(st, next, origin) && p in st.heap
    ensures StoreOk(Release(st, p), next, origin)
  {
    var after := Release(st, p);
    forall q | q in after.heap && q in origin ensures LiveOk(after, q, origin[q]) {
      assert LiveOk(st, q, origin[q]);
    }
  }

  /** A file is unlinked on release exactly when its message has been delivered to all its hosts. */
  lemma ReleaseUnlinks(st: Store, p: Ptr, origin: map<Ptr, Message>)
    requires p in st.heap && if p in origin then LiveOk(st, p, origin[p]) else ListedOk(st.heap[p])
    ensures var m := st.heap[p];
            m.state == BodyLoaded && m.destinations == [] <==> p in origin && DeliveredToAll(origin[p], p, st.delivered)
  {
    if p in origin {
      PendingEmpty(origin[p].destinations, p, st.delivered);
    }
  }

  lemma ReleaseFreed(st: Store, p: Ptr, next: Ptr, origin: map<Ptr, Message>)
    requires FreedOk(st, next, origin) && p in st.heap && p < next
    requires if p in origin then LiveOk(st, p, origin[p]) else ListedOk(st.heap[p])
    ensures FreedOk(Release(st, p), next, origin)
  {
    ReleaseUnlinks(st, p, origin);
    if st.heap[p].refCount == 1 {
      DistinctAppend(st.freed, p);
      DistinctAppend(st.unlinked, p);
    }
  }

  /** Only the released message changes, and it stays while somebody else holds it. */
  lemma ReleaseEffect(st: Store, p: Ptr)
    requires p in st.heap && st.heap[p].refCount > 0
    ensures var st', m := Release(st, p), st.heap[p];
            && st'.delivered == st.delivered && st'.bodies == st.bodies && st'.fault == st.fault
            && (forall q :: q in st'.heap <==> q in st.heap && (q == p ==> m.refCount > 1))
            && (forall q :: q in st'.heap ==>
                  st'.heap[q] == if q == p then m.(refCount := m.refCount - 1) else st.heap[q])
  {
  }

  lemma ReleaseLists(w: World, p: Ptr, hand: multiset<Ptr>)
    requires Counted(w.messages, w.sessions, w.store, hand) && hand[p] > 0 && p in w.store.heap
    requires ListOk(w.messages, w.store, w.origin)
    ensures ListOk(w.messages, Release(w.store, p), w.origin)
    ensures KeepsAll(w.sessions, w.store, Release(w.store, p))
  {
    ReleaseEffect(w.store, p);
    HeldElsewhere(w, p, hand);
  }

  lemma ReleaseCounted(w: World, p: Ptr, hand: multiset<Ptr>)
    requires Counted(w.messages, w.sessions, w.store, hand) && hand[p] > 0 && p in w.store.heap
    ensures Counted(w.messages, w.sessions, Release(w.store, p), hand - multiset{p})
  {
    ReleaseEffect(w.store, p);
  }

  /** Giving back a reference in hand. */
  lemma ReleaseHand(w: World, p: Ptr, hand: multiset<Ptr>, busy: Option<nat>)
    requires Holding(w, hand, busy) && hand[p] > 0
    requires p in w.store.heap && (p in w.origin || ListedOk(w.store.heap[p]))
    ensures Holding(w.(store := Release(w.store, p)), hand - multiset{p}, busy)
  {
    ReleaseStore(w.store, p, w.next, w.origin);
    ReleaseFreed(w.store, p, w.next, w.origin);
    ReleaseLists(w, p, hand);
    ReleaseCounted(w, p, hand);
    ReleaseEffect(w.store, p);
    HoldingFrame(w, w.(store := Release(w.store, p)), hand, hand - multiset{p}, busy);
  }

  // ---------------------------------------------------------------- the client's list

  lemma {:induction false} PendingAll(ds: seq<Destination>, p: Ptr, delivered: set<(Ptr, string)>)
    requires forall h :: (p, h) !in delivered
    ensures Pending(ds, p, delivered) == ds
  {
    if ds != [] {
      PendingAll(ds[1..], p, delivered);
    }
  }

  lemma TakeCounted(messages: seq<Ptr>, sessions: seq<Session>, st: Store, p: Ptr)
    requires Counted(messages, sessions, st, multiset{}) && Distinct(messages) && p in messages
    ensures Counted(Without(messages, p), sessions, st, multiset{p})
  {
    WithoutIs(messages, p);
  }

  /** A message is taken off the client's list; the reference is in hand. */
  lemma TakeListed(w: World, p: Ptr)
    requires Holding(w, multiset{}, None) && p in w.messages
    ensures Holding(w.(messages := Without(w.messages, p)), multiset{p}, None)
  {
    var w' := w.(messages := Without(w.messages, p));
    WithoutIs(w.messages, p);
    TakeCounted(w.messages, w.sessions, w.store, p);
    HoldingFrame(w, w', multiset{}, multiset{p}, None);
  }

  lemma OriginMemory(st: Store, p: Ptr, next: Ptr, origin: map<Ptr, Message>)
    requires StoreOk(st, next, origin) && FreedOk(st, next, origin)
    requires p in st.heap && p !in origin && OriginOk(st.heap[p])
    ensures StoreOk(st, next, origin[p := st.heap[p]]) && FreedOk(st, next, origin[p := st.heap[p]])
  {
    var origin' := origin[p := st.heap[p]];
    PendingAll(st.heap[p].destinations, p, st.delivered);
    forall q | q in st.heap && q in origin' ensures LiveOk(st, q, origin'[q]) {
      if q != p {
        assert LiveOk(st, q, origin[q]);
      }
    }
  }

  /** A message whose headers were accepted is taken off the list to be routed. */
  lemma TakeForRouting(w: World, p: Ptr)
    requires Holding(w, multiset{}, None) && p in w.messages && w.store.heap[p].state == HeadersLoaded
    ensures Holding(w.(messages := Without(w.messages, p), origin := w.origin[p := w.store.heap[p]]), multiset{p}, None)
  {
    var w' := w.(messages := Without(w.messages, p), origin := w.origin[p := w.store.heap[p]]);
    WithoutIs(w.messages, p);
    TakeCounted(w.messages, w.sessions, w.store, p);
    OriginMemory(w.store, p, w.next, w.origin);
    HoldingFrame(w, w', multiset{}, multiset{p}, None);
  }

  // ---------------------------------------------------------------- enqueueing

  /** No session for the host has ever been given the message. */
  ghost predicate NotYetAt(all: seq<Session>, p: Ptr, host: string) {
    forall i :: 0 <= i < |all| && all[i].destinationHost == host ==> p !in all[i].log.enqueued
  }

  lemma RetainMemory(st: Store, p: Ptr, next: Ptr, origin: map<Ptr, Message>)
    requires StoreOk(st, next, origin) && FreedOk(st, next, origin) && p in st.heap
    ensures StoreOk(Retain(st, p), next, origin) && FreedOk(Retain(st, p), next, origin)
  {
    var st' := Retain(st, p);
    forall q | q in st'.heap && q in origin ensures LiveOk(st', q, origin[q]) {
      assert LiveOk(st, q, origin[q]);
    }
  }

  /** A session that is given a message for its host stays in order. */
  lemma EnqueuedOk(s: Session, p: Ptr, helo: string, st: Store, origin: map<Ptr, Message>)
    requires QueueOk(s, st, origin) && PhaseOk(s, st, origin) && TalkOk(s, helo, origin, st.bodies)
    requires QueueLogOk(s, st, origin)
    requires p in st.heap && p in origin && HasHost(origin[p].destinations, s.destinationHost)
    requires (p, s.destinationHost) !in st.delivered && p !in s.log.enqueued
    ensures var s' := Enqueued(s, p);
            && QueueOk(s', st, origin) && PhaseOk(s', st, origin)
            && TalkOk(s', helo, origin, st.bodies) && QueueLogOk(s', st, origin)
  {
    var s', done := Enqueued(s, p), TransferMessages(s.log.transfers);
    assert done + s.messages == s.log.enqueued;
    assert forall q :: q in s.messages ==> q in done + s.messages;
    DistinctAppend(s.messages, p);
    DistinctAppend(s.log.enqueued, p);
    assert done + (s.messages + [p]) == s.log.enqueued + [p];
    assert s.messages != [] ==> s'.messages[0] == s.messages[0];
  }

  lemma NewSessionOk(host: string, refused: bool, helo: string, st: Store, origin: map<Ptr, Message>)
    ensures var s := NewSession(host, refused);
            && QueueOk(s, st, origin) && PhaseOk(s, st, origin)
            && TalkOk(s, helo, origin, st.bodies) && QueueLogOk(s, st, origin)
  {
    assert TransferMessages([]) == [];
  }

  /** `message_retain`: one more reference in hand. */
  lemma RetainHand(w: World, p: Ptr, hand: multiset<Ptr>, busy: Option<nat>)
    requires Holding(w, hand, busy) && p in w.store.heap
    ensures Holding(w.(store := Retain(w.store, p)), hand + multiset{p}, busy)
  {
    var w' := w.(store := Retain(w.store, p));
    RetainMemory(w.store, p, w.next, w.origin);
    RetainEffect(w, p, hand);
    HoldingFrame(w, w', hand, hand + multiset{p}, busy);
  }

  lemma RetainEffect(w: World, p: Ptr, hand: multiset<Ptr>)
    requires Counted(w.messages, w.sessions, w.store, hand) && ListOk(w.messages, w.store, w.origin)
    requires p in w.store.heap
    ensures Counted(w.messages, w.sessions, Retain(w.store, p), hand + multiset{p})
    ensures ListOk(w.messages, Retain(w.store, p), w.origin)
    ensures KeepsAll(w.sessions, w.store, Retain(w.store, p))
  {
  }

  // ---------------------------------------------------------------- replacing one session

  /** What must hold when the session at an index is replaced and the store stays. */
  ghost predicate Replaces(s: Session, s': Session, all: seq<Session>) {
    && s'.destinationHost == s.destinationHost
    && s.log.transfers <= s'.log.transfers
    && forall p :: p in s'.log.enqueued ==> p in s.log.enqueued || NotYetAt(all, p, s.destinationHost)
  }

  lemma ReplacedOnce(all: seq<Session>, i: nat, s': Session)
    requires i < |all| && EnqueuedOnce(all) && Replaces(all[i], s', all)
    ensures EnqueuedOnce(all[i := s'])
  {
  }

  lemma ReplacedDelivers(s: Session, s': Session, p: Ptr, host: string)
    requires s'.destinationHost == s.destinationHost && s.log.transfers <= s'.log.transfers && Delivers(s, p, host)
    ensures Delivers(s', p, host)
  {
    var k :| 0 <= k < |s.log.transfers| && s.log.transfers[k].message == p && s.log.transfers[k].text.Some?;
    assert s'.log.transfers[k] == s.log.transfers[k];
  }

  lemma ReplacedDeliveries(all: seq<Session>, i: nat, s': Session, st: Store)
    requires i < |all| && DeliveriesLogged(all, st) && Replaces(all[i], s', all)
    ensures DeliveriesLogged(all[i := s'], st)
  {
    forall p, h | (p, h) in st.delivered ensures Logged(all[i := s'], p, h) {
      ReplacedLogged(all, i, s', p, h);
    }
  }

  lemma ReplacedLogged(all: seq<Session>, i: nat, s': Session, p: Ptr, h: string)
    requires i < |all| && Logged(all, p, h) && Replaces(all[i], s', all)
    ensures Logged(all[i := s'], p, h)
  {
    var j :| 0 <= j < |all| && Delivers(all[j], p, h);
    if j == i {
      ReplacedDelivers(all[i], s', p, h);
    }
    assert Delivers(all[i := s'][j], p, h);
  }

  /** A session is replaced by one that is in order. */
  lemma ReplaceSession(w: World, i: nat, s': Session, hand: multiset<Ptr>, hand': multiset<Ptr>, busy: Option<nat>)
    requires i < |w.sessions| && Holding(w, hand, busy) && (busy == None || busy == Some(i))
    requires Replaces(w.sessions[i], s', All(w))
    requires QueueOk(s', w.store, w.origin) && QueueLogOk(s', w.store, w.origin)
    requires PhaseOk(s', w.store, w.origin) && TalkOk(s', w.helo, w.origin, w.store.bodies)
    requires Counted(w.messages, w.sessions[i := s'], w.store, hand')
    ensures Holding(w.(sessions := w.sessions[i := s']), hand', None)
  {
    ReplacedQueues(w, i, s');
    ReplacedTalks(w, i, s', busy);
    ReplacedLogs(w, i, s');
  }

  lemma ReplacedQueues(w: World, i: nat, s': Session)
    requires i < |w.sessions| && Queues(w) && s'.destinationHost == w.sessions[i].destinationHost
    requires QueueOk(s', w.store, w.origin)
    ensures Queues(w.(sessions := w.sessions[i := s']))
  {
  }

  lemma ReplacedTalks(w: World, i: nat, s': Session, busy: Option<nat>)
    requires i < |w.sessions| && Talks(w, busy) && (busy == None || busy == Some(i))
    requires PhaseOk(s', w.store, w.origin) && TalkOk(s', w.helo, w.origin, w.store.bodies)
    ensures Talks(w.(sessions := w.sessions[i := s']), None)
  {
  }

  lemma ReplacedLogs(w: World, i: nat, s': Session)
    requires i < |w.sessions| && Logs(w) && Replaces(w.sessions[i], s', All(w))
    requires QueueLogOk(s', w.store, w.origin)
    ensures Logs(w.(sessions := w.sessions[i := s']))
  {
    var w' := w.(sessions := w.sessions[i := s']);
    assert All(w') == All(w)[i := s'];
    ReplacedOnce(All(w), i, s');
    ReplacedDeliveries(All(w), i, s', w.store);
  }

  /** A change of state, cursor and transcript only. */
  lemma UpdateSession(w: World, i: nat, s': Session, hand: multiset<Ptr>, busy: Option<nat>)
    requires i < |w.sessions| && Holding(w, hand, busy) && (busy == None || busy == Some(i))
    requires var s := w.sessions[i];
             && s'.destinationHost == s.destinationHost && s'.messages == s.messages
             && s'.log.transfers == s.log.transfers && s'.log.enqueued == s.log.enqueued
    requires PhaseOk(s', w.store, w.origin) && TalkOk(s', w.helo, w.origin, w.store.bodies)
    ensures Holding(w.(sessions := w.sessions[i := s']), hand, None)
  {
    var s := w.sessions[i];
    assert s == All(w)[i];
    assert QueueLogOk(s, w.store, w.origin);
    forall p | p in w.store.heap ensures Holders(w.sessions[i := s'], p) == Holders(w.sessions, p) {
      HoldersUpdate(w.sessions, i, s', p);
    }
    ReplaceSession(w, i, s', hand, hand, busy);
  }

  /** The message in hand joins the queue of an existing session. */
  lemma EnqueueExisting(w: World, i: nat, p: Ptr, hand: multiset<Ptr>)
    requires i < |w.sessions| && Holding(w, hand, None) && hand[p] > 0
    requires p in w.store.heap && p in w.origin && HasHost(w.origin[p].destinations, w.sessions[i].destinationHost)
    requires (p, w.sessions[i].destinationHost) !in w.store.delivered
    requires NotYetAt(All(w), p, w.sessions[i].destinationHost)
    ensures Holding(w.(sessions := w.sessions[i := Enqueued(w.sessions[i], p)]), hand - multiset{p}, None)
  {
    var s, s' := w.sessions[i], Enqueued(w.sessions[i], p);
    assert s == All(w)[i];
    EnqueuedOk(s, p, w.helo, w.store, w.origin);
    NotQueued(s, p, w.store, w.origin);
    EnqueuedCount(w, i, p, hand);
    ReplaceSession(w, i, s', hand, hand - multiset{p}, None);
  }

  lemma EnqueuedCount(w: World, i: nat, p: Ptr, hand: multiset<Ptr>)
    requires i < |w.sessions| && p !in w.sessions[i].messages && hand[p] > 0
    requires Counted(w.messages, w.sessions, w.store, hand)
    ensures Counted(w.messages, w.sessions[i := Enqueued(w.sessions[i], p)], w.store, hand - multiset{p})
  {
    var s' := Enqueued(w.sessions[i], p);
    forall q | q in w.store.heap
      ensures Holders(w.sessions[i := s'], q) == Holders(w.sessions, q) + if q == p then 1 else 0
    {
      HoldersUpdate(w.sessions, i, s', q);
    }
  }

  lemma NotQueued(s: Session, p: Ptr, st: Store, origin: map<Ptr, Message>)
    requires QueueLogOk(s, st, origin) && p !in s.log.enqueued
    ensures p !in s.messages
  {
    assert forall q :: q in s.messages ==> q in TransferMessages(s.log.transfers) + s.messages;
  }

  // ---------------------------------------------------------------- routing

  lemma PrependedLogs(all: seq<Session>, s: Session, p: Ptr, st: Store, origin: map<Ptr, Message>)
    requires EnqueuedOnce(all) && DeliveriesLogged(all, st) && s.log.enqueued == [p]
    requires NotYetAt(all, p, s.destinationHost)
    ensures EnqueuedOnce([s] + all) && DeliveriesLogged([s] + all, st)
  {
    var more := [s] + all;
    forall i, j, q |
      0 <= i < j < |more| && more[i].destinationHost == more[j].destinationHost && q in more[i].log.enqueued
      ensures q !in more[j].log.enqueued
    {
      assert more[j] == all[j - 1];
      assert i > 0 ==> more[i] == all[i - 1];
    }
    forall q, h | (q, h) in st.delivered ensures Logged(more, q, h) {
      var k :| 0 <= k < |all| && Delivers(all[k], q, h);
      assert Delivers(more[k + 1], q, h);
    }
  }

  lemma PrependedQueues(w: World, s: Session)
    requires Queues(w) && Talks(w, None)
    requires forall i :: 0 <= i < |w.sessions| ==> w.sessions[i].destinationHost != s.destinationHost
    requires QueueOk(s, w.store, w.origin) && PhaseOk(s, w.store, w.origin)
    requires TalkOk(s, w.helo, w.origin, w.store.bodies)
    ensures Queues(w.(sessions := [s] + w.sessions)) && Talks(w.(sessions := [s] + w.sessions), None)
  {
    PrependedHosts(w.sessions, s);
    var w' := w.(sessions := [s] + w.sessions);
    forall i | 0 <= i < |w'.sessions|
      ensures QueueOk(w'.sessions[i], w'.store, w'.origin) && PhaseOk(w'.sessions[i], w'.store, w'.origin)
      ensures TalkOk(w'.sessions[i], w'.helo, w'.origin, w'.store.bodies)
    {
      if i > 0 {
        assert w'.sessions[i] == w.sessions[i - 1];
      }
    }
  }

  lemma PrependedHosts(sessions: seq<Session>, s: Session)
    requires DistinctHosts(sessions)
    requires forall i :: 0 <= i < |sessions| ==> sessions[i].destinationHost != s.destinationHost
    ensures DistinctHosts([s] + sessions)
  {
    var more := [s] + sessions;
    assert forall i :: 0 < i < |more| ==> more[i] == sessions[i - 1];
  }

  /** The message in hand opens the queue of a new session. */
  lemma EnqueueNew(w: World, host: string, refused: bool, p: Ptr, hand: multiset<Ptr>)
    requires Holding(w, hand, None) && hand[p] > 0
    requires forall i :: 0 <= i < |w.sessions| ==> w.sessions[i].destinationHost != host
    requires p in w.store.heap && p in w.origin && HasHost(w.origin[p].destinations, host)
    requires (p, host) !in w.store.delivered && NotYetAt(All(w), p, host)
    ensures Holding(w.(sessions := [Enqueued(NewSession(host, refused), p)] + w.sessions), hand - multiset{p}, None)
  {
    var s := Enqueued(NewSession(host, refused), p);
    var w' := w.(sessions := [s] + w.sessions);
    NewSessionOk(host, refused, w.helo, w.store, w.origin);
    EnqueuedOk(NewSession(host, refused), p, w.helo, w.store, w.origin);
    PrependedQueues(w, s);
    PrependedLogsOk(w, s, p);
    PrependedCounted(w, s, p, hand);
  }

  lemma PrependedLogsOk(w: World, s: Session, p: Ptr)
    requires Logs(w) && s.log.enqueued == [p] && NotYetAt(All(w), p, s.destinationHost)
    requires QueueLogOk(s, w.store, w.origin)
    ensures Logs(w.(sessions := [s] + w.sessions))
  {
    var w' := w.(sessions := [s] + w.sessions);
    assert All(w') == [s] + All(w);
    PrependedLogs(All(w), s, p, w.store, w.origin);
    forall i | 0 <= i < |All(w')| ensures QueueLogOk(All(w')[i], w.store, w.origin) {
      assert i > 0 ==> All(w')[i] == All(w)[i - 1];
    }
  }

  lemma PrependedCounted(w: World, s: Session, p: Ptr, hand: multiset<Ptr>)
    requires Counted(w.messages, w.sessions, w.store, hand) && hand[p] > 0 && s.messages == [p]
    ensures Counted(w.messages, [s] + w.sessions, w.store, hand - multiset{p})
  {
    forall q | q in w.store.heap ensures Holders([s] + w.sessions, q) == InList([p], q) + Holders(w.sessions, q) {
      assert ([s] + w.sessions)[1..] == w.sessions;
    }
  }

  /** The message being routed has not been given to a session for any of these hosts. */
  ghost predicate Routable(w: World, p: Ptr, hosts: seq<string>) {
    && p in w.store.heap && p in w.origin
    && Distinct(hosts)
    && forall k :: 0 <= k < |hosts| ==>
         && HasHost(w.origin[p].destinations, hosts[k])
         && (p, hosts[k]) !in w.store.delivered
         && NotYetAt(All(w), p, hosts[k])
  }

  /** One destination: retain, find or create the session, enqueue. */
  lemma RouteToOk(w: World, p: Ptr, host: string, refused: bool, hand: multiset<Ptr>)
    requires Holding(w, hand, None) && Routable(w, p, [host])
    ensures Holding(RouteTo(w, p, host, refused), hand, None)
  {
    var retained := w.(store := Retain(w.store, p));
    RetainHand(w, p, hand, None);
    assert hand + multiset{p} - multiset{p} == hand;
    assert [host][0] == host;
    assert All(retained) == All(w);
    var k := FindSession(w.sessions, host);
    if k == |w.sessions| {
      EnqueueNew(retained, host, refused, p, hand + multiset{p});
    } else {
      EnqueueExisting(retained, k, p, hand + multiset{p});
    }
  }

  /** Routing to one host leaves the message routable to the others. */
  lemma StillRoutable(w: World, p: Ptr, hosts: seq<string>, refused: bool)
    requires Routable(w, p, hosts) && hosts != []
    ensures Routable(RouteTo(w, p, hosts[0], refused), p, hosts[1..])
  {
    var w' := RouteTo(w, p, hosts[0], refused);
    var rest := hosts[1..];
    DistinctTail(hosts);
    var k := FindSession(w.sessions, hosts[0]);
    forall j, i | 0 <= j < |rest| && 0 <= i < |All(w')| && All(w')[i].destinationHost == rest[j]
      ensures p !in All(w')[i].log.enqueued
    {
      assert rest[j] == hosts[j + 1] != hosts[0];
      if k == |w.sessions| {
        assert All(w')[i] == All(w)[i - 1];
      } else {
        assert All(w')[i] == All(w)[i];
      }
    }
    assert forall j :: 0 <= j < |rest| ==> rest[j] == hosts[j + 1];
  }

  lemma {:induction false} RouteAllOk(w: World, p: Ptr, hosts: seq<string>, refused: set<string>, hand: multiset<Ptr>)
    requires Holding(w, hand, None) && Routable(w, p, hosts)
    ensures var w' := RouteAll(w, p, hosts, refused);
            Holding(w', hand, None) && p in w'.store.heap && w'.origin == w.origin
    decreases |hosts|
  {
    if hosts != [] {
      var host := hosts[0];
      assert Routable(w, p, [host]);
      RouteToOk(w, p, host, host in refused, hand);
      StillRoutable(w, p, hosts, host in refused);
      RouteAllOk(RouteTo(w, p, host, host in refused), p, hosts[1..], refused, hand);
    }
  }

  // ---------------------------------------------------------------- the end of a transaction

  /** What the source finds in a live message about one of its pending hosts. */
  lemma LiveRecipients(st: Store, p: Ptr, origin: Message, host: string)
    requires p in st.heap && LiveOk(st, p, origin) && HasHost(origin.destinations, host) && (p, host) !in st.delivered
    ensures RecipientsAt(st.heap[p], host) == Users(origin, host)
    ensures FindDestination(st.heap[p].destinations, host) < |st.heap[p].destinations|
    ensures OriginOk(origin) ==> Users(origin, host) != []
  {
    PendingRecipients(origin.destinations, p, st.delivered, host);
  }

  lemma MarkLive(st: Store, p: Ptr, host: string, q: Ptr, origin: Message)
    requires p in st.heap && q in st.heap && st.heap[p].state == BodyLoaded && (p, host) !in st.delivered
    requires LiveOk(st, q, origin) && OriginOk(origin)
    ensures LiveOk(MarkAsSent(st, p, host), q, origin)
  {
    var st' := MarkAsSent(st, p, host);
    if q == p {
      PendingRemove(origin.destinations, p, st.delivered, host);
    } else {
      PendingFrame(origin.destinations, q, st.delivered, st'.delivered);
    }
  }

  lemma MarkStore(st: Store, p: Ptr, host: string, next: Ptr, origin: map<Ptr, Message>)
    requires StoreOk(st, next, origin) && p in st.heap && p in origin && st.heap[p].state == BodyLoaded
    requires HasHost(origin[p].destinations, host) && (p, host) !in st.delivered
    ensures StoreOk(MarkAsSent(st, p, host), next, origin)
  {
    var st' := MarkAsSent(st, p, host);
    forall q | q in st'.heap && q in origin ensures LiveOk(st', q, origin[q]) {
      MarkLive(st, p, host, q, origin[q]);
    }
  }

  lemma MarkFreed(st: Store, p: Ptr, host: string, next: Ptr, origin: map<Ptr, Message>)
    requires FreedOk(st, next, origin) && p in st.heap && st.heap[p].state == BodyLoaded
    ensures FreedOk(MarkAsSent(st, p, host), next, origin)
  {
    var st' := MarkAsSent(st, p, host);
    assert forall q :: q != p && q in origin ==>
      (DeliveredToAll(origin[q], q, st'.delivered) <==> DeliveredToAll(origin[q], q, st.delivered));
  }

  /** The store while a transaction ends: the message may be marked as sent. */
  function Marked(st: Store, p: Ptr, host: string, sent: bool): Store {
    if sent then MarkAsSent(st, p, host) else st
  }

  ghost predicate CanFinish(w: World, i: nat, sent: bool) {
    && i < |w.sessions| && w.sessions[i].messages != []
    && var p := w.sessions[i].messages[0];
    && p in w.store.heap && p in w.origin
    && (sent ==> w.store.heap[p].state == BodyLoaded)
  }

  /** The session without its head message, and with a record of the transaction. */
  ghost predicate Finished(s: Session, s': Session, m: Message, sent: bool)
    requires s.messages != []
  {
    && s'.destinationHost == s.destinationHost && s'.messages == s.messages[1..]
    && s'.log.enqueued == s.log.enqueued
    && s'.log.transfers == s.log.transfers + [Transfer(s.messages[0], m.sender, RecipientsAt(m, s.destinationHost),
                                                       if sent then Some(Encode(m.headers, m.body)) else None)]
  }

  lemma FinishedQueue(s: Session, s': Session, st: Store, st': Store, origin: map<Ptr, Message>, m: Message, sent: bool)
    requires s.messages != [] && Finished(s, s', m, sent) && QueueOk(s, st, origin)
    requires st' == Marked(st, s.messages[0], s.destinationHost, sent)
    requires st.heap[s.messages[0]] == m && (sent ==> m.state == BodyLoaded)
    ensures QueueOk(s', st', origin)
  {
    DistinctTail(s.messages);
    assert forall q :: q in s'.messages ==> q in s.messages;
  }

  lemma FinishedLog(s: Session, s': Session, st: Store, st': Store, origin: map<Ptr, Message>, m: Message, sent: bool)
    requires s.messages != [] && Finished(s, s', m, sent) && QueueOk(s, st, origin) && QueueLogOk(s, st, origin)
    requires st' == Marked(st, s.messages[0], s.destinationHost, sent)
    requires st.heap[s.messages[0]] == m && LiveOk(st, s.messages[0], origin[s.messages[0]])
    requires sent ==> m.state == BodyLoaded
    ensures QueueLogOk(s', st', origin)
  {
    var p, host := s.messages[0], s.destinationHost;
    LiveRecipients(st, p, origin[p], host);
    var n := |s.log.transfers|;
    forall k | 0 <= k < |s'.log.transfers| ensures TransferOk(s'.log.transfers[k], host, st', origin) {
      if k < n {
        assert TransferOk(s.log.transfers[k], host, st, origin);
      }
    }
    assert TransferMessages(s'.log.transfers) == TransferMessages(s.log.transfers) + [p];
    assert s.messages == [p] + s'.messages;
    assert TransferMessages(s.log.transfers) + [p] + s'.messages == TransferMessages(s.log.transfers) + s.messages;
  }

  /** The other sessions do not notice that a message was marked as sent to this session's host. */
  lemma FinishedOthers(w: World, i: nat, sent: bool, j: nat)
    requires Queues(w) && CanFinish(w, i, sent) && j < |w.sessions| && j != i
    ensures var p := w.sessions[i].messages[0];
            Keeps(w.sessions[j], w.store, Marked(w.store, p, w.sessions[i].destinationHost, sent))
  {
    assert w.sessions[j].destinationHost != w.sessions[i].destinationHost;
  }

  lemma FinishedQueues(w: World, w': World, i: nat, s': Session, sent: bool, busy: Option<nat>)
    requires Queues(w) && Talks(w, busy) && CanFinish(w, i, sent) && (busy == None || busy == Some(i))
    requires Finished(w.sessions[i], s', w.store.heap[w.sessions[i].messages[0]], sent)
    requires var marked := Marked(w.store, w.sessions[i].messages[0], w.sessions[i].destinationHost, sent);
             w' == w.(sessions := w.sessions[i := s'], store := marked)
    ensures Queues(w') && Talks(w', Some(i))
  {
    forall j | 0 <= j < |w'.sessions|
      ensures QueueOk(w'.sessions[j], w'.store, w'.origin)
      ensures j != i ==> PhaseOk(w'.sessions[j], w'.store, w'.origin)
    {
      if j == i {
        FinishedQueue(w.sessions[i], s', w.store, w'.store, w.origin, w.store.heap[w.sessions[i].messages[0]], sent);
      } else {
        FinishedOthers(w, i, sent, j);
        QueueFrame(w.sessions[j], w.store, w'.store, w.origin, w.origin);
      }
    }
  }

  lemma FinishedLogs(w: World, w': World, i: nat, s': Session, sent: bool)
    requires Queues(w) && Logs(w) && Memory(w) && CanFinish(w, i, sent)
    requires Finished(w.sessions[i], s', w.store.heap[w.sessions[i].messages[0]], sent)
    requires var marked := Marked(w.store, w.sessions[i].messages[0], w.sessions[i].destinationHost, sent);
             w' == w.(sessions := w.sessions[i := s'], store := marked)
    ensures Logs(w')
  {
    var s, all, p := w.sessions[i], All(w), w.sessions[i].messages[0];
    assert all[i] == s && All(w') == all[i := s'];
    FinishedLog(s, s', w.store, w'.store, w.origin, w.store.heap[p], sent);
    forall j | 0 <= j < |All(w')| ensures QueueLogOk(All(w')[j], w'.store, w'.origin) {
      if j != i {
        QueueLogFrame(all[j], w.store, w'.store, w.origin, w.origin);
      }
    }
    ReplacedOnce(all, i, s');
    forall q, h | (q, h) in w'.store.delivered ensures Logged(All(w'), q, h) {
      if (q, h) in w.store.delivered {
        ReplacedLogged(all, i, s', q, h);
      } else {
        assert s'.log.transfers[|s.log.transfers|].message == q;
        assert Delivers(All(w')[i], q, h);
      }
    }
  }

  lemma FinishedCounted(w: World, i: nat, s': Session, sent: bool)
    requires Counted(w.messages, w.sessions, w.store, multiset{}) && CanFinish(w, i, sent)
    requires Distinct(w.sessions[i].messages)
    requires s'.messages == w.sessions[i].messages[1..]
    ensures var p := w.sessions[i].messages[0];
            var marked := Marked(w.store, p, w.sessions[i].destinationHost, sent);
            Counted(w.messages, w.sessions[i := s'], marked, multiset{p})
  {
    var s, p := w.sessions[i], w.sessions[i].messages[0];
    DistinctTail(s.messages);
    assert s.messages == [p] + s'.messages;
    forall q | q in w.store.heap
      ensures Holders(w.sessions[i := s'], q) + (if q == p then 1 else 0) == Holders(w.sessions, q)
    {
      HoldersUpdate(w.sessions, i, s', q);
    }
  }

  /** The head message is marked if it was delivered, and dequeued; its reference is in hand. */
  lemma FinishOk(w: World, i: nat, s': Session, sent: bool, busy: Option<nat>)
    requires Holding(w, multiset{}, busy) && CanFinish(w, i, sent) && (busy == None || busy == Some(i))
    requires Finished(w.sessions[i], s', w.store.heap[w.sessions[i].messages[0]], sent)
    ensures var p := w.sessions[i].messages[0];
            var marked := Marked(w.store, p, w.sessions[i].destinationHost, sent);
            var w' := w.(sessions := w.sessions[i := s'], store := marked);
            Holding(w', multiset{p}, Some(i))
  {
    var p, host := w.sessions[i].messages[0], w.sessions[i].destinationHost;
    var w' := w.(sessions := w.sessions[i := s'], store := Marked(w.store, p, host, sent));
    if sent {
      MarkStore(w.store, p, host, w.next, w.origin);
      MarkFreed(w.store, p, host, w.next, w.origin);
    }
    FinishedQueues(w, w', i, s', sent, busy);
    FinishedLogs(w, w', i, s', sent);
    FinishedCounted(w, i, s', sent);
    assert ListOk(w'.messages, w'.store, w'.origin);
  }

  // ---------------------------------------------------------------- loading and discovering

  lemma StartLoadingStore(st: Store, p: Ptr, next: Ptr, origin: map<Ptr, Message>)
    requires StoreOk(st, next, origin) && FreedOk(st, next, origin)
    requires p in st.heap && p in origin && origin[p].destinations != []
    ensures StoreOk(StartLoadingBody(st, p), next, origin) && FreedOk(StartLoadingBody(st, p), next, origin)
    ensures st.heap[p].state != LoadingHeaders
  {
    assert LiveOk(st, p, origin[p]);
    var st' := StartLoadingBody(st, p);
    forall q | q in st'.heap && q in origin ensures LiveOk(st', q, origin[q]) {
      assert LiveOk(st, q, origin[q]);
    }
  }

  lemma StartLoadingLists(w: World, p: Ptr)
    requires Counted(w.messages, w.sessions, w.store, multiset{}) && ListOk(w.messages, w.store, w.origin)
    requires p in w.store.heap && p in w.origin && w.store.heap[p].state != LoadingHeaders
    ensures ListOk(w.messages, StartLoadingBody(w.store, p), w.origin)
    ensures Counted(w.messages, w.sessions, StartLoadingBody(w.store, p), multiset{})
    ensures StoreChange(w, w.(store := StartLoadingBody(w.store, p)))
  {
  }

  /** `message_start_loading_body` on a routed message. */
  lemma StartLoadingOk(w: World, p: Ptr, busy: Option<nat>)
    requires Holding(w, multiset{}, busy) && p in w.store.heap && p in w.origin && w.origin[p].destinations != []
    ensures Holding(w.(store := StartLoadingBody(w.store, p)), multiset{}, busy)
  {
    var w' := w.(store := StartLoadingBody(w.store, p));
    StartLoadingStore(w.store, p, w.next, w.origin);
    StartLoadingLists(w, p);
    HoldingFrame(w, w', multiset{}, multiset{}, busy);
  }

  lemma CreateStore(st: Store, next: Ptr, origin: map<Ptr, Message>, path: string)
    requires StoreOk(st, next, origin) && FreedOk(st, next, origin)
    ensures StoreOk(Create(st, next, path), next + 1, origin) && FreedOk(Create(st, next, path), next + 1, origin)
  {
    var st' := Create(st, next, path);
    forall q | q in st'.heap && q in origin ensures LiveOk(st', q, origin[q]) {
      assert LiveOk(st, q, origin[q]);
    }
  }

  lemma CreateLists(w: World, path: string)
    requires StoreOk(w.store, w.next, w.origin) && ListOk(w.messages, w.store, w.origin) && Queues(w)
    requires Counted(w.messages, w.sessions, w.store, multiset{})
    ensures var messages, st := w.messages + [w.next], Create(w.store, w.next, path);
            && ListOk(messages, st, w.origin)
            && Counted(messages, w.sessions, st, multiset{})
            && KeepsAll(w.sessions, w.store, st)
  {
    assert w.next !in w.store.heap && w.next !in w.messages;
    DistinctAppend(w.messages, w.next);
    forall i | 0 <= i < |w.sessions| ensures w.next !in w.sessions[i].messages {
      assert QueueOk(w.sessions[i], w.store, w.origin);
    }
    HoldersZero(w.sessions, w.next);
  }

  /** A new message joins the client's list. */
  lemma DiscoverOk(w: World, path: string)
    requires Holding(w, multiset{}, None)
    ensures Holding(Apply(w, Discover(path)), multiset{}, None)
  {
    CreateStore(w.store, w.next, w.origin, path);
    CreateLists(w, path);
    HoldingFrame(w, Apply(w, Discover(path)), multiset{}, multiset{}, None);
  }

  /** A message that still waits for its headers, or that has failed to get them, is on the client's list. */
  lemma ListedUnlessRouted(w: World, p: Ptr)
    requires Holding(w, multiset{}, None) && p in w.store.heap
    ensures p in w.messages <==> p !in w.origin
    ensures p in w.messages ==> ListedOk(w.store.heap[p])
    ensures p in w.origin ==> LiveOk(w.store, p, w.origin[p])
  {
    if p !in w.origin {
      forall i | 0 <= i < |w.sessions| ensures p !in w.sessions[i].messages {
        assert QueueOk(w.sessions[i], w.store, w.origin);
      }
      HoldersZero(w.sessions, p);
    }
  }

  lemma LoadedStore(st: Store, p: Ptr, r: LoadResult, next: Ptr, origin: map<Ptr, Message>)
    requires StoreOk(st, next, origin) && p in st.heap
    requires p in origin ==> st.heap[p].state == LoadingBody && !r.HeadersRead?
    requires p !in origin ==> st.heap[p].state == LoadingHeaders && !r.BodyRead?
    ensures StoreOk(Load(st, p, r), next, origin)
    ensures Extends(st.bodies, Load(st, p, r).bodies)
  {
    match r
    case LoadFailed => FailedStore(st, p, next, origin);
    case HeadersRead(block) => ReadStore(st, p, block, next, origin);
    case BodyRead(text) => BodyStore(st, p, text, next, origin);
  }

  lemma FailedStore(st: Store, p: Ptr, next: Ptr, origin: map<Ptr, Message>)
    requires StoreOk(st, next, origin) && p in st.heap && st.heap[p].state in {LoadingHeaders, LoadingBody}
    ensures StoreOk(Load(st, p, LoadFailed), next, origin)
  {
    var st' := Load(st, p, LoadFailed);
    forall q | q in st'.heap && q in origin ensures LiveOk(st', q, origin[q]) {
      assert LiveOk(st, q, origin[q]);
    }
  }

  lemma BodyStore(st: Store, p: Ptr, text: string, next: Ptr, origin: map<Ptr, Message>)
    requires StoreOk(st, next, origin) && p in st.heap && st.heap[p].state == LoadingBody
    ensures StoreOk(Load(st, p, BodyRead(text)), next, origin)
    ensures Extends(st.bodies, Load(st, p, BodyRead(text)).bodies)
  {
    var st' := Load(st, p, BodyRead(text));
    forall q | q in st'.heap && q in origin ensures LiveOk(st', q, origin[q]) {
      assert LiveOk(st, q, origin[q]);
    }
  }

  lemma ReadStore(st: Store, p: Ptr, block: string, next: Ptr, origin: map<Ptr, Message>)
    requires StoreOk(st, next, origin) && p in st.heap && p !in origin && st.heap[p].state == LoadingHeaders
    ensures StoreOk(Load(st, p, HeadersRead(block)), next, origin)
  {
    assert Parse(block).state != BodyLoaded;
    var st' := Load(st, p, HeadersRead(block));
    forall q | q in st'.heap && q in origin ensures LiveOk(st', q, origin[q]) {
      assert LiveOk(st, q, origin[q]);
    }
  }

  lemma LoadedFreed(st: Store, p: Ptr, r: LoadResult, next: Ptr, origin: map<Ptr, Message>)
    requires FreedOk(st, next, origin) && p in st.heap
    ensures FreedOk(Load(st, p, r), next, origin)
  {
    var st' := Load(st, p, r);
    assert st'.delivered == st.delivered && st'.freed == st.freed && st'.unlinked == st.unlinked;
    assert forall q :: q in st'.heap <==> q in st.heap;
  }

  /** What a header block that is accepted gives can be routed. */
  lemma ParsedIsListed(st: Store, p: Ptr, block: string)
    requires p in st.heap && NoNul(block)
    ensures ListedOk(Load(st, p, HeadersRead(block)).heap[p])
    ensures Load(st, p, HeadersRead(block)).heap[p].state == HeadersLoaded ==>
              FromBlock(Load(st, p, HeadersRead(block)).heap[p])
  {
    ParseAccepts(block);
    var e := Parse(block).envelope;
    if Parse(block).state == HeadersLoaded {
      WellGroupedDistinct(e.destinations);
    }
  }

  lemma LoadedLists(w: World, p: Ptr, r: LoadResult)
    requires ListOk(w.messages, w.store, w.origin) && Counted(w.messages, w.sessions, w.store, multiset{})
    requires Enabled(w, Loaded(p, r))
    requires p in w.messages ==> ListedOk(w.store.heap[p])
    ensures var st' := Load(w.store, p, r);
            && ListOk(w.messages, st', w.origin)
            && Counted(w.messages, w.sessions, st', multiset{})
  {
    if r.HeadersRead? {
      ParsedIsListed(w.store, p, r.block);
    }
  }

  lemma LoadedKeeps(w: World, p: Ptr, r: LoadResult)
    requires Enabled(w, Loaded(p, r)) && Queues(w)
    requires p in w.origin ==> w.store.heap[p].state != LoadingHeaders
    ensures KeepsAll(w.sessions, w.store, Load(w.store, p, r))
  {
    forall i | 0 <= i < |w.sessions| ensures Keeps(w.sessions[i], w.store, Load(w.store, p, r)) {
      assert QueueOk(w.sessions[i], w.store, w.origin);
    }
  }

  /** The next part of a message has been read, or could not be. */
  lemma LoadedOk(w: World, p: Ptr, r: LoadResult)
    requires Holding(w, multiset{}, None) && Enabled(w, Loaded(p, r))
    ensures Holding(Apply(w, Loaded(p, r)), multiset{}, None)
  {
    ListedUnlessRouted(w, p);
    LoadedStore(w.store, p, r, w.next, w.origin);
    LoadedFreed(w.store, p, r, w.next, w.origin);
    LoadedLists(w, p, r);
    LoadedKeeps(w, p, r);
    HoldingFrame(w, Apply(w, Loaded(p, r)), multiset{}, multiset{}, None);
  }

  ghost predicate SameQueue(s: Session, s': Session) {
    && s'.destinationHost == s.destinationHost && s'.messages == s.messages
    && s'.log.transfers == s.log.transfers && s'.log.enqueued == s.log.enqueued
  }

  lemma InterruptLogs(w: World, i: nat, s': Session)
    requires i < |w.sessions| && Logs(w) && SameQueue(w.sessions[i], s')
    ensures Logs(w.(sessions := w.sessions[i := s']))
  {
    var w' := w.(sessions := w.sessions[i := s']);
    assert w.sessions[i] == All(w)[i] && All(w') == All(w)[i := s'];
    ReplacedOnce(All(w), i, s');
    ReplacedDeliveries(All(w), i, s', w.store);
    assert QueueLogOk(w.sessions[i], w.store, w.origin);
  }

  lemma InterruptCounted(w: World, i: nat, s': Session)
    requires i < |w.sessions| && Counted(w.messages, w.sessions, w.store, multiset{}) && SameQueue(w.sessions[i], s')
    ensures Counted(w.messages, w.sessions[i := s'], w.store, multiset{})
  {
    forall p | p in w.store.heap ensures Holders(w.sessions[i := s'], p) == Holders(w.sessions, p) {
      HoldersUpdate(w.sessions, i, s', p);
    }
  }

  /** The session is being changed by `dispatch`. */
  lemma Interrupt(w: World, i: nat, s': Session)
    requires i < |w.sessions| && Holding(w, multiset{}, None) && SameQueue(w.sessions[i], s')
    ensures Holding(w.(sessions := w.sessions[i := s']), multiset{}, Some(i))
  {
    var w' := w.(sessions := w.sessions[i := s']);
    InterruptLogs(w, i, s');
    InterruptCounted(w, i, s');
    assert Queues(w') && Talks(w', Some(i));
  }
}
