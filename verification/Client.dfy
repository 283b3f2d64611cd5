/**
 * The client (client.c): its lists of messages and sessions, updated in place. The objects always
 * stand for the state that the run `trace` of the protocol has reached, so that every theorem about
 * all runs is a theorem about what the program's objects can get to.
 */
module Client {
  import opened Text
  import opened Recipients
  import opened Messages
  import opened Sessions
  import opened Objects
  import opened Rounds
  import D = Delivery
  import I = DeliveryInvariants
  import DeliveryEvents
  import DeliveryRuns
  import DeliverySafety
  import DeliveryOrder
  import Passes

  ghost function Values(sessions: seq<Session>): (r: seq<D.Session>)
    reads sessions
    ensures |r| == |sessions| && forall i :: 0 <= i < |r| ==> r[i] == sessions[i].Value()
  {
    seq(|sessions|, i requires 0 <= i < |sessions| reads sessions => sessions[i].Value())
  }

  ghost predicate AllKnown(messages: seq<Message>, mem: Memory)
    reads mem`objects
  {
    forall m :: m in messages ==> mem.Knows(m)
  }

  ghost predicate AllLinked(sessions: seq<Session>, mem: Memory)
    reads sessions, mem`objects
  {
    forall s :: s in sessions ==> s.Linked(mem) && s.Requested()
  }

  predicate Separate(sessions: seq<Session>) {
    forall i, j :: 0 <= i < j < |sessions| ==> sessions[i] != sessions[j]
  }

  /** The list without one of its messages. */
  lemma PointersWithout(messages: seq<Message>, i: nat)
    requires i < |messages| && Distinct(PointersTo(messages))
    ensures PointersTo(messages[..i] + messages[i + 1..]) == D.Without(PointersTo(messages), messages[i].id)
  {
    WithoutAt(PointersTo(messages), i);
    assert PointersTo(messages[..i] + messages[i + 1..]) == PointersTo(messages)[..i] + PointersTo(messages)[i + 1..];
  }

  lemma MoveOver(done: seq<string>, left: seq<string>)
    requires left != []
    ensures done + [left[0]] + left[1..] == done + left
  {
  }

  class Client {
    const host: string
    var messages: seq<Message>
    var sessions: seq<Session>
    ghost const mem: Memory
    ghost var trace: seq<D.Event>
    ghost var world: D.World       // the state that the run `trace` has reached

    ghost predicate Linked()
      reads this`messages, this`sessions, mem`objects, mem`live, mem.objects, sessions
    {
      mem.Valid() && AllKnown(messages, mem) && Separate(sessions) && AllLinked(sessions, mem)
    }

    /** The objects stand for the state. */
    ghost predicate Stands(w: D.World)
      requires mem.Valid()
      reads this`messages, this`sessions, mem, mem.objects, sessions
    {
      && w.helo == host && w.next == |mem.objects|
      && w.messages == PointersTo(messages)
      && w.sessions == Values(sessions)
      && w.store == mem.Store()
    }

    ghost predicate Valid()
      reads this, mem, mem.objects, sessions
    {
      Linked() && Stands(world) && world == D.Run(host, trace)
    }

    /** Objects are only added. */
    twostate predicate Grown()
      reads this, mem
    {
      && (forall m :: m in mem.objects ==> m in old(mem.objects) || fresh(m))
      && (forall s :: s in sessions ==> s in old(sessions) || fresh(s))
    }

    /** The run has gone on with one event. */
    twostate predicate Ran(e: D.Event)
      reads this, mem, mem.objects, sessions
    {
      Valid() && trace == old(trace) + [e] && world == D.Step(old(world), e)
    }

    /** `client_initialize` */
    constructor (host: string)
      ensures Valid() && trace == [] && messages == [] && sessions == [] && !world.finished && fresh(mem)
    {
      this.host, messages, sessions := host, [], [];
      mem := new Memory();
      trace := [];
      world := D.Initial(host);
    }

    /** Where the run goes on to with an event; the invariant of the protocol holds there. */
    lemma Next(e: D.Event) returns (w: D.World)
      requires Valid() && !world.finished && D.Enabled(world, e)
      ensures w == D.Run(host, trace + [e]) == D.Step(world, e) == D.Apply(world, e)
      ensures !w.store.fault
    {
      w := D.Run(host, trace + [e]);
      DeliveryOrder.RunStep(host, trace, e);
      DeliveryRuns.RunKeepsInvariant(host, trace + [e]);
    }

    /** The objects have come to where the run goes on to. */
    ghost method Advance(e: D.Event, w: D.World)
      requires Linked() && Stands(w) && w == D.Run(host, trace + [e])
      modifies this`trace, this`world
      ensures Valid() && trace == old(trace) + [e] && world == w
    {
      trace, world := trace + [e], w;
    }

    /** Every message object that the program can reach has not been freed. */
    lemma NothingDangles()
      requires Valid()
      ensures forall m :: m in messages ==> mem.Holds(m)
      ensures forall s, m :: s in sessions && m in s.messages ==> mem.Holds(m)
      ensures forall s :: s in sessions && I.InTransaction(s.state) && s.recipient.At? ==>
                mem.Holds(s.recipient.message)
    {
      forall m | m in messages ensures mem.Holds(m) {
        var i :| 0 <= i < |messages| && messages[i] == m;
        ListIsLive(i);
      }
      forall s, m | s in sessions && m in s.messages ensures mem.Holds(m) {
        QueueIsLive(s, m);
      }
      forall s | s in sessions && I.InTransaction(s.state) && s.recipient.At? ensures mem.Holds(s.recipient.message) {
        RecipientIsLive(s);
      }
    }

    lemma RecipientIsLive(s: Session)
      requires Valid() && s in sessions && I.InTransaction(s.state) && s.recipient.At?
      ensures mem.Holds(s.recipient.message)
    {
      DeliverySafety.PhasesHaveTheirMessage(host, trace);
      var i :| 0 <= i < |sessions| && sessions[i] == s;
      assert D.UserAt(world.store, world.sessions[i].cursor).Some?;
      mem.IsLive(s.recipient.message);
    }

    lemma QueueIsLive(s: Session, m: Message)
      requires Valid() && s in sessions && m in s.messages
      ensures mem.Holds(m)
    {
      DeliveryRuns.RunKeepsInvariant(host, trace);
      var i :| 0 <= i < |sessions| && sessions[i] == s;
      var j :| 0 <= j < |s.messages| && s.messages[j] == m;
      assert I.QueueOk(world.sessions[i], world.store, world.origin);
      assert world.sessions[i].messages[j] == m.id;
      mem.IsLive(m);
    }

    /** The files that the program has unlinked are those of the messages that have reached everybody they name. */
    lemma FilesAreSafe()
      requires Valid()
      ensures forall p: D.Ptr :: p in mem.unlinked <==>
                && p in world.origin
                && NamedAddresses(world.origin[p].block) != []
                && forall a :: a in NamedAddresses(world.origin[p].block) ==> DeliverySafety.AcceptedFor(world, p, a)
    {
      DeliverySafety.NoMailIsLost(host, trace);
    }

    // ---------------------------------------------------------------- messages

    /** The maildir has reported a file. */
    method Discover(path: string)
      requires Valid() && !world.finished
      modifies this`messages, this`trace, this`world, mem
      ensures Ran(D.Discover(path)) && Grown()
      ensures |mem.objects| == |old(mem.objects)| + 1 && mem.objects[..|old(mem.objects)|] == old(mem.objects)
      ensures mem.objects[|old(mem.objects)|].path == path
    {
      ghost var w := Next(D.Discover(path));
      AddMessage(path);
      Advance(D.Discover(path), w);
    }

    method AddMessage(path: string)
      requires Linked()
      modifies this`messages, mem
      ensures Linked() && Grown()
      ensures |mem.objects| == |old(mem.objects)| + 1 && mem.objects[..|old(mem.objects)|] == old(mem.objects)
      ensures mem.objects[|old(mem.objects)|].path == path && Values(sessions) == old(Values(sessions))
      ensures PointersTo(messages) == PointersTo(old(messages)) + [|old(mem.objects)|]
      ensures mem.Store() == D.Create(old(mem.Store()), |old(mem.objects)|, path)
    {
      var m := new Message(path, mem);
      SameSessions();
      messages := messages + [m];
    }

    /** The next part of a message has been read, or could not be. */
    method LoadMessage(m: Message, result: D.LoadResult)
      requires Valid() && !world.finished && mem.Holds(m) && D.Enabled(world, D.Loaded(m.id, result))
      modifies this`trace, this`world, mem, m
      ensures Ran(D.Loaded(m.id, result)) && sessions == old(sessions) && mem.objects == old(mem.objects)
    {
      mem.IsLive(m);
      ghost var w := NextLoaded(m.id, result);
      LoadPart(m, result);
      Advance(D.Loaded(m.id, result), w);
    }

    /** `message_notify` for one message; the sessions do not change. */
    method LoadPart(m: Message, result: D.LoadResult)
      requires Linked() && mem.Holds(m)
      requires D.NoNulRead(result)
      modifies mem, m
      ensures Linked() && mem.objects == old(mem.objects) && Values(sessions) == old(Values(sessions))
      ensures mem.Store() == D.Load(old(mem.Store()), m.id, result)
    {
      m.Load(mem, result);
      SameSessions();
    }

    lemma NextLoaded(p: D.Ptr, result: D.LoadResult) returns (w: D.World)
      requires Valid() && !world.finished && D.Enabled(world, D.Loaded(p, result))
      ensures w == D.Run(host, trace + [D.Loaded(p, result)]) == D.Step(world, D.Loaded(p, result))
      ensures w == world.(store := D.Load(world.store, p, result))
      ensures D.NoNulRead(result)
    {
      w := Next(D.Loaded(p, result));
    }

    // ---------------------------------------------------------------- sessions

    /** No session has changed. */
    twostate lemma SameSessions()
      requires unchanged(`sessions) && old(mem.objects) <= mem.objects && old(AllLinked(sessions, mem))
      requires forall s :: s in sessions ==> unchanged(s)
      ensures Values(sessions) == old(Values(sessions)) && AllLinked(sessions, mem)
    {
      forall i | 0 <= i < |sessions| ensures sessions[i].Value() == old(sessions[i].Value()) {
        assert sessions[i] in sessions;
      }
      forall s | s in sessions ensures s.Linked(mem) && s.Requested() {
        assert old(s.Linked(mem));
      }
    }

    /** Only one session has changed. */
    twostate lemma OneSession(k: nat)
      requires unchanged(`sessions) && unchanged(mem`objects) && k < |sessions| && Separate(sessions)
      requires old(AllLinked(sessions, mem)) && sessions[k].Linked(mem) && sessions[k].Requested()
      requires forall s :: s in sessions && s != sessions[k] ==> unchanged(s)
      ensures Values(sessions) == old(Values(sessions))[k := sessions[k].Value()]
      ensures AllLinked(sessions, mem)
    {
      forall i | 0 <= i < |sessions| && i != k ensures sessions[i].Value() == old(sessions[i].Value()) {
        assert sessions[i] in sessions;
      }
    }

    lemma QueueIsKnown(k: nat)
      requires Linked() && k < |sessions|
      ensures sessions[k] in sessions && sessions[k].Linked(mem) && sessions[k].Requested()
      ensures forall m :: m in sessions[k].messages ==> m in mem.objects
    {
      assert sessions[k] in sessions;
    }

    /** What the resolver, `connect` or an error on the socket does to a session. */
    method Network(k: nat, state: SessionState)
      requires Valid() && !world.finished && D.Enabled(world, D.Network(k, state))
      modifies this`trace, this`world, (set s | s in sessions)
      ensures Ran(D.Network(k, state)) && sessions == old(sessions) && sessions[k].state == state
    {
      QueueIsKnown(k);
      ghost var w := NextNetwork(k, state);
      sessions[k].Move(state);
      OneSession(k);
      Advance(D.Network(k, state), w);
    }

    lemma NextNetwork(k: nat, state: SessionState) returns (w: D.World)
      requires Valid() && !world.finished && D.Enabled(world, D.Network(k, state))
      ensures k < |sessions| && w == D.Run(host, trace + [D.Network(k, state)]) == D.Step(world, D.Network(k, state))
      ensures w == world.(sessions := world.sessions[k := D.NetworkMove(world.sessions[k], state)])
      ensures state != LoadingMessageBody && world.sessions[k].state != Closed
    {
      w := Next(D.Network(k, state));
    }

    /** `session_notify` when a reply has been received. */
    method Reply(k: nat, code: int)
      requires Valid() && !world.finished && D.Enabled(world, D.Reply(k, code))
      modifies this`trace, this`world, (set s | s in sessions), mem, (set m | m in mem.objects)
      ensures Ran(D.Reply(k, code))
      ensures sessions == old(sessions) && mem.objects == old(mem.objects)
    {
      ghost var w, o := NextReply(k, code);
      DispatchSession(k, code, world, o);
      Advance(D.Reply(k, code), w);
    }

    /** The rest of the request of a reply cannot be written: the session is closed, and the assertion fails. */
    method Collide(k: nat, code: int)
      requires Valid() && !world.finished && D.Enabled(world, D.Collision(k, code))
      modifies this`trace, this`world, (set s | s in sessions)
      ensures Ran(D.Collision(k, code)) && sessions == old(sessions) && world.finished && world.aborted
    {
      QueueIsKnown(k);
      ghost var w := NextCollision(k, code);
      sessions[k].Move(Closed);
      OneSession(k);
      Advance(D.Collision(k, code), w);
    }

    lemma NextCollision(k: nat, code: int) returns (w: D.World)
      requires Valid() && !world.finished && D.Enabled(world, D.Collision(k, code))
      ensures k < |sessions|
      ensures w == D.Run(host, trace + [D.Collision(k, code)]) == D.Step(world, D.Collision(k, code))
      ensures w == world.(sessions := world.sessions[k := D.NetworkMove(world.sessions[k], Closed)],
                          finished := true, aborted := true)
      ensures world.sessions[k].state != Closed
    {
      w := Next(D.Collision(k, code));
    }

    /** `session_notify` while the body of the head message is being loaded; `code` is not looked at. */
    method BodyPoll(k: nat, code: int)
      requires Valid() && !world.finished && k < |sessions| && sessions[k].state == LoadingMessageBody
      modifies this`trace, this`world, (set s | s in sessions), mem, (set m | m in mem.objects)
      ensures Ran(D.BodyPoll(k))
      ensures sessions == old(sessions) && mem.objects == old(mem.objects)
    {
      ghost var w, o := NextBodyPoll(k, code);
      DispatchSession(k, code, world, o);
      Advance(D.BodyPoll(k), w);
    }

    /** `dispatch` for one session; the others do not change. */
    method DispatchSession(k: nat, code: int, ghost w: D.World, ghost o: D.Outcome)
      requires Linked() && Stands(w) && k < |sessions|
      requires o == D.Dispatch(host, w.store, w.sessions[k], code) && !o.store.fault
      modifies (set s | s in sessions), mem, (set m | m in mem.objects)
      ensures Linked() && mem.objects == old(mem.objects)
      ensures Stands(w.(store := o.store, sessions := w.sessions[k := o.session]))
    {
      QueueIsKnown(k);
      sessions[k].Dispatch(host, code, mem);
      OneSession(k);
    }

    lemma NextReply(k: nat, code: int) returns (w: D.World, o: D.Outcome)
      requires Valid() && !world.finished && D.Enabled(world, D.Reply(k, code))
      ensures k < |sessions| && w == D.Run(host, trace + [D.Reply(k, code)]) == D.Step(world, D.Reply(k, code))
      ensures o == D.Dispatch(host, world.store, world.sessions[k], code) && !o.store.fault
      ensures w == world.(store := o.store, sessions := world.sessions[k := o.session])
    {
      w := Next(D.Reply(k, code));
      o := D.Dispatch(host, world.store, world.sessions[k], code);
    }

    lemma NextBodyPoll(k: nat, code: int) returns (w: D.World, o: D.Outcome)
      requires Valid() && !world.finished && k < |sessions| && sessions[k].state == LoadingMessageBody
      ensures w == D.Run(host, trace + [D.BodyPoll(k)]) == D.Step(world, D.BodyPoll(k))
      ensures o == D.Dispatch(host, world.store, world.sessions[k], code) && !o.store.fault
      ensures w == world.(store := o.store, sessions := world.sessions[k := o.session])
    {
      w := Next(D.BodyPoll(k));
      o := D.Dispatch(host, world.store, world.sessions[k], code);
    }

    // ---------------------------------------------------------------- routing

    /** The search for the session of a host. */
    method SearchSession(destinationHost: string) returns (k: nat)
      ensures k == D.FindSession(Values(sessions), destinationHost)
    {
      k := 0;
      while k < |sessions| && sessions[k].destinationHost != destinationHost
        invariant k <= D.FindSession(Values(sessions), destinationHost)
      {
        k := k + 1;
      }
    }

    method AddSession(destinationHost: string, refused: bool, ghost w: D.World)
      requires Linked() && Stands(w)
      modifies this`sessions
      ensures Linked() && Stands(w.(sessions := [D.NewSession(destinationHost, refused)] + w.sessions))
      ensures |sessions| == |old(sessions)| + 1 && fresh(sessions[0]) && sessions[1..] == old(sessions)
    {
      var s := new Session(destinationHost, refused);
      SameSessions();
      Prepend(s, w);
    }

    /** TAILQ_INSERT_HEAD */
    method Prepend(s: Session, ghost w: D.World)
      requires Linked() && Stands(w) && s.Linked(mem) && s.Requested() && s !in sessions
      modifies this`sessions
      ensures sessions == [s] + old(sessions)
      ensures Linked() && Stands(w.(sessions := [s.Value()] + w.sessions))
    {
      sessions := [s] + sessions;
    }

    method Enqueue(k: nat, m: Message, ghost w: D.World)
      requires Linked() && Stands(w) && mem.Holds(m) && k < |sessions|
      modifies sessions[k], m`refCount
      ensures Linked()
      ensures Stands(w.(store := D.Retain(w.store, m.id), sessions := w.sessions[k := D.Enqueued(w.sessions[k], m.id)]))
    {
      QueueIsKnown(k);
      sessions[k].EnqueueMessage(m, mem);
      OneSession(k);
    }

    /** One destination of a message: the session for its host is found or made, and given the message. */
    method RouteTo(m: Message, destinationHost: string, refused: set<string>, ghost w: D.World)
      requires Linked() && Stands(w) && mem.Holds(m)
      modifies this`sessions, (set s | s in sessions), m`refCount
      ensures Linked() && Stands(D.RouteTo(w, m.id, destinationHost, destinationHost in refused))
      ensures forall s :: s in sessions ==> s in old(sessions) || fresh(s)
    {
      var k := SearchSession(destinationHost);
      if k == |sessions| {
        RouteToNew(m, destinationHost, destinationHost in refused, w);
      } else {
        assert sessions[k] in sessions;
        Enqueue(k, m, w);
      }
    }

    /** The session is new. */
    method RouteToNew(m: Message, destinationHost: string, refused: bool, ghost w: D.World)
      requires Linked() && Stands(w) && mem.Holds(m)
      requires D.FindSession(w.sessions, destinationHost) == |w.sessions|
      modifies this`sessions, m`refCount
      ensures Linked() && Stands(D.RouteTo(w, m.id, destinationHost, refused))
      ensures forall s :: s in sessions ==> s in old(sessions) || fresh(s)
    {
      ghost var s := D.NewSession(destinationHost, refused);
      FirstReplaced(w.sessions, s, D.Enqueued(s, m.id));
      AddSession(destinationHost, refused, w);
      Enqueue(0, m, w.(sessions := [s] + w.sessions));
    }

    /** The loop over the destinations of a message. */
    method RouteEach(m: Message, refused: set<string>, ghost w: D.World)
      requires Linked() && Stands(w) && mem.Holds(m)
      modifies this`sessions, (set s | s in sessions), m`refCount
      ensures Linked() && Stands(D.RouteAll(w, m.id, DestinationHosts(m.destinations), refused))
      ensures forall s :: s in sessions ==> s in old(sessions) || fresh(s)
    {
      var destinations := m.destinations;
      ghost var now, hosts := w, DestinationHosts(destinations);
      ghost var goal := D.RouteAll(w, m.id, hosts, refused);
      var i := 0;
      while i < |destinations|
        invariant 0 <= i <= |destinations|
        invariant Linked() && Stands(now) && mem.Holds(m)
        invariant forall s :: s in sessions ==> s in old(sessions) || fresh(s)
        invariant D.RouteAll(now, m.id, hosts[i..], refused) == goal
      {
        RouteAllAt(now, m.id, hosts, i, refused);
        RouteTo(m, destinations[i].host, refused, now);
        now := D.RouteTo(now, m.id, hosts[i], hosts[i] in refused);
        i := i + 1;
      }
    }

    /** TAILQ_REMOVE on the list of messages, and `message_release`. */
    method Drop(i: nat, ghost w: D.World)
      requires Linked() && Stands(w) && i < |messages| && Distinct(w.messages)
      requires mem.Holds(messages[i]) && messages[i].refCount > 0
      modifies this`messages, messages[i], mem
      ensures var p := w.messages[i];
              Linked() && Stands(w.(messages := D.Without(w.messages, p), store := D.Release(w.store, p)))
      ensures messages == old(messages[..i] + messages[i + 1..]) && mem.objects == old(mem.objects)
    {
      PointersWithout(messages, i);
      messages[i].Release(mem);
      SameSessions();
      Unlist(i, w.(store := D.Release(w.store, messages[i].id)));
    }

    /** TAILQ_REMOVE */
    method Unlist(i: nat, ghost w: D.World)
      requires Linked() && Stands(w) && i < |messages|
      modifies this`messages
      ensures messages == old(messages[..i] + messages[i + 1..])
      ensures Linked() && Stands(w.(messages := PointersTo(messages)))
    {
      messages := messages[..i] + messages[i + 1..];
    }

    /** A message whose headers are known is given to the sessions, and leaves the list. */
    method Forward(i: nat, refused: set<string>, ghost w: D.World, ghost after: D.World)
      requires Linked() && Stands(w) && i < |messages| && Distinct(w.messages) && mem.Holds(messages[i])
      requires StillListed(w, messages[i].id, DestinationHosts(messages[i].destinations), refused)
      requires after == Passed(w, messages[i].id, DestinationHosts(messages[i].destinations), refused)
      modifies this`messages, this`sessions, (set s | s in sessions), mem, messages[i]
      ensures Linked() && Stands(after)
      ensures messages == old(messages[..i] + messages[i + 1..]) && mem.objects == old(mem.objects)
      ensures forall s :: s in sessions ==> s in old(sessions) || fresh(s)
    {
      var m := messages[i];
      ghost var routed := D.RouteAll(w, m.id, DestinationHosts(m.destinations), refused);
      RouteEach(m, refused, w);
      mem.IsLive(m);
      Drop(i, routed);
    }

    /** The client looks at a message of its list. */
    method RouteMessage(i: nat, refused: set<string>)
      requires Valid() && !world.finished && i < |messages|
      modifies this, (set s | s in sessions), mem, messages[i]
      ensures Ran(D.Route(old(messages[i]).id, refused))
      ensures forall s :: s in sessions ==> s in old(sessions) || fresh(s)
      ensures if old(messages[i].state) == LoadingHeaders
              then messages == old(messages) && messages[i].state == LoadingHeaders
              else messages == old(messages[..i] + messages[i + 1..])
      ensures mem.objects == old(mem.objects) && !world.finished
    {
      ghost var w := NextRoute(i, refused);
      if messages[i].state == HeadersLoaded {
        RouteLoaded(i, refused, w);
      } else if messages[i].state == LoadingFailed {
        GiveUp(i, refused, w);
      } else {
        Advance(D.Route(messages[i].id, refused), w);
      }
    }

    /** A message whose headers have been read. */
    method RouteLoaded(i: nat, refused: set<string>, ghost w: D.World)
      requires Valid() && Goes(i, refused, w) && messages[i].state == HeadersLoaded
      modifies this, (set s | s in sessions), mem, messages[i]
      ensures Ran(D.Route(old(messages[i]).id, refused)) && world == w
      ensures forall s :: s in sessions ==> s in old(sessions) || fresh(s)
      ensures messages == old(messages[..i] + messages[i + 1..]) && mem.objects == old(mem.objects)
    {
      ghost var e, taken := D.Route(messages[i].id, refused), Taken(i);
      Forward(i, refused, taken, w);
      Advance(e, w);
    }

    /** A message that could not be loaded. */
    method GiveUp(i: nat, refused: set<string>, ghost w: D.World)
      requires Valid() && Goes(i, refused, w) && messages[i].state == LoadingFailed
      modifies this`messages, this`trace, this`world, mem, messages[i]
      ensures Ran(D.Route(old(messages[i]).id, refused)) && world == w
      ensures messages == old(messages[..i] + messages[i + 1..]) && mem.objects == old(mem.objects)
    {
      ghost var e := D.Route(messages[i].id, refused);
      Drop(i, world);
      Advance(e, w);
    }

    /** The message is remembered as it is when it is routed. */
    ghost function Taken(i: nat): D.World
      requires i < |messages|
      reads this`messages, this`world, messages
    {
      world.(origin := world.origin[messages[i].id := messages[i].Value()])
    }

    /** What the run goes on to when the client looks at a message. */
    ghost predicate Goes(i: nat, refused: set<string>, w: D.World)
      requires mem.Valid()
      reads this, mem, mem.objects, messages
    {
      && i < |messages|
      && w == D.Run(host, trace + [D.Route(messages[i].id, refused)]) == D.Step(world, D.Route(messages[i].id, refused))
      && mem.Holds(messages[i]) && Distinct(world.messages) && messages[i].refCount > 0 && !w.finished
      && var m := messages[i];
         match m.state
         case LoadingHeaders => w == world
         case LoadingFailed =>
           w == world.(messages := D.Without(world.messages, m.id), store := D.Release(world.store, m.id))
         case HeadersLoaded =>
           && w == Passed(Taken(i), m.id, DestinationHosts(m.destinations), refused)
           && StillListed(Taken(i), m.id, DestinationHosts(m.destinations), refused)
         case _ => false
    }

    lemma NextRoute(i: nat, refused: set<string>) returns (w: D.World)
      requires Valid() && !world.finished && i < |messages|
      ensures Goes(i, refused, w)
    {
      var m := messages[i];
      w := Next(D.Route(m.id, refused));
      DeliverySafety.RoutingGoesOn(world, m.id, refused);
      DeliveryRuns.RunKeepsInvariant(host, trace);
      assert world.messages[i] == m.id;
      mem.IsLive(m);
      if m.state == HeadersLoaded {
        RouteAllMessages(Taken(i), m.id, DestinationHosts(m.destinations), refused, D.Without(world.messages, m.id));
      }
    }

    // ---------------------------------------------------------------- client_notify

    /** `message_notify`: the message is loaded further if it waits for just this. */
    method NotifyMessage(m: Message, loads: map<string, D.LoadResult>)
      requires Valid() && !world.finished && mem.Holds(m)
      modifies this`trace, this`world, mem, m
      ensures Valid() && world == LoadStep(old(world), m.id, loads)
      ensures sessions == old(sessions) && messages == old(messages) && mem.objects == old(mem.objects)
      ensures !world.finished
    {
      mem.IsLive(m);
      if m.path in loads && Awaited(m.state, loads[m.path]) {
        LoadMessage(m, loads[m.path]);
      }
    }

    /** The first part of `client_notify`: the messages of the list, from the first to the last. */
    method NotifyMessages(loads: map<string, D.LoadResult>, refused: set<string>)
      requires Valid() && !world.finished
      modifies this, (set s | s in sessions), mem, (set m | m in mem.objects)
      ensures Valid() && !world.finished && mem.objects == old(mem.objects)
      ensures world == MessageRound(old(world), PointersTo(old(messages)), loads, refused)
      ensures forall m :: m in messages ==> m.state == LoadingHeaders
      ensures forall s :: s in sessions ==> s in old(sessions) || fresh(s)
    {
      var i: nat := 0;
      ghost var ps, done := PointersTo(messages), 0;
      ghost var goal := MessageRound(world, ps, loads, refused);
      while i < |messages|
        invariant Valid() && !world.finished && mem.objects == old(mem.objects)
        invariant forall s :: s in sessions ==> s in old(sessions) || fresh(s)
        invariant 0 <= done <= |ps| && i <= |messages| && PointersTo(messages)[i..] == ps[done..]
        invariant MessageRound(world, ps[done..], loads, refused) == goal
        invariant forall j :: 0 <= j < i ==> messages[j].state == LoadingHeaders
        decreases |ps| - done
      {
        MessageRoundAt(world, ps, done, loads, refused);
        ListIsLive(i);
        assert PointersTo(messages)[i] == ps[done];
        i := NotifyListed(i, loads, refused);
        done := done + 1;
      }
    }

    /** One message of the list; `next` is where its successor stands afterwards. */
    method NotifyListed(i: nat, loads: map<string, D.LoadResult>, refused: set<string>) returns (next: nat)
      requires Valid() && !world.finished && i < |messages|
      requires forall j :: 0 <= j < i ==> messages[j].state == LoadingHeaders
      modifies this, (set s | s in sessions), mem, messages[i]
      ensures Valid() && !world.finished && mem.objects == old(mem.objects)
      ensures var p := old(messages[i]).id; world == D.Step(LoadStep(old(world), p, loads), D.Route(p, refused))
      ensures forall s :: s in sessions ==> s in old(sessions) || fresh(s)
      ensures i <= next <= |messages| && PointersTo(messages)[next..] == old(PointersTo(messages)[i + 1..])
      ensures forall j :: 0 <= j < next ==> messages[j].state == LoadingHeaders
    {
      ListIsLive(i);
      next := LookAt(i, loads, refused);
      assert forall j :: 0 <= j < i ==> messages[j] == old(messages[j]);
    }

    method LookAt(i: nat, loads: map<string, D.LoadResult>, refused: set<string>) returns (next: nat)
      requires Valid() && !world.finished && i < |messages|
      modifies this, (set s | s in sessions), mem, messages[i]
      ensures Valid() && !world.finished && mem.objects == old(mem.objects)
      ensures var p := old(messages[i]).id; world == D.Step(LoadStep(old(world), p, loads), D.Route(p, refused))
      ensures forall s :: s in sessions ==> s in old(sessions) || fresh(s)
      ensures if next == i then messages == old(messages[..i] + messages[i + 1..])
              else next == i + 1 && messages == old(messages) && messages[i].state == LoadingHeaders
    {
      var m := messages[i];
      ListIsLive(i);
      NotifyMessage(m, loads);
      next := if m.state == LoadingHeaders then i + 1 else i;
      RouteMessage(i, refused);
    }

    lemma ListIsLive(i: nat)
      requires Valid() && i < |messages|
      ensures mem.Holds(messages[i]) && messages[i] in mem.objects
      ensures forall j :: 0 <= j < |messages| && j != i ==> messages[j] != messages[i]
    {
      DeliveryRuns.RunKeepsInvariant(host, trace);
      assert world.messages[i] == messages[i].id;
      forall j | 0 <= j < |messages| && j != i ensures messages[j] != messages[i] {
        assert world.messages[j] == messages[j].id;
      }
      mem.IsLive(messages[i]);
    }

    /**
     * `session_notify`: the head message may be loaded further, and the session takes a step of its own. That
     * can be the one in which the assertion fails, and the program ends.
     */
    method NotifySession(k: nat, loads: map<string, D.LoadResult>, signals: map<string, Signal>)
      returns (aborted: bool)
      requires Valid() && !world.finished && k < |sessions|
      modifies this`trace, this`world, (set s | s in sessions), mem, (set m | m in mem.objects)
      ensures Valid() && mem.objects == old(mem.objects) && sessions == old(sessions)
      ensures aborted == world.finished && (aborted ==> world.aborted)
      ensures world == SessionStep(old(world), k, loads, signals)
      ensures old(sessions[k].messages) != [] ==> Notified(old(sessions[k].messages)[0], loads)
      ensures aborted ||
              Passes.Reacts(old(sessions[k].Value()), old(HeadState(sessions[k], loads)), sessions[k].Value(), signals)
    {
      NotifyHead(k, loads);
      aborted := NotifyOwn(k, signals);
      TurnOnObjects(k, loads, signals);
    }

    /** The step that is the session's own. */
    method NotifyOwn(k: nat, signals: map<string, Signal>) returns (aborted: bool)
      requires Valid() && !world.finished && k < |sessions|
      modifies this`trace, this`world, (set s | s in sessions), mem, (set m | m in mem.objects)
      ensures Valid() && mem.objects == old(mem.objects) && sessions == old(sessions)
      ensures aborted == world.finished && (aborted ==> world.aborted)
      ensures world == OwnStep(old(world), old(sessions[k].Value()), k, signals)
    {
      aborted := false;
      if sessions[k].state == LoadingMessageBody {
        BodyPoll(k, -1);
      } else if sessions[k].destinationHost in signals {
        aborted := Signalled(k, signals);
      }
    }

    /** The network has something to say to the session. */
    method Signalled(k: nat, signals: map<string, Signal>) returns (aborted: bool)
      requires Valid() && !world.finished && k < |sessions| && sessions[k].state != LoadingMessageBody
      requires sessions[k].destinationHost in signals
      modifies this`trace, this`world, (set s | s in sessions), mem, (set m | m in mem.objects)
      ensures Valid() && mem.objects == old(mem.objects) && sessions == old(sessions)
      ensures aborted == world.finished && (aborted ==> world.aborted)
      ensures world == OwnStep(old(world), old(sessions[k].Value()), k, signals)
    {
      aborted := false;
      match signals[sessions[k].destinationHost]
      case Changed(path) =>
        Travel(k, path);
      case Replied(code) =>
        if Exchanging(sessions[k].state) && code != -1 {
          Reply(k, code);
        }
      case Collided(code) =>
        if Requesting(sessions[k].state) && code != -1 {
          Collide(k, code);
          aborted := true;
        }
    }

    /** The session goes a way that the resolver, `connect` or the socket lead it. */
    method Travel(k: nat, path: seq<SessionState>)
      requires Valid() && !world.finished && k < |sessions|
      modifies this`trace, this`world, (set s | s in sessions)
      ensures Valid() && !world.finished && sessions == old(sessions)
      ensures world == NetworkSteps(old(world), k, path)
      ensures NetworkPath(old(sessions[k].state), path) ==> sessions[k].state == EndOf(old(sessions[k].state), path)
    {
      ghost var goal, from := NetworkSteps(world, k, path), sessions[k].state;
      var left := path;
      while left != []
        invariant Valid() && !world.finished && sessions == old(sessions)
        invariant NetworkSteps(world, k, left) == goal
        invariant NetworkPath(from, path) ==>
                    NetworkPath(sessions[k].state, left) && EndOf(sessions[k].state, left) == EndOf(from, path)
        decreases |left|
      {
        Attempt(k, left[0]);
        left := left[1..];
      }
    }

    /** One change of state, if it is one that can be. */
    method Attempt(k: nat, state: SessionState)
      requires Valid() && !world.finished && k < |sessions|
      modifies this`trace, this`world, (set s | s in sessions)
      ensures Valid() && !world.finished && sessions == old(sessions)
      ensures world == D.Step(old(world), D.Network(k, state))
      ensures NetworkEdge(old(sessions[k].state), state) ==> sessions[k].state == state
    {
      if NetworkEdge(sessions[k].state, state) {
        Network(k, state);
      }
    }

    method NotifyHead(k: nat, loads: map<string, D.LoadResult>)
      requires Valid() && !world.finished && k < |sessions|
      modifies this`trace, this`world, mem, (set m | m in mem.objects)
      ensures Valid() && !world.finished && mem.objects == old(mem.objects)
      ensures world == HeadStep(old(world), k, loads)
    {
      if sessions[k].messages != [] {
        HeadIsHeld(k);
        NotifyMessage(sessions[k].messages[0], loads);
      }
    }

    lemma HeadIsHeld(k: nat)
      requires Valid() && k < |sessions| && sessions[k].messages != []
      ensures mem.Holds(sessions[k].messages[0]) && sessions[k].messages[0] in mem.objects
      ensures world.sessions[k].messages != [] && world.sessions[k].messages[0] == sessions[k].messages[0].id
    {
      DeliveryRuns.RunKeepsInvariant(host, trace);
      QueueIsKnown(k);
      assert I.QueueOk(world.sessions[k], world.store, world.origin);
      assert sessions[k].messages[0] in sessions[k].messages;
      mem.IsLive(sessions[k].messages[0]);
    }

    /** The second part of `client_notify`: the sessions; the closed ones are finalized. */
    method NotifySessions(loads: map<string, D.LoadResult>, signals: map<string, Signal>) returns (aborted: bool)
      requires Valid() && !world.finished
      modifies this`sessions, this`trace, this`world, (set s | s in sessions), mem, (set m | m in mem.objects)
      ensures Valid() && aborted == world.finished && (aborted ==> world.aborted) && mem.objects == old(mem.objects)
      ensures world == SessionRound(old(world), 0, |old(sessions)|, loads, signals)
    {
      var k: nat := 0;
      ghost var left: nat := |sessions|;
      ghost var goal := SessionRound(world, k, left, loads, signals);
      aborted := false;
      while !aborted && k < |sessions|
        invariant Valid() && mem.objects == old(mem.objects)
        invariant forall s :: s in sessions ==> s in old(sessions)
        invariant aborted == world.finished && (aborted ==> world.aborted)
        invariant aborted || left == |sessions| - k
        invariant SessionRound(world, k, left, loads, signals) == goal
        decreases left
      {
        k, aborted, left := NotifyNextSession(k, loads, signals, left, goal);
      }
      RoundIsOver(world, k, left, loads, signals);
    }

    /** One session of the list, as a part of the round. */
    method NotifyNextSession(k: nat, loads: map<string, D.LoadResult>, signals: map<string, Signal>,
            ghost left: nat, ghost goal: D.World)
      returns (next: nat, aborted: bool, ghost rest: nat)
      requires Valid() && !world.finished && k < |sessions| && left == |sessions| - k
      requires SessionRound(world, k, left, loads, signals) == goal
      modifies this`sessions, this`trace, this`world, (set s | s in sessions), mem, (set m | m in mem.objects)
      ensures Valid() && mem.objects == old(mem.objects)
      ensures aborted == world.finished && (aborted ==> world.aborted)
      ensures rest + 1 == left && (aborted || rest == |sessions| - next)
      ensures SessionRound(world, next, rest, loads, signals) == goal
      ensures forall s :: s in sessions ==> s in old(sessions)
    {
      ghost var was := world;
      next, aborted := NotifyListedSession(k, loads, signals);
      rest := RoundGoesOn(was, k, left, loads, signals, world, next, goal);
    }

    /** One session of the list; `next` is where its successor stands afterwards. */
    method NotifyListedSession(k: nat, loads: map<string, D.LoadResult>, signals: map<string, Signal>)
      returns (next: nat, aborted: bool)
      requires Valid() && !world.finished && k < |sessions|
      modifies this`sessions, this`trace, this`world, (set s | s in sessions), mem, (set m | m in mem.objects)
      ensures Valid() && mem.objects == old(mem.objects) && next <= |sessions|
      ensures aborted == world.finished && (aborted ==> world.aborted)
      ensures aborted || |sessions| - next == |old(sessions)| - k - 1
      ensures Visited(old(world), k, loads, signals, world, next)
      ensures forall s :: s in sessions ==> s in old(sessions)
    {
      aborted := NotifySession(k, loads, signals);
      next := k;
      if !aborted {
        next := ReapIfClosed(k);
      }
    }

    /** A session that is closed is finalized. */
    method ReapIfClosed(k: nat) returns (next: nat)
      requires Valid() && !world.finished && k < |sessions|
      modifies this`sessions, this`trace, this`world, mem, (set m | m in mem.objects)
      ensures Valid() && !world.finished && mem.objects == old(mem.objects)
      ensures next <= |sessions| && |sessions| - next == |old(sessions)| - k - 1
      ensures Left(old(world), k, world, next)
      ensures forall s :: s in sessions ==> s in old(sessions)
    {
      if sessions[k].state == Closed {
        Reap(k);
        next := k;
      } else {
        next := k + 1;
      }
    }

    /** There is one message more for each of these files, in this order. */
    ghost predicate FilesAdded(before: seq<Message>, paths: seq<string>)
      reads mem`objects
    {
      && before <= mem.objects && |mem.objects| == |before| + |paths|
      && forall i :: 0 <= i < |paths| ==> mem.objects[|before| + i].path == paths[i]
    }

    method DiscoverNext(path: string, ghost before: seq<Message>, ghost done: seq<string>)
      requires Valid() && !world.finished && FilesAdded(before, done)
      modifies this`messages, this`trace, this`world, mem
      ensures Ran(D.Discover(path)) && !world.finished && FilesAdded(before, done + [path])
      ensures forall m :: m in mem.objects ==> m in old(mem.objects) || fresh(m)
    {
      Discover(path);
      assert mem.objects == old(mem.objects) + [mem.objects[|mem.objects| - 1]];
    }

    method DiscoverAll(paths: seq<string>)
      requires Valid() && !world.finished
      modifies this`messages, this`trace, this`world, mem
      ensures Valid() && !world.finished && world == DiscoverRound(old(world), paths)
      ensures (forall m :: m in mem.objects ==> m in old(mem.objects) || fresh(m)) && sessions == old(sessions)
      ensures FilesAdded(old(mem.objects), paths)
    {
      var left := paths;
      ghost var goal, done, before := DiscoverRound(world, paths), [], mem.objects;
      while left != []
        invariant Valid() && !world.finished
        invariant forall m :: m in mem.objects ==> m in old(mem.objects) || fresh(m)
        invariant done + left == paths && FilesAdded(before, done)
        invariant DiscoverRound(world, left) == goal
        decreases |left|
      {
        MoveOver(done, left);
        DiscoverNext(left[0], before, done);
        done, left := done + [left[0]], left[1..];
      }
      assert done + [] == done;
    }

    // ---------------------------------------------------------------- what a pass does to the objects

    /**
     * A message that was waiting for its body has been loaded if its body has come in, and has failed if it
     * could not be read; without either it still waits. It may have been freed since.
     */
    twostate predicate Notified(m: Message, loads: map<string, D.LoadResult>)
      reads m, mem
    {
      old(m.state) == LoadingBody ==>
        if m.path in loads && loads[m.path].BodyRead? && NoNul(loads[m.path].text) then
          && m.id in mem.bodies && mem.bodies[m.id] == loads[m.path].text
          && (mem.Holds(m) ==> m.state == BodyLoaded && m.body == loads[m.path].text)
        else
          mem.Holds(m) ==>
            m.state == if m.path in loads && loads[m.path].LoadFailed? then LoadingFailed else LoadingBody
    }

    /**
     * A message that was waiting for its headers has left the list if they have come in, with what they say, or
     * freed if they are not accepted; it has been freed if it could not be read; without either it still waits.
     */
    twostate predicate Decided(m: Message, loads: map<string, D.LoadResult>)
      reads this`messages, m, mem
    {
      old(m.state) == LoadingHeaders ==>
        if m.path in loads && loads[m.path].HeadersRead? && NoNul(loads[m.path].block) then
          var block := loads[m.path].block;
          var e := Parse(block).envelope;
          && m !in messages
          && (mem.Holds(m) ==>
                && Parse(block).state == HeadersLoaded
                && m.block == block && m.sender == e.sender && m.headers == e.headers)
        else if m.path in loads && loads[m.path].LoadFailed? then m !in messages && !mem.Holds(m)
        else m in messages && mem.Holds(m) && m.state == LoadingHeaders
    }

    twostate lemma NotifiedIfDone(m: Message, new loads: map<string, D.LoadResult>)
      requires old(Valid()) && Valid() && old(mem.Holds(m)) && mem.Knows(m) && old(m.state) == LoadingBody
      requires old(mem.Store().heap[m.id] == m.Value())
      requires Passes.Done(world, m.id, loads, Passes.DueOf(old(world), m.id, loads))
      ensures Notified(m, loads)
    {
      DeliveryRuns.RunKeepsInvariant(host, trace);
      if mem.Holds(m) {
        mem.IsLive(m);
        if m.state == BodyLoaded {
          Passes.BodyIsRouted(world, m.id);
          assert I.LiveOk(world.store, m.id, world.origin[m.id]);
        }
      }
    }

    twostate lemma DecidedIfFated(m: Message, new loads: map<string, D.LoadResult>)
      requires old(Valid()) && Valid() && old(mem.Holds(m)) && mem.Knows(m) && old(m.state) == LoadingHeaders
      requires old(mem.Store().heap[m.id] == m.Value())
      requires Passes.Fated(world, m.id, Passes.FateOf(old(m.Value()), loads))
      ensures Decided(m, loads)
    {
      DeliveryRuns.RunKeepsInvariant(host, trace);
      InList(m);
      if mem.Holds(m) {
        mem.IsLive(m);
        if m.id in world.origin {
          assert I.LiveOk(world.store, m.id, world.origin[m.id]);
        }
      }
    }

    /** The list of the state is the list of the objects. */
    lemma InList(m: Message)
      requires Valid() && mem.Knows(m)
      ensures m in messages <==> m.id in world.messages
      ensures mem.Holds(m) <==> m.id in world.store.heap
    {
      if m.id in world.messages {
        var i :| 0 <= i < |messages| && world.messages[i] == m.id;
        assert messages[i] in messages && mem.Knows(messages[i]);
      }
      if m in messages {
        var i :| 0 <= i < |messages| && messages[i] == m;
        assert world.messages[i] == m.id;
      }
    }

    twostate lemma WasListed(m: Message)
      requires old(Valid()) && Sound(old(world)) && m in old(messages)
      ensures old(mem.Holds(m)) && m.id in old(world).messages
      ensures m.id in old(world).store.heap && old(world).store.heap[m.id] == old(m.Value())
    {
      var i :| 0 <= i < |old(messages)| && old(messages)[i] == m;
      assert old(world).messages[i] == m.id;
      Passes.ListIsLive(old(world), m.id);
      assert old(mem.Knows(m));
    }

    twostate lemma WasHeadAt(new j: nat)
      requires old(Valid()) && Sound(old(world)) && j < |old(sessions)| && old(sessions[j].messages) != []
      ensures var m := old(sessions[j].messages)[0];
              && old(mem.Holds(m))
              && j < |old(world).sessions| && old(world).sessions[j].messages != []
              && old(world).sessions[j].messages[0] == m.id
              && m.id in old(world).store.heap && old(world).store.heap[m.id] == old(m.Value())
    {
      var s := old(sessions[j]);
      assert old(world).sessions[j] == old(s.Value());
      var m := old(s.messages)[0];
      assert m in old(s.messages);
      Passes.HeadIsLive(old(world), j);
      assert old(s.Linked(mem)) && old(mem.Knows(m));
    }

    twostate lemma HeadIsNotified(s: Session, new paths: seq<string>, new loads: map<string, D.LoadResult>,
            new refused: set<string>, new signals: map<string, Signal>)
      requires old(Valid()) && Sound(old(world)) && Valid() && old(mem.objects) <= mem.objects
      requires world == ClientRound(old(world), paths, loads, refused, signals) && !world.aborted
      requires s in old(sessions) && old(s.messages) != []
      ensures Notified(old(s.messages)[0], loads)
    {
      var j :| 0 <= j < |old(sessions)| && old(sessions)[j] == s;
      WasHeadAt(j);
      var m := old(s.messages)[0];
      if old(m.state) == LoadingBody {
        Passes.HeadIsServed(old(world), paths, loads, refused, signals, world, j, m.id);
        NotifiedIfDone(m, loads);
      }
    }

    /** The state that the head message of a session is in once it has been notified. */
    ghost function HeadState(s: Session, loads: map<string, D.LoadResult>): MessageState
      reads s, s.messages
    {
      if s.messages == [] then HeadersLoaded else Passes.StateDue(s.messages[0].Value(), loads)
    }

    /** What `session_notify` has done to the session and the message at the head of its queue. */
    twostate lemma TurnOnObjects(new k: nat, new loads: map<string, D.LoadResult>, new signals: map<string, Signal>)
      requires old(Valid()) && !old(world).finished && Valid() && old(mem.objects) <= mem.objects
      requires k < |sessions| && sessions == old(sessions) && world == SessionStep(old(world), k, loads, signals)
      ensures old(sessions[k].messages) != [] ==> Notified(old(sessions[k].messages)[0], loads)
      ensures world.finished ||
              Passes.Reacts(old(sessions[k].Value()), old(HeadState(sessions[k], loads)), sessions[k].Value(), signals)
    {
      assert Sound(old(world)) by {
        DeliveryRuns.RunKeepsInvariant(host, old(trace));
      }
      assert old(world).sessions[k] == old(sessions[k].Value());
      Passes.TurnReacts(old(world), k, loads, signals);
      if old(sessions[k].messages) != [] {
        WasHeadAt(k);
        HeadTurn(k, loads, signals);
      }
    }

    twostate lemma HeadTurn(new k: nat, new loads: map<string, D.LoadResult>, new signals: map<string, Signal>)
      requires old(Valid()) && Sound(old(world)) && Valid() && old(mem.objects) <= mem.objects
      requires k < |sessions| && sessions == old(sessions) && world == SessionStep(old(world), k, loads, signals)
      requires old(sessions[k].messages) != []
      ensures Notified(old(sessions[k].messages)[0], loads)
    {
      WasHeadAt(k);
      var m := old(sessions[k].messages)[0];
      if old(m.state) == LoadingBody {
        Passes.TurnNotifies(old(world), k, m.id, loads, signals);
        NotifiedIfDone(m, loads);
      }
    }

    /** What `client_notify` has done to the messages that were listed, and to those at the heads of queues. */
    twostate lemma PassOnObjects(new paths: seq<string>, new loads: map<string, D.LoadResult>,
            new refused: set<string>, new signals: map<string, Signal>)
      requires old(Valid()) && !old(world).finished && Valid() && old(mem.objects) <= mem.objects
      requires world == ClientRound(old(world), paths, loads, refused, signals)
      ensures forall m :: m in old(messages) ==> Decided(m, loads)
      ensures world.aborted ||
              forall s :: s in old(sessions) && old(s.messages) != [] ==> Notified(old(s.messages)[0], loads)
    {
      assert Sound(old(world)) by {
        DeliveryRuns.RunKeepsInvariant(host, old(trace));
      }
      Passes.PassDecides(old(world), paths, loads, refused, signals, world);
      forall m | m in old(messages) ensures Decided(m, loads) {
        WasListed(m);
        if old(m.state) == LoadingHeaders {
          DecidedIfFated(m, loads);
        }
      }
      if !world.aborted {
        forall s | s in old(sessions) && old(s.messages) != [] ensures Notified(old(s.messages)[0], loads) {
          HeadIsNotified(s, paths, loads, refused, signals);
        }
      }
    }

    /** `client_notify`, given what the file system and the network have to say. */
    method Notify(paths: seq<string>, loads: map<string, D.LoadResult>, refused: set<string>,
            signals: map<string, Signal>)
      returns (aborted: bool)
      requires Valid() && !world.finished
      modifies this, (set s | s in sessions), mem, (set m | m in mem.objects)
      ensures Valid() && aborted == world.finished && (aborted ==> world.aborted)
      ensures world == ClientRound(old(world), paths, loads, refused, signals)
      ensures FilesAdded(old(mem.objects), paths)
      ensures forall m :: m in old(messages) ==> Decided(m, loads)
      ensures world.aborted ||
              forall s :: s in old(sessions) && old(s.messages) != [] ==> Notified(old(s.messages)[0], loads)
    {
      DiscoverAll(paths);
      NotifyMessages(loads, refused);
      aborted := NotifySessions(loads, signals);
      PassOnObjects(paths, loads, refused, signals);
    }

    // ---------------------------------------------------------------- finalizing

    /** The client finalizes a closed session. */
    method Reap(k: nat)
      requires Valid() && !world.finished && k < |sessions| && sessions[k].state == Closed
      modifies this`sessions, this`trace, this`world, mem, (set m | m in mem.objects)
      ensures Ran(D.Reap(k)) && sessions == old(sessions[..k] + sessions[k + 1..]) && mem.objects == old(mem.objects)
    {
      ghost var w := NextReap(k);
      RemoveSession(k);
      Advance(D.Reap(k), w);
    }

    lemma NextReap(k: nat) returns (w: D.World)
      requires Valid() && !world.finished && k < |sessions| && sessions[k].state == Closed
      ensures w == D.Run(host, trace + [D.Reap(k)]) == D.Step(world, D.Reap(k))
      ensures !w.store.fault && w.store == D.ReleaseAll(world.store, world.sessions[k].messages)
      ensures w == world.(store := w.store, archive := w.archive,
                          sessions := world.sessions[..k] + world.sessions[k + 1..])
    {
      w := Next(D.Reap(k));
    }

    method RemoveSession(k: nat)
      requires Linked() && k < |sessions|
      requires !D.ReleaseAll(mem.Store(), Values(sessions)[k].messages).fault
      modifies this`sessions, mem, (set m | m in mem.objects)
      ensures Linked() && mem.objects == old(mem.objects) && sessions == old(sessions[..k] + sessions[k + 1..])
      ensures mem.Store() == D.ReleaseAll(old(mem.Store()), old(Values(sessions))[k].messages)
      ensures Values(sessions) == old(Values(sessions))[..k] + old(Values(sessions))[k + 1..]
    {
      QueueIsKnown(k);
      sessions[k].Finalize(mem);
      SameSessions();
      OthersAreLinked(k);
      sessions := sessions[..k] + sessions[k + 1..];
    }

    /** The list without one of its sessions. */
    lemma OthersAreLinked(k: nat)
      requires k < |sessions| && Separate(sessions) && AllLinked(sessions, mem)
      ensures var others := sessions[..k] + sessions[k + 1..];
              && Separate(others) && AllLinked(others, mem)
              && Values(others) == Values(sessions)[..k] + Values(sessions)[k + 1..]
    {
    }

    /** `client_finalize` */
    method Finalize()
      requires Valid() && !world.finished
      modifies this, mem, (set m | m in mem.objects)
      ensures Ran(D.Shutdown) && messages == [] && sessions == [] && mem.Heap() == map[]
    {
      ghost var w, after := NextShutdown();
      FinalizeSessions(after);
      ReleaseMessages();
      Advance(D.Shutdown, w);
    }

    method FinalizeSessions(ghost after: D.Store)
      requires Linked() && D.FinalizeAll(mem.Store(), Values(sessions)) == after && !after.fault
      modifies this`sessions, mem, (set m | m in mem.objects)
      ensures Linked() && mem.objects == old(mem.objects) && sessions == [] && mem.Store() == after
    {
      while sessions != []
        invariant Linked() && mem.objects == old(mem.objects)
        invariant D.FinalizeAll(mem.Store(), Values(sessions)) == after
        decreases |sessions|
      {
        FinalizeFirst(after);
      }
    }

    method FinalizeFirst(ghost after: D.Store)
      requires Linked() && sessions != [] && D.FinalizeAll(mem.Store(), Values(sessions)) == after && !after.fault
      modifies this`sessions, mem, (set m | m in mem.objects)
      ensures Linked() && mem.objects == old(mem.objects) && |sessions| == |old(sessions)| - 1
      ensures D.FinalizeAll(mem.Store(), Values(sessions)) == after
    {
      FinalizeIsFaultless(mem.Store(), Values(sessions));
      RemoveSession(0);
    }

    method ReleaseMessages()
      requires Linked() && sessions == [] && !D.ReleaseAll(mem.Store(), PointersTo(messages)).fault
      modifies this`messages, mem, (set m | m in mem.objects)
      ensures Linked() && mem.objects == old(mem.objects) && messages == []
      ensures mem.Store() == D.ReleaseAll(old(mem.Store()), PointersTo(old(messages)))
    {
      assert forall m :: m in messages ==> m in mem.objects;
      ReleaseEach(messages, mem);
      messages := [];
    }

    lemma NextShutdown() returns (w: D.World, after: D.Store)
      requires Valid() && !world.finished
      ensures w == D.Run(host, trace + [D.Shutdown]) == D.Step(world, D.Shutdown)
      ensures after == D.FinalizeAll(world.store, world.sessions) && !after.fault
      ensures w.store == D.ReleaseAll(after, world.messages) && !w.store.fault && w.store.heap == map[]
      ensures w == world.(store := w.store, sessions := [], messages := [], archive := w.archive, finished := true)
    {
      w := Next(D.Shutdown);
      after := D.FinalizeAll(world.store, world.sessions);
      if after.fault {
        FaultRemains(after, world.messages);
      }
      DeliveryRuns.RunKeepsInvariant(host, trace);
      DeliveryEvents.ShutdownOk(world);
    }
  }

  lemma {:induction false} FaultIsFinal(st: D.Store, sessions: seq<D.Session>)
    requires st.fault
    ensures D.FinalizeAll(st, sessions).fault
    decreases |sessions|
  {
    if sessions != [] {
      FaultRemains(st, sessions[0].messages);
      FaultIsFinal(D.ReleaseAll(st, sessions[0].messages), sessions[1..]);
    }
  }

  lemma FinalizeIsFaultless(st: D.Store, sessions: seq<D.Session>)
    requires sessions != [] && !D.FinalizeAll(st, sessions).fault
    ensures !D.ReleaseAll(st, sessions[0].messages).fault
    ensures D.FinalizeAll(st, sessions)
         == D.FinalizeAll(D.ReleaseAll(st, sessions[0].messages), sessions[..0] + sessions[1..])
  {
    assert sessions[..0] + sessions[1..] == sessions[1..];
    if D.ReleaseAll(st, sessions[0].messages).fault {
      FaultIsFinal(D.ReleaseAll(st, sessions[0].messages), sessions[1..]);
    }
  }
}
