/** The main theorems about delivery, each for all runs: every sequence of events, in any order. */
module DeliverySafety {
  import opened Text
  import opened Headers
  import opened Recipients
  import opened Messages
  import opened Sessions
  import opened Payload
  import opened Reading
  import opened Delivery
  import opened DeliveryInvariants
  import opened DeliverySteps
  import opened DeliveryEvents
  import opened DeliveryRuns
  import opened Server
  import opened DeliveryViews

  // ---------------------------------------------------------------- memory

  /** A session is dispatched although it has just been closed. */
  predicate Collides(w: World, e: Event) {
    e.Collision? && Enabled(w, e) && !w.finished
  }

  /** That has happened in the run. */
  ghost predicate Collided(helo: string, events: seq<Event>)
    decreases |events|
  {
    events != [] && (
      var front := events[..|events| - 1];
      Collided(helo, front) || Collides(Run(helo, front), events[|events| - 1]))
  }

  /**
   * Nothing that has been freed is used, the search for a destination never falls off its list, and no
   * assertion fails but the one against the dispatch of a closed session. That one fails exactly when a
   * reply has come before its request was written and the rest of the request could not be written.
   */
  lemma NothingFaults(helo: string, events: seq<Event>)
    ensures var w := Run(helo, events);
            !w.store.fault && (w.aborted <==> Collided(helo, events))
  {
    RunKeepsInvariant(helo, events);
    AbortsOnCollision(helo, events);
  }

  lemma {:induction false} AbortsOnCollision(helo: string, events: seq<Event>)
    ensures var w := Run(helo, events);
            && (w.aborted ==> w.finished)
            && (w.aborted <==> Collided(helo, events))
    decreases |events|
  {
    if events != [] {
      var front, e := events[..|events| - 1], events[|events| - 1];
      AbortsOnCollision(helo, front);
      RunKeepsInvariant(helo, front);
      StepAborts(Run(helo, front), e);
    }
  }

  lemma StepAborts(w: World, e: Event)
    requires Invariant(w) && (w.aborted ==> w.finished)
    ensures var w' := Step(w, e);
            && (w'.aborted ==> w'.finished)
            && (w'.aborted <==> w.aborted || Collides(w, e))
  {
    if !w.finished && Enabled(w, e) {
      match e
      case Collision(i, code) => CollisionOk(w, i, code);
      case Route(p, refused) => RoutingGoesOn(w, p, refused);
      case _ =>
    }
  }

  /** Every reference is counted, and memory is freed exactly when, and only once, its last reference is gone. */
  lemma OwnershipIsConserved(helo: string, events: seq<Event>)
    ensures var w := Run(helo, events);
            && (forall p :: p in w.store.heap ==>
                  w.store.heap[p].refCount == InList(w.messages, p) + Holders(w.sessions, p) > 0)
            && (forall p: Ptr :: p in w.store.freed <==>
                  p < w.next && InList(w.messages, p) + Holders(w.sessions, p) == 0)
            && Distinct(w.store.freed)
  {
    RunKeepsInvariant(helo, events);
    var w := Run(helo, events);
    forall p: Ptr | p !in w.store.heap ensures InList(w.messages, p) + Holders(w.sessions, p) == 0 {
      forall i | 0 <= i < |w.sessions| ensures p !in w.sessions[i].messages {
        assert QueueOk(w.sessions[i], w.store, w.origin);
      }
      HoldersZero(w.sessions, p);
    }
    assert forall p :: p in w.store.heap ==> multiset{}[p] == 0;
  }

  lemma {:induction false} RouteAllGoesOn(w: World, p: Ptr, hosts: seq<string>, refused: set<string>)
    ensures RouteAll(w, p, hosts, refused).finished == w.finished
    ensures RouteAll(w, p, hosts, refused).aborted == w.aborted
    decreases |hosts|
  {
    if hosts != [] {
      RouteAllGoesOn(RouteTo(w, p, hosts[0], hosts[0] in refused), p, hosts[1..], refused);
    }
  }

  lemma {:induction false} FinishedIsEmpty(helo: string, events: seq<Event>)
    ensures var w := Run(helo, events); w.finished && !w.aborted ==> w.store.heap == map[]
    decreases |events|
  {
    if events != [] {
      var w, e := Run(helo, events[..|events| - 1]), events[|events| - 1];
      FinishedIsEmpty(helo, events[..|events| - 1]);
      RunKeepsInvariant(helo, events[..|events| - 1]);
      if !w.finished && Enabled(w, e) {
        match e
        case Shutdown => ShutdownOk(w);
        case Route(p, refused) => RoutingGoesOn(w, p, refused);
        case Collision(i, code) => CollisionOk(w, i, code);
        case _ =>
      }
    }
  }

  lemma RoutingGoesOn(w: World, p: Ptr, refused: set<string>)
    ensures RouteMessage(w, p, refused).finished == w.finished
    ensures RouteMessage(w, p, refused).aborted == w.aborted
  {
    if p in w.store.heap && w.store.heap[p].state == HeadersLoaded {
      var m := w.store.heap[p];
      var taken := w.(messages := Without(w.messages, p), origin := w.origin[p := m]);
      RouteAllGoesOn(taken, p, DestinationHosts(m.destinations), refused);
    }
  }

  /**
   * `client_finalize` leaves nothing allocated: every message there ever was has been freed exactly once,
   * unless the program was aborted before.
   */
  lemma ShutdownFreesEverything(helo: string, events: seq<Event>)
    ensures var w := Run(helo, events + [Shutdown]);
            w.aborted || (
              && w.store.heap == map[] && Distinct(w.store.freed)
              && forall p: Ptr :: p in w.store.freed <==> p < w.next)
  {
    var w, all := Run(helo, events), events + [Shutdown];
    assert all[..|all| - 1] == events;
    RunKeepsInvariant(helo, events);
    RunKeepsInvariant(helo, all);
    FinishedIsEmpty(helo, events);
    if !w.finished {
      ShutdownEmpties(w);
    }
    if Run(helo, all).store.heap == map[] {
      EmptyIsFreed(Run(helo, all));
    }
  }

  lemma ShutdownEmpties(w: World)
    requires Invariant(w) && !w.finished
    ensures Step(w, Shutdown).store.heap == map[]
  {
    ShutdownOk(w);
  }

  lemma EmptyIsFreed(w: World)
    requires Invariant(w) && w.store.heap == map[]
    ensures Distinct(w.store.freed) && forall p: Ptr :: p in w.store.freed <==> p < w.next
  {
  }

  // ---------------------------------------------------------------- queues and phases

  /**
   * One session per host; a message is in a queue at most once, and still has the queue's host among its
   * destinations.
   */
  lemma QueuesAreRouted(helo: string, events: seq<Event>)
    ensures var w := Run(helo, events);
            && DistinctHosts(w.sessions)
            && forall i :: 0 <= i < |w.sessions| ==>
                 && Distinct(w.sessions[i].messages)
                 && forall p :: p in w.sessions[i].messages ==>
                      p in w.store.heap && HasHost(w.store.heap[p].destinations, w.sessions[i].destinationHost)
  {
    RunKeepsInvariant(helo, events);
    var w := Run(helo, events);
    forall i, p | 0 <= i < |w.sessions| && p in w.sessions[i].messages
      ensures p in w.store.heap && HasHost(w.store.heap[p].destinations, w.sessions[i].destinationHost)
    {
      assert QueueOk(w.sessions[i], w.store, w.origin);
      assert LiveOk(w.store, p, w.origin[p]);
      PendingHas(w.origin[p].destinations, p, w.store.delivered, w.sessions[i].destinationHost);
    }
  }

  /**
   * In a transaction there is a head message, whose state fits, and the recipient cursor points into it or
   * has run out.
   */
  lemma PhasesHaveTheirMessage(helo: string, events: seq<Event>)
    ensures var w := Run(helo, events);
            && (forall i :: 0 <= i < |w.sessions| && InTransaction(w.sessions[i].state) ==>
                  var s := w.sessions[i];
                  && s.messages != [] && s.messages[0] in w.store.heap
                  && !s.cursor.Unset?
                  && (s.cursor.At? ==> UserAt(w.store, s.cursor).Some?)
                  && (s.state in {SendingData, SendingDataPayload} ==> w.store.heap[s.messages[0]].state == BodyLoaded)
                  && (s.state == SendingRset ==> w.store.heap[s.messages[0]].state == LoadingFailed))
            && (forall p :: p in w.messages ==>
                  p in w.store.heap && w.store.heap[p].state in {LoadingHeaders, HeadersLoaded, LoadingFailed})
  {
    RunKeepsInvariant(helo, events);
    var w := Run(helo, events);
    forall i | 0 <= i < |w.sessions| && w.sessions[i].cursor.At? && InTransaction(w.sessions[i].state)
      ensures UserAt(w.store, w.sessions[i].cursor).Some?
    {
      assert StoreOk(w.store, w.next, w.origin);
      CursorIsLive(w.sessions[i], w.store, w.next, w.origin);
    }
  }

  /** There is a recipient under the cursor. */
  lemma CursorIsLive(s: Session, st: Store, next: Ptr, origin: map<Ptr, Message>)
    requires StoreOk(st, next, origin) && QueueOk(s, st, origin) && PhaseOk(s, st, origin)
    requires s.cursor.At? && InTransaction(s.state)
    ensures UserAt(st, s.cursor).Some?
  {
    var p := s.messages[0];
    assert LiveOk(st, p, origin[p]);
    LiveRecipients(st, p, origin[p], s.destinationHost);
  }

  // ---------------------------------------------------------------- the server's view

  /**
   * The conversation of every session there ever was is in the order of commands that the server follows,
   * and the mail which the server has accepted is exactly the mail the session counts as delivered. These
   * are the commands as the client means them; `DeliveryLines` starts from their bytes.
   */
  lemma ServersAgree(helo: string, events: seq<Event>)
    ensures forall s :: s in All(Run(helo, events)) ==> Understood(s)
  {
    RunKeepsInvariant(helo, events);
    var w := Run(helo, events);
    forall i | 0 <= i < |All(w)| ensures Understood(All(w)[i]) {
      var s := All(w)[i];
      assert TalkOk(s, w.helo, w.origin, w.store.bodies) by {
        assert i < |w.sessions| || s == w.archive[i - |w.sessions|];
      }
      assert QueueLogOk(s, w.store, w.origin);
      SessionUnderstood(s, w.helo, w.store, w.origin, w.next);
    }
  }

  lemma {:induction false} MailOfIs(transfers: seq<Transfer>, mail: Mail)
    ensures mail in MailOf(transfers) <==>
              Transfer(mail.message, mail.sender, mail.recipients, Some(mail.text)) in transfers
  {
    if transfers != [] {
      MailOfIs(transfers[..|transfers| - 1], mail);
      assert transfers == transfers[..|transfers| - 1] + [transfers[|transfers| - 1]];
    }
  }

  /** Some server for the host has accepted the message. */
  ghost predicate AcceptedAt(w: World, p: Ptr, host: string) {
    exists s, mail :: s in All(w) && s.destinationHost == host && mail in ViewOf(s).mailbox && mail.message == p
  }

  /** An acknowledgement is recorded exactly for what a server has accepted. */
  lemma DeliveredIsAccepted(w: World, p: Ptr, host: string)
    requires Invariant(w) && forall s :: s in All(w) ==> Understood(s)
    ensures (p, host) in w.store.delivered <==> AcceptedAt(w, p, host)
  {
    if (p, host) in w.store.delivered {
      var i :| 0 <= i < |All(w)| && Delivers(All(w)[i], p, host);
      var s := All(w)[i];
      var k :| 0 <= k < |s.log.transfers| && s.log.transfers[k].message == p && s.log.transfers[k].text.Some?;
      var t := s.log.transfers[k];
      MailOfIs(s.log.transfers, Mail(p, t.sender, t.recipients, t.text.value));
      assert Understood(s);
    }
    if AcceptedAt(w, p, host) {
      var s, mail :| s in All(w) && s.destinationHost == host && mail in ViewOf(s).mailbox && mail.message == p;
      assert Understood(s);
      AcceptedIsLogged(w, s, mail);
    }
  }

  lemma AcceptedIsLogged(w: World, s: Session, mail: Mail)
    requires Invariant(w) && s in All(w) && mail in MailOf(s.log.transfers)
    ensures var t := Transfer(mail.message, mail.sender, mail.recipients, Some(mail.text));
            TransferOk(t, s.destinationHost, w.store, w.origin)
  {
    MailOfIs(s.log.transfers, mail);
    var i :| 0 <= i < |All(w)| && All(w)[i] == s;
    assert QueueLogOk(All(w)[i], w.store, w.origin);
  }

  // ---------------------------------------------------------------- what the header block asked for

  /** The destinations of a routed message are the addresses its header block names. */
  lemma OriginAddresses(m: Message)
    requires FromBlock(m)
    ensures m.sender == LastSender(ParseBlock(m.block).headers, "")
    ensures m.headers == Remaining(ParseBlock(m.block).headers)
    ensures m.destinations == [] <==> NamedAddresses(m.block) == []
    ensures forall a :: a in NamedAddresses(m.block) ==> HasHost(m.destinations, a.host) && a.user in Users(m, a.host)
    ensures forall d :: d in m.destinations ==> exists a :: a in NamedAddresses(m.block) && a.host == d.host
    ensures forall h :: HasHost(m.destinations, h) ==>
              Users(m, h) == FirstOccurrences(UsersAt(NamedAddresses(m.block), h))
  {
    ParseAccepts(m.block);
    var named, ds := NamedAddresses(m.block), m.destinations;
    assert Groups(ds, named);
    forall h | HasHost(ds, h) ensures Users(m, h) == FirstOccurrences(UsersAt(named, h)) {
      FoundIfThere(ds, h);
    }
    forall a | a in named ensures HasHost(ds, a.host) && a.user in Users(m, a.host) {
      var i :| 0 <= i < |named| && named[i] == a;
      assert Hosts(named)[i] == a.host;
      assert a.host in DestinationHosts(ds);
      assert a.user in UsersAt(named, a.host);
      FoundIfThere(ds, a.host);
    }
    forall d | d in ds ensures exists a :: a in named && a.host == d.host {
      var k :| 0 <= k < |ds| && ds[k] == d;
      assert DestinationHosts(ds)[k] in Hosts(named);
      var i :| 0 <= i < |named| && Hosts(named)[i] == d.host;
      assert named[i] in named;
    }
    if ds != [] {
      assert ds[0] in ds;
    }
    if named != [] {
      assert named[0] in named;
    }
  }

  lemma FoundIfThere(ds: seq<Destination>, host: string)
    requires HasHost(ds, host) || host in DestinationHosts(ds)
    ensures HasHost(ds, host) && FindDestination(ds, host) < |ds|
  {
    if host in DestinationHosts(ds) {
      var i :| 0 <= i < |ds| && DestinationHosts(ds)[i] == host;
      assert ds[i].host == host;
    }
    var i :| 0 <= i < |ds| && ds[i].host == host;
    assert FindDestination(ds, host) <= i;
  }

  /**
   * The mail a server has accepted is what the file says: sender, recipients at this host in order, headers
   * and body.
   */
  ghost predicate AsWritten(w: World, mail: Mail, host: string) {
    && mail.message in w.origin && mail.message in w.store.bodies
    && var block := w.origin[mail.message].block;
    && mail.sender == LastSender(ParseBlock(block).headers, "")
    && mail.recipients == FirstOccurrences(UsersAt(NamedAddresses(block), host))
    && mail.text == Encode(Remaining(ParseBlock(block).headers), w.store.bodies[mail.message])
  }

  lemma MailIsAsWritten(helo: string, events: seq<Event>)
    ensures var w := Run(helo, events);
            forall s, mail :: s in All(w) && mail in ViewOf(s).mailbox ==> AsWritten(w, mail, s.destinationHost)
  {
    RunKeepsInvariant(helo, events);
    ServersAgree(helo, events);
    var w := Run(helo, events);
    forall s, mail | s in All(w) && mail in ViewOf(s).mailbox ensures AsWritten(w, mail, s.destinationHost) {
      assert Understood(s);
      AcceptedIsLogged(w, s, mail);
      OriginAddresses(w.origin[mail.message]);
    }
  }

  lemma {:induction false} RemainingIsClean(headers: seq<Header>)
    requires CleanHeaders(headers)
    ensures CleanHeaders(Remaining(headers))
  {
    if headers != [] {
      RemainingIsClean(headers[1..]);
    }
  }

  lemma BlockIsClean(block: string)
    requires NoNul(block)
    ensures CleanHeaders(Remaining(ParseBlock(block).headers))
  {
    ParseBlockShape(block);
    NoNulParsed(block, 0);
    RemainingIsClean(ParseBlock(block).headers);
  }

  /** The data ends where the server sees its end, unless a header name opens with "." CRLF. */
  ghost predicate Framed(headers: seq<Header>, text: string) {
    FramedOnce(text) <==> forall i :: 0 <= i < |headers| ==> !OpensWithDotLine(headers[i])
  }

  /**
   * A receiver that undoes the dot stuffing and divides the text at its first empty line gets headers
   * and body back, unless a header name starts with a dot, or a line of the body that is not a lone dot
   * does, or a name or value ends with a line end, or a name begins with one.
   */
  ghost predicate Readable(headers: seq<Header>, body: string, text: string, tail: string) {
    GetsBack(headers, body, text, tail) <==> NoneDotted(headers) && DotLinesAreLone(body) && AllLasting(headers)
  }

  lemma EncodedIsReadable(block: string, body: string, tail: string)
    requires NoNul(block)
    ensures var headers := Remaining(ParseBlock(block).headers);
            Framed(headers, Encode(headers, body)) && Readable(headers, body, Encode(headers, body), tail)
  {
    BlockIsClean(block);
    Framing(Remaining(ParseBlock(block).headers), body);
    RemainingOfBlock(block);
    ArrivesExactly(Remaining(ParseBlock(block).headers), body, tail);
  }

  /** From the file to the receiver: what becomes of the headers and the body of a mail that was accepted. */
  lemma MailIsReadable(helo: string, events: seq<Event>, s: Session, mail: Mail, tail: string)
    requires s in All(Run(helo, events)) && mail in ViewOf(s).mailbox
    ensures var w := Run(helo, events);
            && AsWritten(w, mail, s.destinationHost)
            && var headers := Remaining(ParseBlock(w.origin[mail.message].block).headers);
            && Framed(headers, mail.text) && Readable(headers, w.store.bodies[mail.message], mail.text, tail)
  {
    MailIsAsWritten(helo, events);
    RunKeepsInvariant(helo, events);
    var w := Run(helo, events);
    EncodedIsReadable(w.origin[mail.message].block, w.store.bodies[mail.message], tail);
  }

  // ---------------------------------------------------------------- no mail is lost

  /** Some server for the host has accepted the message for this user. */
  ghost predicate AcceptedFor(w: World, p: Ptr, a: Address) {
    exists s, mail ::
      && s in All(w) && s.destinationHost == a.host && mail in ViewOf(s).mailbox
      && mail.message == p && a.user in mail.recipients
  }

  /** A live message still has a host to go to. */
  lemma LiveIsNotDelivered(w: World, p: Ptr)
    requires Holding(w, multiset{}, None) && p in w.store.heap && p in w.origin
    ensures !DeliveredToAll(w.origin[p], p, w.store.delivered)
  {
    if forall i :: 0 <= i < |w.sessions| ==> p !in w.sessions[i].messages {
      HoldersZero(w.sessions, p);
      assert false;
    }
    var i :| 0 <= i < |w.sessions| && p in w.sessions[i].messages;
    assert QueueOk(w.sessions[i], w.store, w.origin);
  }

  lemma UnlinkedIsDelivered(w: World, p: Ptr)
    requires Holding(w, multiset{}, None)
    ensures p in w.store.unlinked <==> p in w.origin && DeliveredToAll(w.origin[p], p, w.store.delivered)
  {
    if p in w.origin && p in w.store.heap {
      LiveIsNotDelivered(w, p);
    }
  }

  /** Delivered to every host of the message, and accepted for every address that its header block names. */
  lemma DeliveredToAllIs(w: World, p: Ptr)
    requires Invariant(w) && p in w.origin && forall s :: s in All(w) ==> Understood(s)
    ensures DeliveredToAll(w.origin[p], p, w.store.delivered) <==>
              && NamedAddresses(w.origin[p].block) != []
              && forall a :: a in NamedAddresses(w.origin[p].block) ==> AcceptedFor(w, p, a)
  {
    var m := w.origin[p];
    var named := NamedAddresses(m.block);
    OriginAddresses(m);
    if DeliveredToAll(m, p, w.store.delivered) {
      forall a | a in named ensures AcceptedFor(w, p, a) {
        DeliveredIsAccepted(w, p, a.host);
        var s, mail :| s in All(w) && s.destinationHost == a.host && mail in ViewOf(s).mailbox && mail.message == p;
        assert Understood(s);
        AcceptedIsLogged(w, s, mail);
      }
    }
    if named != [] && forall a :: a in named ==> AcceptedFor(w, p, a) {
      forall i | 0 <= i < |m.destinations| ensures (p, m.destinations[i].host) in w.store.delivered {
        assert m.destinations[i] in m.destinations;
        var a :| a in named && a.host == m.destinations[i].host;
        assert AcceptedFor(w, p, a);
        DeliveredIsAccepted(w, p, a.host);
      }
    }
  }

  /**
   * No mail is lost, and none is kept for ever: the file of a message has been unlinked exactly when
   * its header block named somebody, and for every address it named a server for that host has
   * accepted the recipient and the message. It is unlinked once.
   */
  lemma NoMailIsLost(helo: string, events: seq<Event>)
    ensures var w := Run(helo, events);
            && Distinct(w.store.unlinked)
            && forall p: Ptr :: p in w.store.unlinked <==>
                 && p in w.origin
                 && NamedAddresses(w.origin[p].block) != []
                 && forall a :: a in NamedAddresses(w.origin[p].block) ==> AcceptedFor(w, p, a)
  {
    RunKeepsInvariant(helo, events);
    ServersAgree(helo, events);
    var w := Run(helo, events);
    forall p: Ptr
      ensures p in w.store.unlinked <==>
              && p in w.origin
              && NamedAddresses(w.origin[p].block) != []
              && forall a :: a in NamedAddresses(w.origin[p].block) ==> AcceptedFor(w, p, a)
    {
      UnlinkedIsDelivered(w, p);
      if p in w.origin {
        DeliveredToAllIs(w, p);
      }
    }
  }
}
