/**
 * A session object and its connection together (session.c, `session_notify` from the label `exchange` on):
 * what is written on the socket is what the session says, and what the session hears was on the socket.
 */
module Exchange {
  import opened Messages
  import opened Sessions
  import opened Objects
  import opened Wire
  import Payload
  import D = Delivery
  import DeliveryInvariants
  import DeliveryRuns
  import Rounds

  // ---------------------------------------------------------------- the bytes of a transcript

  function BytesOf(e: D.Entry): string {
    match e case Sent(c) => D.Render(c) case Got(_) => ""
  }

  /** All requests of a transcript. */
  function SaidBytes(entries: seq<D.Entry>): string
    decreases |entries|
  {
    if entries == [] then "" else SaidBytes(entries[..|entries| - 1]) + BytesOf(entries[|entries| - 1])
  }

  lemma SaidMore(entries: seq<D.Entry>, e: D.Entry)
    ensures SaidBytes(entries + [e]) == SaidBytes(entries) + BytesOf(e)
  {
    assert (entries + [e])[..|entries|] == entries;
  }

  /** What was said between two values of a session is the request that the second one makes. */
  ghost predicate Says(s: D.Session, s': D.Session) {
    SaidBytes(s'.log.said) == SaidBytes(s.log.said) + (if s'.state == Closed then "" else LastRequest(s'.log))
  }

  lemma HeardSays(s: D.Session, code: int)
    ensures SaidBytes(D.Heard(s, code).log.said) == SaidBytes(s.log.said) && LastRequest(D.Heard(s, code).log) == ""
  {
    SaidMore(s.log.said, D.Got(code));
  }

  lemma SaySays(s: D.Session, state: SessionState, c: D.Command)
    ensures var s' := D.Say(s, state, c);
            SaidBytes(s'.log.said) == SaidBytes(s.log.said) + D.Render(c) && LastRequest(s'.log) == D.Render(c)
  {
    SaidMore(s.log.said, D.Sent(c));
  }

  lemma StartSays(st: D.Store, s: D.Session)
    requires !st.fault && !D.StartTransfer(st, s).store.fault && s.state != Closed
    ensures Says(s, D.StartTransfer(st, s).session)
  {
    if s.messages == [] {
      SaySays(s, SendingQuit, D.Quit);
    } else {
      SaySays(s, SendingMailOrRcpt, D.MailFrom(s.messages[0], st.heap[s.messages[0]].sender));
    }
  }

  lemma LoadingDoneSays(st: D.Store, s: D.Session)
    requires !st.fault && !D.BodyLoadingDone(st, s).store.fault
    ensures Says(s, D.BodyLoadingDone(st, s).session)
  {
    var p := s.messages[0];
    if st.heap[p].state.LoadingFailed? {
      SaySays(s, SendingRset, D.Rset(p));
    } else if st.heap[p].state.BodyLoaded? {
      SaySays(s, SendingData, D.Data(p));
    }
    assert SaidBytes(s.log.said) + "" == SaidBytes(s.log.said);
  }

  lemma SaysFrom(s: D.Session, mid: D.Session, s': D.Session)
    requires SaidBytes(mid.log.said) == SaidBytes(s.log.said) && Says(mid, s')
    ensures Says(s, s')
  {
  }

  lemma FinishSays(st: D.Store, s: D.Session, sent: bool)
    requires !st.fault && !D.Then(D.FinishTransfer(st, s, sent)).store.fault && s.state != Closed
    ensures Says(s, D.Then(D.FinishTransfer(st, s, sent)).session)
  {
    var o := D.FinishTransfer(st, s, sent);
    if o.store.fault {
      FaultStays(o);
    }
    StartSays(o.store, o.session);
    SaysFrom(s, o.session, D.Then(o).session);
  }

  lemma RcptSays(helo: string, st: D.Store, s: D.Session)
    requires !st.fault && s.state == SendingMailOrRcpt && !D.DispatchReply(helo, st, s, 250).store.fault
    ensures Says(s, D.DispatchReply(helo, st, s, 250).session)
  {
    var heard := D.Heard(s, 250);
    HeardSays(s, 250);
    if s.cursor.At? {
      RecipientIsLive(helo, st, s);
      var users := D.RecipientsAt(st.heap[s.cursor.message], s.cursor.host);
      SaySays(heard, SendingMailOrRcpt, D.RcptTo(s.cursor.message, users[s.cursor.index], s.destinationHost));
    } else if st.heap[s.messages[0]].state == LoadingBody {
      assert SaidBytes(s.log.said) + "" == SaidBytes(s.log.said);
    } else {
      LoadingDoneSays(st, heard);
    }
  }

  /** `dispatch` says exactly the request that it makes. */
  lemma DispatchSays(helo: string, st: D.Store, s: D.Session, code: int)
    requires !st.fault && !D.Dispatch(helo, st, s, code).store.fault
    requires s.state == LoadingMessageBody ==> LastRequest(s.log) == ""
    ensures Says(s, D.Dispatch(helo, st, s, code).session)
  {
    var heard := D.Heard(s, code);
    HeardSays(s, code);
    assert SaidBytes(s.log.said) + "" == SaidBytes(s.log.said);
    if s.state == LoadingMessageBody {
      if st.heap[s.messages[0]].state != LoadingBody {
        LoadingDoneSays(st, s);
      }
    } else if !Expected(s.state, code) {
      assert D.Dispatch(helo, st, s, code).session.state == Closed;
    } else {
      ExpectedSays(helo, st, s, code);
    }
  }

  lemma ExpectedSays(helo: string, st: D.Store, s: D.Session, code: int)
    requires !st.fault && Expected(s.state, code) && !D.DispatchReply(helo, st, s, code).store.fault
    requires s.state != LoadingMessageBody
    ensures Says(s, D.DispatchReply(helo, st, s, code).session)
  {
    var heard := D.Heard(s, code);
    HeardSays(s, code);
    if s.state == ReceivingGreeting {
      GreetingSays(helo, st, s, code);
    } else if s.state == SendingHelo {
      StartSays(st, heard);
    } else if s.state == SendingMailOrRcpt {
      RcptSays(helo, st, s);
    } else if s.state == SendingData {
      var m := st.heap[s.messages[0]];
      SaySays(heard, SendingDataPayload, D.Content(s.messages[0], Payload.Encode(m.headers, m.body)));
    } else {
      FinishSays(st, heard, s.state == SendingDataPayload);
    }
  }

  lemma GreetingSays(helo: string, st: D.Store, s: D.Session, code: int)
    requires s.state == ReceivingGreeting && Expected(s.state, code)
    ensures Says(s, D.DispatchReply(helo, st, s, code).session)
  {
    var heard := D.Heard(s, code);
    HeardSays(s, code);
    if code == 554 {
      SaySays(heard.(log := heard.log.(refused := true)), SendingQuit, D.Quit);
    } else {
      SaySays(heard, SendingHelo, D.Helo(helo));
    }
  }

  // ---------------------------------------------------------------- session and connection

  /** What a turn of the exchange comes to. */
  datatype Turn = Waits | Breaks | Dispatches(code: int) | Aborts(code: int)

  /** What a turn does to the session and the messages. */
  ghost predicate Turned(helo: string, turn: Turn, before: D.Outcome, after: D.Outcome) {
    match turn
    case Waits => after == before
    case Breaks => after == D.Outcome(before.store, D.NetworkMove(before.session, Closed))
    case Dispatches(code) => code != -1 && after == D.DispatchReply(helo, before.store, before.session, code)
    case Aborts(code) =>
      && code != -1 && Requesting(before.session.state)
      && after == D.Outcome(before.store, D.NetworkMove(before.session, Closed))
  }

  /** What the client hears of a turn. */
  function SignalOf(host: string, turn: Turn): map<string, Rounds.Signal> {
    match turn
    case Waits => map[]
    case Breaks => map[host := Rounds.Changed([Closed])]
    case Dispatches(code) => map[host := Rounds.Replied(code)]
    case Aborts(code) => map[host := Rounds.Collided(code)]
  }

  /** With these signals the client's round does to the session and the messages what the turn does. */
  lemma TurnIsStep(w: D.World, k: nat, turn: Turn, after: D.Outcome)
    requires k < |w.sessions| && Exchanging(w.sessions[k].state) && !w.finished && !w.store.fault
    requires Turned(w.helo, turn, D.Outcome(w.store, w.sessions[k]), after)
    ensures var s := w.sessions[k];
            var w' := Rounds.OwnStep(w, s, k, SignalOf(s.destinationHost, turn));
            && D.Outcome(w'.store, w'.sessions[k]) == after && Rounds.OnlyAt(w, w', k)
            && (w'.finished <==> turn.Aborts?)
  {
    if turn.Breaks? {
      assert [Closed][1..] == [];
      assert Rounds.NetworkSteps(w, k, [Closed]) == D.Step(w, D.Network(k, Closed)) by {
        assert Rounds.NetworkSteps(D.Step(w, D.Network(k, Closed)), k, []) == D.Step(w, D.Network(k, Closed));
      }
    }
  }

  class Link {
    const session: Session
    const wire: Connection

    /** The request buffer of an open session is the one that is being written. */
    ghost predicate Valid(mem: Memory)
      reads session, wire, wire.response, mem`objects
    {
      && wire.Valid() && session.Linked(mem) && session.Requested()
      && (session.state != Closed ==> !wire.closed && wire.responseCode == -1 && wire.request == session.request)
      && (session.state == ReceivingGreeting ==> session.log.said == [])
    }

    /**
     * With a server in step: all that the session has said has been written, except for what is left of
     * the last request; a closed session may have been interrupted.
     */
    ghost predicate InStep(mem: Memory)
      requires Valid(mem)
      reads session, wire, wire.response, mem`objects
    {
      var said := SaidBytes(session.log.said);
      && wire.written <= said
      && (session.state != Closed ==> wire.InStep() && said == wire.earlier + wire.request)
      && (session.state == LoadingMessageBody ==> wire.Stream() == "")
    }

    /** `connect` has succeeded. */
    constructor (session: Session, ghost mem: Memory)
      requires session.Linked(mem) && session.Requested() && session.state == ReceivingGreeting
      requires session.log.said == []
      ensures Valid(mem) && InStep(mem) && this.session == session && fresh(wire) && fresh(wire.response)
    {
      this.session := session;
      wire := new Connection();
    }

    /** The server says something. It is in step if it answers the complete request, or greets, with one reply. */
    method ServerSpeaks(bytes: string, ghost mem: Memory)
      requires Valid(mem)
      modifies wire`incoming
      ensures Valid(mem)
      ensures (old(InStep(mem)) && Exchanging(session.state) && old(wire.Stream()) == ""
               && wire.requestOffset == |wire.request| && IsReply(bytes)) ==> InStep(mem)
    {
      wire.ServerSpeaks(bytes);
    }

    /** Reading or writing has closed the session. */
    method Interrupt(ghost mem: Memory) returns (turn: Turn)
      requires mem.Valid() && wire.Valid() && session.Linked(mem) && session.Requested()
      requires wire.closed && wire.request == session.request && Exchanging(session.state)
      requires session.state == ReceivingGreeting ==> session.log.said == []
      requires wire.responseCode != -1 ==> wire.requestOffset < |wire.request|
      modifies session
      ensures Valid(mem) && session.Value() == D.NetworkMove(old(session.Value()), Closed)
      ensures turn == if wire.responseCode == -1 then Breaks else Aborts(wire.responseCode)
      ensures turn.Aborts? ==> Requesting(old(session.state))
      ensures old(SaidBytes(session.log.said)) == wire.earlier + wire.request ==> InStep(mem)
    {
      session.Move(Closed);
      turn := if wire.responseCode == -1 then Breaks else Aborts(wire.responseCode);
      assert wire.earlier + wire.request[..wire.requestOffset] <= wire.earlier + wire.request;
    }

    /** What `dispatch` does to session and connection. */
    method Dispatch(helo: string, code: int, ghost mem: Memory)
      requires mem.Valid() && Valid'(mem) && session.state != Closed
      requires !D.Dispatch(helo, mem.Store(), session.Value(), code).store.fault
      modifies session, session.messages, mem, wire
      ensures wire.readCalls == old(wire.readCalls) && wire.writeCalls == old(wire.writeCalls)
      ensures mem.Valid() && Valid(mem) && mem.objects == old(mem.objects)
      ensures D.Outcome(mem.Store(), session.Value()) == D.Dispatch(helo, old(mem.Store()), old(session.Value()), code)
      ensures wire.written == old(wire.written) == wire.earlier && wire.Stream() == old(wire.incoming)
      ensures Says(old(session.Value()), session.Value())
      ensures session.state != Closed ==> wire.request == LastRequest(session.log) && wire.requestOffset == 0
    {
      DispatchSession(helo, code, mem);
      wire.NextRequest(session.request);
    }

    /** The session has its next request; the connection does not know it yet. */
    method DispatchSession(helo: string, code: int, ghost mem: Memory)
      requires mem.Valid() && Valid'(mem) && session.state != Closed
      requires !D.Dispatch(helo, mem.Store(), session.Value(), code).store.fault
      modifies session, session.messages, mem
      ensures mem.Valid() && session.Linked(mem) && session.Requested() && mem.objects == old(mem.objects)
      ensures D.Outcome(mem.Store(), session.Value()) == D.Dispatch(helo, old(mem.Store()), old(session.Value()), code)
      ensures Says(old(session.Value()), session.Value())
      ensures session.state != ReceivingGreeting
    {
      DispatchSays(helo, mem.Store(), session.Value(), code);
      LeavesGreeting(helo, mem.Store(), session.Value(), code);
      session.Dispatch(helo, code, mem);
    }

    /** `Valid` while a code has been read but not been dispatched. */
    ghost predicate Valid'(mem: Memory)
      reads session, wire, wire.response, mem`objects
    {
      && wire.Valid() && session.Linked(mem) && session.Requested() && !wire.closed && wire.request == session.request
      && (session.state == ReceivingGreeting ==> session.log.said == [])
    }

    /**
     * The exchange. A reply is dispatched with the code that the stream of the server begins with. A closed
     * session is dispatched exactly when the rest of the request of a reply cannot be written; a server in
     * step never makes that happen, and with it every reply is to a complete request.
     */
    method Notify(helo: string, canRead: bool, canWrite: bool, ghost mem: Memory) returns (turn: Turn)
      requires mem.Valid() && Valid(mem) && Exchanging(session.state)
      requires forall code | code != -1 :: !D.Dispatch(helo, mem.Store(), session.Value(), code).store.fault
      modifies session, session.messages, mem, wire, wire.response
      ensures mem.Valid() && Valid(mem) && mem.objects == old(mem.objects)
      ensures var before := D.Outcome(old(mem.Store()), old(session.Value()));
              Turned(helo, turn, before, D.Outcome(mem.Store(), session.Value()))
      ensures turn.Dispatches? || turn.Aborts? ==> FirstReply(old(wire.Stream())) == Code(turn.code)
      ensures turn.Aborts? ==> wire.requestOffset < |wire.request|
      ensures if canRead then Asked(old(wire.readCalls), wire.readCalls) else wire.readCalls == old(wire.readCalls)
      ensures if canWrite && old(wire.requestOffset) < |old(wire.request)|
              then Asked(old(wire.writeCalls), wire.writeCalls) else wire.writeCalls == old(wire.writeCalls)
      ensures var reply := FirstReply(old(wire.Stream()));
              var heard := Heard(old(wire.readCalls), wire.readCalls, reply) && reply.value != -1;
              var failed := WriteEnds(old(wire.writeCalls), wire.writeCalls);
              turn == if heard && failed then Aborts(reply.value)
                      else if heard then Dispatches(reply.value)
                      else if failed || ReadEnds(old(wire.readCalls), wire.readCalls, reply) then Breaks
                      else Waits
      ensures old(InStep(mem)) ==> InStep(mem) && !turn.Aborts?
    {
      ghost var inStep := InStep(mem);
      wire.Transfer(canRead, canWrite);
      turn := Conclude(helo, mem, inStep);
    }

    /** The session after the reads and writes of its turn. */
    ghost predicate Transferred()
      reads session, wire, wire.response
    {
      && wire.Valid() && wire.request == session.request
      && (wire.closed && wire.responseCode != -1 ==> wire.requestOffset < |wire.request|)
      && (session.state == ReceivingGreeting ==> session.log.said == [])
    }

    method Conclude(helo: string, ghost mem: Memory, ghost inStep: bool) returns (turn: Turn)
      requires mem.Valid() && session.Linked(mem) && session.Requested() && Transferred() && Exchanging(session.state)
      requires forall code | code != -1 :: !D.Dispatch(helo, mem.Store(), session.Value(), code).store.fault
      requires inStep ==> wire.InStep() && SaidBytes(session.log.said) == wire.earlier + wire.request
      requires inStep && wire.responseCode != -1 ==>
                 !wire.closed && wire.requestOffset == |wire.request| && wire.incoming == ""
      modifies session, session.messages, mem, wire
      ensures wire.readCalls == old(wire.readCalls) && wire.writeCalls == old(wire.writeCalls)
      ensures mem.Valid() && Valid(mem) && mem.objects == old(mem.objects)
      ensures turn == if old(wire.responseCode) == -1 then (if old(wire.closed) then Breaks else Waits)
                      else if old(wire.closed) then Aborts(old(wire.responseCode))
                      else Dispatches(old(wire.responseCode))
      ensures turn.Waits? ==> session.Value() == old(session.Value())
      ensures turn.Breaks? || turn.Aborts? ==> session.Value() == D.NetworkMove(old(session.Value()), Closed)
      ensures turn.Aborts? ==> Requesting(old(session.state)) && wire.requestOffset < |wire.request|
      ensures !turn.Dispatches? ==> mem.Store() == old(mem.Store())
      ensures turn.Dispatches? ==> (
                var o := D.DispatchReply(helo, old(mem.Store()), old(session.Value()), turn.code);
                D.Outcome(mem.Store(), session.Value()) == o)
      ensures inStep ==> InStep(mem)
    {
      if wire.closed {
        turn := Interrupt(mem);
      } else if wire.responseCode == -1 {
        turn := Waits;
        assert wire.earlier + wire.request[..wire.requestOffset] <= wire.earlier + wire.request;
      } else {
        turn := Answer(helo, mem);
      }
    }

    /** The code that has been read is dispatched. */
    method Answer(helo: string, ghost mem: Memory) returns (turn: Turn)
      requires mem.Valid() && Valid'(mem) && Exchanging(session.state) && wire.responseCode != -1
      requires !D.Dispatch(helo, mem.Store(), session.Value(), wire.responseCode).store.fault
      modifies session, session.messages, mem, wire
      ensures wire.readCalls == old(wire.readCalls) && wire.writeCalls == old(wire.writeCalls)
      ensures mem.Valid() && Valid(mem) && mem.objects == old(mem.objects)
      ensures turn == Dispatches(old(wire.responseCode))
      ensures D.Outcome(mem.Store(), session.Value())
           == D.DispatchReply(helo, old(mem.Store()), old(session.Value()), old(wire.responseCode))
      ensures (old(SaidBytes(session.log.said)) == old(wire.earlier + wire.request)
               && old(wire.requestOffset) == |old(wire.request)| && old(wire.incoming) == "") ==> InStep(mem)
    {
      turn := Dispatches(wire.responseCode);
      ghost var earlier, request := wire.earlier, wire.request;
      assert request[..|request|] == request;
      Dispatch(helo, wire.responseCode, mem);
    }

    /** `session_notify` in LOADING_MESSAGE_BODY: a dispatch that no reply is needed for. */
    method Poll(helo: string, ghost mem: Memory)
      requires mem.Valid() && Valid(mem) && session.state == LoadingMessageBody
      requires !D.Dispatch(helo, mem.Store(), session.Value(), -1).store.fault
      modifies session, session.messages, mem, wire
      ensures mem.Valid() && Valid(mem) && mem.objects == old(mem.objects)
      ensures D.Outcome(mem.Store(), session.Value()) == D.DispatchBodyPoll(old(mem.Store()), old(session.Value()))
      ensures old(InStep(mem)) ==> InStep(mem)
    {
      ghost var earlier := wire.earlier;
      assert wire.request == "" && earlier + wire.request[..0] == earlier + "";
      Dispatch(helo, -1, mem);
    }
  }

  /** In every state that a run has reached, a reply can be dispatched without a fault. */
  lemma RepliesAreSafe(helo: string, events: seq<D.Event>, i: nat)
    requires var w := D.Run(helo, events); !w.finished && i < |w.sessions| && Exchanging(w.sessions[i].state)
    ensures var w := D.Run(helo, events);
            forall code | code != -1 :: !D.Dispatch(w.helo, w.store, w.sessions[i], code).store.fault
  {
    var w := D.Run(helo, events);
    DeliveryRuns.RunKeepsInvariant(helo, events);
    forall code | code != -1 ensures !D.Dispatch(w.helo, w.store, w.sessions[i], code).store.fault {
      ReplyIsSafe(w, i, code);
    }
  }

  lemma ReplyIsSafe(w: D.World, i: nat, code: int)
    requires DeliveryInvariants.Invariant(w) && !w.finished && D.Enabled(w, D.Reply(i, code))
    ensures !D.Dispatch(w.helo, w.store, w.sessions[i], code).store.fault
  {
    DeliveryRuns.StepKeepsInvariant(w, D.Reply(i, code));
  }

  /** No dispatch leads to the state in which the greeting is awaited. */
  lemma LeavesGreeting(helo: string, st: D.Store, s: D.Session, code: int)
    requires s.state != Closed && !D.Dispatch(helo, st, s, code).store.fault && !st.fault
    ensures D.Dispatch(helo, st, s, code).session.state != ReceivingGreeting
  {
  }
}
