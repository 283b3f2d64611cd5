/**
 * The message and session objects as the program has them, updated in place. Each operation does
 * to the objects what the function of the same name in Delivery does to their values; that it is
 * allowed to touch an object is part of its precondition.
 */
module Objects {
  import opened Text
  import opened Headers
  import opened Recipients
  import opened Messages
  import opened Sessions
  import opened Payload
  import D = Delivery

  type Ptr = D.Ptr

  /** What the C library knows about messages: which are allocated, and what was done to their files. */
  class Memory {
    ghost var objects: seq<Message>   // every message ever created; its address is its number
    ghost var live: set<Ptr>
    ghost var freed: seq<Ptr>
    ghost var unlinked: seq<Ptr>
    ghost var delivered: set<(Ptr, string)>
    ghost var bodies: map<Ptr, string>

    ghost constructor ()
      ensures Valid() && objects == [] && Store() == D.Initial("").store
    {
      objects, live, freed, unlinked, delivered, bodies := [], {}, [], [], {}, map[];
    }

    ghost predicate Valid()
      reads this`objects, this`live, objects
    {
      && (forall p: Ptr :: p in live ==> p < |objects|)
      && (forall i :: 0 <= i < |objects| ==> objects[i].id == i && NoNul(objects[i].body))
    }

    /** The object is a message, though perhaps a freed one. */
    ghost predicate Knows(m: Message)
      reads this`objects
    {
      m.id < |objects| && objects[m.id] == m
    }

    /** The object may be used. */
    ghost predicate Holds(m: Message)
      reads this`objects, this`live
    {
      Knows(m) && m.id in live
    }

    ghost function Heap(): map<Ptr, D.Message>
      requires Valid()
      reads this`objects, this`live, objects
    {
      map p: Ptr | p in live :: objects[p].Value()
    }

    ghost function Store(): D.Store
      requires Valid()
      reads this, objects
    {
      D.Store(Heap(), false, freed, unlinked, delivered, bodies)
    }

    /** A known message whose address is in the heap may be used. */
    lemma IsLive(m: Message)
      requires Valid() && Knows(m) && m.id in Store().heap
      ensures Holds(m) && Store().heap[m.id] == m.Value()
    {
    }

    /** The body has been read. */
    ghost method Remember(p: Ptr, text: string)
      requires Valid()
      modifies this`bodies
      ensures Valid() && Store() == old(Store()).(bodies := old(bodies)[p := text])
    {
      bodies := bodies[p := text];
    }

    /** The message has reached the host. */
    ghost method Acknowledge(p: Ptr, host: string)
      requires Valid()
      modifies this`delivered
      ensures Valid() && Store() == old(Store()).(delivered := old(delivered) + {(p, host)})
    {
      delivered := delivered + {(p, host)};
    }

    /** A change of one message is a change of the heap at its address. */
    twostate lemma OneFreed(p: Ptr)
      requires old(Valid()) && unchanged(`objects) && live == old(live) - {p}
      requires forall x :: x in objects && x.id != p ==> unchanged(x)
      requires forall x :: x in objects ==> NoNul(x.body)
      ensures Valid() && Heap() == old(Heap()) - {p}
    {
      forall i: Ptr | i < |objects| && i != p ensures unchanged(objects[i]) {
        assert objects[i].id == i && objects[i] in objects;
      }
    }

    twostate lemma OneChanged(m: Message)
      requires old(Valid()) && old(Holds(m)) && unchanged(`objects) && unchanged(`live) && NoNul(m.body)
      requires forall x :: x in objects && x != m ==> unchanged(x)
      ensures Valid() && Heap() == old(Heap())[m.id := m.Value()]
    {
      forall p: Ptr | p < |objects| && p != m.id ensures unchanged(objects[p]) {
        assert objects[p].id == p && objects[p] in objects;
      }
    }
  }

  class Message {
    ghost const id: Ptr
    const path: string
    var state: MessageState
    var block: string
    var sender: string
    var headers: seq<Header>
    var destinations: seq<Destination>
    var body: string
    var refCount: nat

    ghost function Value(): D.Message
      reads this
    {
      D.Message(state, path, block, sender, headers, destinations, body, refCount)
    }

    /** `message_create` */
    constructor (path: string, ghost mem: Memory)
      requires mem.Valid()
      modifies mem
      ensures mem.Valid() && mem.objects == old(mem.objects) + [this] && fresh(this)
      ensures mem.Store() == D.Create(old(mem.Store()), |old(mem.objects)|, path)
      ensures id == |old(mem.objects)| && mem.Holds(this) && this.path == path
    {
      this.path := path;
      id := |mem.objects|;
      state, block, sender, headers, destinations, body, refCount := LoadingHeaders, "", "", [], [], "", 1;
      new;
      mem.objects := mem.objects + [this];
      mem.live := mem.live + {id};
      assert mem.Heap() == old(mem.Heap())[id := Value()];
    }

    /** `message_retain` */
    method Retain(ghost mem: Memory)
      requires mem.Valid() && mem.Holds(this)
      modifies this`refCount
      ensures mem.Valid() && mem.Store() == D.Retain(old(mem.Store()), id)
    {
      refCount := refCount + 1;
      mem.OneChanged(this);
    }

    /** `message_release` */
    method Release(ghost mem: Memory)
      requires mem.Valid() && mem.Holds(this) && refCount > 0
      modifies this`refCount, mem
      ensures mem.Valid() && mem.Store() == D.Release(old(mem.Store()), id)
      ensures mem.objects == old(mem.objects)
    {
      refCount := refCount - 1;
      if refCount > 0 {
        mem.OneChanged(this);
        return;
      }
      if state == BodyLoaded && destinations == [] {
        mem.unlinked := mem.unlinked + [id];
      }
      mem.freed := mem.freed + [id];
      mem.live := mem.live - {id};
      mem.OneFreed(id);
    }

    /** `message_start_loading_body` */
    method StartLoadingBody(ghost mem: Memory)
      requires mem.Valid() && mem.Holds(this) && state != LoadingHeaders
      modifies this`state
      ensures mem.Valid() && mem.Store() == D.StartLoadingBody(old(mem.Store()), id)
    {
      if state == LoadingFailed || state == LoadingBody || state == BodyLoaded {
        mem.OneChanged(this);
        return;
      }
      state := LoadingBody;
      mem.OneChanged(this);
    }

    method RemoveDestination(host: string)
      modifies this`destinations
      ensures destinations == D.WithoutHost(old(destinations), host)
    {
      var k := 0;
      while k < |destinations| && destinations[k].host != host
        invariant k <= FindDestination(destinations, host)
      {
        k := k + 1;
      }
      if k < |destinations| {
        destinations := destinations[..k] + destinations[k + 1..];
      }
    }

    /** `message_mark_as_sent` */
    method MarkAsSent(ghost mem: Memory, destinationHost: string)
      requires mem.Valid() && mem.Holds(this) && state == BodyLoaded
      modifies this`destinations, mem
      ensures mem.Valid() && mem.Store() == D.MarkAsSent(old(mem.Store()), id, destinationHost)
      ensures mem.objects == old(mem.objects) && mem.live == old(mem.live)
    {
      RemoveDestination(destinationHost);
      mem.OneChanged(this);
      mem.Acknowledge(id, destinationHost);
    }

    /** The header block is parsed. */
    method TakeHeaders(text: string)
      requires NoNul(text)
      modifies this`block, this`state, this`sender, this`headers, this`destinations
      ensures var e := Parse(text).envelope;
              Value() == old(Value()).(state := Parse(text).state, block := text, sender := e.sender,
                                       headers := e.headers, destinations := e.destinations)
    {
      var parsed := ParseMessage(text);
      block, state := text, parsed.state;
      sender, headers, destinations := parsed.envelope.sender, parsed.envelope.headers, parsed.envelope.destinations;
    }

    /** What `message_notify` does to the message when the next part of it has been read, or could not be. */
    method Load(ghost mem: Memory, result: D.LoadResult)
      requires mem.Valid() && mem.Holds(this)
      requires D.NoNulRead(result)
      modifies this, mem
      ensures mem.Valid() && mem.Store() == D.Load(old(mem.Store()), id, result)
      ensures mem.objects == old(mem.objects) && mem.live == old(mem.live)
    {
      match result
      case LoadFailed =>
        state := LoadingFailed;
        mem.OneChanged(this);
      case HeadersRead(text) =>
        TakeHeaders(text);
        mem.OneChanged(this);
      case BodyRead(text) =>
        state, body := BodyLoaded, text;
        mem.OneChanged(this);
        mem.Remember(id, text);
    }
  }

  /** `message_recepient`, with the list that its node is in. */
  datatype Node = Unset | Null | At(message: Message, host: string, index: nat)

  ghost function PointersTo(messages: seq<Message>): (r: seq<Ptr>)
    ensures |r| == |messages| && forall i :: 0 <= i < |r| ==> r[i] == messages[i].id
  {
    seq(|messages|, i requires 0 <= i < |messages| => messages[i].id)
  }

  ghost function CursorOf(n: Node): D.Cursor {
    match n
    case Unset => D.Unset
    case Null => D.Null
    case At(m, host, index) => D.At(m.id, host, index)
  }

  /** The request that belongs to the last thing said; there is none while the session only waits. */
  ghost function LastRequest(log: D.Log): string {
    var n := |log.said|;
    if n > 0 && log.said[n - 1].Sent? then D.Render(log.said[n - 1].command) else ""
  }

  /** What the absence of a fault says about the head message. */
  lemma TransferStarts(st: D.Store, s: D.Session, p: Ptr)
    requires !st.fault && s.messages != [] && s.messages[0] == p && !D.StartTransfer(st, s).store.fault
    ensures p in st.heap && st.heap[p].state != LoadingHeaders
    ensures var m := st.heap[p];
            var k := FindDestination(m.destinations, s.destinationHost);
            && k < |m.destinations|
            && D.StartTransfer(st, s) == D.Outcome(D.StartLoadingBody(st, p),
                 D.Say(s, SendingMailOrRcpt, D.MailFrom(p, m.sender)).(cursor := D.NodeAt(p, m.destinations[k], 0)))
  {
  }

  class Session {
    const destinationHost: string
    var state: SessionState
    var messages: seq<Message>
    var recipient: Node
    var request: string
    ghost var log: D.Log

    ghost function Value(): D.Session
      reads this`state, this`messages, this`recipient, this`log
    {
      D.Session(state, destinationHost, PointersTo(messages), CursorOf(recipient), log)
    }

    ghost predicate Linked(mem: Memory)
      reads this`messages, this`recipient, mem`objects
    {
      && (forall m :: m in messages ==> mem.Knows(m))
      && (recipient.At? ==> mem.Knows(recipient.message))
    }

    /** The request buffer of an open session. */
    ghost predicate Requested()
      reads this`state, this`request, this`log
    {
      && (state != Closed ==> request == LastRequest(log))
      && (state == LoadingMessageBody ==> request == "")
    }

    /** `session_initialize`, with the outcome of `ares_init`. */
    constructor (host: string, refused: bool)
      ensures Value() == D.NewSession(host, refused) && messages == [] && recipient == Unset && Requested()
    {
      destinationHost := host;
      state := if refused then Closed else ResolvingDns;
      messages, recipient, request := [], Unset, "";
      log := D.NewSession(host, refused).log;
    }

    /** `session_enqueue_message` */
    method EnqueueMessage(m: Message, ghost mem: Memory)
      requires mem.Valid() && mem.Holds(m) && Linked(mem)
      modifies this`messages, this`log, m`refCount
      ensures mem.Valid() && mem.Store() == D.Retain(old(mem.Store()), m.id)
      ensures Value() == D.Enqueued(old(Value()), m.id) && messages == old(messages) + [m]
      ensures Linked(mem)
    {
      Append(m);
      m.Retain(mem);
    }

    method Append(m: Message)
      modifies this`messages, this`log
      ensures Value() == D.Enqueued(old(Value()), m.id) && messages == old(messages) + [m]
    {
      messages := messages + [m];
      assert PointersTo(messages) == PointersTo(old(messages)) + [m.id];
      log := log.(enqueued := log.enqueued + [m.id]);
    }

    /** The search for the destination of this session; it relies on being successful. */
    method SearchDestination(message: Message) returns (k: nat)
      requires FindDestination(message.destinations, destinationHost) < |message.destinations|
      ensures k == FindDestination(message.destinations, destinationHost)
    {
      k := 0;
      while message.destinations[k].host != destinationHost
        invariant k <= FindDestination(message.destinations, destinationHost)
        decreases |message.destinations| - k
      {
        k := k + 1;
      }
    }

    /** MAIL for the head message, whose recipients at this host come next. */
    method SendMail(message: Message)
      requires messages != [] && messages[0] == message
      requires FindDestination(message.destinations, destinationHost) < |message.destinations|
      modifies this`state, this`recipient, this`request, this`log
      ensures var d := message.destinations[FindDestination(message.destinations, destinationHost)];
              Value() == D.Say(old(Value()), SendingMailOrRcpt, D.MailFrom(message.id, message.sender))
                         .(cursor := D.NodeAt(message.id, d, 0))
      ensures recipient.At? ==> recipient.message == message
      ensures request == LastRequest(log)
    {
      log := D.Say(Value(), SendingMailOrRcpt, D.MailFrom(message.id, message.sender)).log;
      state := SendingMailOrRcpt;
      request := "MAIL FROM:<" + message.sender + ">" + CRLF;
      var k := SearchDestination(message);
      var d := message.destinations[k];
      recipient := if d.recipients == [] then Null else At(message, d.host, 0);
    }

    /** start_message_transfer */
    method StartMessageTransfer(ghost mem: Memory)
      requires mem.Valid() && Linked(mem) && !D.StartTransfer(mem.Store(), Value()).store.fault
      modifies this, messages
      ensures mem.Valid() && Linked(mem)
      ensures D.Outcome(mem.Store(), Value()) == D.StartTransfer(old(mem.Store()), old(Value()))
      ensures request == LastRequest(log)
    {
      if messages == [] {
        SendQuit();
      } else {
        StartHead(mem);
      }
    }

    /** MAIL for the head message, whose body is loaded meanwhile. */
    method StartHead(ghost mem: Memory)
      requires mem.Valid() && Linked(mem) && messages != [] && !D.StartTransfer(mem.Store(), Value()).store.fault
      modifies this`state, this`recipient, this`request, this`log, messages
      ensures mem.Valid() && Linked(mem)
      ensures D.Outcome(mem.Store(), Value()) == D.StartTransfer(old(mem.Store()), old(Value()))
      ensures request == LastRequest(log)
    {
      var message := messages[0];
      TransferStarts(mem.Store(), Value(), message.id);
      mem.IsLive(message);
      SendMail(message);
      message.StartLoadingBody(mem);
    }

    method SendQuit()
      modifies this`state, this`request, this`log
      ensures Value() == D.Say(old(Value()), SendingQuit, D.Quit) && request == LastRequest(log)
    {
      log := D.Say(Value(), SendingQuit, D.Quit).log;
      state := SendingQuit;
      request := "QUIT" + CRLF;
    }

    /** message_body_loading_done */
    method BodyLoadingDone(ghost mem: Memory)
      requires mem.Valid() && messages != [] && mem.Holds(messages[0])
      modifies this`state, this`request, this`log
      ensures Value() == D.BodyLoadingDone(mem.Store(), old(Value())).session
      ensures Requested()
    {
      var message := messages[0];
      if message.state == LoadingFailed {
        SendRset(message);
      } else if message.state == BodyLoaded {
        SendData(message);
      } else {
        state := Closed;
      }
    }

    method SendRset(message: Message)
      modifies this`state, this`request, this`log
      ensures Value() == D.Say(old(Value()), SendingRset, D.Rset(message.id)) && request == LastRequest(log)
    {
      log := D.Say(Value(), SendingRset, D.Rset(message.id)).log;
      state := SendingRset;
      request := "RSET" + CRLF;
    }

    method SendData(message: Message)
      modifies this`state, this`request, this`log
      ensures Value() == D.Say(old(Value()), SendingData, D.Data(message.id)) && request == LastRequest(log)
    {
      log := D.Say(Value(), SendingData, D.Data(message.id)).log;
      state := SendingData;
      request := "DATA" + CRLF;
    }

    /** Marks the message if it was accepted, and gives it back. */
    method GiveBack(message: Message, sent: bool, ghost mem: Memory)
      requires mem.Valid() && mem.Holds(message) && message.refCount > 0 && (sent ==> message.state == BodyLoaded)
      modifies message, mem
      ensures mem.Valid() && mem.objects == old(mem.objects)
      ensures var st := old(mem.Store());
              mem.Store() == D.Release(if sent then D.MarkAsSent(st, message.id, destinationHost) else st, message.id)
    {
      if sent {
        message.MarkAsSent(mem, destinationHost);
      }
      message.Release(mem);
    }

    /** dequeue_message, and before it `message_mark_as_sent` for a message that was accepted. */
    method FinishTransfer(sent: bool, ghost mem: Memory)
      requires mem.Valid() && Linked(mem) && messages != [] && mem.Holds(messages[0])
      requires messages[0].refCount > 0 && (sent ==> messages[0].state == BodyLoaded)
      modifies this, messages, mem
      ensures mem.Valid() && Linked(mem) && mem.objects == old(mem.objects)
      ensures messages == old(messages[1..])
      ensures mem.Store() == D.FinishTransfer(old(mem.Store()), old(Value()), sent).store
      ensures Value() == D.FinishTransfer(old(mem.Store()), old(Value()), sent).session
    {
      var message := messages[0];
      mem.IsLive(message);
      ghost var m := message.Value();
      ghost var text := if sent then Some(Encode(m.headers, m.body)) else None;
      ghost var transfer := D.Transfer(message.id, m.sender, D.RecipientsAt(m, destinationHost), text);
      log := log.(transfers := log.transfers + [transfer]);
      messages := messages[1..];
      assert PointersTo(messages) == PointersTo(old(messages))[1..];
      GiveBack(message, sent, mem);
    }

    /** RCPT for the recipient under the cursor, which moves on. */
    method SendRcpt(ghost mem: Memory)
      requires recipient.At? && mem.Knows(recipient.message)
      requires recipient.index < |D.RecipientsAt(recipient.message.Value(), recipient.host)|
      modifies this`recipient, this`request, this`log
      ensures var n, users := old(recipient), D.RecipientsAt(old(recipient.message).Value(), old(recipient.host));
              Value() == D.Say(old(Value()), state, D.RcptTo(n.message.id, users[n.index], destinationHost))
                         .(cursor := D.NodeAt(n.message.id, Destination(n.host, users), n.index + 1))
      ensures recipient.At? ==> mem.Knows(recipient.message)
      ensures request == LastRequest(log)
    {
      var message, host, index := recipient.message, recipient.host, recipient.index;
      var users := message.destinations[FindDestination(message.destinations, host)].recipients;
      request := "RCPT TO:<" + users[index] + "@" + destinationHost + ">" + CRLF;
      recipient := if index + 1 < |users| then At(message, host, index + 1) else Null;
      log := D.Say(Value(), state, D.RcptTo(message.id, users[index], destinationHost)).log;
    }

    /** What the resolver, `connect` or an error on the socket does to the session. */
    method Move(state: SessionState)
      requires Requested() && this.state != Closed && state != LoadingMessageBody
      modifies this`state, this`log
      ensures Value() == D.NetworkMove(old(Value()), state) && Requested()
    {
      log := D.NetworkMove(Value(), state).log;
      this.state := state;
    }

    /** The session ends on a reply that it does not expect. */
    method CloseOn(code: int)
      modifies this`state, this`log
      ensures Value() == D.ClosedOn(old(Value()), code)
    {
      state := Closed;
      log := log.(tail := [D.Got(code)]);
    }

    ghost method Hear(code: int)
      modifies this`log
      ensures Value() == D.Heard(old(Value()), code)
    {
      log := log.(said := log.said + [D.Got(code)]);
    }

    /** `dispatch` in RECEIVING_GREETING. */
    method Greeted(helo: string, code: int, ghost mem: Memory)
      requires mem.Valid() && state == ReceivingGreeting
      modifies this`state, this`request, this`log
      ensures D.Outcome(mem.Store(), Value()) == D.Dispatch(helo, mem.Store(), old(Value()), code)
      ensures Requested()
    {
      if code == 554 {
        Hear(code);
        log := log.(refused := true);
        log := D.Say(Value(), SendingQuit, D.Quit).log;
        state, request := SendingQuit, "QUIT" + CRLF;
      } else if code == 220 {
        Hear(code);
        log := D.Say(Value(), SendingHelo, D.Helo(helo)).log;
        state, request := SendingHelo, "HELO " + helo + CRLF;
      } else {
        CloseOn(code);
      }
    }

    /** `dispatch` in SENDING_MAIL_OR_RCPT on 250 while there are recipients left. */
    method NextRecipient(helo: string, ghost mem: Memory)
      requires mem.Valid() && Linked(mem) && state == SendingMailOrRcpt && recipient.At?
      requires !D.DispatchReply(helo, mem.Store(), Value(), 250).store.fault
      modifies this`recipient, this`request, this`log
      ensures Linked(mem)
      ensures Value() == D.DispatchReply(helo, mem.Store(), old(Value()), 250).session
      ensures Requested()
    {
      RecipientIsLive(helo, mem.Store(), Value());
      mem.IsLive(recipient.message);
      Hear(250);
      SendRcpt(mem);
    }

    /** `dispatch` in SENDING_MAIL_OR_RCPT on 250 when all recipients have been accepted. */
    method LastRecipient(helo: string, ghost mem: Memory)
      requires mem.Valid() && Linked(mem) && state == SendingMailOrRcpt && !recipient.At? && request == ""
      requires !D.DispatchReply(helo, mem.Store(), Value(), 250).store.fault
      modifies this`state, this`request, this`log
      ensures Value() == D.DispatchReply(helo, mem.Store(), old(Value()), 250).session
      ensures Requested()
    {
      HeadIsLive(helo, mem.Store(), Value());
      mem.IsLive(messages[0]);
      Hear(250);
      AllAccepted(mem);
    }

    /** After the last recipient the body is awaited or sent. */
    method AllAccepted(ghost mem: Memory)
      requires mem.Valid() && messages != [] && mem.Holds(messages[0])
      requires request == LastRequest(log) == "" && state == SendingMailOrRcpt
      modifies this`state, this`request, this`log
      ensures Value() == if messages[0].state == LoadingBody then D.Moved(old(Value()), LoadingMessageBody)
                         else D.BodyLoadingDone(mem.Store(), old(Value())).session
      ensures Requested()
    {
      if messages[0].state == LoadingBody {
        log := D.Moved(Value(), LoadingMessageBody).log;
        state := LoadingMessageBody;
      } else {
        BodyLoadingDone(mem);
      }
    }

    /** write_data_payload for the head message. */
    method SendPayload(ghost mem: Memory)
      requires mem.Valid() && messages != [] && mem.Holds(messages[0])
      modifies this`state, this`request, this`log
      ensures var m := messages[0];
              Value() == D.Say(old(Value()), SendingDataPayload, D.Content(m.id, Encode(m.headers, m.body)))
      ensures Requested()
    {
      var message := messages[0];
      assert NoNul(mem.objects[message.id].body);
      request := WriteDataPayload(message.headers, message.body);
      log := D.Say(Value(), SendingDataPayload, D.Content(message.id, request)).log;
      state := SendingDataPayload;
    }

    /** `dispatch` in SENDING_DATA_PAYLOAD and SENDING_RSET on 250. */
    method TransferDone(helo: string, ghost mem: Memory)
      requires mem.Valid() && Linked(mem) && state in {SendingDataPayload, SendingRset}
      requires !D.DispatchReply(helo, mem.Store(), Value(), 250).store.fault
      modifies this, messages, mem
      ensures mem.Valid() && Linked(mem) && mem.objects == old(mem.objects)
      ensures D.Outcome(mem.Store(), Value()) == D.DispatchReply(helo, old(mem.Store()), old(Value()), 250)
      ensures request == LastRequest(log)
    {
      ghost var st := mem.Store();
      var sent := state == SendingDataPayload;
      TransferEnds(helo, st, Value());
      mem.IsLive(messages[0]);
      Hear(250);
      FinishTransfer(sent, mem);
      StartMessageTransfer(mem);
    }

    /** `dispatch` in SENDING_HELO. */
    method HeloAnswered(helo: string, code: int, ghost mem: Memory)
      requires mem.Valid() && Linked(mem) && state == SendingHelo
      requires !D.Dispatch(helo, mem.Store(), Value(), code).store.fault
      modifies this, messages
      ensures mem.Valid() && Linked(mem)
      ensures D.Outcome(mem.Store(), Value()) == D.Dispatch(helo, old(mem.Store()), old(Value()), code)
      ensures Requested()
    {
      if code == 250 {
        Hear(code);
        StartMessageTransfer(mem);
      } else {
        CloseOn(code);
      }
    }

    /** `dispatch` in SENDING_MAIL_OR_RCPT. */
    method RecipientAnswered(helo: string, code: int, ghost mem: Memory)
      requires mem.Valid() && Linked(mem) && state == SendingMailOrRcpt && request == ""
      requires !D.Dispatch(helo, mem.Store(), Value(), code).store.fault
      modifies this
      ensures Linked(mem)
      ensures D.Outcome(mem.Store(), Value()) == D.Dispatch(helo, mem.Store(), old(Value()), code)
      ensures Requested()
    {
      StoreKept(helo, mem.Store(), Value(), code);
      if code != 250 {
        CloseOn(code);
      } else if recipient.At? {
        NextRecipient(helo, mem);
      } else {
        LastRecipient(helo, mem);
      }
    }

    /** `dispatch` in SENDING_DATA. */
    method DataAnswered(helo: string, code: int, ghost mem: Memory)
      requires mem.Valid() && Linked(mem) && state == SendingData
      requires !D.Dispatch(helo, mem.Store(), Value(), code).store.fault
      modifies this`state, this`request, this`log
      ensures D.Outcome(mem.Store(), Value()) == D.Dispatch(helo, mem.Store(), old(Value()), code)
      ensures Requested()
    {
      StoreKept(helo, mem.Store(), Value(), code);
      if code == 354 {
        mem.IsLive(messages[0]);
        Hear(code);
        SendPayload(mem);
      } else {
        CloseOn(code);
      }
    }

    /** `dispatch` in SENDING_DATA_PAYLOAD and SENDING_RSET. */
    method TransferAnswered(helo: string, code: int, ghost mem: Memory)
      requires mem.Valid() && Linked(mem) && state in {SendingDataPayload, SendingRset}
      requires !D.Dispatch(helo, mem.Store(), Value(), code).store.fault
      modifies this, messages, mem
      ensures mem.Valid() && Linked(mem) && mem.objects == old(mem.objects)
      ensures D.Outcome(mem.Store(), Value()) == D.Dispatch(helo, old(mem.Store()), old(Value()), code)
      ensures Requested()
    {
      if code == 250 {
        TransferDone(helo, mem);
      } else {
        CloseOn(code);
      }
    }

    /** `dispatch` in LOADING_MESSAGE_BODY. */
    method BodyPolled(helo: string, code: int, ghost mem: Memory)
      requires mem.Valid() && Linked(mem) && state == LoadingMessageBody
      requires !D.Dispatch(helo, mem.Store(), Value(), code).store.fault
      requires request == LastRequest(log) == ""
      modifies this`state, this`request, this`log
      ensures D.Outcome(mem.Store(), Value()) == D.Dispatch(helo, mem.Store(), old(Value()), code)
      ensures Requested()
    {
      StoreKept(helo, mem.Store(), Value(), code);
      mem.IsLive(messages[0]);
      if messages[0].state != LoadingBody {
        BodyLoadingDone(mem);
      }
    }

    /** `dispatch` in the states in which it changes the session only. */
    method Conversed(helo: string, code: int, ghost mem: Memory)
      requires mem.Valid() && Linked(mem) && state !in {SendingHelo, SendingDataPayload, SendingRset}
      requires !D.Dispatch(helo, mem.Store(), Value(), code).store.fault
      requires request == "" && (state == LoadingMessageBody ==> LastRequest(log) == "")
      modifies this
      ensures Linked(mem)
      ensures D.Outcome(mem.Store(), Value()) == D.Dispatch(helo, mem.Store(), old(Value()), code)
      ensures Requested()
    {
      match state
      case ReceivingGreeting => Greeted(helo, code, mem);
      case SendingMailOrRcpt => RecipientAnswered(helo, code, mem);
      case SendingData => DataAnswered(helo, code, mem);
      case LoadingMessageBody => BodyPolled(helo, code, mem);
      case SendingQuit => CloseOn(code);
      case _ => assert false;
    }

    /** `dispatch` in the states in which messages may change, too. */
    method Transferred(helo: string, code: int, ghost mem: Memory)
      requires mem.Valid() && Linked(mem) && state in {SendingHelo, SendingDataPayload, SendingRset}
      requires !D.Dispatch(helo, mem.Store(), Value(), code).store.fault
      modifies this, messages, mem
      ensures mem.Valid() && Linked(mem) && mem.objects == old(mem.objects)
      ensures D.Outcome(mem.Store(), Value()) == D.Dispatch(helo, old(mem.Store()), old(Value()), code)
      ensures Requested()
    {
      if state == SendingHelo {
        HeloAnswered(helo, code, mem);
      } else {
        TransferAnswered(helo, code, mem);
      }
    }

    /** `dispatch` on a reply, or with no reply while the body is being loaded. */
    method Dispatch(helo: string, code: int, ghost mem: Memory)
      requires mem.Valid() && Linked(mem) && Requested()
      requires !D.Dispatch(helo, mem.Store(), Value(), code).store.fault
      modifies this, messages, mem
      ensures mem.Valid() && Linked(mem) && mem.objects == old(mem.objects)
      ensures D.Outcome(mem.Store(), Value()) == D.Dispatch(helo, old(mem.Store()), old(Value()), code)
      ensures Requested()
    {
      request := "";
      if state in {SendingHelo, SendingDataPayload, SendingRset} {
        Transferred(helo, code, mem);
      } else {
        Conversed(helo, code, mem);
      }
    }

    /** `session_finalize` */
    method Finalize(ghost mem: Memory)
      requires mem.Valid() && Linked(mem) && !D.ReleaseAll(mem.Store(), PointersTo(messages)).fault
      modifies messages, mem
      ensures mem.Valid() && mem.objects == old(mem.objects)
      ensures mem.Store() == D.ReleaseAll(old(mem.Store()), PointersTo(messages))
    {
      ReleaseEach(messages, mem);
    }
  }

  lemma FaultRemains(st: D.Store, ps: seq<Ptr>)
    requires st.fault
    ensures D.ReleaseAll(st, ps).fault
    decreases |ps|
  {
    if ps != [] {
      FaultRemains(D.Release(st, ps[0]), ps[1..]);
    }
  }

  /** The loop that gives back a list of messages, from the first to the last. */
  method ReleaseEach(messages: seq<Message>, ghost mem: Memory)
    requires mem.Valid() && (forall m :: m in messages ==> mem.Knows(m))
    requires !D.ReleaseAll(mem.Store(), PointersTo(messages)).fault
    modifies messages, mem
    ensures mem.Valid() && mem.objects == old(mem.objects)
    ensures mem.Store() == D.ReleaseAll(old(mem.Store()), PointersTo(messages))
  {
    var i := 0;
    while i < |messages|
      invariant 0 <= i <= |messages|
      invariant mem.Valid() && mem.objects == old(mem.objects)
      invariant D.ReleaseAll(mem.Store(), PointersTo(messages[i..]))
             == D.ReleaseAll(old(mem.Store()), PointersTo(messages))
    {
      ghost var ps, st := PointersTo(messages[i..]), mem.Store();
      assert ps[1..] == PointersTo(messages[i + 1..]);
      if D.Release(st, ps[0]).fault {
        FaultRemains(D.Release(st, ps[0]), ps[1..]);
      }
      mem.IsLive(messages[i]);
      messages[i].Release(mem);
      i := i + 1;
    }
  }

  /** Only the start and the end of a transaction touch messages. */
  lemma StoreKept(helo: string, st: D.Store, s: D.Session, code: int)
    requires !D.Dispatch(helo, st, s, code).store.fault
    ensures s.state !in {SendingHelo, SendingDataPayload, SendingRset} ==> D.Dispatch(helo, st, s, code).store == st
    ensures Exchanging(s.state) || s.state == LoadingMessageBody
  {
  }

  lemma RecipientIsLive(helo: string, st: D.Store, s: D.Session)
    requires s.state == SendingMailOrRcpt && !D.DispatchReply(helo, st, s, 250).store.fault && s.cursor.At?
    ensures s.cursor.message in st.heap
    ensures var p, host, k := s.cursor.message, s.cursor.host, s.cursor.index;
            var users := D.RecipientsAt(st.heap[p], host);
            && k < |users|
            && D.DispatchReply(helo, st, s, 250).session
               == D.Say(D.Heard(s, 250), SendingMailOrRcpt, D.RcptTo(p, users[k], s.destinationHost))
                  .(cursor := D.NodeAt(p, Destination(host, users), k + 1))
  {
  }

  lemma HeadIsLive(helo: string, st: D.Store, s: D.Session)
    requires s.state == SendingMailOrRcpt && !D.DispatchReply(helo, st, s, 250).store.fault && !s.cursor.At?
    ensures s.cursor.Null? && s.messages != [] && s.messages[0] in st.heap
  {
  }

  lemma TransferEnds(helo: string, st: D.Store, s: D.Session)
    requires s.state in {SendingDataPayload, SendingRset} && !D.DispatchReply(helo, st, s, 250).store.fault
    ensures s.messages != [] && s.messages[0] in st.heap && st.heap[s.messages[0]].refCount > 0
    ensures s.state == SendingDataPayload ==> st.heap[s.messages[0]].state == BodyLoaded
    ensures D.DispatchReply(helo, st, s, 250)
         == D.Then(D.FinishTransfer(st, D.Heard(s, 250), s.state == SendingDataPayload))
  {
    var o := D.FinishTransfer(st, D.Heard(s, 250), s.state == SendingDataPayload);
    if o.store.fault {
      FaultStays(o);
    }
  }

  lemma FaultStays(o: D.Outcome)
    requires o.store.fault
    ensures D.Then(o).store.fault
  {
  }
}
