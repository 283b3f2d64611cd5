/**
 * The delivery protocol on values: messages in a heap, shared by reference count; one session
 * per destination host; and the client that routes messages to sessions (message.c, session.c,
 * client.c). An access to memory that is not allocated, or a failed assertion, sets `fault`.
 */
module Delivery {
  import opened Text
  import opened Headers
  import opened Recipients
  import opened Messages
  import opened Sessions
  import opened Payload

  // ---------------------------------------------------------------- messages

  type Ptr = nat

  datatype Message = Message(
    state: MessageState, path: string, block: string,
    sender: string, headers: seq<Header>, destinations: seq<Destination>,
    body: string, refCount: nat)

  /**
   * Allocated messages, and the history of what happened to them: freed pointers, unlinked files
   * (by pointer), deliveries acknowledged per host, and loaded bodies.
   */
  datatype Store = Store(
    heap: map<Ptr, Message>, fault: bool,
    freed: seq<Ptr>, unlinked: seq<Ptr>, delivered: set<(Ptr, string)>, bodies: map<Ptr, string>)

  function Crash(st: Store): Store { st.(fault := true) }

  /** `message_create` */
  function Create(st: Store, p: Ptr, path: string): Store {
    st.(heap := st.heap[p := Message(LoadingHeaders, path, "", "", [], [], "", 1)])
  }

  /** `message_retain` */
  function Retain(st: Store, p: Ptr): Store {
    if p !in st.heap then Crash(st)
    else st.(heap := st.heap[p := st.heap[p].(refCount := st.heap[p].refCount + 1)])
  }

  /** `message_release`: the last holder frees the message, and unlinks the file of a delivered one. */
  function Release(st: Store, p: Ptr): Store {
    if p !in st.heap || st.heap[p].refCount == 0 then Crash(st)
    else
      var m := st.heap[p];
      if m.refCount > 1 then st.(heap := st.heap[p := m.(refCount := m.refCount - 1)])
      else st.(heap := st.heap - {p}, freed := st.freed + [p],
               unlinked := if m.state == BodyLoaded && m.destinations == [] then st.unlinked + [p] else st.unlinked)
  }

  function ReleaseAll(st: Store, ps: seq<Ptr>): Store
    decreases |ps|
  {
    if ps == [] then st else ReleaseAll(Release(st, ps[0]), ps[1..])
  }

  /** `message_start_loading_body` */
  function StartLoadingBody(st: Store, p: Ptr): Store {
    if p !in st.heap || st.heap[p].state == LoadingHeaders then Crash(st)
    else if st.heap[p].state != HeadersLoaded then st
    else st.(heap := st.heap[p := st.heap[p].(state := LoadingBody)])
  }

  function WithoutHost(destinations: seq<Destination>, host: string): seq<Destination> {
    var k := FindDestination(destinations, host);
    if k == |destinations| then destinations else destinations[..k] + destinations[k + 1..]
  }

  /** `message_mark_as_sent` */
  function MarkAsSent(st: Store, p: Ptr, host: string): Store {
    if p !in st.heap || st.heap[p].state != BodyLoaded then Crash(st)
    else st.(heap := st.heap[p := st.heap[p].(destinations := WithoutHost(st.heap[p].destinations, host))],
             delivered := st.delivered + {(p, host)})
  }

  /** How an attempt to load the next part of a message ends, when it ends. */
  datatype LoadResult = LoadFailed | HeadersRead(block: string) | BodyRead(text: string)

  predicate NoNulRead(r: LoadResult) {
    match r
    case LoadFailed => true
    case HeadersRead(block) => NoNul(block)
    case BodyRead(text) => NoNul(text)
  }

  /** `message_subscribe` and `message_notify`, seen from outside the loader. */
  function Load(st: Store, p: Ptr, r: LoadResult): Store
    requires p in st.heap
  {
    var m := st.heap[p];
    match r
    case LoadFailed => st.(heap := st.heap[p := m.(state := LoadingFailed)])
    case HeadersRead(block) =>
      var parsed := Parse(block);
      var e := parsed.envelope;
      var m' := m.(state := parsed.state, block := block, sender := e.sender, headers := e.headers,
                   destinations := e.destinations);
      st.(heap := st.heap[p := m'])
    case BodyRead(text) =>
      st.(heap := st.heap[p := m.(state := BodyLoaded, body := text)], bodies := st.bodies[p := text])
  }

  // ---------------------------------------------------------------- sessions

  /** The commands of a session; the pointers only say which message a command belongs to. */
  datatype Command =
    | Helo(host: string) | MailFrom(message: Ptr, sender: string) | RcptTo(message: Ptr, user: string, host: string)
    | Data(message: Ptr) | Content(message: Ptr, text: string) | Rset(message: Ptr) | Quit

  /** The bytes of a command. */
  function Render(c: Command): string {
    match c
    case Helo(host) => "HELO " + host + CRLF
    case MailFrom(_, sender) => "MAIL FROM:<" + sender + ">" + CRLF
    case RcptTo(_, user, host) => "RCPT TO:<" + user + "@" + host + ">" + CRLF
    case Data(_) => "DATA" + CRLF
    case Content(_, text) => text
    case Rset(_) => "RSET" + CRLF
    case Quit => "QUIT" + CRLF
  }

  datatype Entry = Sent(command: Command) | Got(code: int)

  /** A finished mail transaction; without a text it was aborted by RSET. */
  datatype Transfer = Transfer(message: Ptr, sender: string, recipients: seq<string>, text: Option<string>)

  /**
   * The history of a session: what was sent and received while it was open, what was heard when it
   * closed, the transactions it finished, every message ever enqueued, and the last open state.
   */
  datatype Log = Log(
    said: seq<Entry>, tail: seq<Entry>, transfers: seq<Transfer>, enqueued: seq<Ptr>,
    phase: SessionState, refused: bool)

  /** Everything a session has sent and received. */
  function Transcript(s: Session): seq<Entry> {
    s.log.said + s.log.tail
  }

  /** `message_recepient`: a node of the recipient list of one destination. */
  datatype Cursor = Unset | Null | At(message: Ptr, host: string, index: nat)

  datatype Session = Session(
    state: SessionState, destinationHost: string, messages: seq<Ptr>, cursor: Cursor, log: Log)

  /** `session_initialize`; the session is closed at once when the resolver cannot be set up. */
  function NewSession(host: string, refused: bool): Session {
    Session(if refused then Closed else ResolvingDns, host, [], Unset,
            Log([], [], [], [], ResolvingDns, false))
  }

  /** `session_enqueue_message` without the retain. */
  function Enqueued(s: Session, p: Ptr): Session {
    s.(messages := s.messages + [p], log := s.log.(enqueued := s.log.enqueued + [p]))
  }

  function Heard(s: Session, code: int): Session {
    s.(log := s.log.(said := s.log.said + [Got(code)]))
  }

  function Say(s: Session, state: SessionState, c: Command): Session {
    s.(state := state, log := s.log.(said := s.log.said + [Sent(c)], phase := state))
  }

  function Moved(s: Session, state: SessionState): Session {
    s.(state := state, log := s.log.(phase := state))
  }

  /** The session ends on a reply. */
  function ClosedOn(s: Session, code: int): Session {
    s.(state := Closed, log := s.log.(tail := [Got(code)]))
  }

  datatype Outcome = Outcome(store: Store, session: Session)

  /** `TAILQ_FIRST` or `TAILQ_NEXT` of a recipient list: the node at `index`, or NULL. */
  function NodeAt(p: Ptr, d: Destination, index: nat): Cursor {
    if index < |d.recipients| then At(p, d.host, index) else Null
  }

  /** start_message_transfer */
  function StartTransfer(st: Store, s: Session): Outcome {
    if s.messages == [] then Outcome(st, Say(s, SendingQuit, Quit))
    else if s.messages[0] !in st.heap then Outcome(Crash(st), s)
    else
      var p := s.messages[0];
      var m := st.heap[p];
      var k := FindDestination(m.destinations, s.destinationHost);
      if k == |m.destinations| then Outcome(Crash(st), s)     // the search is not guarded against NULL
      else
        var asked := Say(s, SendingMailOrRcpt, MailFrom(p, m.sender));
        Outcome(StartLoadingBody(st, p), asked.(cursor := NodeAt(p, m.destinations[k], 0)))
  }

  /** message_body_loading_done; a message in any other state closes the session. */
  function BodyLoadingDone(st: Store, s: Session): Outcome {
    if s.messages == [] || s.messages[0] !in st.heap then Outcome(Crash(st), s)
    else
      var p := s.messages[0];
      match st.heap[p].state
      case LoadingFailed => Outcome(st, Say(s, SendingRset, Rset(p)))
      case BodyLoaded => Outcome(st, Say(s, SendingData, Data(p)))
      case _ => Outcome(st, s.(state := Closed))
  }

  /** The end of a transaction: the head message is marked if it was delivered, dequeued and released. */
  function FinishTransfer(st: Store, s: Session, sent: bool): Outcome {
    if s.messages == [] || s.messages[0] !in st.heap then Outcome(Crash(st), s)
    else
      var p, m := s.messages[0], st.heap[s.messages[0]];
      var text := if sent then Some(Encode(m.headers, m.body)) else None;
      var transfer := Transfer(p, m.sender, RecipientsAt(m, s.destinationHost), text);
      Outcome(Release(if sent then MarkAsSent(st, p, s.destinationHost) else st, p),
              s.(messages := s.messages[1..], log := s.log.(transfers := s.log.transfers + [transfer])))
  }

  function RecipientsAt(m: Message, host: string): seq<string> {
    var k := FindDestination(m.destinations, host);
    if k == |m.destinations| then [] else m.destinations[k].recipients
  }

  function Then(o: Outcome): Outcome {
    StartTransfer(o.store, o.session)
  }

  /** The user in the node a cursor points to, if the node is still allocated. */
  function UserAt(st: Store, c: Cursor): Option<string> {
    if !c.At? || c.message !in st.heap then None
    else
      var recipients := RecipientsAt(st.heap[c.message], c.host);
      if c.index < |recipients| then Some(recipients[c.index]) else None
  }

  /** `dispatch` on a reply code. */
  function DispatchReply(helo: string, st: Store, s: Session, code: int): Outcome {
    var heard := Heard(s, code);
    match s.state
    case ReceivingGreeting =>
      if code == 554 then Outcome(st, Say(heard.(log := heard.log.(refused := true)), SendingQuit, Quit))
      else if code == 220 then Outcome(st, Say(heard, SendingHelo, Helo(helo)))
      else Outcome(st, ClosedOn(s, code))
    case SendingHelo =>
      if code == 250 then StartTransfer(st, heard) else Outcome(st, ClosedOn(s, code))
    case SendingMailOrRcpt =>
      if code != 250 then Outcome(st, ClosedOn(s, code))
      else if s.cursor.Unset? then Outcome(Crash(st), s)
      else if s.cursor.At? then
        match UserAt(st, s.cursor)
        case None => Outcome(Crash(st), s)
        case Some(user) =>
          var p, d := s.cursor.message, s.cursor.host;
          var node := NodeAt(p, Destination(d, RecipientsAt(st.heap[p], d)), s.cursor.index + 1);
          Outcome(st, Say(heard, SendingMailOrRcpt, RcptTo(p, user, s.destinationHost)).(cursor := node))
      else if s.messages == [] || s.messages[0] !in st.heap then Outcome(Crash(st), s)
      else if st.heap[s.messages[0]].state == LoadingBody then Outcome(st, Moved(heard, LoadingMessageBody))
      else BodyLoadingDone(st, heard)
    case SendingData =>
      if code != 354 then Outcome(st, ClosedOn(s, code))
      else if s.messages == [] || s.messages[0] !in st.heap then Outcome(Crash(st), s)
      else
        var p := s.messages[0];
        Outcome(st, Say(heard, SendingDataPayload, Content(p, Encode(st.heap[p].headers, st.heap[p].body))))
    case SendingDataPayload =>
      if code != 250 then Outcome(st, ClosedOn(s, code)) else Then(FinishTransfer(st, heard, true))
    case SendingRset =>
      if code != 250 then Outcome(st, ClosedOn(s, code)) else Then(FinishTransfer(st, heard, false))
    case SendingQuit => Outcome(st, ClosedOn(s, code))
    case _ => Outcome(Crash(st), s)
  }

  /** `dispatch` in state LOADING_MESSAGE_BODY, which needs no reply. */
  function DispatchBodyPoll(st: Store, s: Session): Outcome {
    if s.messages == [] || s.messages[0] !in st.heap then Outcome(Crash(st), s)
    else if st.heap[s.messages[0]].state == LoadingBody then Outcome(st, s)
    else BodyLoadingDone(st, s)
  }

  /** `dispatch`: on a reply, or while the body is being loaded. */
  function Dispatch(helo: string, st: Store, s: Session, code: int): Outcome {
    if s.state == LoadingMessageBody then DispatchBodyPoll(st, s) else DispatchReply(helo, st, s, code)
  }

  // ---------------------------------------------------------------- the client

  /**
   * The whole program: the client's message list and sessions, the heap, and the history: routed
   * messages as they were when they were routed, and the sessions that have been finalized. A finished
   * program has ended, an aborted one by the assertion in `dispatch`.
   */
  datatype World = World(
    helo: string, messages: seq<Ptr>, sessions: seq<Session>, store: Store, next: Ptr,
    origin: map<Ptr, Message>, archive: seq<Session>, finished: bool,
    aborted: bool)

  function Initial(helo: string): World {
    World(helo, [], [], Store(map[], false, [], [], {}, map[]), 0, map[], [], false, false)
  }

  /** The first session for the host; the length when there is none. */
  function FindSession(sessions: seq<Session>, host: string): (r: nat)
    ensures r <= |sessions|
    ensures r < |sessions| ==> sessions[r].destinationHost == host
    ensures forall i :: 0 <= i < r ==> sessions[i].destinationHost != host
  {
    if sessions == [] || sessions[0].destinationHost == host then 0 else 1 + FindSession(sessions[1..], host)
  }

  /** One destination of a message: the message joins the queue of the session for its host. */
  function RouteTo(w: World, p: Ptr, host: string, refused: bool): World {
    var k := FindSession(w.sessions, host);
    w.(store := Retain(w.store, p),
       sessions := if k == |w.sessions| then [Enqueued(NewSession(host, refused), p)] + w.sessions
                   else w.sessions[k := Enqueued(w.sessions[k], p)])
  }

  function RouteAll(w: World, p: Ptr, hosts: seq<string>, refused: set<string>): World
    decreases |hosts|
  {
    if hosts == [] then w
    else RouteAll(RouteTo(w, p, hosts[0], hosts[0] in refused), p, hosts[1..], refused)
  }

  function Without(ps: seq<Ptr>, p: Ptr): seq<Ptr> {
    if ps == [] then [] else if ps[0] == p then ps[1..] else [ps[0]] + Without(ps[1..], p)
  }

  /** `session_finalize` for each session in turn. */
  function FinalizeAll(st: Store, sessions: seq<Session>): Store
    decreases |sessions|
  {
    if sessions == [] then st else FinalizeAll(ReleaseAll(st, sessions[0].messages), sessions[1..])
  }

  datatype Event =
    | Discover(path: string)                    // the maildir reports a file
    | Loaded(message: Ptr, result: LoadResult)  // the next part of a message was read, or could not be
    | Route(message: Ptr, refused: set<string>) // the client looks at a message of its list
    | Network(session: nat, state: SessionState)// name resolution, connecting, and I/O errors
    | Reply(session: nat, code: int)
    | Collision(session: nat, code: int)        // a reply to a request whose rest cannot be written
    | BodyPoll(session: nat)
    | Reap(session: nat)                        // the client finalizes a closed session
    | Shutdown                                  // `client_finalize`

  predicate Enabled(w: World, e: Event) {
    match e
    case Discover(_) => true
    case Loaded(p, r) => p in w.store.heap && (
      match r
      case LoadFailed => w.store.heap[p].state in {LoadingHeaders, LoadingBody}
      case HeadersRead(block) => w.store.heap[p].state == LoadingHeaders && NoNul(block)
      case BodyRead(text) => w.store.heap[p].state == LoadingBody && NoNul(text))
    case Route(p, _) => p in w.messages
    case Network(i, state) => i < |w.sessions| && NetworkEdge(w.sessions[i].state, state)
    case Reply(i, code) => i < |w.sessions| && Exchanging(w.sessions[i].state) && code != -1
    case Collision(i, code) => i < |w.sessions| && Requesting(w.sessions[i].state) && code != -1
    case BodyPoll(i) => i < |w.sessions| && w.sessions[i].state == LoadingMessageBody
    case Reap(i) => i < |w.sessions| && w.sessions[i].state == Closed
    case Shutdown => true
  }

  /** A message of the client's list is routed once its headers are known, and given up when it failed. */
  function RouteMessage(w: World, p: Ptr, refused: set<string>): World {
    if p !in w.store.heap then w.(store := Crash(w.store))
    else
      var m := w.store.heap[p];
      match m.state
      case LoadingHeaders => w
      case LoadingFailed => w.(messages := Without(w.messages, p), store := Release(w.store, p))
      case HeadersLoaded =>
        var taken := w.(messages := Without(w.messages, p), origin := w.origin[p := m]);
        var routed := RouteAll(taken, p, DestinationHosts(m.destinations), refused);
        routed.(store := Release(routed.store, p))
      case _ => w.(store := Crash(w.store))
  }

  function WithOutcome(w: World, i: nat, o: Outcome): World
    requires i < |w.sessions|
  {
    w.(store := o.store, sessions := w.sessions[i := o.session])
  }

  function NetworkMove(s: Session, state: SessionState): Session {
    if state == Closed then s.(state := Closed) else Moved(s, state)
  }

  function Apply(w: World, e: Event): World
    requires Enabled(w, e)
  {
    match e
    case Discover(path) =>
      w.(messages := w.messages + [w.next], store := Create(w.store, w.next, path), next := w.next + 1)
    case Loaded(p, r) => w.(store := Load(w.store, p, r))
    case Route(p, refused) => RouteMessage(w, p, refused)
    case Network(i, state) => w.(sessions := w.sessions[i := NetworkMove(w.sessions[i], state)])
    case Reply(i, code) => WithOutcome(w, i, DispatchReply(w.helo, w.store, w.sessions[i], code))
    case Collision(i, code) =>
      var s := NetworkMove(w.sessions[i], Closed);
      var aborted := Dispatch(w.helo, w.store, s, code).store.fault;
      w.(sessions := w.sessions[i := s], finished := aborted, aborted := aborted)
    case BodyPoll(i) => WithOutcome(w, i, DispatchBodyPoll(w.store, w.sessions[i]))
    case Reap(i) =>
      w.(store := ReleaseAll(w.store, w.sessions[i].messages),
         sessions := w.sessions[..i] + w.sessions[i + 1..],
         archive := w.archive + [w.sessions[i]])
    case Shutdown =>
      w.(store := ReleaseAll(FinalizeAll(w.store, w.sessions), w.messages),
         sessions := [], messages := [], archive := w.archive + w.sessions, finished := true)
  }

  /** Nothing happens after a fault or after the end; an event that is not enabled is passed over. */
  function Step(w: World, e: Event): World {
    if w.store.fault || w.finished || !Enabled(w, e) then w else Apply(w, e)
  }

  function Continue(w: World, events: seq<Event>): World
    decreases |events|
  {
    if events == [] then w else Step(Continue(w, events[..|events| - 1]), events[|events| - 1])
  }

  /** The state that a run of the program has reached. Every sequence of events is a run. */
  function Run(helo: string, events: seq<Event>): World {
    Continue(Initial(helo), events)
  }
}
