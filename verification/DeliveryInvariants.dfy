/** What every reachable state of the delivery protocol satisfies. */
module DeliveryInvariants {
  import opened Text
  import opened Recipients
  import opened Messages
  import opened Sessions
  import opened Payload
  import opened Delivery

  // ---------------------------------------------------------------- messages and memory

  /** The destinations whose host has not acknowledged the message yet. */
  function Pending(destinations: seq<Destination>, p: Ptr, delivered: set<(Ptr, string)>): seq<Destination> {
    if destinations == [] then []
    else
      var rest := Pending(destinations[1..], p, delivered);
      if (p, destinations[0].host) in delivered then rest else [destinations[0]] + rest
  }

  ghost predicate HasHost(destinations: seq<Destination>, host: string) {
    exists i :: 0 <= i < |destinations| && destinations[i].host == host
  }

  /** Every host of the message has acknowledged it, and there is at least one. */
  ghost predicate DeliveredToAll(m: Message, p: Ptr, delivered: set<(Ptr, string)>) {
    && m.destinations != []
    && forall i :: 0 <= i < |m.destinations| ==> (p, m.destinations[i].host) in delivered
  }

  ghost predicate DistinctDestinations(ds: seq<Destination>) {
    forall i, j :: 0 <= i < j < |ds| ==> ds[i].host != ds[j].host
  }

  /** A message that can be routed: its headers were accepted, and its destinations are grouped. */
  ghost predicate OriginOk(m: Message) {
    && m.state == HeadersLoaded
    && DistinctDestinations(m.destinations)
    && forall i :: 0 <= i < |m.destinations| ==> m.destinations[i].recipients != []
  }

  /** The fields of a message are what the parser made of its header block. */
  ghost predicate FromBlock(m: Message) {
    NoNul(m.block) && Parse(m.block) == Parsed(HeadersLoaded, Envelope(true, m.sender, m.headers, m.destinations))
  }

  /** A live message compared with what it was when it was routed. */
  ghost predicate LiveOk(st: Store, p: Ptr, origin: Message)
    requires p in st.heap
  {
    var m := st.heap[p];
    && m.state != LoadingHeaders
    && (m.state != HeadersLoaded ==> origin.destinations != [])
    && m.path == origin.path && m.block == origin.block && m.sender == origin.sender && m.headers == origin.headers
    && m.destinations == Pending(origin.destinations, p, st.delivered)
    && (m.state == BodyLoaded ==> p in st.bodies && st.bodies[p] == m.body)
    && (m.state != BodyLoaded ==> forall h :: (p, h) !in st.delivered)
  }

  ghost predicate StoreOk(st: Store, next: Ptr, origin: map<Ptr, Message>) {
    && !st.fault
    && (forall p :: p in st.heap ==>
          p < next && st.heap[p].refCount > 0 && (p in st.bodies <==> st.heap[p].state == BodyLoaded))
    && (forall p :: p in st.bodies ==> p < next)
    && (forall p :: p in origin ==> p < next && OriginOk(origin[p]))
    && (forall p :: p in st.heap && p in origin ==> LiveOk(st, p, origin[p]))
    && (forall p, h :: (p, h) in st.delivered ==> p in origin && HasHost(origin[p].destinations, h))
  }

  /** Memory is either live or was freed exactly once, and files are unlinked exactly on full delivery. */
  ghost predicate FreedOk(st: Store, next: Ptr, origin: map<Ptr, Message>) {
    && Distinct(st.freed)
    && (forall p: Ptr :: p in st.freed <==> p < next && p !in st.heap)
    && (forall p :: p in st.unlinked <==> p in origin && p !in st.heap && DeliveredToAll(origin[p], p, st.delivered))
    && Distinct(st.unlinked)
  }

  /** A message of the client's list has not been routed, and is not in a body state. */
  ghost predicate ListedOk(m: Message) {
    || m.state == LoadingHeaders
    || m.state == LoadingFailed
    || (m.state == HeadersLoaded && OriginOk(m))
  }

  ghost predicate ListOk(messages: seq<Ptr>, st: Store, origin: map<Ptr, Message>) {
    && Distinct(messages)
    && forall p :: p in messages ==> p in st.heap && p !in origin && ListedOk(st.heap[p])
  }

  // ---------------------------------------------------------------- reference counts

  function InList(ps: seq<Ptr>, p: Ptr): nat {
    if p in ps then 1 else 0
  }

  /** The number of sessions whose queue holds the message. */
  function Holders(sessions: seq<Session>, p: Ptr): nat {
    if sessions == [] then 0 else InList(sessions[0].messages, p) + Holders(sessions[1..], p)
  }

  /** Reference counts are exact; `hand` are the references that the running code itself holds. */
  ghost predicate Counted(messages: seq<Ptr>, sessions: seq<Session>, st: Store, hand: multiset<Ptr>) {
    forall p :: p in st.heap ==> st.heap[p].refCount == InList(messages, p) + Holders(sessions, p) + hand[p]
  }

  // ---------------------------------------------------------------- sessions

  /** Every queued message is live, is queued once, and still has this session's host to go to. */
  ghost predicate QueueOk(s: Session, st: Store, origin: map<Ptr, Message>) {
    && Distinct(s.messages)
    && forall p :: p in s.messages ==>
         && p in st.heap && p in origin
         && HasHost(origin[p].destinations, s.destinationHost)
         && (p, s.destinationHost) !in st.delivered
  }

  /** The recipients of a routed message at a host. */
  function Users(m: Message, host: string): seq<string> {
    RecipientsAt(m, host)
  }

  /** How many RCPT commands of the current transaction have been sent. */
  function RcptsSent(c: Cursor, users: seq<string>): nat {
    if c.At? then c.index else |users|
  }

  ghost predicate CursorOk(c: Cursor, p: Ptr, host: string, users: seq<string>) {
    match c
    case Unset => false
    case Null => true
    case At(q, h, i) => q == p && h == host && i < |users|
  }

  /** In a transaction there is a head message, in a state that fits the phase. */
  ghost predicate PhaseOk(s: Session, st: Store, origin: map<Ptr, Message>) {
    s.state in {SendingMailOrRcpt, LoadingMessageBody, SendingData, SendingDataPayload, SendingRset} ==>
      && s.messages != [] && s.messages[0] in st.heap && s.messages[0] in origin
      && CursorOk(s.cursor, s.messages[0], s.destinationHost, Users(origin[s.messages[0]], s.destinationHost))
      && (s.state != SendingMailOrRcpt ==> s.cursor == Null)
      && match s.state
         case SendingMailOrRcpt => st.heap[s.messages[0]].state in {LoadingBody, BodyLoaded, LoadingFailed}
         case LoadingMessageBody => st.heap[s.messages[0]].state in {LoadingBody, BodyLoaded, LoadingFailed}
         case SendingRset => st.heap[s.messages[0]].state == LoadingFailed
         case _ => st.heap[s.messages[0]].state == BodyLoaded
  }

  // ---------------------------------------------------------------- transcripts

  /** MAIL and the first `k` RCPT commands, each answered before the next is sent. */
  function Opening(p: Ptr, sender: string, host: string, users: seq<string>, k: nat): seq<Entry>
    requires k <= |users|
  {
    if k == 0 then [Sent(MailFrom(p, sender))]
    else Opening(p, sender, host, users, k - 1) + [Got(250), Sent(RcptTo(p, users[k - 1], host))]
  }

  /** A whole transaction: every recipient accepted, then the payload accepted, or RSET. */
  function Transaction(t: Transfer, host: string): seq<Entry> {
    Opening(t.message, t.sender, host, t.recipients, |t.recipients|) + [Got(250)] +
    match t.text
    case Some(text) => [Sent(Data(t.message)), Got(354), Sent(Content(t.message, text)), Got(250)]
    case None => [Sent(Rset(t.message)), Got(250)]
  }

  function Transactions(transfers: seq<Transfer>, host: string): seq<Entry> {
    if transfers == [] then []
    else Transactions(transfers[..|transfers| - 1], host) + Transaction(transfers[|transfers| - 1], host)
  }

  /** The greeting, HELO and all finished transactions. */
  function Past(helo: string, log: Log, host: string): seq<Entry> {
    [Got(220), Sent(Helo(helo)), Got(250)] + Transactions(log.transfers, host)
  }

  /** What has been said and heard in the transaction that is under way. */
  function Current(phase: SessionState, p: Ptr, m: Message, host: string, sent: nat, body: string): seq<Entry>
    requires sent <= |Users(m, host)|
  {
    var users := Users(m, host);
    var opening := Opening(p, m.sender, host, users, sent);
    match phase
    case LoadingMessageBody => opening + [Got(250)]
    case SendingData => opening + [Got(250)] + [Sent(Data(p))]
    case SendingDataPayload =>
      opening + [Got(250)] + [Sent(Data(p)), Got(354), Sent(Content(p, Encode(m.headers, body)))]
    case SendingRset => opening + [Got(250)] + [Sent(Rset(p))]
    case _ => opening
  }

  predicate InTransaction(phase: SessionState) {
    phase in {SendingMailOrRcpt, LoadingMessageBody, SendingData, SendingDataPayload, SendingRset}
  }

  function BodyOf(bodies: map<Ptr, string>, p: Ptr): string {
    if p in bodies then bodies[p] else ""
  }

  /** The entries of a session whose last open state is `log.phase`, before it is closed. */
  ghost predicate Spoken(s: Session, before: seq<Entry>, helo: string, origin: map<Ptr, Message>,
          bodies: map<Ptr, string>) {
    var log, host := s.log, s.destinationHost;
    match log.phase
    case ResolvingDns => before == [] && log.transfers == []
    case Connecting => before == [] && log.transfers == []
    case ReceivingGreeting => before == [] && log.transfers == []
    case SendingHelo => before == [Got(220), Sent(Helo(helo))] && log.transfers == []
    case SendingQuit =>
      if log.refused then before == [Got(554), Sent(Quit)] && log.transfers == []
      else before == Past(helo, log, host) + [Sent(Quit)]
    case Closed => false
    case _ =>
      && s.messages != [] && s.messages[0] in origin
      && RcptsSent(s.cursor, Users(origin[s.messages[0]], host)) <= |Users(origin[s.messages[0]], host)|
      && (s.messages[0] in bodies || (log.phase != SendingData && log.phase != SendingDataPayload))
      && (log.phase == SendingMailOrRcpt || !s.cursor.At?)
      && before == Past(helo, log, host) +
           Current(log.phase, s.messages[0], origin[s.messages[0]], host,
                   RcptsSent(s.cursor, Users(origin[s.messages[0]], host)), BodyOf(bodies, s.messages[0]))
  }

  /** A closed session heard at most one more code, and that was not one to go on with. */
  ghost predicate TailOk(s: Session) {
    && (s.state != Closed ==> s.log.phase == s.state && s.log.tail == [])
    && (s.log.refused ==> s.log.phase == SendingQuit)
    && |s.log.tail| <= 1
    && (s.log.tail != [] ==>
          s.log.tail[0].Got? && Exchanging(s.log.phase) && !Expected(s.log.phase, s.log.tail[0].code))
  }

  /** The transcript of a session fits its state. */
  ghost predicate TalkOk(s: Session, helo: string, origin: map<Ptr, Message>, bodies: map<Ptr, string>) {
    TailOk(s) && Spoken(s, s.log.said, helo, origin, bodies)
  }

  ghost predicate TransferOk(t: Transfer, host: string, st: Store, origin: map<Ptr, Message>) {
    && t.message in origin && HasHost(origin[t.message].destinations, host)
    && t.sender == origin[t.message].sender
    && t.recipients == Users(origin[t.message], host)
    && (t.text.Some? ==>
          && (t.message, host) in st.delivered && t.message in st.bodies
          && t.text.value == Encode(origin[t.message].headers, st.bodies[t.message]))
  }

  function TransferMessages(transfers: seq<Transfer>): (r: seq<Ptr>)
    ensures |r| == |transfers| && forall i :: 0 <= i < |r| ==> r[i] == transfers[i].message
  {
    seq(|transfers|, i requires 0 <= i < |transfers| => transfers[i].message)
  }

  /** Finished transactions are real, and messages leave the queue in the order they joined it. */
  ghost predicate QueueLogOk(s: Session, st: Store, origin: map<Ptr, Message>) {
    && (forall k :: 0 <= k < |s.log.transfers| ==> TransferOk(s.log.transfers[k], s.destinationHost, st, origin))
    && TransferMessages(s.log.transfers) + s.messages == s.log.enqueued
    && Distinct(s.log.enqueued)
    && forall p :: p in s.log.enqueued ==> p in origin && HasHost(origin[p].destinations, s.destinationHost)
  }

  // ---------------------------------------------------------------- the whole program

  ghost predicate DistinctHosts(sessions: seq<Session>) {
    forall i, j :: 0 <= i < j < |sessions| ==> sessions[i].destinationHost != sessions[j].destinationHost
  }

  /** A message is enqueued at most once for a host, in all sessions there ever were. */
  ghost predicate EnqueuedOnce(all: seq<Session>) {
    forall i, j, p ::
      0 <= i < j < |all| && all[i].destinationHost == all[j].destinationHost && p in all[i].log.enqueued ==>
        p !in all[j].log.enqueued
  }

  ghost predicate Delivers(s: Session, p: Ptr, host: string) {
    && s.destinationHost == host
    && exists k :: 0 <= k < |s.log.transfers| && s.log.transfers[k].message == p && s.log.transfers[k].text.Some?
  }

  ghost predicate Logged(all: seq<Session>, p: Ptr, host: string) {
    exists i :: 0 <= i < |all| && Delivers(all[i], p, host)
  }

  ghost predicate DeliveriesLogged(all: seq<Session>, st: Store) {
    forall p, h :: (p, h) in st.delivered ==> Logged(all, p, h)
  }

  /** Every session there ever was. */
  function All(w: World): seq<Session> {
    w.sessions + w.archive
  }

  ghost predicate Memory(w: World) {
    StoreOk(w.store, w.next, w.origin) && FreedOk(w.store, w.next, w.origin)
  }

  ghost predicate Queues(w: World) {
    && DistinctHosts(w.sessions)
    && forall i :: 0 <= i < |w.sessions| ==> QueueOk(w.sessions[i], w.store, w.origin)
  }

  ghost predicate Talks(w: World, busy: Option<nat>) {
    && (forall i :: 0 <= i < |w.sessions| && busy != Some(i) ==>
          PhaseOk(w.sessions[i], w.store, w.origin) && TalkOk(w.sessions[i], w.helo, w.origin, w.store.bodies))
    && (forall i :: 0 <= i < |w.archive| ==> TalkOk(w.archive[i], w.helo, w.origin, w.store.bodies))
  }

  ghost predicate Logs(w: World) {
    && (forall i :: 0 <= i < |All(w)| ==> QueueLogOk(All(w)[i], w.store, w.origin))
    && EnqueuedOnce(All(w))
    && DeliveriesLogged(All(w), w.store)
  }

  /**
   * The invariant. `hand` are the references that the running code itself holds, and `busy` is a
   * session in the middle of `dispatch`, whose state and transcript are just being changed.
   */
  ghost predicate Holding(w: World, hand: multiset<Ptr>, busy: Option<nat>) {
    && Memory(w)
    && ListOk(w.messages, w.store, w.origin)
    && Counted(w.messages, w.sessions, w.store, hand)
    && Queues(w)
    && Talks(w, busy)
    && Logs(w)
  }

  /** Accepted messages are what their header blocks say. */
  ghost predicate Faithful(w: World) {
    && (forall p :: p in w.origin ==> FromBlock(w.origin[p]))
    && (forall p :: p in w.store.heap && p !in w.origin && w.store.heap[p].state == HeadersLoaded ==>
          FromBlock(w.store.heap[p]))
  }

  ghost predicate Invariant(w: World) {
    Holding(w, multiset{}, None) && Faithful(w)
  }
}
