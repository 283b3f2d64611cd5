/** The states of a session and the automaton that the repository documents (session.h, report/fsm.dot). */
module Sessions {

  datatype SessionState =
    | ResolvingDns | Connecting | ReceivingGreeting | SendingHelo | SendingMailOrRcpt | SendingData
    | LoadingMessageBody | SendingDataPayload | SendingRset | SendingQuit | Closed

  /** The edges drawn in report/fsm.dot. */
  predicate DocumentedEdge(a: SessionState, b: SessionState) {
    match a
    case ResolvingDns => b in {Connecting, Closed}
    case Connecting => b in {ReceivingGreeting, ResolvingDns}
    case ReceivingGreeting => b in {SendingHelo, SendingQuit, Closed}
    case SendingHelo => b in {SendingMailOrRcpt, SendingQuit, Closed}
    case SendingMailOrRcpt => b in {SendingMailOrRcpt, LoadingMessageBody, SendingData, SendingRset, Closed}
    case SendingData => b in {SendingDataPayload, Closed}
    case LoadingMessageBody => b in {LoadingMessageBody, SendingData, SendingRset}
    case SendingDataPayload => b in {SendingMailOrRcpt, SendingQuit, Closed}
    case SendingRset => b in {SendingMailOrRcpt, SendingQuit, Closed}
    case SendingQuit => b == Closed
    case Closed => false
  }

  /** The states in which the session exchanges commands and replies with the server. */
  predicate Exchanging(s: SessionState) {
    s in {ReceivingGreeting, SendingHelo, SendingMailOrRcpt, SendingData, SendingDataPayload, SendingRset, SendingQuit}
  }

  /** Of these, the states in which there is a request to be written. */
  predicate Requesting(s: SessionState) { Exchanging(s) && s != ReceivingGreeting }

  /** What the resolver, `connect` or an error on the socket can do to a session. */
  predicate NetworkEdge(a: SessionState, b: SessionState) {
    match a
    case ResolvingDns => b in {Connecting, ReceivingGreeting, Closed}
    case Connecting => b in {ResolvingDns, ReceivingGreeting}
    case _ => Exchanging(a) && b == Closed
  }

  /** One such change after another. */
  predicate NetworkPath(a: SessionState, path: seq<SessionState>)
    decreases |path|
  {
    path == [] || (NetworkEdge(a, path[0]) && NetworkPath(path[0], path[1..]))
  }

  /** Where a path ends. */
  function EndOf(a: SessionState, path: seq<SessionState>): SessionState {
    if path == [] then a else path[|path| - 1]
  }

  lemma PathFrom(a: SessionState, b: SessionState, path: seq<SessionState>)
    requires NetworkEdge(a, b) && NetworkPath(b, path)
    ensures NetworkPath(a, [b] + path) && EndOf(a, [b] + path) == EndOf(b, path)
  {
    assert ([b] + path)[1..] == path;
  }

  /** The reply codes on which the session goes on; any other code closes it. */
  predicate Expected(state: SessionState, code: int) {
    match state
    case ReceivingGreeting => code == 220 || code == 554
    case SendingData => code == 354
    case SendingQuit => false
    case _ => code == 250
  }
}
