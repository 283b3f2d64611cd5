/**
 * The other end of a session: what a server that gave these replies has been asked to do, and
 * which mail it has accepted, in the order of commands of section 4.1.4 of RFC 5321.
 */
module Server {
  import opened Delivery

  /** A mail the server has answered for with 250 after the end of its data. */
  datatype Mail = Mail(message: Ptr, sender: string, recipients: seq<string>, text: string)

  datatype Phase =
    | Connected | Greeted | Unwilling | HeloAsked | Idle
    | MailAsked(message: Ptr, sender: string)
    | Open(message: Ptr, sender: string, recipients: seq<string>)
    | RcptAsked(message: Ptr, sender: string, recipients: seq<string>, user: string)
    | DataAsked(message: Ptr, sender: string, recipients: seq<string>)
    | Receiving(message: Ptr, sender: string, recipients: seq<string>)
    | DataSent(message: Ptr, sender: string, recipients: seq<string>, text: string)
    | RsetAsked | QuitAsked
    | Over         // the client must not say anything any more
    | Violation    // somebody spoke out of turn, or a command was not allowed

  /** `mailbox`: the mail accepted; `offered`: the messages whose data the client has sent. */
  datatype View = View(phase: Phase, mailbox: seq<Mail>, offered: seq<Ptr>)

  const START: View := View(Connected, [], [])

  /** A command is allowed only when the last one has been answered. */
  function Hear(v: View, c: Command, host: string): View {
    var phase :=
      match (v.phase, c)
      case (Greeted, Helo(_)) => HeloAsked
      case (Unwilling, Quit) => QuitAsked
      case (Idle, MailFrom(p, sender)) => MailAsked(p, sender)
      case (Idle, Quit) => QuitAsked
      case (Open(p, sender, rs), RcptTo(q, user, h)) =>
        if q == p && h == host then RcptAsked(p, sender, rs, user) else Violation
      case (Open(p, sender, rs), Data(q)) => if q == p && rs != [] then DataAsked(p, sender, rs) else Violation
      case (Open(p, sender, rs), Rset(q)) => if q == p && rs != [] then RsetAsked else Violation
      case (Receiving(p, sender, rs), Content(q, text)) => if q == p then DataSent(p, sender, rs, text) else Violation
      case _ => Violation;
    v.(phase := phase, offered := if c.Content? then v.offered + [c.message] else v.offered)
  }

  /** A reply; a code that the client cannot go on with ends the session. */
  function Answer(v: View, code: int): View {
    match v.phase
    case Connected => v.(phase := if code == 220 then Greeted else if code == 554 then Unwilling else Over)
    case HeloAsked => v.(phase := if code == 250 then Idle else Over)
    case MailAsked(p, sender) => v.(phase := if code == 250 then Open(p, sender, []) else Over)
    case RcptAsked(p, sender, rs, user) => v.(phase := if code == 250 then Open(p, sender, rs + [user]) else Over)
    case DataAsked(p, sender, rs) => v.(phase := if code == 354 then Receiving(p, sender, rs) else Over)
    case DataSent(p, sender, rs, text) =>
      if code == 250 then v.(phase := Idle, mailbox := v.mailbox + [Mail(p, sender, rs, text)]) else v.(phase := Over)
    case RsetAsked => v.(phase := if code == 250 then Idle else Over)
    case QuitAsked => v.(phase := Over)
    case _ => v.(phase := Violation)
  }

  function Note(v: View, e: Entry, host: string): View {
    match e
    case Sent(c) => Hear(v, c, host)
    case Got(code) => Answer(v, code)
  }

  /** The server's view after more of the conversation. */
  function After(v: View, entries: seq<Entry>, host: string): View
    decreases |entries|
  {
    if entries == [] then v else Note(After(v, entries[..|entries| - 1], host), entries[|entries| - 1], host)
  }

  /** The server's view of the conversation with a session. */
  function ViewOf(s: Session): View {
    After(START, Transcript(s), s.destinationHost)
  }

  lemma {:induction false} AfterConcat(v: View, a: seq<Entry>, b: seq<Entry>, host: string)
    ensures After(v, a + b, host) == After(After(v, a, host), b, host)
    decreases |b|
  {
    if b == [] {
      assert a + b == a;
    } else {
      var front := b[..|b| - 1];
      assert (a + b)[..|a + b| - 1] == a + front;
      AfterConcat(v, a, front, host);
    }
  }

  lemma AfterOne(v: View, e: Entry, host: string)
    ensures After(v, [e], host) == Note(v, e, host)
  {
    assert [e][..0] == [];
  }

  lemma AfterMore(v: View, a: seq<Entry>, e: Entry, host: string)
    ensures After(v, a + [e], host) == Note(After(v, a, host), e, host)
  {
    assert (a + [e])[..|a|] == a;
  }
}
