/**
 * What can be lost: mail that the client takes for delivered although no server that reads bytes has accepted
 * it. For which header blocks that can happen, and what the server has to do for it.
 */
module DeliveryLosses {
  import opened Text
  import opened Headers
  import opened Recipients
  import opened Messages
  import opened Payload
  import opened Reading
  import opened Delivery
  import opened DeliveryInvariants
  import opened DeliveryRuns
  import opened DeliverySafety
  import opened DeliveryProgress
  import opened DeliveryLines
  import S = Server
  import L = LineServer

  // ---------------------------------------------------------------- letters and mails

  /** A server for the host has accepted a letter of this message for this user. */
  ghost predicate LetterFor(w: World, p: Ptr, a: Address) {
    exists s, i ::
      && s in All(w) && s.destinationHost == a.host && 0 <= i < |L.ViewOf(s).mailbox| && i < |S.ViewOf(s).mailbox|
      && S.ViewOf(s).mailbox[i].message == p && a.user in L.ViewOf(s).mailbox[i].recipients
  }

  ghost predicate HasLetters(w: World, p: Ptr) {
    && p in w.origin && NamedAddresses(w.origin[p].block) != []
    && forall a :: a in NamedAddresses(w.origin[p].block) ==> LetterFor(w, p, a)
  }

  /** `DeliverySafety.NoMailIsLost` for servers that read bytes: exactly the files of accepted letters are unlinked. */
  ghost predicate NoneLost(w: World) {
    forall p: Ptr :: p in w.store.unlinked <==> HasLetters(w, p)
  }

  /** A server for the host has answered 250 to bytes that it could not make sense of. */
  ghost predicate BluffedAt(w: World, host: string) {
    exists s :: s in All(w) && s.destinationHost == host && L.Bluffs(Transcript(s), host)
  }

  ghost predicate Honest(w: World) {
    forall s :: s in All(w) ==> !L.Bluffs(Transcript(s), s.destinationHost)
  }

  /** A letter is a mail that the client counts as delivered. */
  lemma LetterIsAccepted(helo: string, events: seq<Event>, p: Ptr, a: Address)
    requires LetterFor(Run(helo, events), p, a)
    ensures AcceptedFor(Run(helo, events), p, a)
  {
    var w := Run(helo, events);
    var s, i :|
      && s in All(w) && s.destinationHost == a.host && 0 <= i < |L.ViewOf(s).mailbox| && i < |S.ViewOf(s).mailbox|
      && S.ViewOf(s).mailbox[i].message == p && a.user in L.ViewOf(s).mailbox[i].recipients;
    LettersAreAsWritten(helo, events, s, i);
    assert S.ViewOf(s).mailbox[i] in S.ViewOf(s).mailbox;
  }

  /** A mail that the client counts as delivered is a letter, unless the server has bluffed. */
  lemma AcceptedIsLetter(helo: string, events: seq<Event>, p: Ptr, a: Address)
    requires AcceptedFor(Run(helo, events), p, a)
    ensures LetterFor(Run(helo, events), p, a) || BluffedAt(Run(helo, events), a.host)
  {
    var w := Run(helo, events);
    var s, mail :|
      && s in All(w) && s.destinationHost == a.host && mail in S.ViewOf(s).mailbox
      && mail.message == p && a.user in mail.recipients;
    var i :| 0 <= i < |S.ViewOf(s).mailbox| && S.ViewOf(s).mailbox[i] == mail;
    if !L.Bluffs(Transcript(s), a.host) {
      ServersAgree(helo, events);
      ConversationComes(helo, events, s);
      L.HonestMailbox(Transcript(s), a.host);
      assert L.ViewOf(s).mailbox[i] == L.LetterOf(mail);
    }
  }

  /**
   * In every run: a file whose letters have all been accepted has been unlinked; and for every address of
   * a file that has been unlinked a letter was accepted, or the server of its host has bluffed. So with
   * servers that do not bluff no mail is lost, whatever the header blocks are.
   */
  lemma NoLetterIsLost(helo: string, events: seq<Event>)
    ensures var w := Run(helo, events);
            && (forall p: Ptr :: HasLetters(w, p) ==> p in w.store.unlinked)
            && (forall p: Ptr :: p in w.store.unlinked ==>
                  && p in w.origin && NamedAddresses(w.origin[p].block) != []
                  && forall a :: a in NamedAddresses(w.origin[p].block) ==> LetterFor(w, p, a) || BluffedAt(w, a.host))
            && (Honest(w) ==> NoneLost(w))
  {
    var w := Run(helo, events);
    NoMailIsLost(helo, events);
    forall p: Ptr | HasLetters(w, p) ensures p in w.store.unlinked {
      forall a | a in NamedAddresses(w.origin[p].block) ensures AcceptedFor(w, p, a) {
        LetterIsAccepted(helo, events, p, a);
      }
    }
    forall p: Ptr, a | p in w.store.unlinked && a in NamedAddresses(w.origin[p].block)
      ensures LetterFor(w, p, a) || BluffedAt(w, a.host)
    {
      AcceptedIsLetter(helo, events, p, a);
    }
  }

  // ---------------------------------------------------------------- which blocks are safe

  /** Runs in which everything can be sent give the server nothing to bluff about. */
  lemma SendableIsHonest(helo: string, events: seq<Event>)
    requires Sendable(Run(helo, events))
    ensures Honest(Run(helo, events))
  {
    var w := Run(helo, events);
    ServersAgree(helo, events);
    forall s | s in All(w) ensures !L.Bluffs(Transcript(s), s.destinationHost) {
      ConversationComes(helo, events, s);
      SendableTranscript(helo, events, s);
      L.CleanIsHonest(Transcript(s), s.destinationHost);
    }
  }

  /** What a letter says about its block. */
  lemma LettersFit(helo: string, events: seq<Event>, p: Ptr, a: Address)
    requires LetterFor(Run(helo, events), p, a)
    ensures OneLine(helo) && p in Run(helo, events).origin
    ensures var block := Run(helo, events).origin[p].block;
            Enclosed(block) && OneLine(LastSender(ParseBlock(block).headers, "")) && OneLine(a.user) && OneLine(a.host)
  {
    var w := Run(helo, events);
    var s, i :|
      && s in All(w) && s.destinationHost == a.host && 0 <= i < |L.ViewOf(s).mailbox| && i < |S.ViewOf(s).mailbox|
      && S.ViewOf(s).mailbox[i].message == p && a.user in L.ViewOf(s).mailbox[i].recipients;
    LettersAreAsWritten(helo, events, s, i);
    LetterHasHelo(helo, events, s);
    FramedIsEnclosed(helo, events, p);
  }

  lemma FramedIsEnclosed(helo: string, events: seq<Event>, p: Ptr)
    requires var w := Run(helo, events); p in w.origin && p in w.store.bodies
    ensures var w := Run(helo, events);
            var block := w.origin[p].block;
            FramedOnce(Encode(Remaining(ParseBlock(block).headers), w.store.bodies[p])) <==> Enclosed(block)
  {
    var w := Run(helo, events);
    RunKeepsInvariant(helo, events);
    BlockIsClean(w.origin[p].block);
    Framing(Remaining(ParseBlock(w.origin[p].block).headers), w.store.bodies[p]);
  }

  lemma LetterHasHelo(helo: string, events: seq<Event>, s: Session)
    requires s in All(Run(helo, events)) && L.ViewOf(s).mailbox != []
    ensures OneLine(helo)
  {
    ServersAgree(helo, events);
    ConversationComes(helo, events, s);
    if !OneLine(helo) {
      L.FoldedHelo(Transcript(s), s.destinationHost);
    }
  }

  /** A message that does not fit is not accepted for everybody it names, whatever the client believes. */
  lemma UnfitIsLost(helo: string, events: seq<Event>, p: Ptr) returns (a: Address)
    requires var w := Run(helo, events);
             && p in w.origin && NamedAddresses(w.origin[p].block) != []
             && !(OneLine(helo) && Fits(w.origin[p].block))
    ensures a in NamedAddresses(Run(helo, events).origin[p].block) && !LetterFor(Run(helo, events), p, a)
  {
    var w := Run(helo, events);
    var named := NamedAddresses(w.origin[p].block);
    if forall a :: a in named ==> OneLine(a.user) && OneLine(a.host) {
      a := named[0];
    } else {
      a :| a in named && !(OneLine(a.user) && OneLine(a.host));
    }
    if LetterFor(w, p, a) {
      LettersFit(helo, events, p, a);
    }
  }

  /** A block that is accepted and names somebody. */
  ghost predicate Deliverable(block: string) {
    NoNul(block) && Parse(block).state == HeadersLoaded && NamedAddresses(block) != []
  }

  /**
   * Mail can be lost: if such a block, or the name in HELO, does not fit, then from every state that a run has
   * reached, before the end, there is a way on which the file is unlinked although some address it names
   * has no letter. On that way the server for the address has answered 250 to bytes out of turn.
   */
  lemma MailIsLost(helo: string, events: seq<Event>, path: string, block: string, body: string)
    returns (more: seq<Event>, a: Address)
    requires !Run(helo, events).finished && Deliverable(block) && NoNul(body) && !(OneLine(helo) && Fits(block))
    ensures Unlinked(Run(helo, events), Run(helo, events + more), block, body)
    ensures var w' := Run(helo, events + more);
            a in NamedAddresses(block) && !LetterFor(w', Run(helo, events).next, a) && BluffedAt(w', a.host)
  {
    more := EveryMailCanBeDelivered(helo, events, path, block, body);
    a := UnfitIsLost(helo, events + more, Run(helo, events).next);
    NoLetterIsLost(helo, events + more);
  }

  /** The run has routed no other header block. */
  ghost predicate RoutesOnly(w: World, block: string) {
    forall p :: p in w.origin ==> w.origin[p].block == block
  }

  /**
   * A block is safe in all runs, whatever the servers answer, if and only if the name in HELO and its
   * addresses have no line end and none of its headers is taken for the end of the data.
   */
  lemma LossIsExact(helo: string, block: string)
    requires Deliverable(block)
    ensures (forall events :: RoutesOnly(Run(helo, events), block) ==> NoneLost(Run(helo, events)))
       <==> OneLine(helo) && Fits(block)
  {
    if OneLine(helo) && Fits(block) {
      forall events | RoutesOnly(Run(helo, events), block) ensures NoneLost(Run(helo, events)) {
        HeloStays(helo, events);
        SendableIsHonest(helo, events);
        NoLetterIsLost(helo, events);
      }
    } else {
      var more, a := MailIsLost(helo, [], "", block, "");
      assert [] + more == more;
      var w := Run(helo, more);
      assert RoutesOnly(w, block);
      assert !HasLetters(w, 0);
      assert !NoneLost(w);
    }
  }

  // ---------------------------------------------------------------- a recipient on a folded line

  /** A header whose value stands on a continuation line. */
  function OnSecondLine(name: string, rest: string): string {
    name + ":" + (CRLF + " " + rest)
  }

  /** A recipient header whose address stands on a continuation line. */
  function FoldedRecipient(user: string, host: string): string {
    OnSecondLine(RECIPIENT_HEADER, user + "@" + host)
  }

  /** An address of printable text. */
  ghost predicate Ordinary(user: string, host: string) {
    && '@' !in user && '\r' !in user && '\r' !in host
    && NoNul(user) && NoNul(host) && !EndsBlank(host)
  }

  lemma SecondLineAt(name: string, rest: string)
    ensures var line, n := OnSecondLine(name, rest), |name|;
            && |line| == n + 4 + |rest|
            && line[n] == ':' && line[n + 1] == '\r' && line[n + 2] == '\n' && line[n + 3] == ' '
            && (forall i :: 0 <= i < n ==> line[i] == name[i])
            && (forall i :: n + 4 <= i < |line| ==> line[i] == rest[i - n - 4])
            && line[..n] == name && line[n + 1..] == CRLF + " " + rest
  {
  }

  lemma SecondLineIsFolded(name: string, rest: string)
    requires '\r' !in name && '\r' !in rest
    ensures Folded(OnSecondLine(name, rest))
  {
    var line := OnSecondLine(name, rest);
    SecondLineAt(name, rest);
    assert forall i :: 0 <= i < |line| && line[i] == '\r' ==> i == |name| + 1;
  }

  lemma ValueOnSecondLine(name: string, rest: string)
    requires ':' !in name && !EndsBlank(name) && !EndsBlank(rest) && rest != ""
    ensures HeaderOf(OnSecondLine(name, rest)) == Some(Header(name, CRLF + " " + rest))
  {
    var line, n := OnSecondLine(name, rest), |name|;
    SecondLineAt(name, rest);
    assert line[n + 1..|line|] == line[n + 1..];
    HeaderAt(line, n, n, n + 1, |line|);
  }

  lemma ParseSecondLine(name: string, rest: string)
    requires '\r' !in name && '\r' !in rest && ':' !in name && !EndsBlank(name) && !EndsBlank(rest) && rest != ""
    ensures ParseBlock(OnSecondLine(name, rest)) == HeaderList(true, [Header(name, CRLF + " " + rest)])
  {
    ValueOnSecondLine(name, rest);
    SecondLineIsFolded(name, rest);
    ParseOne(OnSecondLine(name, rest));
  }

  lemma RecipientHeaderName()
    ensures '\r' !in RECIPIENT_HEADER && ':' !in RECIPIENT_HEADER && !EndsBlank(RECIPIENT_HEADER)
    ensures NoNul(RECIPIENT_HEADER)
  {
  }

  lemma NoNulOnSecondLine(name: string, rest: string)
    requires NoNul(name) && NoNul(rest)
    ensures NoNul(OnSecondLine(name, rest))
  {
    SecondLineAt(name, rest);
  }

  lemma AddressText(user: string, host: string)
    requires Ordinary(user, host)
    ensures var rest := user + "@" + host; rest != "" && '\r' !in rest && NoNul(rest) && !EndsBlank(rest)
  {
  }

  lemma FoldedRecipientHeader(user: string, host: string)
    requires Ordinary(user, host)
    ensures var block := FoldedRecipient(user, host);
            && NoNul(block)
            && ParseBlock(block) == HeaderList(true, [Header(RECIPIENT_HEADER, CRLF + " " + (user + "@" + host))])
  {
    RecipientHeaderName();
    AddressText(user, host);
    NoNulOnSecondLine(RECIPIENT_HEADER, user + "@" + host);
    ParseSecondLine(RECIPIENT_HEADER, user + "@" + host);
  }

  lemma FoldedAddress(user: string, host: string) returns (a: Address)
    requires Ordinary(user, host)
    ensures a == Address(CRLF + " " + user, host) && AddressOf(CRLF + " " + (user + "@" + host)) == Some(a)
  {
    var folded := CRLF + " " + user;
    var value := folded + "@" + host;
    a := Address(folded, host);
    assert value == CRLF + " " + (user + "@" + host);
    assert value[|folded|] == '@' && value[..|folded|] == folded && value[|folded| + 1..] == host;
    FirstChar(value, '@', |folded|);
  }

  lemma EnvelopeOfOne(h: Header, a: Address)
    requires IsRecipient(h) && AddressOf(h.value) == Some(a)
    ensures EnvelopeOf([h]) == Envelope(true, "", [], [Destination(a.host, [a.user])])
    ensures Addresses([h]) == [a]
  {
    assert [h][1..] == [] && !IsSender(h);
    assert AddAddress([], a) == [Destination(a.host, [a.user])];
    assert Addresses([]) == [];
    var e := Envelope(true, "", [], [Destination(a.host, [a.user])]);
    assert Scan(e, []) == e;
    assert Scan(Envelope(true, "", [], []), [h]) == Scan(e, []);
  }

  lemma TwoLines(user: string, host: string, p: Ptr)
    ensures var folded := CRLF + " " + user;
            && Render(RcptTo(p, folded, host)) == "RCPT TO:<" + CRLF + (" " + user + "@" + host + ">" + CRLF)
            && !OneLine(folded) && !L.Clean(RcptTo(p, folded, host))
  {
    FoldedIsUnclean(CRLF + " " + user, host, p);
    CutInside("RCPT TO:<", CRLF, " ", user, "@", host, ">");
  }

  lemma CutInside(a: string, b: string, c: string, d: string, e: string, f: string, g: string)
    ensures a + (b + c + d) + e + f + g + b == a + b + (c + d + e + f + g + b)
  {
  }

  lemma FoldedIsUnclean(user: string, host: string, p: Ptr)
    requires CRLF <= user
    ensures !OneLine(user) && !L.Clean(RcptTo(p, user, host))
  {
    assert CrlfAt(user, 0);
    L.CleanExactly(RcptTo(p, user, host));
  }

  /**
   * Such a block is accepted, with a user that begins with the line end. Its RCPT command is two lines.
   */
  lemma FoldedRecipientBreaksTheLine(user: string, host: string, p: Ptr)
    requires Ordinary(user, host)
    ensures var block, folded := FoldedRecipient(user, host), CRLF + " " + user;
            && NoNul(block)
            && Parse(block) == Parsed(HeadersLoaded, Envelope(true, "", [], [Destination(host, [folded])]))
            && NamedAddresses(block) == [Address(folded, host)]
            && Render(RcptTo(p, folded, host)) == "RCPT TO:<" + CRLF + (" " + user + "@" + host + ">" + CRLF)
            && !OneLine(folded) && !L.Clean(RcptTo(p, folded, host))
            && Deliverable(block) && !Fits(block)
  {
    var a := FoldedAddress(user, host);
    FoldedRecipientHeader(user, host);
    EnvelopeOfOne(Header(RECIPIENT_HEADER, CRLF + " " + (user + "@" + host)), a);
    TwoLines(user, host, p);
    assert a in NamedAddresses(FoldedRecipient(user, host));
  }

  /** Such a block. */
  lemma FoldedRecipientExists() returns (user: string, host: string)
    ensures Ordinary(user, host) && FoldedRecipient(user, host) == "X-Original-To:\r\n u@h"
  {
    user, host := "u", "h";
  }
}
