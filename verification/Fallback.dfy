/**
 * The search for a server that accepts a connection (session.c): for each MX record, all IPv6
 * and then all IPv4 addresses of its host. Lookups and connection attempts end as the
 * environment decides; every lookup is asked and every address attempted at most once, so what
 * comes of them is fixed beforehand.
 */
module Fallback {
  import opened Text
  import opened Sessions

  datatype Family = V6 | V4

  /** What comes of a connection attempt: at once, or after EINPROGRESS. */
  datatype Attempted = Accepts | Pends(accepts: bool) | Refuses

  datatype Address = Address(address: string, attempted: Attempted)

  datatype Lookup = NoAnswer | Answer(addresses: seq<Address>)

  /** An MX record with what the two address lookups for its host will answer. */
  datatype Mx = Mx(host: string, v6: Lookup, v4: Lookup)

  datatype Candidate = Candidate(host: string, family: Family, address: Address)

  /** A server listens there. */
  predicate Accepting(c: Candidate) {
    c.address.attempted == Accepts || c.address.attempted == Pends(true)
  }

  ghost predicate NoneAccepting(cs: seq<Candidate>) {
    forall i :: 0 <= i < |cs| ==> !Accepting(cs[i])
  }

  function Found(l: Lookup): seq<Address> {
    match l case NoAnswer => [] case Answer(addresses) => addresses
  }

  function At(host: string, family: Family, addresses: seq<Address>): seq<Candidate> {
    seq(|addresses|, i requires 0 <= i < |addresses| => Candidate(host, family, addresses[i]))
  }

  /** The documented order: for each record in reply order, IPv6 before IPv4. */
  function Candidates(records: seq<Mx>): seq<Candidate> {
    if records == [] then []
    else
      var mx := records[0];
      At(mx.host, V6, Found(mx.v6)) + At(mx.host, V4, Found(mx.v4)) + Candidates(records[1..])
  }

  lemma {:induction false} CandidatesSplit(records: seq<Mx>, k: nat)
    requires k < |records|
    ensures Candidates(records[k..])
         == At(records[k].host, V6, Found(records[k].v6)) + At(records[k].host, V4, Found(records[k].v4))
            + Candidates(records[k + 1..])
  {
    assert records[k..][0] == records[k] && records[k..][1..] == records[k + 1..];
  }

  lemma MoveFirst(a: seq<Candidate>, c: Candidate, b: seq<Candidate>)
    ensures a + ([c] + b) == a + [c] + b
    ensures (a + [c])[|a + [c]| - 1] == c && a <= a + [c]
  {
  }

  /** What a search is doing: the lookup it waits for, or the address list it works on. */
  datatype Phase = MxLookup | V6Lookup | Trying(family: Family) | V4Lookup | Ended

  /** (MX records left, phase, addresses left), compared lexicographically. */
  datatype Rank = Rank(records: int, phase: int, addresses: int)

  predicate Below(a: Rank, b: Rank) {
    || a.records < b.records
    || (a.records == b.records && a.phase < b.phase)
    || (a.records == b.records && a.phase == b.phase && a.addresses < b.addresses)
  }

  function PhaseRank(phase: Phase): int {
    match phase
    case MxLookup => 5
    case V6Lookup => 4
    case Trying(family) => if family == V6 then 3 else 1
    case V4Lookup => 2
    case Ended => 0
  }

  datatype ConnectResult = Connected | InProgress | Refused

  /** What `connect` returns. */
  function ResultOf(a: Attempted): ConnectResult {
    match a
    case Accepts => Connected
    case Pends(_) => InProgress
    case Refuses => Refused
  }

  class Search {
    const records: seq<Mx>          // what the MX lookup answers when it succeeds
    var state: SessionState
    var phase: Phase
    var mx: nat                     // mx_reply, as an index into the records
    var addresses: seq<Address>     // hostent->h_addr_list without its final NULL
    var addrIndex: nat
    var socket: Option<Family>      // the family of the open descriptor
    ghost const all: seq<Candidate> // every candidate, in the documented order
    ghost var tried: seq<Candidate> // every connection attempt so far
    ghost var left: seq<Candidate>  // the candidates that have not been attempted

    /** The candidates that come after the IPv6 addresses of the current record. */
    ghost function AfterV6(): seq<Candidate>
      requires mx < |records|
      reads this`mx
    {
      At(records[mx].host, V4, Found(records[mx].v4)) + Candidates(records[mx + 1..])
    }

    /** The candidates that come after a list of the current record. */
    ghost function After(family: Family): seq<Candidate>
      requires mx < |records|
      reads this`mx
    {
      if family == V6 then AfterV6() else Candidates(records[mx + 1..])
    }

    /** The candidates from address `i` of the current list on. */
    ghost function From(family: Family, i: nat): seq<Candidate>
      requires mx < |records| && i <= |addresses|
      reads this`mx, this`addresses
    {
      At(records[mx].host, family, addresses[i..]) + After(family)
    }

    ghost function List(family: Family): seq<Address>
      requires mx < |records|
      reads this`mx
    {
      Found(if family == V6 then records[mx].v6 else records[mx].v4)
    }

    /**
     * The attempt at address `addrIndex` is the last one made, on a socket of its own family; no server
     * listens at those attempted before.
     */
    ghost predicate Attempting(family: Family)
      reads this`mx, this`addresses, this`addrIndex, this`socket, this`tried, this`left
    {
      && mx < |records| && addrIndex < |addresses|
      && left == From(family, addrIndex + 1)
      && tried != [] && tried[|tried| - 1] == Candidate(records[mx].host, family, addresses[addrIndex])
      && NoneAccepting(tried[..|tried| - 1])
      && socket == Some(family)
    }

    /** The state fits what has come of the last attempt so far. */
    ghost predicate Awaiting()
      reads this`state, this`tried
    {
      && tried != []
      && match state
         case Connecting => tried[|tried| - 1].address.attempted.Pends?
         case ReceivingGreeting => Accepting(tried[|tried| - 1])
         case _ => false
    }

    /** No candidate is skipped or attempted twice: attempted and untried ones are all, in order. */
    ghost predicate InOrder()
      reads this`socket, this`tried, this`left
    {
      tried + left == all && (socket == None ==> tried == [])
    }

    ghost predicate Valid()
      reads this
    {
      && InOrder()
      && match phase
         case MxLookup => state == ResolvingDns && mx == 0 && tried == [] && left == Candidates(records)
         case V6Lookup =>
           state == ResolvingDns && mx < |records| && left == Candidates(records[mx..]) && NoneAccepting(tried)
         case V4Lookup => state == ResolvingDns && mx < |records| && left == AfterV6() && NoneAccepting(tried)
         case Trying(family) => Awaiting() && Attempting(family) && addresses == List(family)
         case Ended => state == Closed && NoneAccepting(tried)
    }

    /**
     * The search comes to the first candidate, in the documented order, at which a server listens; it gives
     * up after the last one, when there is none.
     */
    lemma FindsTheFirst()
      requires Valid()
      ensures state == ReceivingGreeting ==>
                var k := |tried| - 1;
                0 <= k < |all| && tried == all[..k + 1] && Accepting(all[k]) && NoneAccepting(all[..k])
      ensures state == Closed && left == [] ==> NoneAccepting(all)
    {
      assert all[..|tried|] == tried;
      if state == ReceivingGreeting {
        assert all[..|tried| - 1] == tried[..|tried| - 1];
      }
    }

    ghost function Position(): Rank
      reads this`phase, this`mx, this`addresses, this`addrIndex
    {
      Rank(|records| - mx,
           PhaseRank(phase),
           if phase.Trying? then |addresses| - addrIndex else 0)
    }

    /** A session starts with the MX lookup for its destination host. */
    constructor (records: seq<Mx>)
      ensures Valid() && this.records == records && phase == MxLookup && tried == []
      ensures all == Candidates(records)
    {
      this.records := records;
      state, phase := ResolvingDns, MxLookup;
      mx, addrIndex, addresses := 0, 0, [];
      socket := None;
      all := Candidates(records);
      tried, left := [], Candidates(records);
    }

    /** A way from one state to another, for a search that waited for a lookup. */
    ghost function Way(): seq<SessionState>
      reads this`state
    {
      if state == ResolvingDns then [] else [state]
    }

    /** From `ResolvingDns` a search goes where the protocol lets the network go. */
    lemma WayIsAllowed()
      requires Valid()
      ensures NetworkPath(ResolvingDns, Way()) && EndOf(ResolvingDns, Way()) == state
    {
    }

    /** `mx_search_callback`. A successful answer without a record is not caught: the program crashes. */
    method MxCallback(answered: bool) returns (crashed: bool, ghost path: seq<SessionState>)
      requires Valid() && phase == MxLookup
      modifies this
      ensures crashed <==> answered && records == []
      ensures !crashed ==>
                && Valid() && tried == []
                && (if answered then phase == V6Lookup && mx == 0 else state == Closed)
                && Below(Position(), old(Position()))
                && NetworkPath(old(state), path) && EndOf(old(state), path) == state
    {
      crashed, path := false, [];
      if !answered {
        state, phase := Closed, Ended;
        path := [Closed];
        return;
      }
      if records == [] {
        crashed := true;
        return;
      }
      phase := V6Lookup;
      assert records[0..] == records;
    }

    /** `try_next_mx_reply` */
    method TryNextMxReply()
      requires InOrder() && state == ResolvingDns && NoneAccepting(tried)
      requires mx < |records| && left == Candidates(records[mx + 1..])
      modifies this`mx, this`state, this`phase
      ensures Valid() && mx == old(mx) + 1
      ensures if phase == Ended then left == [] && mx == |records| else phase == V6Lookup
    {
      mx := mx + 1;
      if mx == |records| {
        state, phase := Closed, Ended;
        return;
      }
      phase := V6Lookup;
    }

    /** `aaaa_search_callback` */
    method AaaaCallback() returns (ghost path: seq<SessionState>)
      requires Valid() && phase == V6Lookup
      modifies this
      ensures NetworkPath(old(state), path) && EndOf(old(state), path) == state
      ensures Valid() && old(tried) <= tried && (phase.Trying? ==> JustAttempted())
      ensures Below(Position(), old(Position()))
      ensures state == Closed ==> left == []
    {
      RecordStarts();
      match records[mx].v6 {
        case NoAnswer =>
          phase := V4Lookup;
        case Answer(list) =>
          StartList(V6, list);
      }
      path := Way();
      WayIsAllowed();
    }

    /** A lookup has given a list of addresses. */
    method StartList(family: Family, list: seq<Address>)
      requires InOrder() && state == ResolvingDns && NoneAccepting(tried) && mx < |records| && list == List(family)
      requires left == At(records[mx].host, family, list) + After(family)
      modifies this
      ensures Valid() && old(tried) <= tried && (phase.Trying? ==> JustAttempted())
      ensures Below(Position(), Rank(|records| - old(mx), if family == V6 then 4 else 2, 0))
      ensures state == Closed ==> left == []
    {
      addresses, addrIndex := list, 0;
      ListStarts(family);
      TryAddr(family);
    }

    /** The candidates of the current record and of those after it. */
    lemma RecordStarts()
      requires mx < |records|
      ensures Candidates(records[mx..]) == At(records[mx].host, V6, List(V6)) + AfterV6()
      ensures records[mx].v6.NoAnswer? ==> Candidates(records[mx..]) == AfterV6()
      ensures records[mx].v4.NoAnswer? ==> AfterV6() == Candidates(records[mx + 1..])
    {
      CandidatesSplit(records, mx);
      var a, b := At(records[mx].host, V6, List(V6)), At(records[mx].host, V4, Found(records[mx].v4));
      assert a + b + Candidates(records[mx + 1..]) == a + (b + Candidates(records[mx + 1..]));
    }

    /** Nothing of a new address list has been attempted. */
    lemma ListStarts(family: Family)
      requires mx < |records| && addresses == List(family)
      ensures From(family, 0) == At(records[mx].host, family, List(family)) + After(family)
    {
      assert addresses[0..] == addresses;
    }

    /** `a_search_callback` */
    method ACallback() returns (ghost path: seq<SessionState>)
      requires Valid() && phase == V4Lookup
      modifies this
      ensures NetworkPath(old(state), path) && EndOf(old(state), path) == state
      ensures Valid() && old(tried) <= tried && (phase.Trying? ==> JustAttempted())
      ensures Below(Position(), old(Position()))
      ensures state == Closed ==> left == []
    {
      RecordStarts();
      match records[mx].v4 {
        case NoAnswer =>
          TryNextMxReply();
        case Answer(list) =>
          StartList(V4, list);
      }
      path := Way();
      WayIsAllowed();
    }

    /** `connect` on the socket, which is opened anew when the address family changes. */
    method Connect(family: Family) returns (r: ConnectResult)
      requires InOrder() && NoneAccepting(tried)
      requires mx < |records| && addrIndex < |addresses| && left == From(family, addrIndex)
      modifies this`socket, this`tried, this`left
      ensures InOrder() && Attempting(family) && old(tried) <= tried
      ensures r == ResultOf(addresses[addrIndex].attempted)
    {
      if socket != None && socket != Some(family) {
        socket := None;
      }
      if socket == None {
        socket := Some(family);
      }
      Attempt(family);
      r := ResultOf(addresses[addrIndex].attempted);
    }

    /** The first of the untried candidates is attempted. */
    ghost method Attempt(family: Family)
      requires tried + left == all && mx < |records| && addrIndex < |addresses| && left == From(family, addrIndex)
      modifies this`tried, this`left
      ensures tried + left == all && old(tried) <= tried && left == From(family, addrIndex + 1)
      ensures tried == old(tried) + [Candidate(records[mx].host, family, addresses[addrIndex])]
    {
      var c, rest := Candidate(records[mx].host, family, addresses[addrIndex]), From(family, addrIndex + 1);
      NextCandidate(family);
      MoveFirst(tried, c, rest);
      tried, left := tried + [c], rest;
    }

    lemma NextCandidate(family: Family)
      requires mx < |records| && addrIndex < |addresses|
      ensures From(family, addrIndex)
           == [Candidate(records[mx].host, family, addresses[addrIndex])] + From(family, addrIndex + 1)
    {
      var host := records[mx].host;
      var c := Candidate(host, family, addresses[addrIndex]);
      assert At(host, family, addresses[addrIndex..]) == [c] + At(host, family, addresses[addrIndex + 1..]);
    }

    /** The loop of `try_addr`: the addresses of the list are attempted until one is not refused at once. */
    method AttemptList(family: Family) returns (refused: bool)
      requires InOrder() && state == ResolvingDns && NoneAccepting(tried)
      requires mx < |records| && addrIndex <= |addresses| && left == From(family, addrIndex)
      modifies this`addrIndex, this`socket, this`tried, this`left, this`state
      ensures InOrder() && old(tried) <= tried && old(addrIndex) <= addrIndex <= |addresses|
      ensures forall i :: old(addrIndex) <= i < addrIndex ==> addresses[i].attempted == Refuses
      ensures if refused
              then && state == ResolvingDns && addrIndex == |addresses| && left == From(family, addrIndex)
                   && NoneAccepting(tried)
              else Attempting(family) && JustAttempted()
    {
      refused := true;
      while addrIndex < |addresses| && refused
        invariant InOrder() && old(tried) <= tried && old(addrIndex) <= addrIndex <= |addresses|
        invariant forall i :: old(addrIndex) <= i < addrIndex ==> addresses[i].attempted == Refuses
        invariant if refused then state == ResolvingDns && left == From(family, addrIndex) && NoneAccepting(tried)
                  else Attempting(family) && JustAttempted()
        decreases |addresses| - addrIndex, refused
      {
        refused := AttemptOne(family);
      }
    }

    /** The address at the index; the index moves on if the attempt is refused at once. */
    method AttemptOne(family: Family) returns (refused: bool)
      requires InOrder() && state == ResolvingDns && NoneAccepting(tried)
      requires mx < |records| && addrIndex < |addresses| && left == From(family, addrIndex)
      modifies this`addrIndex, this`socket, this`tried, this`left, this`state
      ensures InOrder() && old(tried) <= tried
      ensures addrIndex == old(addrIndex) + if refused then 1 else 0
      ensures refused <==> addresses[old(addrIndex)].attempted == Refuses
      ensures if refused then state == ResolvingDns && left == From(family, addrIndex) && NoneAccepting(tried)
              else Attempting(family) && JustAttempted()
    {
      var r := Connect(family);
      refused := r == Refused;
      if refused {
        MoveOn(family);
      } else if r == InProgress {
        state := Connecting;
      } else {
        state := ReceivingGreeting;
      }
    }

    /** The next address, after an attempt that has failed. */
    method MoveOn(family: Family)
      requires Attempting(family) && !Accepting(tried[|tried| - 1])
      modifies this`addrIndex
      ensures addrIndex == old(addrIndex) + 1 <= |addresses| && left == From(family, addrIndex) && NoneAccepting(tried)
    {
      StillNone();
      addrIndex := addrIndex + 1;
    }

    /** If nobody listens at the last candidate, either, there is none among those attempted. */
    lemma StillNone()
      requires tried != [] && NoneAccepting(tried[..|tried| - 1]) && !Accepting(tried[|tried| - 1])
      ensures NoneAccepting(tried)
    {
      assert forall i :: 0 <= i < |tried| - 1 ==> tried[..|tried| - 1][i] == tried[i];
    }

    /** Right after an attempt that was not refused: CONNECTING on EINPROGRESS, the greeting on success. */
    ghost predicate JustAttempted()
      reads this`state, this`addresses, this`addrIndex
    {
      && addrIndex < |addresses|
      && match addresses[addrIndex].attempted
         case Accepts => state == ReceivingGreeting
         case Pends(_) => state == Connecting
         case Refuses => false
    }

    /** `try_addr` */
    method TryAddr(family: Family)
      requires InOrder() && state == ResolvingDns && NoneAccepting(tried)
      requires mx < |records| && addresses == List(family) && addrIndex <= |addresses|
      requires left == From(family, addrIndex)
      modifies this
      ensures Valid() && old(tried) <= tried
      ensures state == Closed ==> left == []
      ensures phase.Trying? ==> JustAttempted()
      ensures match phase
              case Trying(f) =>
                f == family && mx == old(mx) && addresses == old(addresses) && addrIndex >= old(addrIndex)
              case V4Lookup => family == V6 && mx == old(mx)
              case V6Lookup => mx == old(mx) + 1
              case Ended => mx == old(mx) + 1
              case MxLookup => false
    {
      var refused := AttemptList(family);
      if refused {
        LeaveList(family);
      } else {
        AttemptIsAwaited(family);
        phase := Trying(family);
      }
    }

    /** The list is used up: the IPv4 lookup comes next, or the next record. */
    method LeaveList(family: Family)
      requires InOrder() && state == ResolvingDns && NoneAccepting(tried)
      requires mx < |records| && addrIndex == |addresses| && left == From(family, addrIndex)
      modifies this`mx, this`state, this`phase
      ensures Valid() && (state == Closed ==> left == [])
      ensures if family == V6 then phase == V4Lookup && mx == old(mx)
              else (phase == V6Lookup || phase == Ended) && mx == old(mx) + 1
    {
      ListIsExhausted(family);
      if family == V6 {
        phase := V4Lookup;
      } else {
        TryNextMxReply();
      }
    }

    lemma AttemptIsAwaited(family: Family)
      requires Attempting(family) && JustAttempted()
      ensures Awaiting()
    {
    }

    lemma ListIsExhausted(family: Family)
      requires mx < |records|
      ensures From(family, |addresses|) == After(family)
    {
      assert addresses[|addresses|..] == [];
      assert At(records[mx].host, family, []) == [];
    }

    /** The end of a connection attempt that was in progress (`session_notify`). */
    method ConnectEnded() returns (ghost path: seq<SessionState>)
      requires Valid() && state == Connecting
      modifies this
      ensures NetworkPath(old(state), path) && EndOf(old(state), path) == state
      ensures Valid() && old(tried) <= tried
      ensures if old(Accepting(tried[|tried| - 1])) then state == ReceivingGreeting && tried == old(tried)
              else Below(Position(), old(Position())) && (phase.Trying? ==> JustAttempted())
      ensures state == Closed ==> left == []
    {
      if addresses[addrIndex].attempted.accepts {
        state := ReceivingGreeting;
        return [ReceivingGreeting];
      }
      state := ResolvingDns;
      MoveOn(phase.family);
      TryAddr(phase.family);
      WayIsAllowed();
      PathFrom(Connecting, ResolvingDns, Way());
      path := [ResolvingDns] + Way();
    }
  }
}
