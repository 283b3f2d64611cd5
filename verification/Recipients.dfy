/** Sender and destinations of a message (message.c, `parse_sender_and_destinations`). */
module Recipients {
  import opened Text
  import opened Headers

  const SENDER_HEADER: string := "X-Original-From"
  const RECIPIENT_HEADER: string := "X-Original-To"

  datatype Destination = Destination(host: string, recipients: seq<string>)

  datatype Address = Address(user: string, host: string)

  // ---------------------------------------------------------------- reference definitions

  function AddressOf(value: string): Option<Address> {
    var at := FindChar(value, '@', 0);
    if at == |value| then None else Some(Address(value[..at], value[at + 1..]))
  }

  predicate IsRecipient(h: Header) { h.name == RECIPIENT_HEADER }

  predicate IsSender(h: Header) { h.name == SENDER_HEADER }

  /** Every X-Original-To header holds an address. */
  predicate WellAddressed(headers: seq<Header>) {
    headers == [] || ((IsRecipient(headers[0]) ==> '@' in headers[0].value) && WellAddressed(headers[1..]))
  }

  /** The addresses of the X-Original-To headers, in order. */
  function Addresses(headers: seq<Header>): seq<Address> {
    if headers == [] then []
    else
      var rest := Addresses(headers[1..]);
      if IsRecipient(headers[0]) && AddressOf(headers[0].value).Some? then [AddressOf(headers[0].value).value] + rest
      else rest
  }

  function Remaining(headers: seq<Header>): seq<Header> {
    if headers == [] then []
    else if IsRecipient(headers[0]) || IsSender(headers[0]) then Remaining(headers[1..])
    else [headers[0]] + Remaining(headers[1..])
  }

  /** The value of the last X-Original-From header, or `sender`. */
  function LastSender(headers: seq<Header>, sender: string): string {
    if headers == [] then sender
    else LastSender(headers[1..], if IsSender(headers[0]) then headers[0].value else sender)
  }

  /** Each element at its first occurrence only. */
  function FirstOccurrences(s: seq<string>): (r: seq<string>)
    ensures forall x :: x in r <==> x in s
  {
    if s == [] then []
    else
      var front := FirstOccurrences(s[..|s| - 1]);
      var last := s[|s| - 1];
      assert s == s[..|s| - 1] + [last];
      if last in s[..|s| - 1] then front else front + [last]
  }

  function Hosts(addresses: seq<Address>): (r: seq<string>)
    ensures |r| == |addresses| && forall i :: 0 <= i < |r| ==> r[i] == addresses[i].host
  {
    seq(|addresses|, i requires 0 <= i < |addresses| => addresses[i].host)
  }

  function UsersAt(addresses: seq<Address>, host: string): (r: seq<string>)
    ensures forall u :: u in r <==> Address(u, host) in addresses
  {
    if addresses == [] then []
    else
      var front, last := addresses[..|addresses| - 1], addresses[|addresses| - 1];
      assert addresses == front + [last];
      if last.host == host then UsersAt(front, host) + [last.user] else UsersAt(front, host)
  }

  /** The grouping the client needs: hosts, and users of each host, in first-occurrence order. */
  ghost predicate Groups(destinations: seq<Destination>, addresses: seq<Address>) {
    && DestinationHosts(destinations) == FirstOccurrences(Hosts(addresses))
    && forall i :: 0 <= i < |destinations| ==>
         destinations[i].recipients == FirstOccurrences(UsersAt(addresses, destinations[i].host))
  }

  function DestinationHosts(destinations: seq<Destination>): (r: seq<string>)
    ensures |r| == |destinations| && forall i :: 0 <= i < |r| ==> r[i] == destinations[i].host
  {
    seq(|destinations|, i requires 0 <= i < |destinations| => destinations[i].host)
  }

  ghost predicate Distinct<T(!new)>(s: seq<T>) {
    forall i, j :: 0 <= i < j < |s| ==> s[i] != s[j]
  }

  // ---------------------------------------------------------------- the algorithm on values

  /** The index of the destination with this host; the length when there is none. */
  function FindDestination(destinations: seq<Destination>, host: string): (r: nat)
    ensures r <= |destinations|
    ensures r < |destinations| ==> destinations[r].host == host
    ensures forall i :: 0 <= i < r ==> destinations[i].host != host
  {
    if destinations == [] || destinations[0].host == host then 0
    else 1 + FindDestination(destinations[1..], host)
  }

  function AddUser(recipients: seq<string>, user: string): seq<string> {
    if user in recipients then recipients else recipients + [user]
  }

  function AddAddress(destinations: seq<Destination>, a: Address): seq<Destination> {
    var k := FindDestination(destinations, a.host);
    if k == |destinations| then destinations + [Destination(a.host, [a.user])]
    else destinations[k := Destination(a.host, AddUser(destinations[k].recipients, a.user))]
  }

  /** The message fields after the headers have been looked at one by one. */
  datatype Envelope = Envelope(ok: bool, sender: string, headers: seq<Header>, destinations: seq<Destination>)

  /** One header: it is taken out of the list, kept, or it stops the scan. */
  function Scan(e: Envelope, headers: seq<Header>): Envelope
    decreases |headers|
  {
    if headers == [] then e
    else
      var h, rest := headers[0], headers[1..];
      if IsSender(h) then Scan(e.(sender := h.value), rest)
      else if IsRecipient(h) then
        match AddressOf(h.value)
        case None => e.(ok := false, headers := e.headers + headers)
        case Some(a) => Scan(e.(destinations := AddAddress(e.destinations, a)), rest)
      else Scan(e.(headers := e.headers + [h]), rest)
  }

  function EnvelopeOf(headers: seq<Header>): Envelope {
    Scan(Envelope(true, "", [], []), headers)
  }

  // ---------------------------------------------------------------- correctness of the grouping

  lemma {:induction false} FirstOccurrencesDistinct(s: seq<string>)
    ensures Distinct(FirstOccurrences(s))
    ensures s != [] ==> FirstOccurrences(s) != []
  {
    if s != [] {
      FirstOccurrencesDistinct(s[..|s| - 1]);
    }
  }

  lemma AddAddressGroups(destinations: seq<Destination>, addresses: seq<Address>, a: Address)
    requires Groups(destinations, addresses)
    ensures Groups(AddAddress(destinations, a), addresses + [a])
  {
    var after, all := AddAddress(destinations, a), addresses + [a];
    AddHostGroups(destinations, addresses, a);
    forall i | 0 <= i < |after| ensures after[i].recipients == FirstOccurrences(UsersAt(all, after[i].host)) {
      AddUserGroups(destinations, addresses, a, i);
    }
  }

  lemma AddHostGroups(destinations: seq<Destination>, addresses: seq<Address>, a: Address)
    requires Groups(destinations, addresses)
    ensures DestinationHosts(AddAddress(destinations, a)) == FirstOccurrences(Hosts(addresses + [a]))
  {
    var after, hosts := AddAddress(destinations, a), Hosts(addresses);
    assert Hosts(addresses + [a]) == hosts + [a.host];
    assert (hosts + [a.host])[..|hosts|] == hosts;
    KnownHost(destinations, addresses, a.host);
    if FindDestination(destinations, a.host) == |destinations| {
      assert DestinationHosts(after) == DestinationHosts(destinations) + [a.host];
    } else {
      assert DestinationHosts(after) == DestinationHosts(destinations);
    }
  }

  lemma KnownHost(destinations: seq<Destination>, addresses: seq<Address>, host: string)
    requires Groups(destinations, addresses)
    ensures FindDestination(destinations, host) < |destinations| <==> host in Hosts(addresses)
    ensures Distinct(DestinationHosts(destinations))
  {
    FirstOccurrencesDistinct(Hosts(addresses));
    var k, hosts := FindDestination(destinations, host), DestinationHosts(destinations);
    if k < |destinations| {
      assert hosts[k] in FirstOccurrences(Hosts(addresses));
    } else {
      assert host !in hosts;
    }
  }

  lemma AddUserGroups(destinations: seq<Destination>, addresses: seq<Address>, a: Address, i: nat)
    requires Groups(destinations, addresses) && i < |AddAddress(destinations, a)|
    ensures var d := AddAddress(destinations, a)[i]; d.recipients == FirstOccurrences(UsersAt(addresses + [a], d.host))
  {
    var k, all := FindDestination(destinations, a.host), addresses + [a];
    var d := AddAddress(destinations, a)[i];
    assert all[..|all| - 1] == addresses;
    KnownHost(destinations, addresses, a.host);
    var users := UsersAt(addresses, d.host);
    if i == k {
      assert UsersAt(all, a.host) == users + [a.user];
      assert (users + [a.user])[..|users|] == users;
      if k == |destinations| {
        NoUsersAt(addresses, a.host);
        assert FirstOccurrences([]) == [];
      }
    } else {
      assert d == destinations[i];
      if k < |destinations| {
        assert DestinationHosts(destinations)[i] != DestinationHosts(destinations)[k];
      }
    }
  }

  lemma {:induction false} NoUsersAt(addresses: seq<Address>, host: string)
    requires forall i :: 0 <= i < |addresses| ==> addresses[i].host != host
    ensures UsersAt(addresses, host) == []
  {
    if addresses != [] {
      NoUsersAt(addresses[..|addresses| - 1], host);
    }
  }

  ghost predicate Scanned(e: Envelope, headers: seq<Header>, before: seq<Address>) {
    var r := Scan(e, headers);
    && (r.ok <==> WellAddressed(headers))
    && (r.ok ==>
          && r.sender == LastSender(headers, e.sender)
          && r.headers == e.headers + Remaining(headers)
          && Groups(r.destinations, before + Addresses(headers)))
  }

  lemma AddressOfOk(value: string)
    ensures AddressOf(value).Some? <==> '@' in value
  {
  }

  lemma {:induction false} ScanResult(e: Envelope, headers: seq<Header>, before: seq<Address>)
    requires e.ok && Groups(e.destinations, before)
    ensures Scanned(e, headers, before)
    decreases |headers|
  {
    if headers == [] {
      assert before + [] == before;
      assert e.headers + [] == e.headers;
    } else {
      var h, rest := headers[0], headers[1..];
      AddressOfOk(h.value);
      if IsSender(h) {
        ScanResult(e.(sender := h.value), rest, before);
      } else if !IsRecipient(h) {
        ScanResult(e.(headers := e.headers + [h]), rest, before);
        assert e.headers + [h] + Remaining(rest) == e.headers + ([h] + Remaining(rest));
      } else if AddressOf(h.value).Some? {
        var a := AddressOf(h.value).value;
        AddAddressGroups(e.destinations, before, a);
        ScanResult(e.(destinations := AddAddress(e.destinations, a)), rest, before + [a]);
        assert before + [a] + Addresses(rest) == before + ([a] + Addresses(rest));
      }
    }
  }

  /**
   * Recipient grouping: the scan succeeds exactly on well-addressed headers, and then it has
   * grouped all their addresses, kept the other headers in order, and found the last sender.
   */
  lemma EnvelopeIsGrouped(headers: seq<Header>)
    ensures EnvelopeOf(headers).ok <==> WellAddressed(headers)
    ensures EnvelopeOf(headers).ok ==>
              && EnvelopeOf(headers).sender == LastSender(headers, "")
              && EnvelopeOf(headers).headers == Remaining(headers)
              && Groups(EnvelopeOf(headers).destinations, Addresses(headers))
  {
    ScanResult(Envelope(true, "", [], []), headers, []);
    assert [] + Addresses(headers) == Addresses(headers);
    assert [] + Remaining(headers) == Remaining(headers);
  }

  /** What the delivery protocol needs of the destinations of a message. */
  ghost predicate WellGrouped(destinations: seq<Destination>) {
    && Distinct(DestinationHosts(destinations))
    && forall i :: 0 <= i < |destinations| ==> destinations[i].recipients != [] && Distinct(destinations[i].recipients)
  }

  /** Grouped addresses have distinct hosts, distinct users, and are the pairs that were named. */
  lemma GroupsAreDistinct(destinations: seq<Destination>, addresses: seq<Address>)
    requires Groups(destinations, addresses)
    ensures WellGrouped(destinations)
    ensures forall u, h :: Address(u, h) in addresses <==>
              exists i :: 0 <= i < |destinations| && destinations[i].host == h && u in destinations[i].recipients
  {
    FirstOccurrencesDistinct(Hosts(addresses));
    forall i | 0 <= i < |destinations|
      ensures destinations[i].recipients != [] && Distinct(destinations[i].recipients)
    {
      var host := destinations[i].host;
      FirstOccurrencesDistinct(UsersAt(addresses, host));
      assert DestinationHosts(destinations)[i] in Hosts(addresses);
      var j :| 0 <= j < |addresses| && addresses[j].host == host;
      assert Address(addresses[j].user, host) in addresses;
      assert addresses[j].user in UsersAt(addresses, host);
    }
    forall u, h | Address(u, h) in addresses
      ensures exists i :: 0 <= i < |destinations| && destinations[i].host == h && u in destinations[i].recipients
    {
      var j :| 0 <= j < |addresses| && addresses[j] == Address(u, h);
      assert Hosts(addresses)[j] == h;
      KnownHost(destinations, addresses, h);
      var i := FindDestination(destinations, h);
      assert u in UsersAt(addresses, h);
    }
  }

  // ------------------------------------------------- the scan as the source runs it

  ghost predicate NoNulDestinations(destinations: seq<Destination>) {
    forall i :: 0 <= i < |destinations| ==>
      && NoNul(destinations[i].host)
      && forall j :: 0 <= j < |destinations[i].recipients| ==> NoNul(destinations[i].recipients[j])
  }

  /** The destination search of the source: a walk over the list, comparing with `strncmp`. */
  method SearchDestination(destinations: seq<Destination>, host: string) returns (k: nat)
    requires NoNulDestinations(destinations) && NoNul(host)
    ensures k == FindDestination(destinations, host)
  {
    k := 0;
    while k < |destinations| && !SameBytes(host, destinations[k].host)
      invariant k <= |destinations|
      invariant forall i :: 0 <= i < k ==> destinations[i].host != host
    {
      SameBytesIsEquality(host, destinations[k].host);
      k := k + 1;
    }
    if k < |destinations| {
      SameBytesIsEquality(host, destinations[k].host);
    }
  }

  method HasUser(recipients: seq<string>, user: string) returns (found: bool)
    requires NoNul(user) && forall j :: 0 <= j < |recipients| ==> NoNul(recipients[j])
    ensures found <==> user in recipients
  {
    var k := 0;
    while k < |recipients| && !SameBytes(user, recipients[k])
      invariant k <= |recipients|
      invariant user !in recipients[..k]
    {
      SameBytesIsEquality(user, recipients[k]);
      k := k + 1;
    }
    if k < |recipients| {
      SameBytesIsEquality(user, recipients[k]);
    }
    found := k < |recipients|;
  }

  method AddRecipient(destinations: seq<Destination>, user: string, host: string) returns (r: seq<Destination>)
    requires NoNulDestinations(destinations) && NoNul(user) && NoNul(host)
    ensures r == AddAddress(destinations, Address(user, host)) && NoNulDestinations(r)
  {
    r := destinations;
    var k := SearchDestination(r, host);
    if k == |r| {
      r := r + [Destination(host, [])];
      assert [] + [user] == [user];
    }
    var found := HasUser(r[k].recipients, user);
    if !found {
      r := r[k := r[k].(recipients := r[k].recipients + [user])];
    } else {
      assert r[k := r[k]] == r;
    }
    assert r == AddAddress(destinations, Address(user, host));
  }

  /** `parse_sender_and_destinations` */
  method ParseSenderAndDestinations(headers: seq<Header>) returns (e: Envelope)
    requires NoNulHeaders(headers)
    ensures e == EnvelopeOf(headers)
  {
    e := Envelope(true, "", [], []);
    var i := 0;
    while i < |headers|
      invariant 0 <= i <= |headers| && e.ok
      invariant NoNulDestinations(e.destinations)
      invariant Scan(e, headers[i..]) == EnvelopeOf(headers)
    {
      var h := headers[i];
      assert headers[i..][1..] == headers[i + 1..];
      SameBytesIsEquality(SENDER_HEADER, h.name);
      SameBytesIsEquality(RECIPIENT_HEADER, h.name);
      if SameBytes(SENDER_HEADER, h.name) {
        e := e.(sender := h.value);
      } else if SameBytes(RECIPIENT_HEADER, h.name) {
        var at := 0;
        while at < |h.value| && h.value[at] != '@'
          invariant 0 <= at <= |h.value|
          invariant forall j :: 0 <= j < at ==> h.value[j] != '@'
        {
          at := at + 1;
        }
        FirstChar(h.value, '@', at);
        if at == |h.value| {
          e := e.(ok := false, headers := e.headers + headers[i..]);
          return;
        }
        var destinations := AddRecipient(e.destinations, h.value[..at], h.value[at + 1..]);
        e := e.(destinations := destinations);
      } else {
        e := e.(headers := e.headers + [h]);
      }
      i := i + 1;
    }
  }
}
