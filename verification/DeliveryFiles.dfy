/** When the loaders read what the files hold, the servers get what the files hold. */
module DeliveryFiles {
  import opened Headers
  import opened Recipients
  import opened Messages
  import opened Payload
  import opened Delivery
  import opened DeliveryInvariants
  import opened DeliverySteps
  import opened DeliveryRuns
  import opened Server
  import opened DeliverySafety
  import Loader

  ghost predicate HasBlock(file: string, block: string) {
    var k := Loader.FindSeparator(file, 0);
    k < |file| && block == file[..k]
  }

  ghost predicate HasBody(file: string, body: string, sought: bool) {
    var k := Loader.FindSeparator(file, 0);
    k < |file| && k + 4 <= |file| && body == if sought then file[k + 4..] else file
  }

  /** What the loader promises of a file: a part of it, or nothing. */
  ghost predicate Reads(file: string, r: LoadResult, sought: bool) {
    match r
    case LoadFailed => true
    case HeadersRead(block) => HasBlock(file, block)
    case BodyRead(text) => HasBody(file, text, sought)
  }

  /** What a loader has completed is what a run may read; `sought`: it could move to where the body begins. */
  lemma CompletedIsRead(m: Loader.Message, sought: bool)
    requires m.Valid() && m.state == BodyLoaded && m.Completed(sought)
    ensures Reads(m.file, HeadersRead(m.block), sought) && Reads(m.file, BodyRead(m.body), sought)
  {
    var k := Loader.FindSeparator(m.file, 0);
    Loader.SeparatorSplits(m.file, k);
    if sought {
      assert (m.block + Loader.SEPARATOR + m.body)[k + 4..] == m.body;
    }
  }

  ghost predicate StepReads(w: World, e: Event, files: map<string, string>, unsought: set<Ptr>) {
    e.Loaded? && Enabled(w, e) ==>
      && w.store.heap[e.message].path in files
      && Reads(files[w.store.heap[e.message].path], e.result, e.message !in unsought)
  }

  /**
   * Every part that is read in the run comes from the file under the message's path; `unsought`: where
   * `lseek` fails.
   */
  ghost predicate ReadsFiles(helo: string, events: seq<Event>, files: map<string, string>, unsought: set<Ptr>)
    decreases |events|
  {
    events == [] || (
      var front := events[..|events| - 1];
      ReadsFiles(helo, front, files, unsought) && StepReads(Run(helo, front), events[|events| - 1], files, unsought))
  }

  ghost predicate OnFile(m: Message, files: map<string, string>) {
    m.path in files && HasBlock(files[m.path], m.block)
  }

  /** What has been read so far is what the files hold. */
  ghost predicate FromFiles(w: World, files: map<string, string>, unsought: set<Ptr>) {
    && (forall p :: p in w.origin ==> OnFile(w.origin[p], files))
    && (forall p :: p in w.store.heap && p !in w.origin && w.store.heap[p].state == HeadersLoaded ==>
          OnFile(w.store.heap[p], files))
    && (forall p :: p in w.store.bodies && p in w.origin ==>
          HasBody(files[w.origin[p].path], w.store.bodies[p], p !in unsought))
  }

  lemma FilesFrame(w: World, w': World, files: map<string, string>, unsought: set<Ptr>)
    requires FromFiles(w, files, unsought) && w'.origin == w.origin && Shallow(w.store, w'.store)
    ensures FromFiles(w', files, unsought)
  {
  }

  lemma FilesRouted(w: World, p: Ptr, hosts: seq<string>, refused: set<string>, files: map<string, string>,
          unsought: set<Ptr>)
    requires FromFiles(w, files, unsought)
    ensures var routed := RouteAll(w, p, hosts, refused);
            FromFiles(routed.(store := Release(routed.store, p)), files, unsought)
  {
    var routed := RouteAll(w, p, hosts, refused);
    RouteAllShallow(w, p, hosts, refused);
    ReleaseShallow(routed.store, p);
    FilesFrame(w, routed, files, unsought);
    FilesFrame(routed, routed.(store := Release(routed.store, p)), files, unsought);
  }

  lemma FilesTaken(w: World, p: Ptr, files: map<string, string>, unsought: set<Ptr>)
    requires FromFiles(w, files, unsought) && p in w.store.heap && p !in w.origin && p !in w.store.bodies
    requires w.store.heap[p].state == HeadersLoaded
    ensures FromFiles(w.(messages := Without(w.messages, p), origin := w.origin[p := w.store.heap[p]]), files, unsought)
  {
  }

  lemma FilesRoute(w: World, p: Ptr, refused: set<string>, files: map<string, string>, unsought: set<Ptr>)
    requires FromFiles(w, files, unsought) && p in w.store.heap && p !in w.origin && p !in w.store.bodies
    ensures FromFiles(RouteMessage(w, p, refused), files, unsought)
  {
    var m := w.store.heap[p];
    if m.state == HeadersLoaded {
      FilesTaken(w, p, files, unsought);
      FilesRouted(w.(messages := Without(w.messages, p), origin := w.origin[p := m]), p,
                  DestinationHosts(m.destinations), refused, files, unsought);
    } else {
      GivenUpShallow(w, p, refused);
      FilesFrame(w, RouteMessage(w, p, refused), files, unsought);
    }
  }

  lemma FilesLoaded(w: World, p: Ptr, r: LoadResult, files: map<string, string>, unsought: set<Ptr>)
    requires FromFiles(w, files, unsought) && Enabled(w, Loaded(p, r)) && StepReads(w, Loaded(p, r), files, unsought)
    requires p in w.origin ==> w.store.heap[p].path == w.origin[p].path
    ensures FromFiles(Apply(w, Loaded(p, r)), files, unsought)
  {
  }

  lemma FilesApply(w: World, e: Event, files: map<string, string>, unsought: set<Ptr>)
    requires Invariant(w) && FromFiles(w, files, unsought) && Enabled(w, e) && StepReads(w, e, files, unsought)
    ensures FromFiles(Apply(w, e), files, unsought)
  {
    match e
    case Loaded(p, r) =>
      ListedUnlessRouted(w, p);
      FilesLoaded(w, p, r, files, unsought);
    case Route(p, refused) => FilesRoute(w, p, refused, files, unsought);
    case Reply(i, code) =>
      DispatchShallow(w.helo, w.store, w.sessions[i], code);
      FilesFrame(w, Apply(w, e), files, unsought);
    case BodyPoll(i) =>
      PollShallow(w.store, w.sessions[i]);
      FilesFrame(w, Apply(w, e), files, unsought);
    case Reap(i) =>
      ReleaseAllShallow(w.store, w.sessions[i].messages);
      FilesFrame(w, Apply(w, e), files, unsought);
    case Shutdown =>
      FinalizeAllShallow(w.store, w.sessions);
      ReleaseAllShallow(FinalizeAll(w.store, w.sessions), w.messages);
      FilesFrame(w, Apply(w, e), files, unsought);
    case Collision(i, _) =>
    case Discover(path) =>
    case Network(i, state) =>
  }

  lemma {:induction false} RunIsFromFiles(helo: string, events: seq<Event>, files: map<string, string>,
          unsought: set<Ptr>)
    requires ReadsFiles(helo, events, files, unsought)
    ensures FromFiles(Run(helo, events), files, unsought)
    decreases |events|
  {
    if events != [] {
      var front, e := events[..|events| - 1], events[|events| - 1];
      RunIsFromFiles(helo, front, files, unsought);
      RunKeepsInvariant(helo, front);
      if !Run(helo, front).finished && Enabled(Run(helo, front), e) {
        FilesApply(Run(helo, front), e, files, unsought);
      }
    }
  }

  /** A mail that holds what the file holds for this host. */
  ghost predicate HoldsFile(mail: Mail, file: string, host: string, sought: bool) {
    var k := Loader.FindSeparator(file, 0);
    && k < |file| && k + 4 <= |file|
    && var headers := ParseBlock(file[..k]).headers;
    && mail.sender == LastSender(headers, "")
    && mail.recipients == FirstOccurrences(UsersAt(Addresses(headers), host))
    && mail.text == Encode(Remaining(headers), if sought then file[k + 4..] else file)
  }

  /** From the file to the server: sender, recipients, headers and body of every accepted mail are those of the file. */
  lemma ServersGetTheFile(helo: string, events: seq<Event>, files: map<string, string>, unsought: set<Ptr>)
    requires ReadsFiles(helo, events, files, unsought)
    ensures var w := Run(helo, events);
            forall s, mail :: s in All(w) && mail in ViewOf(s).mailbox ==>
              && mail.message in w.origin && w.origin[mail.message].path in files
              && HoldsFile(mail, files[w.origin[mail.message].path], s.destinationHost, mail.message !in unsought)
  {
    RunIsFromFiles(helo, events, files, unsought);
    MailIsAsWritten(helo, events);
    var w := Run(helo, events);
    forall s, mail | s in All(w) && mail in ViewOf(s).mailbox
      ensures mail.message in w.origin && w.origin[mail.message].path in files
      ensures HoldsFile(mail, files[w.origin[mail.message].path], s.destinationHost, mail.message !in unsought)
    {
      assert AsWritten(w, mail, s.destinationHost);
      assert OnFile(w.origin[mail.message], files);
    }
  }
}
