/** One pass of the client's event loop (client.c, `client_notify`) on values, as steps of the protocol. */
module Rounds {
  import opened Text
  import opened Recipients
  import opened Messages
  import opened Sessions
  import opened Delivery
  import opened DeliveryInvariants
  import opened DeliverySteps
  import opened DeliveryEvents
  import opened DeliveryRuns
  import opened DeliverySafety

  lemma {:induction false} WithoutAt(ps: seq<Ptr>, i: nat)
    requires Distinct(ps) && i < |ps|
    ensures Without(ps, ps[i]) == ps[..i] + ps[i + 1..]
  {
    if i > 0 {
      DistinctTail(ps);
      WithoutAt(ps[1..], i - 1);
    }
  }

  /** Routing does not look at the client's list. */
  lemma {:induction false} RouteAllMessages(w: World, p: Ptr, hosts: seq<string>, refused: set<string>,
          messages: seq<Ptr>)
    ensures RouteAll(w.(messages := messages), p, hosts, refused)
         == RouteAll(w, p, hosts, refused).(messages := messages)
    ensures RouteAll(w, p, hosts, refused).messages == w.messages
    decreases |hosts|
  {
    if hosts != [] {
      RouteAllMessages(RouteTo(w, p, hosts[0], hosts[0] in refused), p, hosts[1..], refused, messages);
    }
  }

  /** A message is given to the sessions of its hosts, and leaves the list. */
  ghost function Passed(w: World, p: Ptr, hosts: seq<string>, refused: set<string>): World {
    var routed := RouteAll(w, p, hosts, refused);
    routed.(messages := Without(w.messages, p), store := Release(routed.store, p))
  }

  /** The list still counts the message when the sessions have it. */
  ghost predicate StillListed(w: World, p: Ptr, hosts: seq<string>, refused: set<string>) {
    var routed := RouteAll(w, p, hosts, refused);
    routed.messages == w.messages && p in routed.store.heap && routed.store.heap[p].refCount > 0
  }

  lemma RouteAllAt(w: World, p: Ptr, hosts: seq<string>, i: nat, refused: set<string>)
    requires i < |hosts|
    ensures RouteAll(w, p, hosts[i..], refused)
         == RouteAll(RouteTo(w, p, hosts[i], hosts[i] in refused), p, hosts[i + 1..], refused)
  {
    assert hosts[i..][1..] == hosts[i + 1..];
  }

  /** A part of the message that it waits for. */
  predicate Awaited(state: MessageState, result: LoadResult) {
    match result
    case LoadFailed => state == LoadingHeaders || state == LoadingBody
    case HeadersRead(block) => state == LoadingHeaders && NoNul(block)
    case BodyRead(text) => state == LoadingBody && NoNul(text)
  }

  /** `message_notify` on values; `loads` says what is read under a path. */
  ghost function LoadStep(w: World, p: Ptr, loads: map<string, LoadResult>): World {
    if p in w.store.heap && w.store.heap[p].path in loads then Step(w, Loaded(p, loads[w.store.heap[p].path])) else w
  }

  /** The first part of `client_notify` on values: every message of the list is loaded further and looked at. */
  ghost function MessageRound(w: World, ps: seq<Ptr>, loads: map<string, LoadResult>, refused: set<string>): World
    decreases |ps|
  {
    if ps == [] then w
    else MessageRound(Step(LoadStep(w, ps[0], loads), Route(ps[0], refused)), ps[1..], loads, refused)
  }

  lemma MessageRoundAt(w: World, ps: seq<Ptr>, i: nat, loads: map<string, LoadResult>, refused: set<string>)
    requires i < |ps|
    ensures MessageRound(w, ps[i..], loads, refused)
         == MessageRound(Step(LoadStep(w, ps[i], loads), Route(ps[i], refused)), ps[i + 1..], loads, refused)
  {
    assert ps[i..][1..] == ps[i + 1..];
  }

  /**
   * What the network has to say to a session, if anything: several lookups and attempts can end at once, and
   * a reply can come when the rest of its request cannot be written.
   */
  datatype Signal = Changed(path: seq<SessionState>) | Replied(code: int) | Collided(code: int)

  /** The changes of state one after the other. */
  ghost function NetworkSteps(w: World, k: nat, path: seq<SessionState>): World
    decreases |path|
  {
    if path == [] then w else NetworkSteps(Step(w, Network(k, path[0])), k, path[1..])
  }

  ghost function HeadStep(w: World, k: nat, loads: map<string, LoadResult>): World
    requires k < |w.sessions|
  {
    if w.sessions[k].messages == [] then w else LoadStep(w, w.sessions[k].messages[0], loads)
  }

  /** `session_notify` on values. */
  ghost function SessionStep(w: World, k: nat, loads: map<string, LoadResult>, signals: map<string, Signal>): World
    requires k < |w.sessions|
  {
    OwnStep(HeadStep(w, k, loads), w.sessions[k], k, signals)
  }

  ghost function OwnStep(w: World, s: Session, k: nat, signals: map<string, Signal>): World {
    if s.state == LoadingMessageBody then Step(w, BodyPoll(k))
    else if s.destinationHost !in signals then w
    else
      match signals[s.destinationHost]
      case Changed(path) => NetworkSteps(w, k, path)
      case Replied(code) => Step(w, Reply(k, code))
      case Collided(code) => Step(w, Collision(k, code))
  }

  /** The second part of `client_notify` on values: `n` sessions from `k` on, unless the program is aborted. */
  ghost function SessionRound(w: World, k: nat, n: nat, loads: map<string, LoadResult>,
          signals: map<string, Signal>): World
    decreases n, 1
  {
    if n == 0 || k >= |w.sessions| || w.finished then w else SessionVisit(w, k, n, loads, signals)
  }

  /** The session at `k` is notified, and finalized if it is closed then; and so on. */
  ghost function SessionVisit(w: World, k: nat, n: nat, loads: map<string, LoadResult>,
          signals: map<string, Signal>): World
    requires n > 0 && k < |w.sessions|
    decreases n, 0
  {
    var w1 := SessionStep(w, k, loads, signals);
    if w1.finished then w1
    else if IsClosed(w1, k) then SessionRound(Step(w1, Reap(k)), k, n - 1, loads, signals)
    else SessionRound(w1, k + 1, n - 1, loads, signals)
  }

  /** The session at `k` is finalized if it is closed, and the next one stands at `next`. */
  ghost predicate Left(w1: World, k: nat, w2: World, next: nat) {
    if w1.finished then w2 == w1 && next == k
    else if IsClosed(w1, k) then w2 == Step(w1, Reap(k)) && next == k
    else w2 == w1 && next == k + 1
  }

  /** What a visit to the session at `k` leads to, and where the next session stands. */
  ghost predicate Visited(w: World, k: nat, loads: map<string, LoadResult>, signals: map<string, Signal>,
          w2: World, next: nat)
    requires k < |w.sessions|
  {
    Left(SessionStep(w, k, loads, signals), k, w2, next)
  }

  lemma RoundIsOver(w: World, k: nat, n: nat, loads: map<string, LoadResult>, signals: map<string, Signal>)
    requires w.finished || n == 0
    ensures SessionRound(w, k, n, loads, signals) == w
  {
  }

  /** A round that ends in `goal`, after one visit. */
  lemma RoundGoesOn(w: World, k: nat, n: nat, loads: map<string, LoadResult>, signals: map<string, Signal>,
          w2: World, next: nat, goal: World)
    returns (left: nat)
    requires n > 0 && k < |w.sessions| && !w.finished && Visited(w, k, loads, signals, w2, next)
    requires SessionRound(w, k, n, loads, signals) == goal
    ensures left + 1 == n && SessionRound(w2, next, left, loads, signals) == goal
  {
    left := n - 1;
    assert SessionRound(w, k, n, loads, signals) == SessionVisit(w, k, n, loads, signals);
  }

  ghost predicate IsClosed(w: World, k: nat) {
    k < |w.sessions| && w.sessions[k].state == Closed
  }

  /** None of the first `k` sessions is closed. */
  ghost predicate OpenBelow(w: World, k: nat) {
    k <= |w.sessions| && forall j :: 0 <= j < k ==> w.sessions[j].state != Closed
  }

  /** Only the session at `k` changes. */
  ghost predicate OnlyAt(w: World, w': World, k: nat) {
    |w'.sessions| == |w.sessions| && forall j :: 0 <= j < |w.sessions| && j != k ==> w'.sessions[j] == w.sessions[j]
  }

  lemma {:induction false} NetworkStepsOthers(w: World, k: nat, path: seq<SessionState>)
    ensures OnlyAt(w, NetworkSteps(w, k, path), k)
    decreases |path|
  {
    if path != [] {
      NetworkStepsOthers(Step(w, Network(k, path[0])), k, path[1..]);
    }
  }

  lemma OwnStepOthers(w: World, s: Session, k: nat, signals: map<string, Signal>)
    ensures OnlyAt(w, OwnStep(w, s, k, signals), k)
  {
    if s.state != LoadingMessageBody && s.destinationHost in signals && signals[s.destinationHost].Changed? {
      NetworkStepsOthers(w, k, signals[s.destinationHost].path);
    }
  }

  lemma SessionStepOthers(w: World, k: nat, loads: map<string, LoadResult>, signals: map<string, Signal>)
    requires k < |w.sessions|
    ensures OnlyAt(w, SessionStep(w, k, loads, signals), k)
  {
    OwnStepOthers(HeadStep(w, k, loads), w.sessions[k], k, signals);
  }

  ghost function DiscoverRound(w: World, paths: seq<string>): World
    decreases |paths|
  {
    if paths == [] then w else DiscoverRound(Step(w, Discover(paths[0])), paths[1..])
  }

  /** `client_notify` on values. */
  ghost function ClientRound(w: World, paths: seq<string>, loads: map<string, LoadResult>, refused: set<string>,
                             signals: map<string, Signal>): World {
    var w1 := DiscoverRound(w, paths);
    var w2 := MessageRound(w1, w1.messages, loads, refused);
    SessionRound(w2, 0, |w2.sessions|, loads, signals)
  }

  lemma FirstReplaced(s: seq<Session>, x: Session, y: Session)
    ensures ([x] + s)[0 := y] == [y] + s
  {
  }

  /** A state in which the program goes on. */
  ghost predicate Sound(w: World) {
    Invariant(w) && !w.finished
  }

  lemma SoundStep(w: World, e: Event)
    requires Sound(w) && e != Shutdown && !e.Collision?
    ensures Sound(Step(w, e))
  {
    StepKeepsInvariant(w, e);
    if e.Route? {
      RoutingGoesOn(w, e.message, e.refused);
    }
  }

  lemma Reaped(w: World, k: nat)
    requires IsClosed(w, k) && OpenBelow(w, k) && Sound(w)
    ensures Sound(Step(w, Reap(k)))
    ensures OpenBelow(Step(w, Reap(k)), k) && |Step(w, Reap(k)).sessions| == |w.sessions| - 1
  {
    SoundStep(w, Reap(k));
  }

  /** The program goes on, or the assertion has failed. */
  ghost predicate Proceeds(w: World) {
    Invariant(w) && (w.finished ==> w.aborted)
  }

  lemma SoundCollision(w: World, k: nat, code: int)
    requires Sound(w)
    ensures Proceeds(Step(w, Collision(k, code)))
  {
    StepKeepsInvariant(w, Collision(k, code));
    if Enabled(w, Collision(k, code)) {
      CollisionOk(w, k, code);
    }
  }

  lemma SoundHead(w: World, k: nat, loads: map<string, LoadResult>)
    requires k < |w.sessions| && Sound(w)
    ensures Sound(HeadStep(w, k, loads))
  {
    if w.sessions[k].messages != [] {
      var p := w.sessions[k].messages[0];
      if p in w.store.heap && w.store.heap[p].path in loads {
        SoundStep(w, Loaded(p, loads[w.store.heap[p].path]));
      }
    }
  }

  lemma SoundSession(w: World, k: nat, loads: map<string, LoadResult>, signals: map<string, Signal>)
    requires k < |w.sessions| && Sound(w)
    ensures Proceeds(SessionStep(w, k, loads, signals))
  {
    SoundHead(w, k, loads);
    SoundOwn(HeadStep(w, k, loads), w.sessions[k], k, signals);
  }

  lemma {:induction false} SoundPath(w: World, k: nat, path: seq<SessionState>)
    requires Sound(w)
    ensures Sound(NetworkSteps(w, k, path))
    decreases |path|
  {
    if path != [] {
      SoundStep(w, Network(k, path[0]));
      SoundPath(Step(w, Network(k, path[0])), k, path[1..]);
    }
  }

  lemma SoundOwn(w: World, s: Session, k: nat, signals: map<string, Signal>)
    requires Sound(w)
    ensures Proceeds(OwnStep(w, s, k, signals))
  {
    if s.state == LoadingMessageBody {
      SoundStep(w, BodyPoll(k));
    } else if s.destinationHost in signals {
      match signals[s.destinationHost]
      case Changed(path) => SoundPath(w, k, path);
      case Replied(code) => SoundStep(w, Reply(k, code));
      case Collided(code) => SoundCollision(w, k, code);
    }
  }

  /** After a round over all sessions none that is closed is left in the list, unless the program was aborted. */
  lemma {:induction false} RoundLeavesNoneClosed(w: World, k: nat, n: nat, loads: map<string, LoadResult>,
          signals: map<string, Signal>, after: World)
    requires Sound(w) && OpenBelow(w, k) && n == |w.sessions| - k
    requires after == SessionRound(w, k, n, loads, signals)
    ensures after.aborted || OpenBelow(after, |after.sessions|)
    decreases n
  {
    if n == 0 {
      RoundIsOver(w, k, n, loads, signals);
    } else {
      var w2, next := OneVisit(w, k, n, loads, signals, after);
      if !w2.finished {
        RoundLeavesNoneClosed(w2, next, n - 1, loads, signals, after);
      }
    }
  }

  /** One visit on the way to where the round ends. */
  lemma OneVisit(w: World, k: nat, n: nat, loads: map<string, LoadResult>, signals: map<string, Signal>, after: World)
    returns (w2: World, next: nat)
    requires Sound(w) && OpenBelow(w, k) && n == |w.sessions| - k && n > 0
    requires after == SessionRound(w, k, n, loads, signals)
    ensures after == SessionRound(w2, next, n - 1, loads, signals)
    ensures if w2.finished then w2 == after && w2.aborted
            else Sound(w2) && OpenBelow(w2, next) && n - 1 == |w2.sessions| - next
  {
    w2, next := VisitStaysOpen(w, k, loads, signals);
    var left := RoundGoesOn(w, k, n, loads, signals, w2, next, after);
    if w2.finished {
      RoundIsOver(w2, next, left, loads, signals);
    }
  }

  /** After a visit what has been passed is open, or the program is aborted. */
  lemma VisitStaysOpen(w: World, k: nat, loads: map<string, LoadResult>, signals: map<string, Signal>)
    returns (w2: World, next: nat)
    requires Sound(w) && OpenBelow(w, k) && k < |w.sessions|
    ensures Visited(w, k, loads, signals, w2, next)
    ensures if w2.finished then w2.aborted
            else Sound(w2) && OpenBelow(w2, next) && |w2.sessions| - next == |w.sessions| - k - 1
  {
    var w1 := SessionStep(w, k, loads, signals);
    SoundSession(w, k, loads, signals);
    SessionStepOthers(w, k, loads, signals);
    w2, next := Leave(w, w1, k);
  }

  /** What comes after the step of the session at `k`. */
  lemma Leave(w: World, w1: World, k: nat) returns (w2: World, next: nat)
    requires OpenBelow(w, k) && k < |w.sessions| && OnlyAt(w, w1, k) && Proceeds(w1)
    ensures Left(w1, k, w2, next)
    ensures if w2.finished then w2.aborted
            else Sound(w2) && OpenBelow(w2, next) && |w2.sessions| - next == |w.sessions| - k - 1
  {
    w2, next := w1, k;
    if !w1.finished {
      if IsClosed(w1, k) {
        Reaped(w1, k);
        w2 := Step(w1, Reap(k));
      } else {
        next := k + 1;
      }
    }
  }
}
