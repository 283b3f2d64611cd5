/**
 * The logger (logger.c): the main thread appends messages to a shared queue under a mutex and
 * signals a condition variable; a consumer thread drains the queue and writes. A run is any
 * interleaving of the steps between two synchronisation points, spurious wakeups included.
 */
module Logger {

  datatype Thread = Nobody | Main | Consumer

  /** Where the main thread stands in `logger_vprintf` and `logger_finalize`. */
  datatype MainAt =
    | Outside
    | LogLocked(message: string) | LogInserted | LogSignalled
    | FinLocked | FinRequested | FinSignalled
    | Joining | Joined

  /** Where the consumer stands in `thread_body`. */
  datatype ConsumerAt = Top | Checking | Asleep | Waking | Drained | Writing | Exited

  datatype Write = Write(message: string, succeeded: bool)

  datatype State = State(
    shared: seq<string>, joinRequested: bool, mutex: Thread,
    main: MainAt,
    consumer: ConsumerAt, local: seq<string>, leave: bool,
    writes: seq<Write>)       // every `fwrite` of the consumer and how it ended

  datatype Action =
    | LogLock(message: string) | LogInsert | LogSignal | LogUnlock
    | FinLock | FinRequest | FinSignal | FinUnlock | Join
    | Lock | Wait | SpuriousWakeup | Reacquire | Drain | Unlock | WriteOne(succeeded: bool) | Flush

  const INITIAL := State([], false, Nobody, Outside, Top, [], false, [])

  predicate Enabled(s: State, a: Action) {
    match a
    case LogLock(_) => s.main == Outside && s.mutex == Nobody
    case LogInsert => s.main.LogLocked?
    case LogSignal => s.main == LogInserted
    case LogUnlock => s.main == LogSignalled
    case FinLock => s.main == Outside && s.mutex == Nobody
    case FinRequest => s.main == FinLocked
    case FinSignal => s.main == FinRequested
    case FinUnlock => s.main == FinSignalled
    case Join => s.main == Joining && s.consumer == Exited
    case Lock => s.consumer == Top && s.mutex == Nobody
    case Wait => s.consumer == Checking && s.shared == [] && !s.joinRequested
    case SpuriousWakeup => s.consumer == Asleep
    case Reacquire => s.consumer == Waking && s.mutex == Nobody
    case Drain => s.consumer == Checking && (s.shared != [] || s.joinRequested)
    case Unlock => s.consumer == Drained
    case WriteOne(_) => s.consumer == Writing && s.local != []
    case Flush => s.consumer == Writing && s.local == []
  }

  /** `pthread_cond_signal` wakes the consumer if it waits, and is lost otherwise. */
  function Signalled(s: State): State {
    if s.consumer == Asleep then s.(consumer := Waking) else s
  }

  function Apply(s: State, a: Action): State
    requires Enabled(s, a)
  {
    match a
    case LogLock(message) => s.(main := LogLocked(message), mutex := Main)
    case LogInsert => s.(main := LogInserted, shared := s.shared + [s.main.message])
    case LogSignal => Signalled(s).(main := LogSignalled)
    case LogUnlock => s.(main := Outside, mutex := Nobody)
    case FinLock => s.(main := FinLocked, mutex := Main)
    case FinRequest => s.(main := FinRequested, joinRequested := true)
    case FinSignal => Signalled(s).(main := FinSignalled)
    case FinUnlock => s.(main := Joining, mutex := Nobody)
    case Join => s.(main := Joined)
    case Lock => s.(consumer := Checking, mutex := Consumer)
    case Wait => s.(consumer := Asleep, mutex := Nobody)
    case SpuriousWakeup => s.(consumer := Waking)
    case Reacquire => s.(consumer := Checking, mutex := Consumer)
    case Drain =>
      s.(consumer := Drained, local := s.local + s.shared, shared := [], leave := s.leave || s.joinRequested)
    case Unlock => s.(consumer := Writing, mutex := Nobody)
    case WriteOne(ok) => s.(local := s.local[1..], writes := s.writes + [Write(s.local[0], ok)])
    case Flush => s.(consumer := if s.leave then Exited else Top)
  }

  /** A run: the actions are taken in order, and those that are not enabled are passed over. */
  function Run(actions: seq<Action>): State {
    if actions == [] then INITIAL
    else
      var s, a := Run(actions[..|actions| - 1]), actions[|actions| - 1];
      if Enabled(s, a) then Apply(s, a) else s
  }

  /** What the program has asked to be logged: the messages it entered `logger_vprintf` with, in order. */
  function Requested(actions: seq<Action>): seq<string> {
    if actions == [] then []
    else
      var before, a := actions[..|actions| - 1], actions[|actions| - 1];
      Requested(before) + if Enabled(Run(before), a) then RequestOf(a) else []
  }

  function RequestOf(a: Action): seq<string> {
    if a.LogLock? then [a.message] else []
  }

  /** How the writes have ended, as the environment decided. */
  function Outcomes(actions: seq<Action>): seq<bool> {
    if actions == [] then []
    else
      var before, a := actions[..|actions| - 1], actions[|actions| - 1];
      Outcomes(before) + if Enabled(Run(before), a) then OutcomeOf(a) else []
  }

  function OutcomeOf(a: Action): seq<bool> {
    if a.WriteOne? then [a.succeeded] else []
  }

  // ---------------------------------------------------------------- invariants

  function Messages(writes: seq<Write>): (r: seq<string>)
    ensures |r| == |writes| && forall i :: 0 <= i < |r| ==> r[i] == writes[i].message
  {
    seq(|writes|, i requires 0 <= i < |writes| => writes[i].message)
  }

  function Successes(writes: seq<Write>): (r: seq<bool>)
    ensures |r| == |writes| && forall i :: 0 <= i < |r| ==> r[i] == writes[i].succeeded
  {
    seq(|writes|, i requires 0 <= i < |writes| => writes[i].succeeded)
  }

  /** The message that is about to be put into the shared queue. */
  function Entering(s: State): seq<string> {
    if s.main.LogLocked? then [s.main.message] else []
  }

  /** What has reached the log file: the messages of the writes that succeeded, in order. */
  function File(writes: seq<Write>): seq<string> {
    if writes == [] then []
    else
      var before, last := File(writes[..|writes| - 1]), writes[|writes| - 1];
      if last.succeeded then before + [last.message] else before
  }

  /** The main thread is between its lock and its unlock. */
  predicate MainInside(main: MainAt) {
    main.LogLocked? || main in {LogInserted, LogSignalled, FinLocked, FinRequested, FinSignalled}
  }

  ghost predicate Owns(s: State) {
    && (s.mutex == Main <==> MainInside(s.main))
    && (s.mutex == Consumer <==> s.consumer in {Checking, Drained})
  }

  /** No message that was requested is lost, duplicated or reordered. */
  ghost predicate Conserved(s: State, requested: seq<string>) {
    Messages(s.writes) + s.local + s.shared + Entering(s) == requested
  }

  /** A consumer that sleeps has nothing to do, or is about to be signalled. */
  ghost predicate NoLostWakeup(s: State) {
    s.consumer == Asleep ==> s.main in {LogInserted, FinRequested} || (s.shared == [] && !s.joinRequested)
  }

  ghost predicate Shutdown(s: State) {
    && (s.joinRequested <==> s.main in {FinRequested, FinSignalled, Joining, Joined})
    && (s.leave ==> s.joinRequested && s.shared == [] && s.consumer in {Drained, Writing, Exited})
    && (s.consumer == Exited ==> s.leave && s.local == [])
    && (s.consumer in {Top, Checking, Asleep, Waking} ==> s.local == [])
    && (s.main == Joined ==> s.consumer == Exited)
  }

  ghost predicate Invariant(s: State, requested: seq<string>) {
    Owns(s) && Conserved(s, requested) && NoLostWakeup(s) && Shutdown(s)
  }

  lemma WriteKeepsConserved(s: State, ok: bool, requested: seq<string>)
    requires Conserved(s, requested) && s.local != []
    ensures Conserved(s.(local := s.local[1..], writes := s.writes + [Write(s.local[0], ok)]), requested)
  {
    var writes := s.writes + [Write(s.local[0], ok)];
    assert Messages(writes) == Messages(s.writes) + [s.local[0]];
    assert s.local == [s.local[0]] + s.local[1..];
    assert Messages(s.writes) + s.local + s.shared == Messages(writes) + s.local[1..] + s.shared;
  }

  lemma StepKeepsInvariant(s: State, a: Action, requested: seq<string>)
    requires Invariant(s, requested) && Enabled(s, a)
    ensures Invariant(Apply(s, a), requested + RequestOf(a))
  {
    match a
    case LogLock(m) =>
      assert Entering(s) == [];
    case LogInsert =>
      var m := s.main.message;
      assert Messages(s.writes) + s.local + (s.shared + [m]) == Messages(s.writes) + s.local + s.shared + [m];
    case Drain =>
      assert Messages(s.writes) + (s.local + s.shared) + [] == Messages(s.writes) + s.local + s.shared;
    case WriteOne(ok) =>
      WriteKeepsConserved(s, ok, requested);
    case _ =>
  }

  /** The invariant holds in every state of every interleaving. */
  lemma {:induction false} RunKeepsInvariant(actions: seq<Action>)
    ensures Invariant(Run(actions), Requested(actions))
  {
    if actions == [] {
      assert Messages([]) == [];
    } else {
      var before, a := actions[..|actions| - 1], actions[|actions| - 1];
      RunKeepsInvariant(before);
      if Enabled(Run(before), a) {
        StepKeepsInvariant(Run(before), a, Requested(before));
      }
    }
  }

  /** The writes end as the environment lets them end. */
  lemma {:induction false} WritesEndAsGiven(actions: seq<Action>)
    ensures Successes(Run(actions).writes) == Outcomes(actions)
  {
    if actions != [] {
      var before, a := actions[..|actions| - 1], actions[|actions| - 1];
      WritesEndAsGiven(before);
      if Enabled(Run(before), a) && a.WriteOne? {
        var s := Run(before);
        assert Successes(Apply(s, a).writes) == Successes(s.writes) + [a.succeeded];
      }
    }
  }

  lemma {:induction false} FileOfSuccess(writes: seq<Write>)
    requires forall i :: 0 <= i < |writes| ==> writes[i].succeeded
    ensures File(writes) == Messages(writes)
  {
    if writes != [] {
      FileOfSuccess(writes[..|writes| - 1]);
      assert Messages(writes) == Messages(writes[..|writes| - 1]) + [writes[|writes| - 1].message];
    }
  }

  /**
   * In every interleaving: what is written is what was requested, from the start and in order; once
   * `logger_finalize` has returned it is all of it, and it is in the file if no write has failed.
   */
  lemma EverythingIsWritten(actions: seq<Action>)
    ensures var s, requested := Run(actions), Requested(actions);
            && Messages(s.writes) <= requested
            && (s.consumer == Exited || s.main == Joined ==> Messages(s.writes) == requested)
            && (s.main == Joined && (forall ok :: ok in Outcomes(actions) ==> ok) ==> File(s.writes) == requested)
  {
    RunKeepsInvariant(actions);
    var s := Run(actions);
    assert Messages(s.writes) <= Messages(s.writes) + s.local + s.shared + Entering(s);
    if s.main == Joined && forall ok :: ok in Outcomes(actions) ==> ok {
      WritesEndAsGiven(actions);
      forall i | 0 <= i < |s.writes| ensures s.writes[i].succeeded {
        assert Successes(s.writes)[i] in Outcomes(actions);
      }
      FileOfSuccess(s.writes);
    }
  }

  /** In every interleaving: at most one thread is between lock and unlock, and no wakeup is lost. */
  lemma MutualExclusionAndWakeup(actions: seq<Action>)
    ensures var s := Run(actions);
            && !(s.consumer in {Checking, Drained} && MainInside(s.main))
            && (s.consumer == Asleep && s.mutex == Nobody ==> s.shared == [] && !s.joinRequested)
  {
    RunKeepsInvariant(actions);
  }

  // ---------------------------------------------------------------- the shutdown ends

  /** How many steps are left once the main thread waits in `pthread_join`. */
  function StepsLeft(s: State): nat {
    |s.local| + |s.shared| +
    if s.main == Joined then 0
    else match s.consumer
      case Exited => 1
      case Writing => if s.leave then 2 else 7
      case Drained => if s.leave then 3 else 8
      case Checking => 4
      case Top => 5
      case Waking => 5
      case Asleep => 6
  }

  /**
   * In every interleaving that reaches `pthread_join`: the consumer does not sleep, some step can
   * be taken, and every step leads closer to the end of the join. So the shutdown always ends.
   */
  lemma ShutdownEnds(actions: seq<Action>)
    requires Run(actions).main == Joining
    ensures var s := Run(actions);
            && s.consumer != Asleep
            && (exists a :: Enabled(s, a))
            && forall a :: Enabled(s, a) ==>
                 Apply(s, a).main in {Joining, Joined} && StepsLeft(Apply(s, a)) < StepsLeft(s)
  {
    RunKeepsInvariant(actions);
    var s := Run(actions);
    var next := match s.consumer
      case Top => Lock
      case Checking => Drain
      case Asleep => SpuriousWakeup
      case Waking => Reacquire
      case Drained => Unlock
      case Writing => if s.local == [] then Flush else WriteOne(true)
      case Exited => Join;
    assert Enabled(s, next);
  }

  // ---------------------------------------------------------------- everything can be logged

  lemma OneMore(actions: seq<Action>, a: Action)
    requires Enabled(Run(actions), a)
    ensures Run(actions + [a]) == Apply(Run(actions), a)
    ensures Requested(actions + [a]) == Requested(actions) + RequestOf(a)
    ensures Outcomes(actions + [a]) == Outcomes(actions) + OutcomeOf(a)
  {
    assert (actions + [a])[..|actions + [a]| - 1] == actions;
  }

  /** `logger_vprintf`, while the consumer does not come to run. */
  lemma LogsOne(before: seq<Action>, messages: seq<string>, m: string) returns (actions: seq<Action>)
    requires Run(before) == State(messages, false, Nobody, Outside, Top, [], false, [])
    ensures Run(actions) == State(messages + [m], false, Nobody, Outside, Top, [], false, [])
    ensures Requested(actions) == Requested(before) + [m] && Outcomes(actions) == Outcomes(before)
  {
    OneMore(before, LogLock(m));
    var inside := before + [LogLock(m)];
    OneMore(inside, LogInsert);
    actions := LeavesQueue(inside + [LogInsert], messages + [m]);
  }

  lemma LeavesQueue(before: seq<Action>, messages: seq<string>) returns (actions: seq<Action>)
    requires Run(before) == State(messages, false, Main, LogInserted, Top, [], false, [])
    ensures Run(actions) == State(messages, false, Nobody, Outside, Top, [], false, [])
    ensures Requested(actions) == Requested(before) && Outcomes(actions) == Outcomes(before)
  {
    OneMore(before, LogSignal);
    actions := before + [LogSignal];
    OneMore(actions, LogUnlock);
    actions := actions + [LogUnlock];
  }

  lemma {:induction false} LogsAll(messages: seq<string>) returns (actions: seq<Action>)
    ensures Run(actions) == State(messages, false, Nobody, Outside, Top, [], false, [])
    ensures Requested(actions) == messages && Outcomes(actions) == []
  {
    if messages == [] {
      actions := [];
    } else {
      var rest, m := messages[..|messages| - 1], messages[|messages| - 1];
      var before := LogsAll(rest);
      actions := LogsOne(before, rest, m);
      assert messages == rest + [m];
    }
  }

  /** `logger_finalize` up to `pthread_join`. */
  lemma RequestsEnd(before: seq<Action>, messages: seq<string>) returns (actions: seq<Action>)
    requires Run(before) == State(messages, false, Nobody, Outside, Top, [], false, [])
    ensures Run(actions) == State(messages, true, Nobody, Joining, Top, [], false, [])
    ensures Requested(actions) == Requested(before) && Outcomes(actions) == Outcomes(before)
  {
    OneMore(before, FinLock);
    OneMore(before + [FinLock], FinRequest);
    OneMore(before + [FinLock] + [FinRequest], FinSignal);
    OneMore(before + [FinLock] + [FinRequest] + [FinSignal], FinUnlock);
    actions := before + [FinLock] + [FinRequest] + [FinSignal] + [FinUnlock];
  }

  /** The consumer takes everything out of the shared queue. */
  lemma TakesAll(before: seq<Action>, messages: seq<string>) returns (actions: seq<Action>)
    requires Run(before) == State(messages, true, Nobody, Joining, Top, [], false, [])
    ensures Run(actions) == State([], true, Nobody, Joining, Writing, messages, true, [])
    ensures Requested(actions) == Requested(before) && Outcomes(actions) == Outcomes(before)
  {
    OneMore(before, Lock);
    actions := Drains(before + [Lock], messages);
  }

  lemma Drains(before: seq<Action>, messages: seq<string>) returns (actions: seq<Action>)
    requires Run(before) == State(messages, true, Consumer, Joining, Checking, [], false, [])
    ensures Run(actions) == State([], true, Nobody, Joining, Writing, messages, true, [])
    ensures Requested(actions) == Requested(before) && Outcomes(actions) == Outcomes(before)
  {
    OneMore(before, Drain);
    assert [] + messages == messages;
    OneMore(before + [Drain], Unlock);
    actions := before + [Drain] + [Unlock];
  }

  lemma {:induction false} WritesAll(before: seq<Action>, left: nat) returns (actions: seq<Action>)
    requires Run(before).consumer == Writing && left == |Run(before).local|
    requires forall ok :: ok in Outcomes(before) ==> ok
    ensures var s := Run(actions); s == Run(before).(local := [], writes := s.writes)
    ensures Requested(actions) == Requested(before) && forall ok :: ok in Outcomes(actions) ==> ok
    decreases left
  {
    actions := before;
    if left > 0 {
      OneMore(before, WriteOne(true));
      actions := WritesAll(before + [WriteOne(true)], left - 1);
    }
  }

  /** For every list of messages there is a run in which they are logged, and are the log file at its end. */
  lemma EverythingCanBeLogged(messages: seq<string>) returns (actions: seq<Action>)
    ensures Requested(actions) == messages
    ensures Run(actions).main == Joined && File(Run(actions).writes) == messages
  {
    var logging := LogsAll(messages);
    var ending := RequestsEnd(logging, messages);
    var taking := TakesAll(ending, messages);
    var writing := WritesAll(taking, |messages|);
    OneMore(writing, Flush);
    OneMore(writing + [Flush], Join);
    actions := writing + [Flush] + [Join];
    EverythingIsWritten(actions);
  }
}
