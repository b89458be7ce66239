/**
 Progress: work that is queued gets done, and the destructor's joins return.
 */
module PoolShutdown {
  import opened Pool
  import opened PoolSafety

  /** Steps inside the pool. The steps that bring in more to do (`Enqueue`, `SetStop`) are not among them. */
  predicate Internal<T>(a: Action<T>) {
    match a
    case Lock(_) => true
    case Finish(_) => true
    case NotifyOne(_) => true
    case NotifyAll => true
    case Spurious(_) => true
    case Enqueue(_) => false
    case SetStop => false
  }

  /** Steps a thread takes by itself when it is scheduled. A spurious wakeup may happen, but nothing promises it. */
  predicate Driven<T>(a: Action<T>) {
    Internal(a) && !a.Spurious?
  }

  predicate InternalSchedule<T>(s: State<T>, schedule: seq<Action<T>>)
    decreases |schedule|
  {
    schedule == [] ||
    (Enabled(s, schedule[0]) && Internal(schedule[0]) && InternalSchedule(Apply(s, schedule[0]), schedule[1..]))
  }

  function SpuriousWakeups<T>(schedule: seq<Action<T>>): nat {
    if schedule == [] then 0 else (if schedule[0].Spurious? then 1 else 0) + SpuriousWakeups(schedule[1..])
  }

  /** No thread can move by itself. */
  ghost predicate Quiescent<T(!new)>(s: State<T>) {
    forall a | Driven(a) :: !Enabled(s, a)
  }

  function Rank(stop: bool, p: Phase): nat {
    match p
    case Ready => 1
    case Woken => 1
    case Running(_) => 2
    case Asleep => if stop then 2 else 0
    case Exited => 0
  }

  function Ranks(stop: bool, workers: seq<Phase>): nat {
    if workers == [] then 0 else Rank(stop, workers[0]) + Ranks(stop, workers[1..])
  }

  /** What is left to do: queued tasks, workers under way, and signals in flight. */
  function Measure<T>(s: State<T>): nat {
    2 * |s.queue| + Ranks(s.stop, s.workers) + 2 * s.notifyOnes + (if s.notifyAll then 1 else 0)
  }

  lemma {:induction false} RanksUpdate(stop: bool, workers: seq<Phase>, w: nat, p: Phase)
    requires w < |workers|
    ensures Ranks(stop, workers[w := p]) == Ranks(stop, workers) - Rank(stop, workers[w]) + Rank(stop, p)
  {
    if w == 0 {
      assert workers[w := p][1..] == workers[1..];
    } else {
      assert workers[w := p][1..] == workers[1..][w - 1 := p];
      RanksUpdate(stop, workers[1..], w - 1, p);
    }
  }

  lemma {:induction false} WakingAllLowersRanks(workers: seq<Phase>, woken: seq<Phase>)
    requires |woken| == |workers|
    requires forall w | 0 <= w < |workers| :: woken[w] == Wake(workers[w])
    ensures Ranks(true, woken) <= Ranks(true, workers)
  {
    if workers != [] {
      WakingAllLowersRanks(workers[1..], woken[1..]);
    }
  }

  /** Every step lowers what is left to do, except a spurious wakeup before `stop`, which adds exactly one. */
  lemma InternalStepLowersMeasure<T>(s: State<T>, a: Action<T>)
    requires Inv(s) && Enabled(s, a) && Internal(a)
    ensures a.Spurious? && !s.stop ==> Measure(Apply(s, a)) == Measure(s) + 1
    ensures !(a.Spurious? && !s.stop) ==> Measure(Apply(s, a)) < Measure(s)
  {
    var t := Apply(s, a);
    if a.NotifyAll? {
      WakingAllLowersRanks(s.workers, t.workers);
    } else if a.worker < |s.workers| {
      RanksUpdate(s.stop, s.workers, a.worker, t.workers[a.worker]);
      assert t.workers == s.workers[a.worker := t.workers[a.worker]];
    }
  }

  /**
   No schedule of internal steps is longer than what was left to do, and two more for every
   spurious wakeup before `stop`: the wakeup and the worker's way back to sleep.
   */
  lemma {:induction false} InternalSchedulesEnd<T>(s: State<T>, schedule: seq<Action<T>>)
    requires Inv(s) && InternalSchedule(s, schedule)
    ensures Possible(s, schedule) && Inv(Exec(s, schedule))
    ensures |schedule| + Measure(Exec(s, schedule)) <= Measure(s) + if s.stop then 0 else 2 * SpuriousWakeups(schedule)
    decreases |schedule|
  {
    if schedule != [] {
      InternalStepLowersMeasure(s, schedule[0]);
      StepKeepsInv(s, schedule[0]);
      InternalSchedulesEnd(Apply(s, schedule[0]), schedule[1..]);
    }
  }

  /** In a stopping pool that still has a worker in its loop some thread can move, without any spurious wakeup. */
  lemma SomeThreadCanMove<T(!new)>(s: State<T>)
    requires Inv(s) && s.stop && !AllExited(s)
    ensures exists a: Action<T> :: Driven(a) && Enabled(s, a)
  {
    var w :| 0 <= w < |s.workers| && s.workers[w] != Exited;
    var a: Action<T> :=
      if s.workers[w].Running? then Finish(w) else if s.workers[w] == Asleep then NotifyAll else Lock(w);
    assert Driven(a) && Enabled(s, a);
  }

  /** A pool with nothing left to do by itself has run everything, unless all its workers are gone. */
  lemma QuiescentMeansDone<T(!new)>(s: State<T>)
    requires Inv(s) && Quiescent(s)
    ensures s.queue == [] || AllExited(s)
    ensures forall k | 0 <= k < |s.dequeued| :: k in s.finished
    ensures s.stop ==> AllExited(s)
    ensures !s.stop ==> forall w | 0 <= w < |s.workers| :: s.workers[w] == Asleep
  {
    assert !Enabled(s, Action<T>.NotifyAll) by { assert Driven(Action<T>.NotifyAll); }
    forall w | 0 <= w < |s.workers|
      ensures s.workers[w] == (if s.stop then Exited else Asleep)
    {
      assert !Enabled(s, Action<T>.Lock(w)) by { assert Driven(Action<T>.Lock(w)); }
      assert !Enabled(s, Action<T>.Finish(w)) by { assert Driven(Action<T>.Finish(w)); }
    }
    if |s.workers| > 0 && !s.stop {
      assert s.workers[0] == Asleep;
      assert !Enabled(s, Action<T>.NotifyOne(0)) by { assert Driven(Action<T>.NotifyOne(0)); }
      if CountWoken(s.workers) > 0 {
        CountWokenPositive(s.workers);
      }
    }
  }

  /**
   `enqueue` never looks at `stop`. These are the tasks it takes when every worker has
   already left the loop.
   */
  function Stranded<T>(s: State<T>, schedule: seq<Action<T>>): seq<T>
    requires Possible(s, schedule)
    decreases |schedule|
  {
    if schedule == [] then []
    else
      (if AllExited(s) && schedule[0].Enqueue? && HasRoom(s) then [schedule[0].task] else [])
      + Stranded(Apply(s, schedule[0]), schedule[1..])
  }

  lemma {:induction false} LeftoverIsStranded<T>(s: State<T>, schedule: seq<Action<T>>)
    requires Inv(s) && Possible(s, schedule) && AllExited(Exec(s, schedule))
    ensures Exec(s, schedule).queue == (if AllExited(s) then s.queue else []) + Stranded(s, schedule)
    decreases |schedule|
  {
    if schedule != [] {
      var a, t := schedule[0], Apply(s, schedule[0]);
      StepKeepsInv(s, a);
      LeftoverIsStranded(t, schedule[1..]);
      LastExitFindsQueueEmpty(s, a);
    }
  }

  lemma LastExitFindsQueueEmpty<T>(s: State<T>, a: Action<T>)
    requires Inv(s) && Enabled(s, a)
    ensures AllExited(s) ==> AllExited(Apply(s, a))
    ensures !AllExited(s) && AllExited(Apply(s, a)) ==> Apply(s, a).queue == []
    ensures AllExited(s) && !(a.Enqueue? && HasRoom(s)) ==> Apply(s, a).queue == s.queue
  {
    var t := Apply(s, a);
    if !AllExited(s) && AllExited(t) {
      var w :| 0 <= w < |s.workers| && s.workers[w] != Exited;
      assert t.workers[w] == Exited;
      assert a.Lock?;
    }
  }

  /**
   When every worker has been joined: each task handed out has returned, hand-out followed
   the order of acceptance, and what is left is exactly the stranded tasks. So the
   destructor drains the queue if and only if no task was accepted after the last exit.
   */
  lemma JoinedPoolHasDrained<T>(threadCount: nat, schedule: seq<Action<T>>)
    requires Possible(Init(threadCount), schedule) && AllExited(Exec(Init(threadCount), schedule))
    ensures var s := Exec(Init(threadCount), schedule);
            && s.accepted == s.dequeued + Stranded(Init(threadCount), schedule)
            && (forall k | 0 <= k < |s.dequeued| :: k in s.finished)
            && (s.queue == [] <==> Stranded(Init(threadCount), schedule) == [])
  {
    var s := Exec(Init(threadCount), schedule);
    InitInv<T>(threadCount);
    EveryScheduleIsSafe(threadCount, schedule);
    LeftoverIsStranded(Init(threadCount), schedule);
  }

  /** A schedule on which a task is accepted and never run. */
  lemma EnqueueAfterShutdownIsLost<T>(task: T)
    ensures var schedule := [SetStop, NotifyAll, Lock(0), Enqueue(task)];
            && Possible(Init(1), schedule)
            && AllExited(Exec(Init(1), schedule))
            && Exec(Init(1), schedule).queue == [task]
            && Exec(Init(1), schedule).finished == {}
  {
    var schedule := [SetStop, NotifyAll, Lock(0), Enqueue(task)];
    var s1 := Apply(Init<T>(1), SetStop);
    var s2 := Apply(s1, NotifyAll);
    var s3 := Apply(s2, Lock(0));
    var s4 := Apply(s3, Enqueue(task));
    StepThen(s3, Enqueue(task), []);
    StepThen(s2, Lock(0), [Enqueue(task)]);
    StepThen(s1, NotifyAll, [Lock(0), Enqueue(task)]);
    StepThen(Init<T>(1), SetStop, [NotifyAll, Lock(0), Enqueue(task)]);
    assert schedule == [SetStop] + [NotifyAll, Lock(0), Enqueue(task)];
    assert [NotifyAll, Lock(0), Enqueue(task)] == [NotifyAll] + [Lock(0), Enqueue(task)];
    assert [Lock(0), Enqueue(task)] == [Lock(0)] + [Enqueue(task)];
    assert [Enqueue(task)] == [Enqueue(task)] + [];
  }

  lemma StepThen<T>(s: State<T>, a: Action<T>, rest: seq<Action<T>>)
    requires Enabled(s, a) && Possible(Apply(s, a), rest)
    ensures Possible(s, [a] + rest)
    ensures Exec(s, [a] + rest) == Exec(Apply(s, a), rest)
  {
    assert ([a] + rest)[1..] == rest;
  }

  /** Workers leave only after `stop`, so a pool with workers strands nothing that came before it. */
  lemma {:induction false} EnqueuesBeforeStopAreSafe<T>(s: State<T>, schedule: seq<Action<T>>)
    requires Inv(s) && Possible(s, schedule) && |s.workers| > 0
    requires s.stop ==> forall a | a in schedule :: !a.Enqueue?
    requires forall i, j | 0 <= i < j < |schedule| && schedule[i].SetStop? :: !schedule[j].Enqueue?
    ensures Stranded(s, schedule) == []
    decreases |schedule|
  {
    if schedule != [] {
      StepKeepsInv(s, schedule[0]);
      if schedule[0].SetStop? {
        forall a | a in schedule[1..] ensures !a.Enqueue? {
          var j :| 0 <= j < |schedule[1..]| && schedule[1..][j] == a;
          assert schedule[j + 1] == a;
        }
      }
      EnqueuesBeforeStopAreSafe(Apply(s, schedule[0]), schedule[1..]);
      if AllExited(s) {
        assert s.workers[0] == Exited;
        assert schedule[0] in schedule;
      }
    }
  }

  lemma {:induction false} InternalKeepsAccepted<T>(s: State<T>, schedule: seq<Action<T>>)
    requires InternalSchedule(s, schedule)
    ensures Possible(s, schedule)
    ensures Exec(s, schedule).accepted == s.accepted && Exec(s, schedule).stop == s.stop
    ensures |Exec(s, schedule).workers| == |s.workers|
    ensures forall a | a in schedule :: !a.Enqueue? && !a.SetStop?
    decreases |schedule|
  {
    if schedule != [] {
      InternalKeepsAccepted(Apply(s, schedule[0]), schedule[1..]);
    }
  }

  /**
   The pool makes progress whatever the interleaving. From a reachable state there are at
   most `Measure` steps inside it, not counting two for each spurious wakeup before `stop`.
   When no thread can move by itself, every accepted task has returned, provided some worker
   was still in its loop. If `stop` was set, all workers have left and the joins return, no
   matter whether any worker was ever woken spuriously; otherwise all are asleep over an
   empty queue.
   */
  lemma WorkGetsDone<T(!new)>(threadCount: nat, before: seq<Action<T>>, after: seq<Action<T>>)
    requires Possible(Init(threadCount), before)
    requires InternalSchedule(Exec(Init(threadCount), before), after)
    ensures var s := Exec(Init(threadCount), before);
            && Possible(s, after)
            && |after| <= Measure(s) + (if s.stop then 0 else 2 * SpuriousWakeups(after))
            && var t := Exec(s, after);
               Quiescent(t) && !AllExited(s) ==>
                 && t.queue == [] && t.accepted == t.dequeued == s.accepted
                 && (forall k | 0 <= k < |t.accepted| :: k in t.finished)
                 && forall w | 0 <= w < |t.workers| :: t.workers[w] == (if s.stop then Exited else Asleep)
  {
    EveryScheduleIsSafe(threadCount, before);
    var s := Exec(Init(threadCount), before);
    InternalSchedulesEnd(s, after);
    InternalKeepsAccepted(s, after);
    var t := Exec(s, after);
    if Quiescent(t) && !AllExited(s) {
      QuiescentMeansDone(t);
      if AllExited(t) {
        LeftoverIsStranded(s, after);
        InternalStrandsNothing(s, after);
      }
    }
  }

  lemma {:induction false} InternalStrandsNothing<T>(s: State<T>, schedule: seq<Action<T>>)
    requires InternalSchedule(s, schedule) && Possible(s, schedule)
    ensures Stranded(s, schedule) == []
    decreases |schedule|
  {
    if schedule != [] {
      InternalStrandsNothing(Apply(s, schedule[0]), schedule[1..]);
    }
  }

  lemma InternalStepOfShutdown<T>(s: State<T>, a: Action<T>)
    requires Inv(s) && Enabled(s, a) && Internal(a) && s.stop
    ensures Inv(Apply(s, a)) && Measure(Apply(s, a)) < Measure(s)
    ensures Apply(s, a).accepted == s.accepted && |Apply(s, a).workers| == |s.workers|
    ensures !AllExited(s) && AllExited(Apply(s, a)) ==> Apply(s, a).queue == []
  {
    StepKeepsInv(s, a);
    InternalStepLowersMeasure(s, a);
    LastExitFindsQueueEmpty(s, a);
  }
}
