/**
 What every step of the pool keeps, and what therefore holds after every schedule.
 */
module PoolSafety {
  import opened Pool

  /** FIFO hand-off with a bound: what was taken, then what is queued, is what was accepted. */
  predicate Fifo<T(==)>(s: State<T>) {
    && s.accepted == s.dequeued + s.queue
    && |s.queue| <= MAX_QUEUE_SIZE
  }

  /** Each ticket is being run by exactly the worker that took it, or has finished. */
  predicate ExactlyOnce<T>(s: State<T>) {
    && |s.owner| == |s.dequeued|
    && (forall k | 0 <= k < |s.owner| :: s.owner[k] < |s.workers|)
    && (forall k | k in s.finished :: k < |s.dequeued|)
    && (forall w | 0 <= w < |s.workers| && s.workers[w].Running? ::
          s.workers[w].ticket < |s.owner| && s.owner[s.workers[w].ticket] == w && s.workers[w].ticket !in s.finished)
    && (forall k | 0 <= k < |s.owner| && k !in s.finished :: s.workers[s.owner[k]] == Running(k))
  }

  /** Queued tasks are covered by signals in flight as long as anyone is asleep. */
  predicate NoLostWakeup<T>(s: State<T>) {
    && (SomeAsleep(s) ==> |s.queue| <= s.notifyOnes + CountWoken(s.workers))
    && (SomeAsleep(s) && s.stop ==> s.notifyAll)
  }

  predicate StopBeforeExit<T>(s: State<T>) {
    && (s.notifyAll ==> s.stop)
    && (forall w | 0 <= w < |s.workers| && s.workers[w] == Exited :: s.stop)
  }

  predicate Inv<T(==)>(s: State<T>) {
    Fifo(s) && ExactlyOnce(s) && NoLostWakeup(s) && StopBeforeExit(s)
  }

  lemma {:induction false} CountWokenUpdate(workers: seq<Phase>, w: nat, p: Phase)
    requires w < |workers|
    ensures CountWoken(workers[w := p]) ==
            CountWoken(workers) - (if workers[w] == Woken then 1 else 0) + (if p == Woken then 1 else 0)
  {
    if w == 0 {
      assert workers[w := p][1..] == workers[1..];
    } else {
      assert workers[w := p][1..] == workers[1..][w - 1 := p];
      CountWokenUpdate(workers[1..], w - 1, p);
    }
  }

  /** enqueue has room below a thousand queued tasks, and takes the task to the end of the queue then. */
  lemma EnqueueTakesBelow1000<T>(s: State<T>, task: T)
    ensures HasRoom(s) <==> |s.queue| < 1000
    ensures |s.queue| < 1000 ==>
              Apply(s, Enqueue(task)) ==
              s.(queue := s.queue + [task], accepted := s.accepted + [task], notifyOnes := s.notifyOnes + 1)
    ensures |s.queue| >= 1000 ==> Apply(s, Enqueue(task)) == s
  {
  }

  lemma InitInv<T>(threadCount: nat)
    ensures Inv(Init<T>(threadCount))
  {
  }

  lemma StepKeepsNoLostWakeup<T>(s: State<T>, a: Action<T>)
    requires Inv(s) && Enabled(s, a)
    ensures NoLostWakeup(Apply(s, a))
  {
    var t := Apply(s, a);
    if t.workers == s.workers {
    } else if a.NotifyAll? {
      assert !SomeAsleep(t);
    } else {
      var w := a.worker;
      CountWokenUpdate(s.workers, w, t.workers[w]);
      if SomeAsleep(t) && t.workers[w] != Asleep {
        var v :| 0 <= v < |t.workers| && t.workers[v] == Asleep;
        assert s.workers[v] == Asleep;
      }
    }
  }

  lemma StepKeepsFifo<T>(s: State<T>, a: Action<T>)
    requires Fifo(s) && Enabled(s, a)
    ensures Fifo(Apply(s, a))
  {
    if a.Lock? && s.queue != [] {
      assert s.queue == [s.queue[0]] + s.queue[1..];
    }
  }

  lemma StepKeepsStopBeforeExit<T>(s: State<T>, a: Action<T>)
    requires StopBeforeExit(s) && Enabled(s, a)
    ensures StopBeforeExit(Apply(s, a))
  {
  }

  /** Steps that neither hand out nor finish a ticket only move workers between the other phases. */
  lemma SameTickets<T>(s: State<T>, t: State<T>)
    requires ExactlyOnce(s)
    requires t.dequeued == s.dequeued && t.owner == s.owner && t.finished == s.finished
    requires |t.workers| == |s.workers|
    requires forall w | 0 <= w < |s.workers| ::
               t.workers[w] == s.workers[w] || !(t.workers[w].Running? || s.workers[w].Running?)
    ensures ExactlyOnce(t)
  {
  }

  lemma TakingKeepsExactlyOnce<T>(s: State<T>, w: nat)
    requires ExactlyOnce(s) && w < |s.workers| && !s.workers[w].Running? && s.queue != []
    ensures ExactlyOnce(LockStep(s, w))
  {
  }

  lemma FinishingKeepsExactlyOnce<T>(s: State<T>, w: nat)
    requires ExactlyOnce(s) && w < |s.workers| && s.workers[w].Running?
    ensures ExactlyOnce(Apply(s, Finish(w)))
  {
  }

  lemma StepKeepsExactlyOnce<T>(s: State<T>, a: Action<T>)
    requires ExactlyOnce(s) && Enabled(s, a)
    ensures ExactlyOnce(Apply(s, a))
  {
    if a.Lock? && s.queue != [] {
      TakingKeepsExactlyOnce(s, a.worker);
    } else if a.Finish? {
      FinishingKeepsExactlyOnce(s, a.worker);
    } else {
      SameTickets(s, Apply(s, a));
    }
  }

  lemma StepKeepsInv<T>(s: State<T>, a: Action<T>)
    requires Inv(s) && Enabled(s, a)
    ensures Inv(Apply(s, a))
  {
    StepKeepsNoLostWakeup(s, a);
    StepKeepsExactlyOnce(s, a);
    StepKeepsFifo(s, a);
    StepKeepsStopBeforeExit(s, a);
  }

  lemma {:induction false} ExecKeepsInv<T>(s: State<T>, schedule: seq<Action<T>>)
    requires Inv(s) && Possible(s, schedule)
    ensures Inv(Exec(s, schedule))
    decreases |schedule|
  {
    if schedule != [] {
      StepKeepsInv(s, schedule[0]);
      ExecKeepsInv(Apply(s, schedule[0]), schedule[1..]);
    }
  }

  /** Every schedule of any number of workers and enqueuers, with any spurious wakeups, keeps all four. */
  lemma EveryScheduleIsSafe<T>(threadCount: nat, schedule: seq<Action<T>>)
    requires Possible(Init(threadCount), schedule)
    ensures var s := Exec(Init(threadCount), schedule);
            Inv(s) && |s.workers| == threadCount && s.accepted == s.dequeued + s.queue && |s.queue| <= 1000
  {
    InitInv<T>(threadCount);
    ExecKeepsInv(Init(threadCount), schedule);
    ExecKeepsThreadCount(Init(threadCount), schedule);
  }

  lemma {:induction false} ExecKeepsThreadCount<T>(s: State<T>, schedule: seq<Action<T>>)
    requires Possible(s, schedule)
    ensures |Exec(s, schedule).workers| == |s.workers|
    decreases |schedule|
  {
    if schedule != [] {
      ExecKeepsThreadCount(Apply(s, schedule[0]), schedule[1..]);
    }
  }

  lemma {:induction false} CountWokenPositive(workers: seq<Phase>)
    requires CountWoken(workers) > 0
    ensures exists w | 0 <= w < |workers| :: workers[w] == Woken
  {
    if workers[0] != Woken {
      CountWokenPositive(workers[1..]);
      var w :| 0 <= w < |workers[1..]| && workers[1..][w] == Woken;
      assert workers[w + 1] == Woken;
    }
  }

  /**
   Tasks never sit in the queue while nobody will come for them: in every reachable
   state with a queued task, some worker is on its way to the mutex or at work, or an
   enqueuer is about to signal a sleeper, or the destructor is about to signal all, or
   every worker has left the loop.
   */
  lemma QueuedTasksAreAttended<T>(threadCount: nat, schedule: seq<Action<T>>)
    requires Possible(Init(threadCount), schedule)
    requires Exec(Init(threadCount), schedule).queue != []
    ensures var s := Exec(Init(threadCount), schedule);
            || AllExited(s)
            || (exists w | 0 <= w < |s.workers| ::
                  s.workers[w] == Ready || s.workers[w] == Woken || s.workers[w].Running?)
            || (SomeAsleep(s) && (s.notifyOnes >= |s.queue| || s.notifyAll))
  {
    EveryScheduleIsSafe(threadCount, schedule);
    var s := Exec(Init(threadCount), schedule);
    if CountWoken(s.workers) > 0 {
      CountWokenPositive(s.workers);
    } else if !AllExited(s) && !SomeAsleep(s) {
      var w :| 0 <= w < threadCount && s.workers[w] != Exited;
    }
  }

  /** Two workers never run the same task, and no task is run again after it returned. */
  lemma TasksAreHandedOutOnce<T>(threadCount: nat, schedule: seq<Action<T>>, w: nat, v: nat)
    requires Possible(Init(threadCount), schedule)
    requires w < threadCount && v < threadCount && w != v
    ensures var s := Exec(Init(threadCount), schedule);
            && |s.workers| == threadCount
            && s.dequeued <= s.accepted
            && (s.workers[w].Running? ==> s.workers[w].ticket !in s.finished)
            && (s.workers[w].Running? && s.workers[v].Running? ==> s.workers[w].ticket != s.workers[v].ticket)
  {
    EveryScheduleIsSafe(threadCount, schedule);
  }
}
