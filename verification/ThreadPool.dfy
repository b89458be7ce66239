/**
 The `ThreadPool` object of Version1/src/Server.cpp. Each method is one atomic step of one
 thread: a mutex-protected region, a notification, the return of a task, or an atomic
 increment. `View` ties the fields to the step system in `Pool`.
 */
module ThreadPools {
  import opened Common
  import opened Pool
  import opened PoolSafety
  import opened PoolShutdown

  /** What `++` on a `std::atomic<int>` leaves behind: 32-bit two's complement, wrapping. */
  function Wrap32(n: int): int {
    (n + 0x8000_0000) % 0x1_0000_0000 - 0x8000_0000
  }

  /** The counter is the 32-bit signed number that is congruent to the count. */
  lemma WrapIsSigned32(n: int)
    ensures -0x8000_0000 <= Wrap32(n) <= 0x7FFF_FFFF
    ensures (Wrap32(n) - n) % 0x1_0000_0000 == 0
  {
    var m, x := 0x1_0000_0000, n + 0x8000_0000;
    assert x == m * (x / m) + x % m;
    assert Wrap32(n) - n == m * -(x / m);
  }

  class ThreadPool<T(==, !new)> {
    var workers: seq<Phase>
    var tasks: seq<T>
    var stop: bool
    var notifyOnes: nat
    var notifyAll: bool
    var requestCounter: int

    // history, see State
    var accepted: seq<T>
    var dequeued: seq<T>
    var owner: seq<nat>
    var finished: set<nat>

    function View(): State<T>
      reads this
    {
      State(workers, tasks, stop, notifyOnes, notifyAll, accepted, dequeued, owner, finished)
    }

    constructor (threadCount: nat)
      ensures View() == Init(threadCount)
      ensures requestCounter == 0
    {
      workers := seq(threadCount, _ => Ready);
      tasks, stop, notifyOnes, notifyAll, requestCounter := [], false, 0, false, 0;
      accepted, dequeued, owner, finished := [], [], [], {};
    }

    /** The mutex-protected region at the top of a worker's loop; returns the task it goes on to run. */
    method LockAndTake(w: nat) returns (task: Option<T>)
      requires Enabled(View(), Lock(w))
      modifies this
      ensures View() == Apply(old(View()), Lock(w)) && requestCounter == old(requestCounter)
      ensures task == if workers[w].Running? then Some(old(tasks)[0]) else None
      ensures task.Some? <==> old(tasks) != []
      ensures task.Some? ==>
                && old(tasks) == [task.value] + tasks && dequeued == old(dequeued) + [task.value]
                && workers == old(workers)[w := Running(|old(dequeued)|)] && owner == old(owner) + [w]
      ensures task.None? ==> tasks == [] && workers == old(workers)[w := if stop then Exited else Asleep]
    {
      task := None;
      if !(stop || tasks != []) {
        workers := workers[w := Asleep];
      } else if stop && tasks == [] {
        workers := workers[w := Exited];
      } else {
        task := Some(tasks[0]);
        workers := workers[w := Running(|dequeued|)];
        dequeued, owner := dequeued + [tasks[0]], owner + [w];
        tasks := tasks[1..];
      }
    }

    method FinishTask(w: nat)
      requires Enabled(View(), Finish(w))
      modifies this
      ensures View() == Apply(old(View()), Finish(w)) && requestCounter == old(requestCounter)
      ensures workers == old(workers)[w := Ready] && finished == old(finished) + {old(workers)[w].ticket}
    {
      finished := finished + {workers[w].ticket};
      workers := workers[w := Ready];
    }

    method WakeSpuriously(w: nat)
      requires Enabled(View(), Spurious(w))
      modifies this
      ensures View() == Apply(old(View()), Spurious(w)) && requestCounter == old(requestCounter)
    {
      workers := workers[w := Woken];
    }

    /** The mutex-protected half of `enqueue`; `NotifyOneWorker` is the rest of an accepted call. */
    method TryEnqueue(task: T) returns (ok: bool)
      modifies this
      ensures View() == Apply(old(View()), Enqueue(task)) && requestCounter == old(requestCounter)
      ensures ok <==> old(|tasks|) < 1000
      ensures !ok ==> unchanged(this)
      ensures ok ==>
                && tasks == old(tasks) + [task] && accepted == old(accepted) + [task]
                && notifyOnes == old(notifyOnes) + 1 && notifyAll == old(notifyAll) && stop == old(stop)
                && workers == old(workers) && dequeued == old(dequeued) && finished == old(finished)
    {
      if |tasks| >= MAX_QUEUE_SIZE {
        return false;
      }
      tasks := tasks + [task];
      accepted := accepted + [task];
      notifyOnes := notifyOnes + 1;
      ok := true;
    }

    method NotifyOneWorker(w: nat)
      requires Enabled(View(), NotifyOne(w))
      modifies this
      ensures View() == Apply(old(View()), NotifyOne(w)) && requestCounter == old(requestCounter)
      ensures notifyOnes == old(notifyOnes) - 1 && tasks == old(tasks)
      ensures w < |workers| && old(workers)[w] == Asleep ==> workers == old(workers)[w := Woken]
      ensures !old(SomeAsleep(View())) ==> workers == old(workers)
    {
      notifyOnes := notifyOnes - 1;
      if w < |workers| {
        workers := workers[w := Wake(workers[w])];
      }
    }

    method BeginShutdown()
      requires !stop
      modifies this
      ensures View() == Apply(old(View()), SetStop) && requestCounter == old(requestCounter)
      ensures stop && notifyAll && workers == old(workers) && tasks == old(tasks)
    {
      stop, notifyAll := true, true;
    }

    method NotifyAllWorkers()
      requires notifyAll
      modifies this
      ensures View() == Apply(old(View()), NotifyAll) && requestCounter == old(requestCounter)
      ensures !notifyAll && Asleep !in workers && tasks == old(tasks) && |workers| == old(|workers|)
      ensures forall i | 0 <= i < |workers| ::
                workers[i] == old(workers)[i] || (old(workers)[i] == Asleep && workers[i] == Woken)
    {
      notifyAll := false;
      workers := WakeAll(workers);
    }

    method GetRequestNumber() returns (n: int)
      modifies this`requestCounter
      ensures n == requestCounter == Wrap32(old(requestCounter) + 1)
    {
      requestCounter := Wrap32(requestCounter + 1);
      n := requestCounter;
    }

    method Perform(a: Action<T>)
      requires Enabled(View(), a)
      modifies this
      ensures View() == Apply(old(View()), a) && requestCounter == old(requestCounter)
    {
      match a
      case Lock(w) => var _ := LockAndTake(w);
      case Finish(w) => FinishTask(w);
      case Spurious(w) => WakeSpuriously(w);
      case NotifyOne(w) => NotifyOneWorker(w);
      case Enqueue(task) => var _ := TryEnqueue(task);
      case SetStop => BeginShutdown();
      case NotifyAll => NotifyAllWorkers();
    }

    /** Any interleaving of the threads takes the object where the step system goes. */
    method Run(schedule: seq<Action<T>>)
      requires Possible(View(), schedule)
      modifies this
      ensures View() == Exec(old(View()), schedule)
    {
      var i := 0;
      while i < |schedule|
        invariant 0 <= i <= |schedule|
        invariant Possible(View(), schedule[i..])
        invariant Exec(View(), schedule[i..]) == Exec(old(View()), schedule)
      {
        assert schedule[i..][1..] == schedule[i + 1..];
        Perform(schedule[i]);
        i := i + 1;
      }
    }

    /**
     Some thread of a stopping pool takes its next step. The cases are not exclusive, so any
     interleaving is possible; that one of them applies is part of what is proved, and no
     spurious wakeup is needed for it.
     */
    method StepAnyThread()
      requires Inv(View()) && stop && !AllExited(View())
      modifies this
      ensures Inv(View()) && Measure(View()) < Measure(old(View()))
      ensures stop && accepted == old(accepted) && |workers| == old(|workers|)
      ensures AllExited(View()) ==> tasks == []
    {
      ghost var s := View();
      ghost var a: Action<T>;
      SomeThreadCanMove(s);
      if {
        case w: nat :| w < |workers| && (workers[w] == Ready || workers[w] == Woken) =>
          a := Lock(w);
          var _ := LockAndTake(w);
        case w: nat :| w < |workers| && workers[w].Running? =>
          a := Finish(w);
          FinishTask(w);
        case w: nat :| w < |workers| && workers[w] == Asleep && notifyOnes > 0 =>
          a := NotifyOne(w);
          NotifyOneWorker(w);
        case notifyOnes > 0 && !SomeAsleep(View()) =>
          a := NotifyOne(0);
          NotifyOneWorker(0);
        case notifyAll =>
          a := NotifyAll;
          NotifyAllWorkers();
      }
      InternalStepOfShutdown(s, a);
    }

    /** The platform wakes any number of sleepers without a notification. */
    method WakeAnyoneSpuriously()
      requires Inv(View()) && stop
      modifies this
      ensures Inv(View()) && Measure(View()) <= Measure(old(View()))
      ensures stop && accepted == old(accepted) && tasks == old(tasks) && |workers| == old(|workers|)
      ensures AllExited(View()) <==> AllExited(old(View()))
    {
      var more: bool := *;
      while more
        invariant Inv(View()) && Measure(View()) <= Measure(old(View()))
        invariant stop && accepted == old(accepted) && tasks == old(tasks) && |workers| == old(|workers|)
        invariant AllExited(View()) <==> AllExited(old(View()))
        decreases Measure(View()), more
      {
        more := false;
        if w: nat :| w < |workers| && workers[w] == Asleep {
          ghost var s := View();
          WakeSpuriously(w);
          InternalStepOfShutdown(s, Spurious(w));
          assert workers[w] == Woken;
          more := *;
        }
      }
    }

    /**
     The destructor. After `stop` is set the threads may interleave in any way, the
     destructor's own `notify_all` included, and the platform may wake sleepers or not; the
     joins return when all workers have left. Some thread can always move by itself until
     then, every move leaves less to do, and at the end every task that was ever accepted
     has run.
     */
    method Destroy()
      requires Inv(View()) && !stop
      modifies this
      ensures stop && AllExited(View()) && accepted == old(accepted)
      ensures tasks == if old(|workers|) == 0 then old(tasks) else []
      ensures old(|workers|) > 0 ==> dequeued == accepted && forall k | 0 <= k < |accepted| :: k in finished
    {
      BeginShutdown();
      StepKeepsInv(old(View()), SetStop);
      while !AllExited(View())
        invariant Inv(View()) && stop && accepted == old(accepted)
        invariant |workers| == old(|workers|)
        invariant |workers| == 0 ==> tasks == old(tasks)
        invariant |workers| > 0 && AllExited(View()) ==> tasks == []
        decreases Measure(View())
      {
        WakeAnyoneSpuriously();
        StepAnyThread();
      }
    }
  }
}
