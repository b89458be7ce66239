/**
 The thread pool of Version1/src/Server.cpp as a step system.

 Every mutex-protected region of the source is one atomic step. A worker that
 calls `condition.wait` with a false predicate releases the mutex and falls
 asleep in the same step; a notification or a spurious wakeup makes it `Woken`,
 and a woken worker evaluates the predicate again under the mutex, exactly like
 a worker that has just come back to the top of its loop.
 */
module Pool {

  const MAX_QUEUE_SIZE: nat := 1000

  /** Where one worker thread is in its loop. A ticket is the position of a task in the order of hand-off. */
  datatype Phase =
    | Ready                 // about to lock the mutex
    | Asleep                // blocked on the condition variable
    | Woken                 // unblocked, has not locked the mutex again yet
    | Running(ticket: nat)  // executing a task outside the mutex
    | Exited                // left the loop

  datatype State<T> = State(
    workers: seq<Phase>,
    queue: seq<T>,       // tasks
    stop: bool,          // stop
    notifyOnes: nat,     // enqueuers that have pushed and not yet called notify_one
    notifyAll: bool,     // the destructor has set stop and not yet called notify_all
    accepted: seq<T>,    // history: every task that enqueue took, in order
    dequeued: seq<T>,    // history: every task a worker took, in order
    owner: seq<nat>,     // history: which worker took the task of each ticket
    finished: set<nat>   // history: tickets whose task has returned
  )

  datatype Action<T> =
    | Lock(worker: nat)        // lock, test the predicate, then sleep, leave or take the front task
    | Finish(worker: nat)      // task() returns
    | Spurious(worker: nat)    // the condition variable wakes a worker without any notification
    | NotifyOne(worker: nat)   // notify_one, with the sleeper it picks when there is one
    | Enqueue(task: T)         // the mutex-protected half of enqueue
    | SetStop                  // the mutex-protected half of the destructor
    | NotifyAll                // the destructor's notify_all

  function Init<T>(threadCount: nat): State<T> {
    State(seq(threadCount, _ => Ready), [], false, 0, false, [], [], [], {})
  }

  predicate SomeAsleep<T>(s: State<T>) {
    exists w | 0 <= w < |s.workers| :: s.workers[w] == Asleep
  }

  predicate AllExited<T>(s: State<T>) {
    forall w | 0 <= w < |s.workers| :: s.workers[w] == Exited
  }

  /** The result of `enqueue`: the queue has room. */
  predicate HasRoom<T>(s: State<T>) {
    |s.queue| < MAX_QUEUE_SIZE
  }

  predicate Enabled<T>(s: State<T>, a: Action<T>) {
    match a
    case Lock(w) => w < |s.workers| && (s.workers[w] == Ready || s.workers[w] == Woken)
    case Finish(w) => w < |s.workers| && s.workers[w].Running?
    case Spurious(w) => w < |s.workers| && s.workers[w] == Asleep
    case NotifyOne(w) => s.notifyOnes > 0 && (SomeAsleep(s) ==> w < |s.workers| && s.workers[w] == Asleep)
    case Enqueue(_) => true
    case SetStop => !s.stop
    case NotifyAll => s.notifyAll
  }

  function Wake(p: Phase): Phase {
    if p == Asleep then Woken else p
  }

  function WakeAll(workers: seq<Phase>): (woken: seq<Phase>)
    ensures |woken| == |workers|
    ensures forall w | 0 <= w < |workers| :: woken[w] == Wake(workers[w])
  {
    seq(|workers|, w requires 0 <= w < |workers| => Wake(workers[w]))
  }

  function LockStep<T>(s: State<T>, w: nat): State<T>
    requires w < |s.workers|
  {
    if !s.stop && s.queue == [] then
      s.(workers := s.workers[w := Asleep])
    else if s.queue == [] then
      s.(workers := s.workers[w := Exited])
    else
      s.(workers := s.workers[w := Running(|s.dequeued|)],
         queue := s.queue[1..],
         dequeued := s.dequeued + [s.queue[0]],
         owner := s.owner + [w])
  }

  function Apply<T>(s: State<T>, a: Action<T>): State<T>
    requires Enabled(s, a)
  {
    match a
    case Lock(w) => LockStep(s, w)
    case Finish(w) =>
      s.(workers := s.workers[w := Ready], finished := s.finished + {s.workers[w].ticket})
    case Spurious(w) => s.(workers := s.workers[w := Woken])
    case NotifyOne(w) =>
      var t := s.(notifyOnes := s.notifyOnes - 1);
      if w < |s.workers| then t.(workers := s.workers[w := Wake(s.workers[w])]) else t
    case Enqueue(task) =>
      if HasRoom(s) then
        s.(queue := s.queue + [task], accepted := s.accepted + [task], notifyOnes := s.notifyOnes + 1)
      else s
    case SetStop => s.(stop := true, notifyAll := true)
    case NotifyAll =>
      s.(notifyAll := false, workers := WakeAll(s.workers))
  }

  /** A schedule: any interleaving of the threads' steps that the state allows. */
  predicate Possible<T>(s: State<T>, schedule: seq<Action<T>>)
    decreases |schedule|
  {
    schedule == [] || (Enabled(s, schedule[0]) && Possible(Apply(s, schedule[0]), schedule[1..]))
  }

  function Exec<T>(s: State<T>, schedule: seq<Action<T>>): State<T>
    requires Possible(s, schedule)
    decreases |schedule|
  {
    if schedule == [] then s else Exec(Apply(s, schedule[0]), schedule[1..])
  }

  /** How many workers have been unblocked and not yet locked the mutex again. */
  function CountWoken(workers: seq<Phase>): nat {
    if workers == [] then 0
    else (if workers[0] == Woken then 1 else 0) + CountWoken(workers[1..])
  }
}
