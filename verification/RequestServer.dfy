/**
 `main` and `processClient` of Version1/src/Server.cpp around the pool: one accept loop,
 any number of worker threads, and the kernel's table of client descriptors.

 Every return of accept() gets its own client number, because the kernel may reuse a
 descriptor that was closed. A task is the client number its lambda captured.
 */
module RequestServer {
  import opened Pool
  import opened PoolSafety
  import opened ThreadPools

  datatype MainPhase =
    | Accepting             // in accept()
    | Offering(client: nat) // about to call enqueue
    | Refusing(client: nat) // enqueue returned false; about to send "busy" and close

  datatype Closer = ByMain | ByWorker(worker: nat)

  datatype Server = Server(
    pool: State<nat>,
    open: set<int>,             // client descriptors open in the kernel
    main: MainPhase,
    counter: int,               // requestCounter
    clients: seq<int>,          // history: what each accept() returned
    refused: set<nat>,          // history: clients enqueue turned away
    closes: map<nat, Closer>,   // history: clients whose close() was called, and by whom
    issued: seq<int>            // history: request numbers in the order they were handed out
  )

  datatype Event =
    | Accept(fd: int)                // accept() returns; main does not look for -1
    | Offer                          // pool.enqueue
    | Refuse                         // send "Server busy", close
    | Request(worker: nat)           // recv > 0: take a request number and answer
    | HangUp(worker: nat)            // recv <= 0: close, return from the task
    | PoolStep(action: Action<nat>)  // the pool's own steps

  function Start(threadCount: nat): Server {
    Server(Init(threadCount), {}, Accepting, 0, [], {}, map[], [])
  }

  predicate Serving(s: Server, w: nat) {
    w < |s.pool.workers| && s.pool.workers[w].Running? && s.pool.workers[w].ticket < |s.pool.dequeued|
  }

  /** The client a serving worker was handed. */
  function ServedBy(s: Server, w: nat): nat
    requires Serving(s, w)
  {
    s.pool.dequeued[s.pool.workers[w].ticket]
  }

  predicate CanHappen(s: Server, e: Event) {
    match e
    case Accept(fd) => s.main == Accepting && (fd == -1 || (fd >= 0 && fd !in s.open))
    case Offer => s.main.Offering?
    case Refuse => s.main.Refusing?
    case Request(w) => Serving(s, w)
    case HangUp(w) => Serving(s, w)
    case PoolStep(a) => (a.Lock? || a.NotifyOne? || a.Spurious?) && Enabled(s.pool, a)
  }

  function Descriptor(s: Server, client: nat): int {
    if client < |s.clients| then s.clients[client] else -1
  }

  function Close(s: Server, client: nat, closer: Closer): Server {
    s.(closes := s.closes[client := closer],
       open := s.open - {Descriptor(s, client)})
  }

  function Happen(s: Server, e: Event): Server
    requires CanHappen(s, e)
  {
    match e
    case Accept(fd) =>
      s.(main := Offering(|s.clients|), clients := s.clients + [fd],
         open := if fd == -1 then s.open else s.open + {fd})
    case Offer =>
      if HasRoom(s.pool) then
        s.(pool := Apply(s.pool, Enqueue(s.main.client)), main := Accepting)
      else
        s.(main := Refusing(s.main.client), refused := s.refused + {s.main.client})
    case Refuse => Close(s, s.main.client, ByMain).(main := Accepting)
    case Request(w) =>
      s.(counter := Wrap32(s.counter + 1), issued := s.issued + [Wrap32(s.counter + 1)])
    case HangUp(w) =>
      Close(s, ServedBy(s, w), ByWorker(w)).(pool := Apply(s.pool, Finish(w)))
    case PoolStep(a) => s.(pool := Apply(s.pool, a))
  }

  /** The three places a client can be: with main, turned away, or in the pool's hands. */
  predicate Accounted(s: Server) {
    && (forall k | 0 <= k < |s.pool.accepted| :: s.pool.accepted[k] < |s.clients| && s.pool.accepted[k] !in s.refused)
    && (forall j, k | 0 <= j < k < |s.pool.accepted| :: s.pool.accepted[j] != s.pool.accepted[k])
    && (forall c | c in s.refused :: c < |s.clients|)
    && (s.main.Offering? ==>
          s.main.client < |s.clients| && s.main.client !in s.refused && s.main.client !in s.pool.accepted)
    && (s.main.Refusing? ==> s.main.client in s.refused)
    && (forall c | 0 <= c < |s.clients| :: c in s.pool.accepted || c in s.refused || s.main == Offering(c))
  }

  /** Who closed whom: main the clients it refused, and each worker the clients whose task it finished. */
  ghost predicate ClosedByOwner(s: Server) {
    && (forall c | c in s.closes && s.closes[c] == ByMain :: c in s.refused && s.main != Refusing(c))
    && (forall c | c in s.refused && s.main != Refusing(c) :: c in s.closes && s.closes[c] == ByMain)
    && (forall c | c in s.closes && s.closes[c].ByWorker? ::
          exists k | k in s.pool.finished :: k < |s.pool.accepted| && s.pool.accepted[k] == c)
    && (forall k | k in s.pool.finished && k < |s.pool.accepted| && k < |s.pool.owner| ::
          s.pool.accepted[k] in s.closes && s.closes[s.pool.accepted[k]] == ByWorker(s.pool.owner[k]))
  }

  predicate Unclosed(s: Server, c: nat) {
    c < |s.clients| && s.clients[c] != -1 && c !in s.closes
  }

  /** The kernel's table holds exactly the descriptors of clients not yet closed, each for one client. */
  ghost predicate TableMatches(s: Server) {
    && (forall c | 0 <= c < |s.clients| :: s.clients[c] >= -1)
    && (forall c: nat | Unclosed(s, c) :: s.clients[c] in s.open)
    && (forall c: nat, d: nat | Unclosed(s, c) && Unclosed(s, d) && c != d :: s.clients[c] != s.clients[d])
    && (forall fd | fd in s.open :: exists c: nat :: Unclosed(s, c) && s.clients[c] == fd)
  }

  predicate NumbersMatch(s: Server) {
    && s.counter == Wrap32(|s.issued|)
    && forall i | 0 <= i < |s.issued| :: s.issued[i] == Wrap32(i + 1)
  }

  ghost predicate Sound(s: Server) {
    Inv(s.pool) && Accounted(s) && ClosedByOwner(s) && TableMatches(s) && NumbersMatch(s)
  }

  lemma StartSound(threadCount: nat)
    ensures Sound(Start(threadCount))
  {
    hide Inv;
    InitInv<nat>(threadCount);
    var s := Start(threadCount);
    assert Accounted(s) && ClosedByOwner(s);
    assert TableMatches(s) && NumbersMatch(s);
  }

  /** The pool's own steps neither accept nor finish tasks. */
  lemma PoolStepHistory(p: State<nat>, a: Action<nat>)
    requires Enabled(p, a) && (a.Lock? || a.NotifyOne? || a.Spurious?)
    ensures var q := Apply(p, a);
            q.accepted == p.accepted && q.finished == p.finished && p.owner <= q.owner
  {
  }

  lemma OfferKeepsAccounted(s: Server)
    requires Accounted(s) && s.main.Offering?
    ensures Accounted(Happen(s, Offer))
  {
    var t := Happen(s, Offer);
    if HasRoom(s.pool) {
      assert t.pool.accepted == s.pool.accepted + [s.main.client];
    }
  }

  /** main hands its client to the pool when fewer than a thousand wait, and goes on to refuse it otherwise. */
  lemma OfferTakesBelow1000(s: Server)
    requires s.main.Offering?
    ensures var t, client := Happen(s, Offer), s.main.client;
            if |s.pool.queue| < 1000 then
              && t.main == Accepting && t.refused == s.refused
              && t.pool.queue == s.pool.queue + [client] && t.pool.accepted == s.pool.accepted + [client]
            else
              t.main == Refusing(client) && client in t.refused && t.pool == s.pool
  {
    EnqueueTakesBelow1000(s.pool, s.main.client);
  }

  lemma HappenKeepsAccounted(s: Server, e: Event)
    requires Accounted(s) && CanHappen(s, e)
    ensures Accounted(Happen(s, e))
  {
    if e.Offer? {
      OfferKeepsAccounted(s);
    } else {
      if e.PoolStep? { PoolStepHistory(s.pool, e.action); }
      assert Happen(s, e).pool.accepted == s.pool.accepted;
    }
  }

  lemma HangUpKeepsClosedByOwner(s: Server, w: nat)
    requires Inv(s.pool) && Accounted(s) && ClosedByOwner(s) && CanHappen(s, HangUp(w))
    ensures ClosedByOwner(Happen(s, HangUp(w)))
  {
    var t := Happen(s, HangUp(w));
    var k := s.pool.workers[w].ticket;
    assert ServedBy(s, w) == s.pool.accepted[k];
    forall c | c in t.closes && t.closes[c].ByWorker?
      ensures exists j | j in t.pool.finished :: j < |t.pool.accepted| && t.pool.accepted[j] == c
    {
      if c == s.pool.accepted[k] {
        assert k in t.pool.finished;
      } else {
        var j :| j in s.pool.finished && j < |s.pool.accepted| && s.pool.accepted[j] == c;
        assert j in t.pool.finished;
      }
    }
  }

  lemma HappenKeepsClosedByOwner(s: Server, e: Event)
    requires Inv(s.pool) && Accounted(s) && ClosedByOwner(s) && CanHappen(s, e)
    ensures ClosedByOwner(Happen(s, e))
  {
    match e {
      case HangUp(w) => HangUpKeepsClosedByOwner(s, w);
      case PoolStep(a) => PoolStepHistory(s.pool, a);
      case Offer => OfferKeepsClosedByOwner(s);
      case _ =>
    }
  }

  lemma OfferKeepsClosedByOwner(s: Server)
    requires Inv(s.pool) && Accounted(s) && ClosedByOwner(s) && s.main.Offering?
    ensures ClosedByOwner(Happen(s, Offer))
  {
    var t := Happen(s, Offer);
    assert s.pool.accepted <= t.pool.accepted && t.pool.finished == s.pool.finished;
    assert t.pool.owner == s.pool.owner && |s.pool.owner| <= |s.pool.accepted|;
  }

  /** The client a close is for has not been closed before. */
  lemma ServedClientIsUnclosed(s: Server, w: nat)
    requires Inv(s.pool) && Accounted(s) && ClosedByOwner(s) && Serving(s, w)
    ensures ServedBy(s, w) < |s.clients| && ServedBy(s, w) !in s.closes
  {
    var k, c := s.pool.workers[w].ticket, ServedBy(s, w);
    assert c == s.pool.accepted[k] && k !in s.pool.finished && c !in s.refused;
    forall j | j in s.pool.finished && j < |s.pool.accepted|
      ensures s.pool.accepted[j] != c
    {
      assert j != k;
    }
  }

  lemma ClosingKeepsTable(s: Server, client: nat, closer: Closer)
    requires TableMatches(s) && client < |s.clients| && client !in s.closes
    ensures TableMatches(Close(s, client, closer))
  {
    var t := Close(s, client, closer);
    assert forall c: nat :: Unclosed(t, c) <==> Unclosed(s, c) && c != client;
    forall fd | fd in t.open
      ensures exists c: nat :: Unclosed(t, c) && t.clients[c] == fd
    {
      var c: nat :| Unclosed(s, c) && s.clients[c] == fd;
      assert Unclosed(t, c);
    }
    if s.clients[client] != -1 { assert Unclosed(s, client); }
  }

  lemma AcceptKeepsTable(s: Server, fd: int)
    requires TableMatches(s) && CanHappen(s, Accept(fd))
    requires forall c | c in s.closes :: c < |s.clients|
    ensures TableMatches(Happen(s, Accept(fd)))
  {
    var t := Happen(s, Accept(fd));
    var n := |s.clients|;
    assert t.clients[..n] == s.clients && t.clients[n] == fd && n !in s.closes;
    forall c: nat | Unclosed(t, c)
      ensures if c == n then fd != -1 else Unclosed(s, c) && t.clients[c] == s.clients[c]
    {
    }
    forall f | f in t.open
      ensures exists c: nat :: Unclosed(t, c) && t.clients[c] == f
    {
      if f == fd {
        assert Unclosed(t, n);
      } else {
        assert f in s.open;
        var c: nat :| Unclosed(s, c) && s.clients[c] == f;
        assert Unclosed(t, c);
      }
    }
  }

  lemma SameTable(s: Server, t: Server)
    requires TableMatches(s) && t.clients == s.clients && t.closes == s.closes && t.open == s.open
    ensures TableMatches(t)
  {
    assert forall c: nat :: Unclosed(t, c) <==> Unclosed(s, c);
  }

  lemma HappenKeepsTableMatches(s: Server, e: Event)
    requires Sound(s) && CanHappen(s, e)
    ensures TableMatches(Happen(s, e))
  {
    match e {
      case Accept(fd) => AcceptKeepsTable(s, fd);
      case Refuse =>
        ClosingKeepsTable(s, s.main.client, ByMain);
        SameTable(Close(s, s.main.client, ByMain), Happen(s, e));
      case HangUp(w) =>
        ServedClientIsUnclosed(s, w);
        ClosingKeepsTable(s, ServedBy(s, w), ByWorker(w));
        SameTable(Close(s, ServedBy(s, w), ByWorker(w)), Happen(s, e));
      case _ => SameTable(s, Happen(s, e));
    }
  }

  lemma HappenKeepsPool(s: Server, e: Event)
    requires Inv(s.pool) && CanHappen(s, e)
    ensures Inv(Happen(s, e).pool)
  {
    match e {
      case Offer => StepKeepsInv(s.pool, Enqueue(s.main.client));
      case HangUp(w) => StepKeepsInv(s.pool, Finish(w));
      case PoolStep(a) => StepKeepsInv(s.pool, a);
      case _ =>
    }
  }

  lemma HappenKeepsSound(s: Server, e: Event)
    requires Sound(s) && CanHappen(s, e)
    ensures Sound(Happen(s, e))
  {
    HappenKeepsPool(s, e);
    HappenKeepsAccounted(s, e);
    HappenKeepsClosedByOwner(s, e);
    HappenKeepsTableMatches(s, e);
    HappenKeepsNumbers(s, e);
  }

  lemma WrapSuccessor(n: int)
    ensures Wrap32(Wrap32(n) + 1) == Wrap32(n + 1)
  {
  }

  lemma HappenKeepsNumbers(s: Server, e: Event)
    requires NumbersMatch(s) && CanHappen(s, e)
    ensures NumbersMatch(Happen(s, e))
  {
    if e.Request? {
      WrapSuccessor(|s.issued|);
    } else {
      assert Happen(s, e).issued == s.issued && Happen(s, e).counter == s.counter;
    }
  }

  predicate CanRun(s: Server, events: seq<Event>)
    decreases |events|
  {
    events == [] || (CanHappen(s, events[0]) && CanRun(Happen(s, events[0]), events[1..]))
  }

  function RunAll(s: Server, events: seq<Event>): Server
    requires CanRun(s, events)
    decreases |events|
  {
    if events == [] then s else RunAll(Happen(s, events[0]), events[1..])
  }

  lemma {:induction false} RunKeepsSound(s: Server, events: seq<Event>)
    requires Sound(s) && CanRun(s, events)
    ensures Sound(RunAll(s, events))
    decreases |events|
  {
    if events != [] {
      HappenKeepsSound(s, events[0]);
      RunKeepsSound(Happen(s, events[0]), events[1..]);
    }
  }

  lemma {:induction false} RunKeepsThreadCount(s: Server, events: seq<Event>)
    requires CanRun(s, events)
    ensures |RunAll(s, events).pool.workers| == |s.pool.workers|
    decreases |events|
  {
    if events != [] {
      RunKeepsThreadCount(Happen(s, events[0]), events[1..]);
    }
  }

  lemma EveryRunIsSound(threadCount: nat, events: seq<Event>)
    requires CanRun(Start(threadCount), events)
    ensures Sound(RunAll(Start(threadCount), events))
    ensures |RunAll(Start(threadCount), events).pool.workers| == threadCount
  {
    StartSound(threadCount);
    RunKeepsSound(Start(threadCount), events);
    RunKeepsThreadCount(Start(threadCount), events);
  }

  /**
   At every moment of every run, a client about to be closed has not been closed before; a
   descriptor about to be closed is open, belongs to that client, and is gone afterwards,
   while every other descriptor stays.
   */
  lemma ClientsAreClosedOnce(threadCount: nat, events: seq<Event>, e: Event)
    requires CanRun(Start(threadCount), events)
    requires CanHappen(RunAll(Start(threadCount), events), e) && (e.Refuse? || e.HangUp?)
    ensures var s := RunAll(Start(threadCount), events);
            var c := if e.Refuse? then s.main.client else ServedBy(s, e.worker);
            && c < |s.clients| && c !in s.closes
            && (e.Refuse? <==> c in s.refused)
            && (s.clients[c] != -1 ==> s.clients[c] in s.open)
            && Happen(s, e).open == s.open - {s.clients[c]}
            && Happen(s, e).closes == s.closes[c := if e.Refuse? then ByMain else ByWorker(e.worker)]
  {
    EveryRunIsSound(threadCount, events);
    var s := RunAll(Start(threadCount), events);
    if e.HangUp? {
      ServedClientIsUnclosed(s, e.worker);
      assert ServedBy(s, e.worker) == s.pool.accepted[s.pool.workers[e.worker].ticket];
    }
    var c := if e.Refuse? then s.main.client else ServedBy(s, e.worker);
    if s.clients[c] != -1 { assert Unclosed(s, c); }
  }

  /** Two workers never serve the same client or the same descriptor, and a served descriptor is open. */
  lemma HandlersDoNotShare(threadCount: nat, events: seq<Event>, w: nat, v: nat)
    requires CanRun(Start(threadCount), events)
    requires w < threadCount && v < threadCount && w != v
    requires var s := RunAll(Start(threadCount), events); Serving(s, w) && Serving(s, v)
    ensures var s := RunAll(Start(threadCount), events);
            var c, d := ServedBy(s, w), ServedBy(s, v);
            && c < |s.clients| && d < |s.clients| && c != d
            && (s.clients[c] != -1 ==> s.clients[c] in s.open && s.clients[c] != s.clients[d])
  {
    EveryRunIsSound(threadCount, events);
    var s := RunAll(Start(threadCount), events);
    ServedClientIsUnclosed(s, w);
    ServedClientIsUnclosed(s, v);
    var c, d := ServedBy(s, w), ServedBy(s, v);
    assert c == s.pool.accepted[s.pool.workers[w].ticket] && d == s.pool.accepted[s.pool.workers[v].ticket];
    if s.clients[c] != -1 {
      assert Unclosed(s, c);
      if s.clients[d] == s.clients[c] { assert Unclosed(s, d); }
    }
  }

  lemma IdlePoolHasFinished(p: State<nat>)
    requires Inv(p) && p.queue == [] && forall w | w in p.workers :: !w.Running?
    ensures forall k | 0 <= k < |p.accepted| :: k in p.finished
  {
    forall k | 0 <= k < |p.accepted|
      ensures k in p.finished
    {
      assert p.workers[p.owner[k]] in p.workers;
    }
  }

  lemma AllClosedMeansEmptyTable(s: Server)
    requires TableMatches(s) && forall c | 0 <= c < |s.clients| :: c in s.closes
    ensures s.open == {}
  {
    assert forall c: nat :: !Unclosed(s, c);
    assert forall fd :: fd !in s.open;
  }

  /** A server with no client in hand, queued or being served holds no client descriptor. */
  lemma IdleServerLeaksNothing(threadCount: nat, events: seq<Event>)
    requires CanRun(Start(threadCount), events)
    requires var s := RunAll(Start(threadCount), events);
             s.main == Accepting && s.pool.queue == [] && (forall w | w in s.pool.workers :: !w.Running?)
    ensures RunAll(Start(threadCount), events).open == {}
  {
    EveryRunIsSound(threadCount, events);
    var s := RunAll(Start(threadCount), events);
    IdlePoolHasFinished(s.pool);
    forall c | 0 <= c < |s.clients|
      ensures c in s.closes
    {
      if c in s.pool.accepted {
        var k :| 0 <= k < |s.pool.accepted| && s.pool.accepted[k] == c;
        assert k in s.pool.finished;
      }
    }
    AllClosedMeansEmptyTable(s);
  }

  /**
   The k-th request number handed out, over all workers, is k as long as it fits a
   32-bit int; two of them are equal exactly when they are a multiple of 2^32 apart.
   */
  lemma RequestNumbersCountUp(threadCount: nat, events: seq<Event>, i: nat, j: nat)
    requires CanRun(Start(threadCount), events)
    requires i < j < |RunAll(Start(threadCount), events).issued|
    ensures var issued := RunAll(Start(threadCount), events).issued;
            && (j + 1 < 0x8000_0000 ==> issued[j] == j + 1)
            && (issued[i] == issued[j] <==> (j - i) % 0x1_0000_0000 == 0)
  {
    EveryRunIsSound(threadCount, events);
    WrapsMeet(i + 1, j + 1);
  }

  lemma WrapsMeet(a: int, b: int)
    ensures Wrap32(a) == Wrap32(b) <==> (b - a) % 0x1_0000_0000 == 0
  {
    var m := 0x1_0000_0000;
    var x, y := a + 0x8000_0000, b + 0x8000_0000;
    assert x == m * (x / m) + x % m && y == m * (y / m) + y % m;
    if x % m == y % m {
      assert b - a == m * (y / m - x / m);
    } else if (b - a) % m == 0 {
      assert b - a == m * ((b - a) / m);
      assert y == m * (x / m + (b - a) / m) + x % m;
    }
  }
}
