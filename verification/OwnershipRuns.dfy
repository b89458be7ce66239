/**
 Any number of Socket, Connection and Server objects in one process, over any run of their
 operations. A Transport or a Client is its Connection here: it adds no descriptor.
 */
module OwnershipRuns {
  import opened Common
  import opened Ownership

  datatype Object =
    | SocketObject(fd: int)
    | ConnectionObject(connection: ConnectionState)
    | ServerObject(server: ServerState)
  {
    function Fd(): int {
      match this
      case SocketObject(fd) => fd
      case ConnectionObject(c) => c.fd
      case ServerObject(s) => s.fd
    }
  }

  /** The kernel's table and the live objects, by name. */
  datatype World = World(open: set<int>, objects: map<nat, Object>)

  datatype Op =
    | NewSocket(i: nat)
    | NewConnection(i: nat)
    | NewServer(i: nat)
    // On a socket, or through `socket()` on the socket inside a connection.
    | CreateSocket(i: nat, got: int)                       // Socket::create, Connection::open, bind on a closed socket
    | CloseSocket(i: nat)
    | AcceptSocket(i: nat, listener: nat, got: int)        // listener.accept(i)
    | TakeSocket(i: nat, source: nat)                      // Socket i(std::move(source))
    | PutSocket(i: nat, source: nat)                       // i = std::move(source)
    // On whole objects.
    | ConnectTo(i: nat, calls: ConnectCalls)
    | AcceptConnection(i: nat, listener: nat, got: int)    // i.accept(the listener's socket), Server::accept
    | DisconnectConnection(i: nat)                         // also the end of stream in Transport::receive
    | StartServer(i: nat, stages: StartCalls)
    | StopServer(i: nat)
    | MoveConstruct(i: nat, source: nat)
    | MoveAssign(i: nat, source: nat)
    | Destroy(i: nat)

  function MovedFrom(o: Object): Object {
    match o
    case SocketObject(_) => SocketObject(-1)
    case ConnectionObject(_) => ConnectionObject(ConnectionState(-1, false))
    case ServerObject(_) => ServerObject(ServerState(-1, false, 0))
  }

  /** A socket of its own, or the one inside a connection, which `socket()` hands out; a server's is private. */
  predicate IsPlace(o: Object) {
    o.SocketObject? || o.ConnectionObject?
  }

  function WithFd(o: Object, fd: int): (changed: Object)
    requires IsPlace(o)
    ensures changed.Fd() == fd
  {
    match o
    case SocketObject(_) => SocketObject(fd)
    case ConnectionObject(c) => ConnectionObject(c.(fd := fd))
  }

  predicate SameKind(a: Object, b: Object) {
    || (a.SocketObject? && b.SocketObject?)
    || (a.ConnectionObject? && b.ConnectionObject?)
    || (a.ServerObject? && b.ServerObject?)
  }

  /** What the kernel can return for a new descriptor. */
  predicate Grants(open: set<int>, got: int) {
    got == -1 || (got >= 0 && got !in open)
  }

  predicate Enabled(w: World, op: Op) {
    match op
    case NewSocket(i) => i !in w.objects
    case NewConnection(i) => i !in w.objects
    case NewServer(i) => i !in w.objects
    case CreateSocket(i, got) => i in w.objects && IsPlace(w.objects[i]) && Grants(w.open, got)
    case CloseSocket(i) => i in w.objects && IsPlace(w.objects[i])
    case AcceptSocket(i, l, got) => i in w.objects && l in w.objects && IsPlace(w.objects[i]) && Grants(w.open, got)
    case TakeSocket(i, s) => i !in w.objects && s in w.objects && IsPlace(w.objects[s])
    case PutSocket(i, s) => i in w.objects && s in w.objects && IsPlace(w.objects[i]) && IsPlace(w.objects[s])
    case ConnectTo(i, calls) => i in w.objects && w.objects[i].ConnectionObject? && Grants(w.open, calls.got)
    case AcceptConnection(i, l, got) =>
      i in w.objects && l in w.objects && w.objects[i].ConnectionObject? && Grants(w.open, got)
    case DisconnectConnection(i) => i in w.objects && w.objects[i].ConnectionObject?
    case StartServer(i, stages) => i in w.objects && w.objects[i].ServerObject? && Grants(w.open, stages.got)
    case StopServer(i) => i in w.objects && w.objects[i].ServerObject?
    case MoveConstruct(i, s) => i !in w.objects && s in w.objects
    case MoveAssign(i, s) => i in w.objects && s in w.objects && SameKind(w.objects[i], w.objects[s])
    case Destroy(i) => i in w.objects
  }

  /** The new value of object `i`, and the kernel calls made. */
  function Result(w: World, op: Op): (Object, seq<Effect>)
    requires Enabled(w, op)
  {
    match op
    case NewSocket(_) => (SocketObject(-1), [])
    case NewConnection(_) => (ConnectionObject(ConnectionState(-1, false)), [])
    case NewServer(_) => (ServerObject(ServerState(-1, false, 0)), [])
    case CreateSocket(i, got) =>
      var step := SocketCreate(w.objects[i].Fd(), got);
      (WithFd(w.objects[i], step.value), step.effects)
    case CloseSocket(i) => (WithFd(w.objects[i], -1), CloseEffects(w.objects[i].Fd()))
    case AcceptSocket(i, l, got) =>
      var step := SocketAccept(w.objects[l].Fd(), w.objects[i].Fd(), got);
      (WithFd(w.objects[i], step.value), step.effects)
    case TakeSocket(_, s) => (SocketObject(w.objects[s].Fd()), [])
    case PutSocket(i, s) =>
      if i == s then (w.objects[i], [])
      else (WithFd(w.objects[i], w.objects[s].Fd()), CloseEffects(w.objects[i].Fd()))
    case ConnectTo(i, calls) =>
      var step := Connect(w.objects[i].connection, calls);
      (ConnectionObject(step.value), step.effects)
    case AcceptConnection(i, l, got) =>
      var step := ConnectionAccept(w.objects[i].connection, w.objects[l].Fd(), got);
      (ConnectionObject(step.value), step.effects)
    case DisconnectConnection(i) =>
      var step := Disconnect(w.objects[i].connection);
      (ConnectionObject(step.value), step.effects)
    case StartServer(i, stages) =>
      var step := Start(w.objects[i].server, stages);
      (ServerObject(step.value), step.effects)
    case StopServer(i) =>
      var step := Stop(w.objects[i].server);
      (ServerObject(step.value), step.effects)
    case MoveConstruct(_, s) => (w.objects[s], [])
    case MoveAssign(i, s) =>
      if i == s then (w.objects[i], []) else (w.objects[s], CloseEffects(w.objects[i].Fd()))
    case Destroy(i) => (MovedFrom(w.objects[i]), CloseEffects(w.objects[i].Fd()))
  }

  function Step(w: World, op: Op): World
    requires Enabled(w, op)
  {
    var (value, effects) := Result(w, op);
    var open := Replay(w.open, effects);
    match op
    case MoveConstruct(i, s) => World(open, w.objects[i := value][s := MovedFrom(w.objects[s])])
    case MoveAssign(i, s) =>
      if i == s then w else World(open, w.objects[i := value][s := MovedFrom(w.objects[s])])
    case TakeSocket(i, s) => World(open, w.objects[i := value][s := WithFd(w.objects[s], -1)])
    case PutSocket(i, s) =>
      if i == s then w else World(open, w.objects[i := value][s := WithFd(w.objects[s], -1)])
    case Destroy(i) => World(open, w.objects - {i})
    case _ => World(open, w.objects[op.i := value])
  }

  /** Every open descriptor is held by some object. */
  ghost predicate Covered(w: World) {
    forall fd | fd in w.open :: fd >= 0 && exists i | i in w.objects :: w.objects[i].Fd() == fd
  }

  /** Every descriptor held is open. */
  predicate Backed(w: World) {
    forall i | i in w.objects && w.objects[i].Fd() != -1 :: w.objects[i].Fd() in w.open
  }

  /** No descriptor is held twice. */
  predicate Unshared(w: World) {
    forall i, j | i in w.objects && j in w.objects && i != j && w.objects[i].Fd() == w.objects[j].Fd() ::
      w.objects[i].Fd() == -1
  }

  /** The open descriptors are exactly those the live objects hold, and no two hold the same. */
  ghost predicate Conserved(w: World) {
    Covered(w) && Backed(w) && Unshared(w)
  }

  /** Connected implies open; running exactly when open; a stopped server has port 0. */
  predicate CoherentObject(o: Object) {
    match o
    case SocketObject(_) => true
    case ConnectionObject(c) => c.connected ==> c.fd != -1
    case ServerObject(s) => (s.running <==> s.fd != -1) && (!s.running ==> s.port == 0)
  }

  predicate Coherent(w: World) {
    forall i | i in w.objects :: CoherentObject(w.objects[i])
  }

  // Conservation is proved for the few ways an operation can move descriptors between slots.

  lemma KeepSlot(w: World, i: nat, o: Object)
    requires Conserved(w) && (if i in w.objects then o.Fd() == w.objects[i].Fd() else o.Fd() == -1)
    ensures Conserved(World(w.open, w.objects[i := o]))
  {
    var v := World(w.open, w.objects[i := o]);
    forall fd | fd in v.open
      ensures exists j | j in v.objects :: v.objects[j].Fd() == fd
    {
      var j :| j in w.objects && w.objects[j].Fd() == fd;
      assert j in v.objects && v.objects[j].Fd() == fd;
    }
  }

  lemma FillSlot(w: World, i: nat, o: Object)
    requires Conserved(w) && i in w.objects && w.objects[i].Fd() == -1
    requires o.Fd() >= 0 && o.Fd() !in w.open
    ensures Conserved(World(w.open + {o.Fd()}, w.objects[i := o]))
  {
    var v := World(w.open + {o.Fd()}, w.objects[i := o]);
    forall fd | fd in v.open
      ensures exists j | j in v.objects :: v.objects[j].Fd() == fd
    {
      if fd == o.Fd() {
        assert v.objects[i].Fd() == fd;
      } else {
        var j :| j in w.objects && w.objects[j].Fd() == fd;
        assert j in v.objects && v.objects[j].Fd() == fd;
      }
    }
  }

  lemma EmptySlot(w: World, i: nat, o: Object)
    requires Conserved(w) && i in w.objects && w.objects[i].Fd() != -1 && o.Fd() == -1
    ensures Conserved(World(w.open - {w.objects[i].Fd()}, w.objects[i := o]))
  {
    var v := World(w.open - {w.objects[i].Fd()}, w.objects[i := o]);
    forall fd | fd in v.open
      ensures exists j | j in v.objects :: v.objects[j].Fd() == fd
    {
      var j :| j in w.objects && w.objects[j].Fd() == fd;
      assert j in v.objects && v.objects[j].Fd() == fd;
    }
  }

  /** What `s` held is now held by `i`, which held nothing. */
  predicate Handed(w: World, v: World, i: nat, s: nat) {
    && i != s && s in w.objects && v.open == w.open && v.objects.Keys == w.objects.Keys + {i}
    && (i in w.objects ==> w.objects[i].Fd() == -1)
    && v.objects[s].Fd() == -1 && v.objects[i].Fd() == w.objects[s].Fd()
    && forall j | j in w.objects && j != i && j != s :: v.objects[j].Fd() == w.objects[j].Fd()
  }

  lemma HandedConserves(w: World, v: World, i: nat, s: nat)
    requires Conserved(w) && Handed(w, v, i, s)
    ensures Conserved(v)
  {
    HandedCovered(w, v, i, s);
    HandedUnshared(w, v, i, s);
    assert Backed(v) by { hide Covered, Unshared; }
  }

  lemma HandedCovered(w: World, v: World, i: nat, s: nat)
    requires Covered(w) && Handed(w, v, i, s)
    ensures Covered(v)
  {
    forall fd | fd in v.open
      ensures exists j | j in v.objects :: v.objects[j].Fd() == fd
    {
      var j :| j in w.objects && w.objects[j].Fd() == fd;
      assert v.objects[if j == s then i else j].Fd() == fd;
    }
  }

  lemma HandedUnshared(w: World, v: World, i: nat, s: nat)
    requires Unshared(w) && Handed(w, v, i, s)
    ensures Unshared(v)
  {
  }

  lemma PassOn(w: World, i: nat, s: nat, o: Object, emptied: Object)
    requires Conserved(w) && s in w.objects && i != s && (i in w.objects ==> w.objects[i].Fd() == -1)
    requires o.Fd() == w.objects[s].Fd() && emptied.Fd() == -1
    ensures Conserved(World(w.open, w.objects[i := o][s := emptied]))
  {
    hide Conserved;
    HandedConserves(w, World(w.open, w.objects[i := o][s := emptied]), i, s);
  }

  lemma DropSlot(w: World, i: nat)
    requires Conserved(w) && i in w.objects && w.objects[i].Fd() == -1
    ensures Conserved(World(w.open, w.objects - {i}))
  {
    var v := World(w.open, w.objects - {i});
    forall fd | fd in v.open
      ensures exists j | j in v.objects :: v.objects[j].Fd() == fd
    {
      var j :| j in w.objects && w.objects[j].Fd() == fd;
      assert j in v.objects && v.objects[j].Fd() == fd;
    }
  }

  /** Closing whatever object `i` holds. */
  lemma Release(w: World, i: nat, o: Object)
    requires Conserved(w) && i in w.objects && o.Fd() == -1
    ensures var effects := CloseEffects(w.objects[i].Fd());
            && Legal(w.open, effects)
            && Conserved(World(Replay(w.open, effects), w.objects[i := o]))
  {
    NoEffect(w.open);
    if w.objects[i].Fd() == -1 {
      KeepSlot(w, i, o);
    } else {
      OneEffect(w.open, Closed(w.objects[i].Fd()));
      EmptySlot(w, i, o);
    }
  }

  /** Creating a socket in object `i` unless it has one. */
  lemma Obtain(w: World, i: nat, o: Object, got: int)
    requires Conserved(w) && i in w.objects && Grants(w.open, got)
    requires o.Fd() == SocketCreate(w.objects[i].Fd(), got).value
    ensures var effects := SocketCreate(w.objects[i].Fd(), got).effects;
            && Legal(w.open, effects)
            && Conserved(World(Replay(w.open, effects), w.objects[i := o]))
  {
    NoEffect(w.open);
    OneEffect(w.open, Opened(got));
    if w.objects[i].Fd() == -1 && got != -1 {
      FillSlot(w, i, o);
    } else {
      KeepSlot(w, i, o);
    }
  }

  /** Accepting into object `i`, which gives up what it held. */
  lemma Replace(w: World, i: nat, o: Object, got: int)
    requires Conserved(w) && i in w.objects && got >= 0 && got !in w.open && o.Fd() == got
    ensures var effects := [Opened(got)] + CloseEffects(w.objects[i].Fd());
            && Legal(w.open, effects)
            && Conserved(World(Replay(w.open, effects), w.objects[i := o]))
  {
    var fd := w.objects[i].Fd();
    OneEffect(w.open, Opened(got));
    if fd == -1 {
      assert [Opened(got)] + CloseEffects(fd) == [Opened(got)];
      FillSlot(w, i, o);
    } else {
      assert [Opened(got)] + CloseEffects(fd) == [Opened(got), Closed(fd)];
      TwoEffects(w.open, Opened(got), Closed(fd));
      OneEffect(w.open + {got}, Closed(fd));
      var mid := World(w.open - {fd}, w.objects[i := SocketObject(-1)]);
      EmptySlot(w, i, SocketObject(-1));
      FillSlot(mid, i, o);
      assert mid.open + {got} == w.open + {got} - {fd};
      assert mid.objects[i := o] == w.objects[i := o];
    }
  }

  /** A start that fails after it made a socket closes it again. */
  lemma ObtainAndRelease(w: World, i: nat, o: Object, got: int)
    requires Conserved(w) && i in w.objects && Grants(w.open, got) && o.Fd() == -1
    requires SocketCreate(w.objects[i].Fd(), got).error == Success
    ensures var made := SocketCreate(w.objects[i].Fd(), got);
            var effects := made.effects + CloseEffects(made.value);
            && Legal(w.open, effects)
            && Conserved(World(Replay(w.open, effects), w.objects[i := o]))
  {
    var fd := w.objects[i].Fd();
    if fd != -1 {
      assert [] + CloseEffects(fd) == CloseEffects(fd);
      Release(w, i, o);
    } else {
      assert [Opened(got)] + CloseEffects(got) == [Opened(got), Closed(got)];
      OneEffect(w.open, Opened(got));
      TwoEffects(w.open, Opened(got), Closed(got));
      OneEffect(w.open + {got}, Closed(got));
      assert w.open + {got} - {got} == w.open;
      KeepSlot(w, i, o);
    }
  }

  /** Moving a descriptor into object `i`, which gives up what it held; `emptied` is the source afterwards. */
  lemma HandOver(w: World, i: nat, s: nat, cleared: Object, o: Object, emptied: Object)
    requires Conserved(w) && i in w.objects && s in w.objects && i != s
    requires cleared.Fd() == -1 && emptied.Fd() == -1 && o.Fd() == w.objects[s].Fd()
    ensures var effects := CloseEffects(w.objects[i].Fd());
            && Legal(w.open, effects)
            && Conserved(World(Replay(w.open, effects), w.objects[i := o][s := emptied]))
  {
    hide Conserved;
    var mid := World(Replay(w.open, CloseEffects(w.objects[i].Fd())), w.objects[i := cleared]);
    Release(w, i, cleared);
    PassOn(mid, i, s, o, emptied);
    assert mid.objects[i := o] == w.objects[i := o];
  }

  predicate IsSocketOp(op: Op) {
    op.CreateSocket? || op.CloseSocket? || op.AcceptSocket? || op.TakeSocket? || op.PutSocket?
  }

  lemma SocketOpsConserve(w: World, op: Op)
    requires Conserved(w) && Enabled(w, op) && IsSocketOp(op)
    ensures Legal(w.open, Result(w, op).1) && Conserved(Step(w, op))
  {
    hide Conserved;
    var o := Result(w, op).0;
    NoEffect(w.open);
    match op
    case CreateSocket(i, got) => Obtain(w, i, o, got);
    case CloseSocket(i) => Release(w, i, o);
    case AcceptSocket(i, l, got) =>
      if w.objects[l].Fd() == -1 || got == -1 { KeepSlot(w, i, o); } else { Replace(w, i, o, got); }
    case TakeSocket(i, s) => PassOn(w, i, s, o, WithFd(w.objects[s], -1));
    case PutSocket(i, s) =>
      if i != s { HandOver(w, i, s, WithFd(w.objects[i], -1), o, WithFd(w.objects[s], -1)); }
  }

  lemma ConnectionOpsConserve(w: World, op: Op)
    requires Conserved(w) && Enabled(w, op)
    requires op.ConnectTo? || op.AcceptConnection? || op.DisconnectConnection?
    ensures Legal(w.open, Result(w, op).1) && Conserved(Step(w, op))
  {
    var o := Result(w, op).0;
    NoEffect(w.open);
    match op
    case ConnectTo(i, calls) =>
      var made := SocketCreate(w.objects[i].Fd(), calls.got);
      if made.error != Success { KeepSlot(w, i, o); } else { Obtain(w, i, o, calls.got); }
    case AcceptConnection(i, l, got) =>
      if o.connection.fd == w.objects[i].Fd() && Result(w, op).1 == [] {
        KeepSlot(w, i, o);
      } else {
        Replace(w, i, o, got);
      }
    case DisconnectConnection(i) => Release(w, i, o);
  }

  lemma ServerOpsConserve(w: World, op: Op)
    requires Conserved(w) && Enabled(w, op)
    requires op.StartServer? || op.StopServer?
    ensures Legal(w.open, Result(w, op).1) && Conserved(Step(w, op))
  {
    var o := Result(w, op).0;
    NoEffect(w.open);
    match op
    case StopServer(i) => Release(w, i, o);
    case StartServer(i, stages) =>
      var s := w.objects[i].server;
      if s.running || SocketCreate(s.fd, stages.got).error != Success {
        KeepSlot(w, i, o);
      } else if o.Fd() == -1 {
        ObtainAndRelease(w, i, o, stages.got);
      } else {
        Obtain(w, i, o, stages.got);
      }
  }

  lemma LifetimeOpsConserve(w: World, op: Op)
    requires Conserved(w) && Enabled(w, op)
    requires op.NewSocket? || op.NewConnection? || op.NewServer? || op.MoveConstruct? || op.MoveAssign? || op.Destroy?
    ensures Legal(w.open, Result(w, op).1) && Conserved(Step(w, op))
  {
    hide Conserved;
    var o := Result(w, op).0;
    NoEffect(w.open);
    match op
    case MoveConstruct(i, s) => PassOn(w, i, s, o, MovedFrom(w.objects[s]));
    case MoveAssign(i, s) =>
      if i != s { HandOver(w, i, s, MovedFrom(w.objects[i]), o, MovedFrom(w.objects[s])); }
    case Destroy(i) =>
      var mid := World(Replay(w.open, CloseEffects(w.objects[i].Fd())), w.objects[i := MovedFrom(w.objects[i])]);
      Release(w, i, MovedFrom(w.objects[i]));
      DropSlot(mid, i);
      assert mid.objects - {i} == w.objects - {i};
    case _ => KeepSlot(w, op.i, o);
  }

  /** The descriptors that one operation opens, closes and moves. */
  lemma StepMovesDescriptors(w: World, op: Op)
    requires Conserved(w) && Enabled(w, op)
    ensures var v := Step(w, op);
            match op
            case NewSocket(i) => v.open == w.open && v.objects[i] == SocketObject(-1)
            case NewConnection(i) => v.open == w.open && v.objects[i] == ConnectionObject(ConnectionState(-1, false))
            case NewServer(i) => v.open == w.open && v.objects[i] == ServerObject(ServerState(-1, false, 0))
            case CreateSocket(i, got) => Opens(w, v, i, got)
            case ConnectTo(i, calls) =>
              && Opens(w, v, i, calls.got)
              && (Connected(v.objects[i]) <==>
                    Connected(w.objects[i]) || (v.objects[i].Fd() != -1 && calls.resolved && calls.reached))
            case CloseSocket(i) => Closes(w, v, i)
            case DisconnectConnection(i) => Closes(w, v, i) && !Connected(v.objects[i])
            case StopServer(i) => Closes(w, v, i) && v.objects[i] == ServerObject(ServerState(-1, false, 0))
            case Destroy(i) => v.open == w.open - {w.objects[i].Fd()} && v.objects == w.objects - {i}
            case AcceptSocket(i, l, got) =>
              if got == -1 || w.objects[l].Fd() == -1 then v == w
              else v.objects[i].Fd() == got && v.open == w.open - {w.objects[i].Fd()} + {got}
            case AcceptConnection(i, l, got) =>
              if got == -1 || w.objects[l].Fd() == -1 || Connected(w.objects[i]) then v == w
              else
                && v.objects[i] == ConnectionObject(ConnectionState(got, true))
                && v.open == w.open - {w.objects[i].Fd()} + {got}
            case StartServer(i, calls) =>
              if w.objects[i].server.running then v == w
              else if v.objects[i].server.running then Opens(w, v, i, calls.got) && v.objects[i].Fd() != -1
              else Closes(w, v, i) && v.objects[i].server.port == 0
            case MoveConstruct(i, s) => Hands(w, v, i, s)
            case TakeSocket(i, s) => Hands(w, v, i, s)
            case MoveAssign(i, s) => if i == s then v == w else Hands(w, v, i, s)
            case PutSocket(i, s) => if i == s then v == w else Hands(w, v, i, s)
  {
    assert -1 !in w.open;
    hide Replay, Covered, Unshared;
    FewEffects(w.open, Result(w, op).1);
  }

  lemma FewEffects(open: set<int>, effects: seq<Effect>)
    ensures effects == [] ==> Replay(open, effects) == open
    ensures |effects| == 1 ==> Replay(open, effects) == After(open, effects[0])
    ensures |effects| == 2 ==> Replay(open, effects) == After(After(open, effects[0]), effects[1])
  {
    if |effects| == 1 {
      assert effects == [effects[0]];
      OneEffect(open, effects[0]);
    } else if |effects| == 2 {
      assert effects == [effects[0], effects[1]];
      TwoEffects(open, effects[0], effects[1]);
      OneEffect(open, effects[0]);
      OneEffect(Replay(open, [effects[0]]), effects[1]);
    }
  }

  function After(open: set<int>, effect: Effect): set<int> {
    match effect
    case Opened(fd) => open + {fd}
    case Closed(fd) => open - {fd}
  }

  /** Object `i` has a descriptor now, the new one unless it had one; or none was to be had. */
  predicate Opens(w: World, v: World, i: nat, got: int)
    requires i in w.objects && i in v.objects
  {
    if w.objects[i].Fd() != -1 || got == -1 then v.open == w.open && v.objects[i].Fd() == w.objects[i].Fd()
    else v.open == w.open + {got} && v.objects[i].Fd() == got
  }

  predicate Closes(w: World, v: World, i: nat)
    requires i in w.objects && i in v.objects
  {
    v.objects[i].Fd() == -1 && v.open == w.open - {w.objects[i].Fd()}
  }

  /** `i` has what `s` had, `s` has nothing, and what `i` had is closed. */
  predicate Hands(w: World, v: World, i: nat, s: nat)
    requires s in w.objects && i in v.objects && s in v.objects
  {
    && v.objects[i].Fd() == w.objects[s].Fd() && v.objects[s].Fd() == -1
    && v.open == w.open - {if i in w.objects then w.objects[i].Fd() else -1}
  }

  /** Every operation makes only legal kernel calls (nothing is closed twice) and keeps ownership exact. */
  lemma StepConserves(w: World, op: Op)
    requires Conserved(w) && Enabled(w, op)
    ensures Legal(w.open, Result(w, op).1) && Conserved(Step(w, op))
  {
    if IsSocketOp(op) {
      SocketOpsConserve(w, op);
    } else if op.ConnectTo? || op.AcceptConnection? || op.DisconnectConnection? {
      ConnectionOpsConserve(w, op);
    } else if op.StartServer? || op.StopServer? {
      ServerOpsConserve(w, op);
    } else {
      LifetimeOpsConserve(w, op);
    }
  }

  predicate Runs(w: World, ops: seq<Op>)
    decreases |ops|
  {
    ops == [] || (Enabled(w, ops[0]) && Runs(Step(w, ops[0]), ops[1..]))
  }

  function RunOps(w: World, ops: seq<Op>): World
    requires Runs(w, ops)
    decreases |ops|
  {
    if ops == [] then w else RunOps(Step(w, ops[0]), ops[1..])
  }

  const EMPTY_WORLD := World({}, map[])

  lemma {:induction false} RunConserves(w: World, ops: seq<Op>)
    requires Conserved(w) && Runs(w, ops)
    ensures Conserved(RunOps(w, ops))
    decreases |ops|
  {
    if ops != [] {
      StepConserves(w, ops[0]);
      RunConserves(Step(w, ops[0]), ops[1..]);
    }
  }

  /**
   After any run, the open descriptors are exactly those of the live objects, each held
   once; the next operation's kernel calls are legal; and with no objects left nothing is open.
   */
  lemma DescriptorsAreConserved(ops: seq<Op>, next: Op)
    requires Runs(EMPTY_WORLD, ops) && Enabled(RunOps(EMPTY_WORLD, ops), next)
    ensures var w := RunOps(EMPTY_WORLD, ops);
            && Conserved(w)
            && Legal(w.open, Result(w, next).1)
            && (w.objects == map[] ==> w.open == {})
  {
    RunConserves(EMPTY_WORLD, ops);
    var w := RunOps(EMPTY_WORLD, ops);
    StepConserves(w, next);
    if w.objects == map[] {
      assert forall fd :: fd !in w.open;
    }
  }

  predicate Connected(o: Object) {
    o.ConnectionObject? && o.connection.connected
  }

  /**
   The operations that leave a connection connected without a descriptor. All go through
   `socket()`: closing a connected connection's socket, moving it away, or moving a closed
   socket into it.
   */
  predicate Breaks(w: World, op: Op)
    requires Enabled(w, op)
  {
    match op
    case CloseSocket(i) => Connected(w.objects[i])
    case TakeSocket(_, s) => Connected(w.objects[s])
    case PutSocket(i, s) =>
      i != s && (Connected(w.objects[s]) || (Connected(w.objects[i]) && w.objects[s].Fd() == -1))
    case _ => false
  }

  /** The objects an operation leaves behind are coherent exactly when it is not one that breaks. */
  lemma StepKeepsCoherentExactlyWhen(w: World, op: Op)
    requires Coherent(w) && Enabled(w, op)
    ensures Coherent(Step(w, op)) <==> !Breaks(w, op)
  {
    var v := Step(w, op);
    match op
    case CloseSocket(i) => assert i in v.objects;
    case TakeSocket(i, s) => assert s in v.objects;
    case PutSocket(i, s) => assert i in v.objects && s in v.objects;
    case _ =>
  }

  predicate NeverBreaks(w: World, ops: seq<Op>)
    requires Runs(w, ops)
    decreases |ops|
  {
    ops == [] || (!Breaks(w, ops[0]) && NeverBreaks(Step(w, ops[0]), ops[1..]))
  }

  predicate CoherentThroughout(w: World, ops: seq<Op>)
    requires Runs(w, ops)
    decreases |ops|
  {
    Coherent(w) && (ops == [] || CoherentThroughout(Step(w, ops[0]), ops[1..]))
  }

  /** Over any run, every object is coherent all the time exactly when no operation of the run breaks a connection. */
  lemma {:induction false} ObjectsStayCoherent(w: World, ops: seq<Op>)
    requires Coherent(w) && Runs(w, ops)
    ensures CoherentThroughout(w, ops) <==> NeverBreaks(w, ops)
    decreases |ops|
  {
    if ops != [] {
      StepKeepsCoherentExactlyWhen(w, ops[0]);
      if Coherent(Step(w, ops[0])) {
        ObjectsStayCoherent(Step(w, ops[0]), ops[1..]);
      }
    }
  }

  /** The only ways a connection can come to be connected. */
  predicate Connects(w: World, op: Op, i: nat)
    requires Enabled(w, op)
  {
    match op
    case ConnectTo(j, calls) => i == j && Connect(w.objects[j].connection, calls).error == Success
    case AcceptConnection(j, l, got) =>
      i == j && ConnectionAccept(w.objects[j].connection, w.objects[l].Fd(), got).error == Success
    case MoveConstruct(j, s) => i == j
    case MoveAssign(j, s) => i == j && i != s
    case Destroy(j) => i == j
    case _ => false
  }

  predicate NeverConnects(w: World, ops: seq<Op>, i: nat)
    requires Runs(w, ops)
    decreases |ops|
  {
    ops == [] || (!Connects(w, ops[0], i) && NeverConnects(Step(w, ops[0]), ops[1..], i))
  }

  /**
   A connection that the peer's end of stream (or anything else) has disconnected stays
   disconnected until a connect or accept of its own succeeds or another connection is moved
   into it; until then Transport::send and receive return before any system call.
   */
  lemma {:induction false} ClosedStaysClosed(w: World, ops: seq<Op>, i: nat)
    requires i in w.objects && w.objects[i].ConnectionObject? && !w.objects[i].connection.connected
    requires Runs(w, ops) && NeverConnects(w, ops, i)
    ensures var v := RunOps(w, ops);
            i in v.objects && v.objects[i].ConnectionObject? && !v.objects[i].connection.connected
    decreases |ops|
  {
    if ops != [] {
      StaysDisconnected(w, ops[0], i);
      ClosedStaysClosed(Step(w, ops[0]), ops[1..], i);
    }
  }

  lemma StaysDisconnected(w: World, op: Op, i: nat)
    requires i in w.objects && w.objects[i].ConnectionObject? && !w.objects[i].connection.connected
    requires Enabled(w, op) && !Connects(w, op, i)
    ensures var v := Step(w, op);
            i in v.objects && v.objects[i].ConnectionObject? && !v.objects[i].connection.connected
  {
  }
}
