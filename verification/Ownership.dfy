/**
 What each operation of Socket, Connection and Server does to the descriptor it owns and
 to the kernel, as a function of the object's value and of what the system calls return.
 The classes in `Network` are proved against these functions.
 */
module Ownership {
  import opened Common
  import opened Events

  /** A change to the kernel's descriptor table. */
  datatype Effect = Opened(fd: int) | Closed(fd: int)

  /** The object's new value, the error code returned, and the kernel calls in order. */
  datatype Step<T> = Step(value: T, error: ErrorCode, effects: seq<Effect>)

  datatype ConnectionState = ConnectionState(fd: int, connected: bool)

  datatype ServerState = ServerState(fd: int, running: bool, port: nat)

  /** What the system calls of Connection::connect return: the new socket, inet_pton, ::connect. */
  datatype ConnectCalls = ConnectCalls(got: int, resolved: bool, reached: bool)

  /** What the system calls of Socket::bind on an open socket return; each is made only if the one before succeeded. */
  datatype BindCalls = BindCalls(optionSet: bool, resolved: bool, bound: bool)
  {
    function Error(): ErrorCode {
      if !optionSet then SocketError else if !resolved then InvalidArgument else if !bound then SocketError else Success
    }

    function Log(): seq<Event> {
      if !optionSet then [SetupCall(SetSockOpt, false)]
      else if !resolved then [SetupCall(SetSockOpt, true), SetupCall(InetPton, false)]
      else [SetupCall(SetSockOpt, true), SetupCall(InetPton, true), SetupCall(Bind, bound)]
    }
  }

  /** What the system calls of Server::start return. */
  datatype StartCalls = StartCalls(got: int, binding: BindCalls, listening: bool, named: bool, port: nat)
  {
    /** What the stages after the socket is there come to. */
    function Error(): ErrorCode {
      if binding.Error() != Success then binding.Error()
      else if !listening || !named then SocketError
      else Success
    }
  }

  function OpenEffects(got: int): seq<Effect> {
    if got == -1 then [] else [Opened(got)]
  }

  function CloseEffects(fd: int): seq<Effect> {
    if fd == -1 then [] else [Closed(fd)]
  }

  function SocketCreate(fd: int, got: int): Step<int> {
    if fd != -1 then Step(fd, Success, [])
    else Step(got, if got == -1 then SocketError else Success, OpenEffects(got))
  }

  /** Socket::accept: the value is the client socket's new descriptor. */
  function SocketAccept(listener: int, client: int, got: int): Step<int> {
    if listener == -1 || got == -1 then Step(client, SocketError, [])
    else Step(got, Success, [Opened(got)] + CloseEffects(client))
  }

  function Connect(c: ConnectionState, calls: ConnectCalls): Step<ConnectionState> {
    var made := SocketCreate(c.fd, calls.got);
    if made.error != Success then Step(c, made.error, [])
    else if !calls.resolved then Step(c.(fd := made.value), InvalidArgument, made.effects)
    else if !calls.reached then Step(c.(fd := made.value), ConnectionFailed, made.effects)
    else Step(ConnectionState(made.value, true), Success, made.effects)
  }

  function ConnectionAccept(c: ConnectionState, listener: int, got: int): Step<ConnectionState> {
    if listener == -1 then Step(c, SocketError, [])
    else if c.connected then Step(c, ConnectionFailed, [])
    else
      var made := SocketAccept(listener, c.fd, got);
      if made.error != Success then Step(c, made.error, [])
      else Step(ConnectionState(made.value, true), Success, made.effects)
  }

  function Disconnect(c: ConnectionState): Step<ConnectionState> {
    Step(ConnectionState(-1, false), Success, CloseEffects(c.fd))
  }

  function Start(s: ServerState, calls: StartCalls): Step<ServerState> {
    if s.running then Step(s, SocketError, [])
    else
      var made := SocketCreate(s.fd, calls.got);
      if made.error != Success then Step(s.(port := 0), made.error, [])
      else if calls.Error() != Success then
        Step(ServerState(-1, false, 0), calls.Error(), made.effects + CloseEffects(made.value))
      else Step(ServerState(made.value, true, calls.port), Success, made.effects)
  }

  function Stop(s: ServerState): Step<ServerState> {
    Step(ServerState(-1, false, 0), Success, CloseEffects(s.fd))
  }

  // The calls an operation makes, in order, for each way they can turn out.

  function CreateLog(fd: int, got: int): seq<Event> {
    if fd != -1 then [] else [SocketCall(got)]
  }

  function AcceptLog(listener: int, got: int): seq<Event> {
    if listener == -1 then [] else [AcceptCall(listener, got)]
  }

  function ConnectLog(c: ConnectionState, calls: ConnectCalls): seq<Event> {
    var made := SocketCreate(c.fd, calls.got);
    CreateLog(c.fd, calls.got)
    + if made.error != Success then []
      else if !calls.resolved then [SetupCall(InetPton, false)]
      else [SetupCall(InetPton, true), ConnectCall(made.value, calls.reached)]
  }

  function ConnectionAcceptLog(c: ConnectionState, listener: int, got: int): seq<Event> {
    if c.connected then [] else AcceptLog(listener, got)
  }

  function StartLog(s: ServerState, calls: StartCalls): seq<Event> {
    if s.running then []
    else
      CreateLog(s.fd, calls.got)
      + if SocketCreate(s.fd, calls.got).error != Success then [] else StagesLog(calls)
  }

  /** The stages of a start once it has its socket. */
  function StagesLog(calls: StartCalls): seq<Event> {
    calls.binding.Log()
    + if calls.binding.Error() != Success then []
      else if !calls.listening then [SetupCall(Listen, false)]
      else [SetupCall(Listen, true), NameCall(calls.named, calls.port)]
  }

  /**
   What a first start that failed did and reports: every call before the one that failed
   succeeded, none follows it, and only a refused address is not a SocketError.
   */
  predicate FailedStart(made: seq<Event>, fd: int, error: ErrorCode) {
    var created, optionSet, resolved, bound, listening := SocketCall(fd), SetupCall(SetSockOpt, true),
      SetupCall(InetPton, true), SetupCall(Bind, true), SetupCall(Listen, true);
    || (error == SocketError && fd == -1 && made == [SocketCall(-1)])
    || (error == SocketError && fd != -1 && made == [created, SetupCall(SetSockOpt, false)])
    || (error == InvalidArgument && fd != -1 && made == [created, optionSet, SetupCall(InetPton, false)])
    || (error == SocketError && fd != -1 && made == [created, optionSet, resolved, SetupCall(Bind, false)])
    || (error == SocketError && fd != -1 && made == [created, optionSet, resolved, bound, SetupCall(Listen, false)])
    || (error == SocketError && fd != -1 && |made| == 6 && made[5].NameCall? && !made[5].ok
        && made[..5] == [created, optionSet, resolved, bound, listening])
  }

  /** What a first start did, call by call, and what it leaves. */
  lemma FirstStartShows(calls: StartCalls)
    ensures var step, made := Start(ServerState(-1, false, 0), calls), StartLog(ServerState(-1, false, 0), calls);
            if step.error == Success then
              && step.value == ServerState(calls.got, true, calls.port) && calls.got != -1
              && made == [SocketCall(calls.got), SetupCall(SetSockOpt, true), SetupCall(InetPton, true),
                          SetupCall(Bind, true), SetupCall(Listen, true), NameCall(true, calls.port)]
            else FailedStart(made, calls.got, step.error) && step.value == ServerState(-1, false, 0)
  {
  }

  /** The descriptor table after some calls. */
  function Replay(open: set<int>, effects: seq<Effect>): set<int> {
    if effects == [] then open
    else
      var before := Replay(open, effects[..|effects| - 1]);
      match effects[|effects| - 1]
      case Opened(fd) => before + {fd}
      case Closed(fd) => before - {fd}
  }

  /** The kernel gives out only free descriptors, and every close() names an open one. */
  predicate Legal(open: set<int>, effects: seq<Effect>) {
    effects == [] ||
    (Legal(open, effects[..|effects| - 1]) &&
     var before := Replay(open, effects[..|effects| - 1]);
     match effects[|effects| - 1]
     case Opened(fd) => fd >= 0 && fd !in before
     case Closed(fd) => fd in before)
  }

  lemma NoEffect(open: set<int>)
    ensures Replay(open, []) == open && Legal(open, [])
  {
  }

  lemma OneEffect(open: set<int>, a: Effect)
    ensures Replay(open, [a]) == if a.Opened? then open + {a.fd} else open - {a.fd}
    ensures Legal(open, [a]) <==> if a.Opened? then a.fd >= 0 && a.fd !in open else a.fd in open
  {
    assert [a][..0] == [];
  }

  lemma TwoEffects(open: set<int>, a: Effect, b: Effect)
    ensures Replay(open, [a, b]) == Replay(Replay(open, [a]), [b])
    ensures Legal(open, [a, b]) <==> Legal(open, [a]) && Legal(Replay(open, [a]), [b])
  {
    assert [a, b][..1] == [a];
    OneEffect(Replay(open, [a]), b);
  }
}
