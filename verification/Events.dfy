/**
 What a process did that someone outside its memory can see: the system calls it made, with
 what they returned, and its looks at the shutdown flag. Closing a descriptor and sending or
 receiving bytes also change the kernel's own tables, which are part of `Kernels.Kernel`.
 */
module Events {
  import opened Common

  datatype Setup = SetSockOpt | InetPton | Bind | Listen

  datatype Event =
    | SocketCall(got: int)                   // ::socket, -1 when it fails
    | AcceptCall(listener: int, got: int)    // ::accept
    | SetupCall(what: Setup, ok: bool)
    | NameCall(ok: bool, port: nat)          // ::getsockname
    | ConnectCall(fd: int, reached: bool)    // ::connect
    | SendCall(fd: int, result: int)         // ::send
    | RecvCall(fd: int, result: int)         // ::recv
    | Look(seen: bool)                       // isShutdownRequested()

  /** Between two logs there were only sends on one descriptor. The last decides the error; all others took bytes. */
  predicate Sends(before: seq<Event>, after: seq<Event>, fd: int, error: ErrorCode) {
    && before <= after
    && (forall i | |before| <= i < |after| :: after[i].SendCall? && after[i].fd == fd)
    && (forall i | |before| <= i < |after| - 1 :: after[i].result > 0)
    && match error
       case Success => after == before || after[|after| - 1].result > 0
       case SocketError => after != before && after[|after| - 1].result <= 0
       case _ => false
  }

  /** The same for receives, where all but the last brought bytes. */
  predicate Recvs(before: seq<Event>, after: seq<Event>, fd: int, error: ErrorCode) {
    && before <= after
    && (forall i | |before| <= i < |after| :: after[i].RecvCall? && after[i].fd == fd)
    && (forall i | |before| <= i < |after| - 1 :: after[i].result > 0)
    && match error
       case Success => after == before || after[|after| - 1].result > 0
       case ProtocolError => after == before || after[|after| - 1].result > 0
       case SocketError => after != before && after[|after| - 1].result < 0
       case ConnectionClosed => after != before && after[|after| - 1].result == 0
       case _ => false
  }

  lemma LogsChain(a: seq<Event>, b: seq<Event>, c: seq<Event>)
    ensures a + b + c == a + (b + c) && b + [] == b
  {
  }

  lemma NoCallsYet(log: seq<Event>, fd: int)
    ensures Sends(log, log, fd, Success) && Recvs(log, log, fd, Success)
  {
  }

  lemma SendsGoOn(before: seq<Event>, log: seq<Event>, fd: int, result: int)
    requires Sends(before, log, fd, Success)
    ensures Sends(before, log + [SendCall(fd, result)], fd, if result > 0 then Success else SocketError)
  {
  }

  lemma RecvsGoOn(before: seq<Event>, log: seq<Event>, fd: int, result: int)
    requires Recvs(before, log, fd, Success)
    ensures Recvs(before, log + [RecvCall(fd, result)], fd,
                  if result > 0 then Success else if result == 0 then ConnectionClosed else SocketError)
  {
  }

  lemma RecvsJoin(before: seq<Event>, middle: seq<Event>, after: seq<Event>, fd: int, error: ErrorCode)
    requires Recvs(before, middle, fd, Success) && Recvs(middle, after, fd, error)
    ensures Recvs(before, after, fd, error)
  {
  }
}
