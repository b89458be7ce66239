/**
 The operating system as the modelled code sees it. Every call may return anything its
 contract allows; callers are proved against all of it. The byte streams are fixed per
 connection: `inbound` is everything the peer will ever send and this side has not read.
 */
module Kernels {
  import opened Endian
  import opened Events

  class Kernel {
    /** On a reliable kernel send and recv do not fail while they can move bytes. */
    const reliable: bool
    /** On a ready kernel the calls that make and set up a socket, and accept, do not fail. */
    const ready: bool
    /** Byte order of the machine. */
    const host: Endianness
    var open: set<nat>
    var inbound: map<int, seq<bv8>>
    var outbound: map<int, seq<bv8>>
    /** History: everything a peer sends over a connection, whether it has been read or not. */
    ghost var arriving: map<int, seq<bv8>>
    /** History: what the process has done so far, in order. */
    ghost var log: seq<Event>

    constructor (reliable: bool, ready: bool, host: Endianness)
      ensures this.reliable == reliable && this.ready == ready && this.host == host && open == {} && log == []
    {
      this.reliable, this.ready, this.host := reliable, ready, host;
      open, inbound, outbound := {}, map[], map[];
      arriving, log := map[], [];
    }

    /** Bytes still to be received on a descriptor. */
    function In(fd: int): seq<bv8>
      reads this`inbound
    {
      if fd in inbound then inbound[fd] else []
    }

    /** Bytes handed to the kernel for a descriptor so far. */
    function Out(fd: int): seq<bv8>
      reads this`outbound
    {
      if fd in outbound then outbound[fd] else []
    }

    /** All the bytes the peer sends over a connection. */
    ghost function Arrived(fd: int): seq<bv8>
      reads this`arriving
    {
      if fd in arriving then arriving[fd] else []
    }

    /** All that is known of the streams of a descriptor. */
    ghost function Streams(fd: int): (seq<bv8>, seq<bv8>, seq<bv8>)
      reads this`inbound, this`outbound, this`arriving
    {
      (In(fd), Out(fd), Arrived(fd))
    }

    /** A descriptor the kernel does not use, or -1 when it fails. */
    method FreeDescriptor() returns (fd: int)
      ensures fd == -1 || (fd >= 0 && fd !in open)
      ensures ready ==> fd != -1
    {
      fd := *;
      if fd < 0 || fd in open {
        fd := -1;
        if ready {
          fd := Unused(open);
        }
      }
    }

    /** A new descriptor, whose streams can be anything a peer does. */
    method Open() returns (fd: int)
      modifies this`open, this`inbound, this`outbound, this`arriving
      ensures fd == -1 ==> unchanged(this)
      ensures fd != -1 ==> fd >= 0 && fd !in old(open) && open == old(open) + {fd}
      ensures fd != -1 ==> Out(fd) == [] && In(fd) == Arrived(fd)
      ensures forall f | f != fd :: Streams(f) == old(Streams(f))
      ensures ready ==> fd != -1
    {
      fd := FreeDescriptor();
      if fd != -1 {
        var stream: seq<bv8> := *;
        open := open + {fd};
        inbound := inbound[fd := stream];
        outbound := outbound[fd := []];
        arriving := arriving[fd := stream];
      }
    }

    /** ::socket. */
    method Socket() returns (fd: int)
      modifies this
      ensures log == old(log) + [SocketCall(fd)]
      ensures fd == -1 ==> open == old(open)
      ensures fd != -1 ==> fd >= 0 && fd !in old(open) && open == old(open) + {fd}
      ensures fd != -1 ==> Out(fd) == [] && In(fd) == Arrived(fd)
      ensures forall f | f != fd || fd == -1 :: Streams(f) == old(Streams(f))
      ensures ready ==> fd != -1
    {
      fd := Open();
      log := log + [SocketCall(fd)];
    }

    /** ::accept. */
    method Accept(listener: int) returns (fd: int)
      modifies this
      ensures log == old(log) + [AcceptCall(listener, fd)]
      ensures fd == -1 ==> open == old(open)
      ensures fd != -1 ==> fd >= 0 && fd !in old(open) && open == old(open) + {fd}
      ensures fd != -1 ==> Out(fd) == [] && In(fd) == Arrived(fd)
      ensures forall f | f != fd || fd == -1 :: Streams(f) == old(Streams(f))
      ensures ready ==> fd != -1
    {
      fd := Open();
      log := log + [AcceptCall(listener, fd)];
    }

    method Close(fd: int)
      requires fd in open
      modifies this`open
      ensures open == old(open) - {fd}
    {
      open := open - {fd};
    }

    /** ::connect: on success the descriptor gets a fresh pair of streams. */
    method Connect(fd: int) returns (reached: bool)
      modifies this`inbound, this`outbound, this`arriving, this`log
      ensures log == old(log) + [ConnectCall(fd, reached)]
      ensures forall f | f != fd || !reached :: Streams(f) == old(Streams(f))
      ensures reached ==> Out(fd) == [] && In(fd) == Arrived(fd)
    {
      reached := *;
      log := log + [ConnectCall(fd, reached)];
      if reached {
        var stream: seq<bv8> := *;
        inbound := inbound[fd := stream];
        outbound := outbound[fd := []];
        arriving := arriving[fd := stream];
      }
    }

    /** A call whose only visible outcome is success or failure. */
    method Succeeds(what: Setup) returns (ok: bool)
      modifies this`log
      ensures log == old(log) + [SetupCall(what, ok)]
      ensures ready ==> ok
    {
      ok := *;
      ok := ok || ready;
      log := log + [SetupCall(what, ok)];
    }

    /** ::getsockname. */
    method BoundPort() returns (ok: bool, port: nat)
      modifies this`log
      ensures port < 0x1_0000
      ensures log == old(log) + [NameCall(ok, port)]
      ensures ready ==> ok
    {
      ok := *;
      ok := ok || ready;
      port := *;
      port := port % 0x1_0000;
      log := log + [NameCall(ok, port)];
    }

    /** ::send takes some prefix of what it is offered, or nothing and fails. */
    method Send(fd: int, data: seq<bv8>) returns (result: int)
      modifies this`outbound, this`log
      ensures log == old(log) + [SendCall(fd, result)]
      ensures result <= |data|
      ensures result <= 0 ==> outbound == old(outbound)
      ensures result > 0 ==> fd in open && outbound == old(outbound)[fd := old(Out(fd)) + data[..result]]
      ensures reliable && fd in open && data != [] ==> result > 0
    {
      result := *;
      if reliable && fd in open && result <= 0 {
        result := 1;
      }
      if result > |data| {
        result := |data|;
      }
      if fd !in open {
        result := -1;
      }
      log := log + [SendCall(fd, result)];
      if result > 0 {
        outbound := outbound[fd := Out(fd) + data[..result]];
      }
    }

    /** ::recv returns a non-empty piece of the stream, 0 only at its end, or fails. */
    method Recv(fd: int, size: nat) returns (result: int, data: seq<bv8>)
      modifies this`inbound, this`log
      ensures log == old(log) + [RecvCall(fd, result)]
      ensures result <= size && result <= |old(In(fd))|
      ensures result <= 0 ==> data == [] && inbound == old(inbound)
      ensures fd < 0 || fd !in open ==> result < 0
      ensures result > 0 ==> data == old(In(fd))[..result] && inbound == old(inbound)[fd := old(In(fd))[result..]]
      ensures result == 0 && size > 0 ==> In(fd) == []
      ensures reliable && fd >= 0 && fd in open && size > 0 && old(In(fd)) != [] ==> result > 0
    {
      result := *;
      if result > size {
        result := size;
      }
      if result > |In(fd)| {
        result := |In(fd)|;
      }
      if In(fd) != [] && size > 0 && result <= 0 {
        result := if reliable then 1 else -1;
      }
      if fd < 0 || fd !in open {
        result := -1;
      }
      log := log + [RecvCall(fd, result)];
      data := [];
      if result > 0 {
        data := In(fd)[..result];
        inbound := inbound[fd := In(fd)[result..]];
      }
    }
  }

  /** A number larger than all in a finite set. */
  method Unused(taken: set<nat>) returns (n: nat)
    ensures n !in taken
  {
    n := 0;
    var rest := taken;
    while rest != {}
      invariant rest <= taken
      invariant forall t | t in taken :: t in rest || t < n
    {
      var t :| t in rest;
      rest := rest - {t};
      n := if t < n then n else t + 1;
    }
  }
}
