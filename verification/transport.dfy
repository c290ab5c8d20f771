/** The operating-system calls the client makes, as an abstract machine: name resolution, socket
    creation, connection, sending and closing. Each call succeeds or fails as its inputs and the
    machine's state say; the texts the system gives for error numbers are parameters. */
module Transport {
  import opened Wire

  const InvalidSocket: int := -1
  const SocketErrorResult: int := -1

  /** The error numbers this machine produces itself. */
  const EBADF: int := 9
  const EPIPE: int := 32

  /** One address `getaddrinfo` returns: the error number `socket()` fails with on it and the one
      `connect()` fails with on it, 0 meaning that the call succeeds. */
  datatype Endpoint = Endpoint(socketErrno: int, connectErrno: int)

  predicate Usable(e: Endpoint)
  {
    e.socketErrno == 0 && e.connectErrno == 0
  }

  /** The outcome of `getaddrinfo`: the candidate list, in order, or its nonzero error code. */
  datatype Resolution = Resolved(candidates: seq<Endpoint>) | Unresolved(code: int)

  /** The environment: how names resolve and how the system words its error numbers. */
  datatype Env = Env(resolve: (seq<Byte>, U16) -> Resolution,
                     strerror: int -> string,
                     gaiStrerror: int -> string)

  /** Every call the client makes on the system, with its arguments. */
  datatype Syscall = SocketSys | ConnectSys(fd: int) | CloseSys(fd: int) | SendSys(fd: int, data: seq<Byte>)

  /** The system's state: the open descriptors, the next descriptor `socket()` hands out, `errno`,
      the bytes the server has received, how many more it accepts, and every call made so far. */
  datatype Net = Net(open: set<int>, nextFd: nat, errno: int, wire: seq<Byte>, room: nat, calls: seq<Syscall>)

  /** Descriptors are handed out in increasing order and never reused. */
  predicate Fresh(n: Net)
  {
    forall fd :: fd in n.open ==> 0 <= fd < n.nextFd
  }

  /** `socket()` on a candidate: a new descriptor, or -1 with `errno` set. */
  function SocketCall(n: Net, e: Endpoint): (r: (Net, int))
    ensures Fresh(n) ==> Fresh(r.0)
    ensures r.1 == InvalidSocket <==> e.socketErrno != 0
    ensures r.1 != InvalidSocket ==> r.0.open == n.open + {r.1} && r.1 == n.nextFd
    ensures Fresh(n) && r.1 != InvalidSocket ==> r.1 !in n.open
    ensures r.1 == InvalidSocket ==> r.0.open == n.open && r.0.errno == e.socketErrno
  {
    var n1 := n.(calls := n.calls + [SocketSys]);
    if e.socketErrno != 0 then (n1.(errno := e.socketErrno), InvalidSocket)
    else (n1.(open := n.open + {n.nextFd}, nextFd := n.nextFd + 1), n.nextFd)
  }

  /** `connect()` of a descriptor to a candidate: 0, or -1 with `errno` set. */
  function ConnectCall(n: Net, fd: int, e: Endpoint): (r: (Net, int))
    ensures r.0.open == n.open && r.0.nextFd == n.nextFd
    ensures r.1 == SocketErrorResult <==> e.connectErrno != 0
    ensures r.1 == SocketErrorResult ==> r.0.errno == e.connectErrno
  {
    var n1 := n.(calls := n.calls + [ConnectSys(fd)]);
    if e.connectErrno != 0 then (n1.(errno := e.connectErrno), SocketErrorResult) else (n1, 0)
  }

  /** `close()`: an open descriptor is released; any other fails with EBADF. */
  function CloseCall(n: Net, fd: int): (r: (Net, int))
    ensures r.0.open == n.open - {fd} && r.0.nextFd == n.nextFd
    ensures r.1 == SocketErrorResult <==> fd !in n.open
    ensures r.1 == SocketErrorResult ==> r.0.errno == EBADF
    ensures r.1 != SocketErrorResult ==> r.0.errno == n.errno
  {
    var n1 := n.(calls := n.calls + [CloseSys(fd)]);
    if fd in n.open then (n1.(open := n.open - {fd}), 0) else (n1.(errno := EBADF), SocketErrorResult)
  }

  /** `send()`: on an open descriptor the bytes the server still accepts are delivered, and all of
      them is a success that returns the length; a send the server cannot take in full delivers
      what fits and fails with EPIPE. On any other descriptor nothing is delivered and the call
      fails with EBADF. */
  function SendCall(n: Net, fd: int, data: seq<Byte>): (r: (Net, int))
    ensures r.0.open == n.open && r.0.nextFd == n.nextFd
    ensures r.0.calls == n.calls + [SendSys(fd, data)]
    ensures r.1 == |data| <==> fd in n.open && |data| <= n.room
    ensures r.1 != |data| ==> r.1 == SocketErrorResult
    ensures fd in n.open ==> r.0.wire == n.wire + data[..if |data| <= n.room then |data| else n.room]
    ensures fd !in n.open ==> r.0.wire == n.wire && r.0.room == n.room && r.0.errno == EBADF
  {
    var n1 := n.(calls := n.calls + [SendSys(fd, data)]);
    if fd !in n.open then (n1.(errno := EBADF), SocketErrorResult)
    else if |data| <= n.room then (n1.(wire := n.wire + data, room := n.room - |data|), |data|)
    else (n1.(wire := n.wire + data[..n.room], room := 0, errno := EPIPE), SocketErrorResult)
  }

  /** The machine as an object the client calls into. */
  class Os {
    const env: Env
    var open: set<int>
    var nextFd: nat
    var errno: int
    var wire: seq<Byte>
    var room: nat
    var calls: seq<Syscall>

    /** A machine with nothing open whose server accepts `room` bytes. */
    constructor (env: Env, room: nat)
      ensures this.env == env && Snapshot() == Net({}, 0, 0, [], room, [])
    {
      this.env := env;
      open := {};
      nextFd := 0;
      errno := 0;
      wire := [];
      this.room := room;
      calls := [];
    }

    function Snapshot(): Net
      reads this
    {
      Net(open, nextFd, errno, wire, room, calls)
    }

    method Set(n: Net)
      modifies this
      ensures Snapshot() == n
    {
      open, nextFd, errno, wire, room, calls := n.open, n.nextFd, n.errno, n.wire, n.room, n.calls;
    }

    method Socket(e: Endpoint) returns (fd: int)
      modifies this
      ensures (Snapshot(), fd) == SocketCall(old(Snapshot()), e)
    {
      var r := SocketCall(Snapshot(), e);
      Set(r.0);
      fd := r.1;
    }

    method Connect(fd: int, e: Endpoint) returns (result: int)
      modifies this
      ensures (Snapshot(), result) == ConnectCall(old(Snapshot()), fd, e)
    {
      var r := ConnectCall(Snapshot(), fd, e);
      Set(r.0);
      result := r.1;
    }

    method Close(fd: int) returns (result: int)
      modifies this
      ensures (Snapshot(), result) == CloseCall(old(Snapshot()), fd)
    {
      var r := CloseCall(Snapshot(), fd);
      Set(r.0);
      result := r.1;
    }

    method Send(fd: int, data: seq<Byte>) returns (sent: int)
      modifies this
      ensures (Snapshot(), sent) == SendCall(old(Snapshot()), fd, data)
    {
      var r := SendCall(Snapshot(), fd, data);
      Set(r.0);
      sent := r.1;
    }
  }
}
