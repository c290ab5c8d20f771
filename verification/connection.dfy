/** `Client::Impl` and the command builders as state transitions. A client's state is its socket
    descriptor, its last error and its last error text; every operation maps that state and the
    system's state to new ones and an `Error`. The `Client` class follows these definitions call
    for call. */
module Connection {
  import opened Wire
  import opened VgCommands
  import opened Layout
  import opened Packets
  import opened Errors
  import opened Transport

  /** `mSocketFd`, `mLastError`, `mLastErrorString`. */
  datatype Conn = Conn(socketFd: int, lastError: Error, lastErrorString: string)

  /** What an operation leaves behind: the client's state, the system's state and the result. */
  datatype Outcome = Outcome(conn: Conn, net: Net, error: Error)

  /** A freshly constructed client whose platform start-up succeeded. */
  function Initial(): Conn
  {
    Conn(InvalidSocket, Ok, [])
  }

  predicate IsConnected(s: Conn)
  {
    s.socketFd != InvalidSocket
  }

  /** `setLastError`: records the error and its text; the caller returns the error. */
  function SetLastError(s: Conn, e: Error, text: string): Conn
  {
    s.(lastError := e, lastErrorString := text)
  }

  /** `errorString(lastSocketError())` in the given system state. */
  function SysText(env: Env, n: Net): string
  {
    ErrorText(n.errno, env.strerror(n.errno))
  }

  function Min(a: nat, b: nat): nat
  {
    if a <= b then a else b
  }

  /** The texts `Client::Impl` records with its errors; each prefix is followed by a system text. */
  const NotConnectedText: string := "Not connected"
  const SendFailedPrefix: string := "socket send() failed: "
  const SocketFailedPrefix: string := "socket() failed: "
  const ConnectFailedPrefix: string := "connect() failed: "
  const ResolveFailedPrefix: string := "getaddrinfo() failed: "
  const CloseFailedPrefix: string := "Error closing socket: "
  const InitFailedPrefix: string := "Failed to initialize: "

  // ---------------------------------------------------------------------------------------------
  // send and sendMessage

  /** `send`: no socket is `NotConnected`; a send that does not hand over every byte is a
      `SocketError` carrying the system's text. */
  function Send(s: Conn, n: Net, env: Env, data: seq<Byte>): (o: Outcome)
    ensures o.conn.socketFd == s.socketFd && o.net.open == n.open && o.net.nextFd == n.nextFd
    ensures o.error == Ok <==> IsConnected(s) && s.socketFd in n.open && |data| <= n.room
    ensures o.error == Ok ==> o.conn == s
    ensures o.error != Ok ==> o.conn.lastError == o.error && o.error in {NotConnected, SocketError}
    ensures o.error == NotConnected <==> !IsConnected(s)
  {
    if !IsConnected(s) then Outcome(SetLastError(s, NotConnected, NotConnectedText), n, NotConnected)
    else
      var (n1, sent) := SendCall(n, s.socketFd, data);
      if sent != |data| then
        Outcome(SetLastError(s, SocketError, SendFailedPrefix + SysText(env, n1)), n1, SocketError)
      else Outcome(s, n1, Ok)
  }

  /** `sendMessage`: the length prefix, then the header, then the payload when there is one; the
      first send that fails ends the message and its error is the result. */
  function SendMessage(s: Conn, n: Net, env: Env, header: seq<Byte>, extra: Option<seq<Byte>>, extraLen: U64): Outcome
  {
    var o1 := Send(s, n, env, Le((4 + |header| + extraLen) % Two32, 4));
    if o1.error != Ok then o1
    else
      var o2 := Send(o1.conn, o1.net, env, header);
      if o2.error != Ok then o2
      else if extra.Some? then Send(o2.conn, o2.net, env, extra.value)
      else o2
  }

  /** The pieces `sendMessage` hands to `send`, in order. */
  function Parts(header: seq<Byte>, extra: Option<seq<Byte>>, extraLen: U64): seq<seq<Byte>>
  {
    [Le((4 + |header| + extraLen) % Two32, 4), header] + (if extra.Some? then [extra.value] else [])
  }

  function Concat(parts: seq<seq<Byte>>): seq<Byte>
  {
    if parts == [] then [] else parts[0] + Concat(parts[1..])
  }

  /** A reference for the rule "stop at the first failure": sends `parts` one after the other
      while each succeeds. */
  function SendAll(s: Conn, n: Net, env: Env, parts: seq<seq<Byte>>): Outcome
    decreases parts
  {
    if parts == [] then Outcome(s, n, Ok)
    else
      var o := Send(s, n, env, parts[0]);
      if o.error != Ok then o else SendAll(o.conn, o.net, env, parts[1..])
  }

  /** The send calls a server that accepts `room` more bytes sees: every piece up to and
      including the first one that does not fit. */
  function Attempts(fd: int, parts: seq<seq<Byte>>, room: nat): seq<Syscall>
  {
    if parts == [] then []
    else [SendSys(fd, parts[0])] + (if |parts[0]| <= room then Attempts(fd, parts[1..], room - |parts[0]|) else [])
  }

  lemma {:induction false} SendMessageIsSendAll(s: Conn, n: Net, env: Env, header: seq<Byte>, extra: Option<seq<Byte>>, extraLen: U64)
    ensures SendMessage(s, n, env, header, extra, extraLen) == SendAll(s, n, env, Parts(header, extra, extraLen))
    ensures Concat(Parts(header, extra, extraLen)) == Frame(header, extra, extraLen)
  {
    var pre := Le((4 + |header| + extraLen) % Two32, 4);
    var ps := Parts(header, extra, extraLen);
    var tail: seq<seq<Byte>> := ps[1..][1..];
    var none: seq<seq<Byte>> := [];
    assert ps[0] == pre && ps[1..][0] == header;
    var o1 := Send(s, n, env, pre);
    assert SendAll(s, n, env, ps) == if o1.error != Ok then o1 else SendAll(o1.conn, o1.net, env, ps[1..]);
    if o1.error == Ok {
      var o2 := Send(o1.conn, o1.net, env, header);
      assert SendAll(o1.conn, o1.net, env, ps[1..]) == if o2.error != Ok then o2 else SendAll(o2.conn, o2.net, env, tail);
      if o2.error == Ok {
        if extra.Some? {
          assert tail == [extra.value] && tail[1..] == none;
          var o3 := Send(o2.conn, o2.net, env, extra.value);
          assert SendAll(o2.conn, o2.net, env, tail) == if o3.error != Ok then o3 else SendAll(o3.conn, o3.net, env, none);
          assert SendMessage(s, n, env, header, extra, extraLen) == o3;
        } else {
          assert tail == none;
          assert SendMessage(s, n, env, header, extra, extraLen) == o2;
        }
      }
    }
    if extra.Some? {
      assert tail == [extra.value] && tail[1..] == none;
      assert Concat(tail) == extra.value + Concat(none);
    } else {
      assert tail == none;
    }
    assert Concat(ps) == pre + (header + Concat(tail));
  }

  /** One `send` on an open socket, outright. */
  lemma SendOnOpenSocket(s: Conn, n: Net, env: Env, p: seq<Byte>)
    requires IsConnected(s) && s.socketFd in n.open
    ensures |p| <= n.room ==>
              Send(s, n, env, p) == Outcome(s, n.(wire := n.wire + p, room := n.room - |p|,
                                                  calls := n.calls + [SendSys(s.socketFd, p)]), Ok)
    ensures |p| > n.room ==>
              Send(s, n, env, p)
              == Outcome(SetLastError(s, SocketError, SendFailedPrefix + ErrorText(EPIPE, env.strerror(EPIPE))),
                         n.(wire := n.wire + p[..n.room], room := 0, errno := EPIPE,
                            calls := n.calls + [SendSys(s.socketFd, p)]), SocketError)
  {
  }

  /** What sending `parts` on an open socket does: the server receives their concatenation up to
      the room it has; the run succeeds, leaving the client state alone, exactly when all of it
      fits, and otherwise fails with the system's EPIPE text. */
  predicate DeliveredUntilFull(s: Conn, n: Net, env: Env, parts: seq<seq<Byte>>, o: Outcome)
  {
    var c := Concat(parts);
    (o.error == Ok <==> |c| <= n.room)
    && o.net.wire == n.wire + c[..Min(|c|, n.room)]
    && o.net.calls == n.calls + Attempts(s.socketFd, parts, n.room)
    && o.net.open == n.open && o.net.nextFd == n.nextFd
    && (o.error == Ok ==> o.conn == s && o.net.room == n.room - |c|)
    && (o.error != Ok ==> o.error == SocketError
                          && o.conn == SetLastError(s, SocketError, SendFailedPrefix + ErrorText(EPIPE, env.strerror(EPIPE))))
  }

  /** On an open socket, the pieces reach the server in order until the server is full; the first
      piece that does not fit ends the run with the system's EPIPE text. */
  lemma {:induction false} SendAllOnOpenSocket(s: Conn, n: Net, env: Env, parts: seq<seq<Byte>>)
    requires IsConnected(s) && s.socketFd in n.open
    decreases parts, 1
    ensures var o := SendAll(s, n, env, parts);
            var c := Concat(parts);
            (o.error == Ok <==> |c| <= n.room)
            && o.net.wire == n.wire + c[..Min(|c|, n.room)]
            && o.net.calls == n.calls + Attempts(s.socketFd, parts, n.room)
            && o.net.open == n.open && o.net.nextFd == n.nextFd
            && (o.error == Ok ==> o.conn == s && o.net.room == n.room - |c|)
            && (o.error != Ok ==> o.error == SocketError
                                  && o.conn == SetLastError(s, SocketError, SendFailedPrefix + ErrorText(EPIPE, env.strerror(EPIPE))))
  {
    if parts == [] {
    } else if |parts[0]| <= n.room {
      FirstPartFits(s, n, env, parts);
    } else {
      FirstPartOverflows(s, n, env, parts);
    }
  }

  lemma {:induction false} FirstPartFits(s: Conn, n: Net, env: Env, parts: seq<seq<Byte>>)
    requires IsConnected(s) && s.socketFd in n.open
    requires parts != [] && |parts[0]| <= n.room
    decreases parts, 0
    ensures DeliveredUntilFull(s, n, env, parts, SendAll(s, n, env, parts))
  {
    var p := parts[0];
    var n1 := n.(wire := n.wire + p, room := n.room - |p|, calls := n.calls + [SendSys(s.socketFd, p)]);
    SendOnOpenSocket(s, n, env, p);
    assert Send(s, n, env, p) == Outcome(s, n1, Ok);
    assert SendAll(s, n, env, parts) == SendAll(s, n1, env, parts[1..]);
    SendAllOnOpenSocket(s, n1, env, parts[1..]);
    DeliveredAfterFirst(s, n, env, parts, SendAll(s, n1, env, parts[1..]));
  }

  /** A first piece that fits is delivered whole, and the rest of the run starts from there. */
  lemma {:induction false} DeliveredAfterFirst(s: Conn, n: Net, env: Env, parts: seq<seq<Byte>>, o: Outcome)
    requires parts != [] && |parts[0]| <= n.room
    requires DeliveredUntilFull(s, n.(wire := n.wire + parts[0], room := n.room - |parts[0]|,
                                      calls := n.calls + [SendSys(s.socketFd, parts[0])]), env, parts[1..], o)
    ensures DeliveredUntilFull(s, n, env, parts, o)
  {
    var p := parts[0];
    var n1 := n.(wire := n.wire + p, room := n.room - |p|, calls := n.calls + [SendSys(s.socketFd, p)]);
    var c := Concat(parts);
    var rest := Concat(parts[1..]);
    assert c == p + rest;
    var k := Min(|rest|, n1.room);
    assert o.net.wire == n.wire + c[..Min(|c|, n.room)] by {
      assert o.net.wire == n.wire + p + rest[..k];
      assert c[..Min(|c|, n.room)] == p + rest[..k];
    }
    assert o.net.calls == n.calls + Attempts(s.socketFd, parts, n.room) by {
      assert Attempts(s.socketFd, parts, n.room)
          == [SendSys(s.socketFd, p)] + Attempts(s.socketFd, parts[1..], n1.room);
    }
  }

  lemma {:induction false} FirstPartOverflows(s: Conn, n: Net, env: Env, parts: seq<seq<Byte>>)
    requires IsConnected(s) && s.socketFd in n.open
    requires parts != [] && |parts[0]| > n.room
    ensures DeliveredUntilFull(s, n, env, parts, SendAll(s, n, env, parts))
  {
    var p := parts[0];
    var c := Concat(parts);
    assert c == p + Concat(parts[1..]);
    var o1 := Send(s, n, env, p);
    SendOnOpenSocket(s, n, env, p);
    assert SendAll(s, n, env, parts) == o1;
    assert Attempts(s.socketFd, parts, n.room) == [SendSys(s.socketFd, p)];
    assert c[..Min(|c|, n.room)] == p[..n.room];
  }

  /** `sendMessage` on an open socket: the server receives the frame, or as much of it as it
      accepts; the message succeeds exactly when the whole frame fits; the header is not sent
      once the prefix has failed, nor the payload once the header has. */
  lemma {:induction false} SendMessageOnOpenSocket(s: Conn, n: Net, env: Env, header: seq<Byte>, extra: Option<seq<Byte>>, extraLen: U64)
    requires IsConnected(s) && s.socketFd in n.open
    ensures var o := SendMessage(s, n, env, header, extra, extraLen);
            var f := Frame(header, extra, extraLen);
            (o.error == Ok <==> |f| <= n.room)
            && o.net.wire == n.wire + f[..Min(|f|, n.room)]
            && o.net.calls == n.calls + Attempts(s.socketFd, Parts(header, extra, extraLen), n.room)
            && o.net.open == n.open
            && (o.error == Ok ==> o.conn == s && o.net.room == n.room - |f|)
            && (o.error != Ok ==> o.error == SocketError
                                  && o.conn.lastErrorString == SendFailedPrefix + ErrorText(EPIPE, env.strerror(EPIPE)))
  {
    SendMessageIsSendAll(s, n, env, header, extra, extraLen);
    SendAllOnOpenSocket(s, n, env, Parts(header, extra, extraLen));
  }

  /** A message the server has room for arrives whole and leaves the client state alone. */
  lemma {:induction false} SendMessageFits(s: Conn, n: Net, env: Env, header: seq<Byte>, extra: Option<seq<Byte>>, extraLen: U64)
    requires IsConnected(s) && s.socketFd in n.open
    requires |Frame(header, extra, extraLen)| <= n.room
    ensures var o := SendMessage(s, n, env, header, extra, extraLen);
            var f := Frame(header, extra, extraLen);
            o.error == Ok && o.conn == s && o.net.open == n.open
            && o.net.wire == n.wire + f && o.net.room == n.room - |f|
  {
    SendMessageOnOpenSocket(s, n, env, header, extra, extraLen);
    var f := Frame(header, extra, extraLen);
    assert f[..Min(|f|, n.room)] == f;
  }

  /** Without a socket nothing is sent: the message fails with `NotConnected`, recorded as
      "Not connected", and the system is untouched. */
  lemma SendMessageNotConnected(s: Conn, n: Net, env: Env, header: seq<Byte>, extra: Option<seq<Byte>>, extraLen: U64)
    requires !IsConnected(s)
    ensures SendMessage(s, n, env, header, extra, extraLen) == Outcome(SetLastError(s, NotConnected, NotConnectedText), n, NotConnected)
  {
  }

  /** A descriptor that is no longer open (the one `disconnect` closed) fails on the prefix with
      EBADF, and nothing reaches the server. */
  lemma SendMessageOnClosedSocket(s: Conn, n: Net, env: Env, header: seq<Byte>, extra: Option<seq<Byte>>, extraLen: U64)
    requires IsConnected(s) && s.socketFd !in n.open
    ensures var o := SendMessage(s, n, env, header, extra, extraLen);
            o.error == SocketError && o.net.wire == n.wire && o.net.errno == EBADF
            && o.net.calls == n.calls + [SendSys(s.socketFd, Le((4 + |header| + extraLen) % Two32, 4))]
            && o.conn == SetLastError(s, SocketError, SendFailedPrefix + ErrorText(EBADF, env.strerror(EBADF)))
  {
  }

  // ---------------------------------------------------------------------------------------------
  // connect and disconnect

  /** The loop of `connect` over the resolved candidates: a socket is created on each in turn and
      connected; a failure records its error (and closes the socket when `connect()` failed) and
      moves on; the first success stops the scan. */
  function Scan(s: Conn, n: Net, env: Env, cands: seq<Endpoint>): (r: (Conn, Net))
    decreases |cands|
  {
    if cands == [] then (s, n)
    else
      var e := cands[0];
      var (n1, fd) := SocketCall(n, e);
      var s1 := s.(socketFd := fd);
      if fd == InvalidSocket then
        Scan(SetLastError(s1, SocketError, SocketFailedPrefix + SysText(env, n1)), n1, env, cands[1..])
      else
        var (n2, res) := ConnectCall(n1, fd, e);
        if res == SocketErrorResult then
          var s2 := SetLastError(s1, SocketError, ConnectFailedPrefix + SysText(env, n2));
          var (n3, _) := CloseCall(n2, fd);
          Scan(s2.(socketFd := InvalidSocket), n3, env, cands[1..])
        else (s1, n2)
  }

  /** `connect`: nothing to do when connected; otherwise resolve, clear the last error, and scan.
      The result is the last error the scan leaves behind. */
  function Connect(s: Conn, n: Net, env: Env, host: seq<Byte>, port: U16): Outcome
  {
    if IsConnected(s) then Outcome(s, n, Ok)
    else
      match env.resolve(host, port)
      case Unresolved(code) =>
        Outcome(SetLastError(s, SocketError, ResolveFailedPrefix + env.gaiStrerror(code)), n, SocketError)
      case Resolved(cands) =>
        var (s1, n1) := Scan(SetLastError(s, Ok, []).(socketFd := InvalidSocket), n, env, cands);
        Outcome(s1, n1, s1.lastError)
  }

  /** The position of the first candidate both calls succeed on, or the number of candidates. */
  function FirstUsable(cands: seq<Endpoint>): (k: nat)
    ensures k <= |cands|
    ensures forall i :: 0 <= i < k ==> !Usable(cands[i])
    ensures k < |cands| ==> Usable(cands[k])
  {
    if cands == [] || Usable(cands[0]) then 0 else 1 + FirstUsable(cands[1..])
  }

  /** The scan connects exactly when some candidate is usable, on a new descriptor it leaves open
      (every failed one is closed again); its last error is `SocketError` exactly when an earlier
      candidate failed, whether or not a later one connected. The server receives nothing. */
  lemma {:induction false} ScanOutcome(s: Conn, n: Net, env: Env, cands: seq<Endpoint>)
    requires Fresh(n) && !IsConnected(s)
    decreases cands
    ensures var (s1, n1) := Scan(s, n, env, cands);
            Fresh(n1) && n1.wire == n.wire && n1.room == n.room
            && (IsConnected(s1) <==> FirstUsable(cands) < |cands|)
            && (IsConnected(s1) ==> s1.socketFd !in n.open && n1.open == n.open + {s1.socketFd})
            && (!IsConnected(s1) ==> n1.open == n.open)
            && s1.lastError == (if FirstUsable(cands) == 0 then s.lastError else SocketError)
  {
    if cands != [] {
      var e := cands[0];
      var (n1, fd) := SocketCall(n, e);
      var s1 := s.(socketFd := fd);
      if fd == InvalidSocket {
        ScanOutcome(SetLastError(s1, SocketError, SocketFailedPrefix + SysText(env, n1)), n1, env, cands[1..]);
      } else {
        var (n2, res) := ConnectCall(n1, fd, e);
        if res == SocketErrorResult {
          var s2 := SetLastError(s1, SocketError, ConnectFailedPrefix + SysText(env, n2));
          var (n3, _) := CloseCall(n2, fd);
          assert n3.open == n.open;
          ScanOutcome(s2.(socketFd := InvalidSocket), n3, env, cands[1..]);
        }
      }
    }
  }

  /** `connect` on a connected client returns `Ok` and changes nothing. */
  lemma ConnectWhenConnected(s: Conn, n: Net, env: Env, host: seq<Byte>, port: U16)
    requires IsConnected(s)
    ensures Connect(s, n, env, host, port) == Outcome(s, n, Ok)
  {
  }

  /** `connect` after name resolution: connected exactly when a candidate is usable, and `Ok`
      exactly when the first candidate is usable or there are none. So a later candidate that
      connects still reports `SocketError`, and an empty list reports `Ok` without a connection. */
  lemma {:induction false} ConnectResult(s: Conn, n: Net, env: Env, host: seq<Byte>, port: U16, cands: seq<Endpoint>)
    requires !IsConnected(s) && Fresh(n) && env.resolve(host, port) == Resolved(cands)
    ensures var o := Connect(s, n, env, host, port);
            (IsConnected(o.conn) <==> FirstUsable(cands) < |cands|)
            && (o.error == Ok <==> FirstUsable(cands) == 0)
            && o.error == o.conn.lastError && o.net.wire == n.wire && Fresh(o.net)
            && (IsConnected(o.conn) ==> o.conn.socketFd in o.net.open)
  {
    ScanOutcome(SetLastError(s, Ok, []).(socketFd := InvalidSocket), n, env, cands);
  }

  /** A name that does not resolve is a `SocketError` with the resolver's text, and no socket call
      is made. */
  lemma ConnectUnresolved(s: Conn, n: Net, env: Env, host: seq<Byte>, port: U16, code: int)
    requires !IsConnected(s) && env.resolve(host, port) == Unresolved(code)
    ensures Connect(s, n, env, host, port)
         == Outcome(SetLastError(s, SocketError, ResolveFailedPrefix + env.gaiStrerror(code)), n, SocketError)
  {
  }

  /** `disconnect`: closes the socket when there is one; a failing close is a `SocketError`.
      The descriptor is never reset. */
  function Disconnect(s: Conn, n: Net, env: Env): (o: Outcome)
    ensures o.conn.socketFd == s.socketFd
  {
    if !IsConnected(s) then Outcome(s, n, Ok)
    else
      var (n1, r) := CloseCall(n, s.socketFd);
      if r == SocketErrorResult then
        Outcome(SetLastError(s, SocketError, CloseFailedPrefix + SysText(env, n1)), n1, SocketError)
      else Outcome(s, n1, Ok)
  }

  /** `disconnect` without a socket returns `Ok` and changes nothing. */
  lemma DisconnectWhenNotConnected(s: Conn, n: Net, env: Env)
    requires !IsConnected(s)
    ensures Disconnect(s, n, env) == Outcome(s, n, Ok)
  {
  }

  /** After a successful `disconnect` the client still counts as connected: a second `disconnect`
      fails with EBADF, `connect` does nothing, and a message fails on its prefix with EBADF. */
  lemma {:induction false} DisconnectLeavesStaleDescriptor(s: Conn, n: Net, env: Env, host: seq<Byte>, port: U16, header: seq<Byte>)
    requires IsConnected(s) && s.socketFd in n.open
    ensures var d := Disconnect(s, n, env);
            d.error == Ok && d.conn == s && IsConnected(d.conn) && s.socketFd !in d.net.open
            && Disconnect(d.conn, d.net, env).error == SocketError
            && Disconnect(d.conn, d.net, env).conn.lastErrorString
               == CloseFailedPrefix + ErrorText(EBADF, env.strerror(EBADF))
            && Connect(d.conn, d.net, env, host, port) == Outcome(d.conn, d.net, Ok)
            && SendMessage(d.conn, d.net, env, header, None, 0).error == SocketError
            && SendMessage(d.conn, d.net, env, header, None, 0).net.wire == n.wire
  {
    var d := Disconnect(s, n, env);
    SendMessageOnClosedSocket(d.conn, d.net, env, header, None, 0);
  }

  // ---------------------------------------------------------------------------------------------
  // The command builders

  const WidthHeightMessage: string := "Image width and height must be greater than 0."
  const NoChannelMessage: string := "Image must have at least one channel."
  const CreateInferMessage: string := "Channel names cannot be inferred for images with more than 4 channels."
  const UpdateInferMessage: string := "Channel names/offsets/strides cannot be inferred for images with more than 4 channels."

  const SizeMismatchPrefix: string := "Image data size does not match specified dimensions, offset, and stride. (Expected: "

  function SizeMismatchMessage(expected: nat): string
  {
    SizeMismatchPrefix + DecimalString(expected) + ")"
  }

  /** An argument error: recorded and returned, with nothing sent. */
  function Reject(s: Conn, n: Net, text: string): Outcome
  {
    Outcome(SetLastError(s, ArgumentError, text), n, ArgumentError)
  }

  /** The first `count` entries of the caller's array, or of the default when the caller passes none. */
  function OrDefault<T>(given: Option<seq<T>>, default: seq<T>, count: nat): (r: seq<T>)
    requires given.Some? ==> count <= |given.value|
    requires given.None? ==> count <= |default|
    ensures |r| == count
  {
    if given.Some? then given.value[..count] else default[..count]
  }

  function OpenImage(s: Conn, n: Net, env: Env, path: seq<Byte>, selector: seq<Byte>, grabFocus: bool): Outcome
  {
    SendMessage(s, n, env, OpenImageHeader(path, selector, grabFocus), None, 0)
  }

  function ReloadImage(s: Conn, n: Net, env: Env, name: seq<Byte>, grabFocus: bool): Outcome
  {
    SendMessage(s, n, env, ReloadImageHeader(name, grabFocus), None, 0)
  }

  function CloseImage(s: Conn, n: Net, env: Env, name: seq<Byte>): Outcome
  {
    SendMessage(s, n, env, CloseImageHeader(name), None, 0)
  }

  /** The argument checks of `createImage`, in their order: the message of the first that fails. */
  function CreateImageCheck(w: U32, h: U32, count: U32, hasNames: bool): Option<string>
  {
    if w == 0 || h == 0 then Some(WidthHeightMessage)
    else if count == 0 then Some(NoChannelMessage)
    else if count > 4 && !hasNames then Some(CreateInferMessage)
    else None
  }

  /** `createImage`. The caller's channel-name array, when given, holds at least `count` names. */
  function CreateImage(s: Conn, n: Net, env: Env, name: seq<Byte>, w: U32, h: U32, count: U32,
                       names: Option<seq<seq<Byte>>>, grabFocus: bool): Outcome
    requires names.Some? ==> count <= |names.value|
  {
    match CreateImageCheck(w, h, count, names.Some?)
    case Some(text) => Reject(s, n, text)
    case None =>
      SendMessage(s, n, env, CreateImageHeader(name, w, h, OrDefault(names, DefaultNames, count), grabFocus), None, 0)
  }

  /** The argument checks of `updateImage` that come before the header is built. */
  function UpdateImageCheck(count: U32, complete: bool): Option<string>
  {
    if count == 0 then Some(NoChannelMessage)
    else if count > 4 && !complete then Some(UpdateInferMessage)
    else None
  }

  /** The payload `updateImage` passes on: the `dataCount` floats, if the caller gave a buffer. */
  function PayloadOf(data: Option<seq<FloatBits>>, dataCount: U64): Option<seq<Byte>>
    requires data.Some? ==> dataCount <= |data.value|
  {
    if data.Some? then Some(Words(data.value[..dataCount])) else None
  }

  /** `updateImage`. Given arrays hold at least `count` entries, and a given buffer holds
      `dataCount` floats (so its byte size is below 2^64). */
  function UpdateImage(s: Conn, n: Net, env: Env, name: seq<Byte>, x: U32, y: U32, w: U32, h: U32, count: U32,
                       names: Option<seq<seq<Byte>>>, offsets: Option<seq<U64>>, strides: Option<seq<U64>>,
                       data: Option<seq<FloatBits>>, dataCount: U64, grabFocus: bool): Outcome
    requires names.Some? ==> count <= |names.value|
    requires offsets.Some? ==> count <= |offsets.value|
    requires strides.Some? ==> count <= |strides.value|
    requires data.Some? ==> dataCount <= |data.value| && dataCount * 4 < Two64
  {
    match UpdateImageCheck(count, names.Some? && offsets.Some? && strides.Some?)
    case Some(text) => Reject(s, n, text)
    case None =>
      var ns := OrDefault(names, DefaultNames, count);
      var os := OrDefault(offsets, DefaultOffsets, count);
      var ss := OrDefault(strides, DefaultStrides(count), count);
      var expected := MaxExtent(os, ss, PixelCount(w, h), count);
      if dataCount != expected then Reject(s, n, SizeMismatchMessage(expected))
      else
        SendMessage(s, n, env, UpdateImageHeader(name, x, y, w, h, ns, os, ss, grabFocus),
                    PayloadOf(data, dataCount), (dataCount * 4) % Two64)
  }

  /** The `createImage` overload that also fills the image: create, then update the whole image
      with the default layout, unless the create failed. */
  function CreateImageFilled(s: Conn, n: Net, env: Env, name: seq<Byte>, w: U32, h: U32, count: U32,
                             data: Option<seq<FloatBits>>, dataCount: U64, grabFocus: bool): Outcome
    requires data.Some? ==> dataCount <= |data.value| && dataCount * 4 < Two64
  {
    var c := CreateImage(s, n, env, name, w, h, count, None, grabFocus);
    if c.error != Ok then c
    else UpdateImage(c.conn, c.net, env, name, 0, 0, w, h, count, None, None, None, data, dataCount, grabFocus)
  }

  function VectorGraphics(s: Conn, n: Net, env: Env, name: seq<Byte>, cmds: seq<VgCommand>, append: bool,
                          grabFocus: bool): Outcome
  {
    SendMessage(s, n, env, VectorGraphicsHeader(name, cmds, append, grabFocus), None, 0)
  }

  lemma SendMessageResults(s: Conn, n: Net, env: Env, header: seq<Byte>, extra: Option<seq<Byte>>, extraLen: U64)
    ensures var o := SendMessage(s, n, env, header, extra, extraLen);
            o.error in {Ok, NotConnected, SocketError} && o.conn.socketFd == s.socketFd
  {
  }

  /** `createImage` fails with `ArgumentError` exactly when an argument check fails; it then
      records that check's message and sends nothing. */
  lemma {:induction false} CreateImageValidation(s: Conn, n: Net, env: Env, name: seq<Byte>, w: U32, h: U32, count: U32,
                              names: Option<seq<seq<Byte>>>, grabFocus: bool)
    requires names.Some? ==> count <= |names.value|
    ensures var o := CreateImage(s, n, env, name, w, h, count, names, grabFocus);
            (o.error == ArgumentError <==> w == 0 || h == 0 || count == 0 || (count > 4 && names.None?))
            && (o.error == ArgumentError ==> o.net == n && o.conn.lastError == ArgumentError
                                             && o.conn.lastErrorString == CreateImageCheck(w, h, count, names.Some?).value)
  {
    if CreateImageCheck(w, h, count, names.Some?).None? {
      SendMessageResults(s, n, env, CreateImageHeader(name, w, h, OrDefault(names, DefaultNames, count), grabFocus), None, 0);
    }
  }

  /** Without names, a valid `createImage` names its channels R, G, B, A in that order. */
  lemma CreateImageDefaultNames(s: Conn, n: Net, env: Env, name: seq<Byte>, w: U32, h: U32, count: U32, grabFocus: bool)
    requires w > 0 && h > 0 && 1 <= count <= 4
    ensures CreateImage(s, n, env, name, w, h, count, None, grabFocus)
         == SendMessage(s, n, env, CreateImageHeader(name, w, h, [[0x52], [0x47], [0x42], [0x41]][..count], grabFocus), None, 0)
  {
  }

  /** The strided length `updateImage` demands once its checks pass. */
  function Required(w: U32, h: U32, count: U32, offsets: Option<seq<U64>>, strides: Option<seq<U64>>): U64
    requires offsets.Some? ==> count <= |offsets.value|
    requires strides.Some? ==> count <= |strides.value|
    requires offsets.None? || strides.None? ==> count <= 4
  {
    MaxExtent(OrDefault(offsets, DefaultOffsets, count), OrDefault(strides, DefaultStrides(count), count),
              PixelCount(w, h), count)
  }

  /** The argument checks of `updateImage` all pass, the data count included. */
  predicate UpdateAccepted(w: U32, h: U32, count: U32, names: Option<seq<seq<Byte>>>, offsets: Option<seq<U64>>,
                           strides: Option<seq<U64>>, dataCount: U64)
    requires offsets.Some? ==> count <= |offsets.value|
    requires strides.Some? ==> count <= |strides.value|
  {
    UpdateImageCheck(count, names.Some? && offsets.Some? && strides.Some?).None?
    && dataCount == Required(w, h, count, offsets, strides)
  }

  /** `updateImage` fails with `ArgumentError` exactly when there is no channel, when more than four
      channels lack a names, offsets or strides array, or when `dataCount` is not the required
      strided length; it then records the error and sends nothing. Otherwise it returns what
      `sendMessage` returns. */
  lemma {:induction false} UpdateImageValidation(s: Conn, n: Net, env: Env, name: seq<Byte>, x: U32, y: U32, w: U32, h: U32, count: U32,
                              names: Option<seq<seq<Byte>>>, offsets: Option<seq<U64>>, strides: Option<seq<U64>>,
                              data: Option<seq<FloatBits>>, dataCount: U64, grabFocus: bool)
    requires names.Some? ==> count <= |names.value|
    requires offsets.Some? ==> count <= |offsets.value|
    requires strides.Some? ==> count <= |strides.value|
    requires data.Some? ==> dataCount <= |data.value| && dataCount * 4 < Two64
    ensures var o := UpdateImage(s, n, env, name, x, y, w, h, count, names, offsets, strides, data, dataCount, grabFocus);
            (o.error == ArgumentError <==> !UpdateAccepted(w, h, count, names, offsets, strides, dataCount))
            && (o.error == ArgumentError ==> o.net == n && o.conn.lastError == ArgumentError)
            && (o.error != ArgumentError ==> o.error in {Ok, NotConnected, SocketError})
  {
    if UpdateAccepted(w, h, count, names, offsets, strides, dataCount) {
      UpdateImageAcceptedResult(s, n, env, name, x, y, w, h, count, names, offsets, strides, data, dataCount, grabFocus);
    } else {
      UpdateImageRejectedResult(s, n, env, name, x, y, w, h, count, names, offsets, strides, data, dataCount, grabFocus);
    }
  }

  lemma {:induction false} UpdateImageRejectedResult(s: Conn, n: Net, env: Env, name: seq<Byte>, x: U32, y: U32, w: U32, h: U32, count: U32,
                              names: Option<seq<seq<Byte>>>, offsets: Option<seq<U64>>, strides: Option<seq<U64>>,
                              data: Option<seq<FloatBits>>, dataCount: U64, grabFocus: bool)
    requires names.Some? ==> count <= |names.value|
    requires offsets.Some? ==> count <= |offsets.value|
    requires strides.Some? ==> count <= |strides.value|
    requires data.Some? ==> dataCount <= |data.value| && dataCount * 4 < Two64
    requires !UpdateAccepted(w, h, count, names, offsets, strides, dataCount)
    ensures var o := UpdateImage(s, n, env, name, x, y, w, h, count, names, offsets, strides, data, dataCount, grabFocus);
            o.error == ArgumentError && o.net == n && o.conn.lastError == ArgumentError
  {
    UpdateImageRejects(s, n, env, name, x, y, w, h, count, names, offsets, strides, data, dataCount, grabFocus);
  }

  lemma {:induction false} UpdateImageAcceptedResult(s: Conn, n: Net, env: Env, name: seq<Byte>, x: U32, y: U32, w: U32, h: U32, count: U32,
                              names: Option<seq<seq<Byte>>>, offsets: Option<seq<U64>>, strides: Option<seq<U64>>,
                              data: Option<seq<FloatBits>>, dataCount: U64, grabFocus: bool)
    requires names.Some? ==> count <= |names.value|
    requires offsets.Some? ==> count <= |offsets.value|
    requires strides.Some? ==> count <= |strides.value|
    requires data.Some? ==> dataCount <= |data.value| && dataCount * 4 < Two64
    requires UpdateAccepted(w, h, count, names, offsets, strides, dataCount)
    ensures UpdateImage(s, n, env, name, x, y, w, h, count, names, offsets, strides, data, dataCount, grabFocus).error in {Ok, NotConnected, SocketError}
  {
    var header := UpdateImageHeader(name, x, y, w, h, OrDefault(names, DefaultNames, count),
                                    OrDefault(offsets, DefaultOffsets, count),
                                    OrDefault(strides, DefaultStrides(count), count), grabFocus);
    UpdateImageSends(s, n, env, name, x, y, w, h, count, names, offsets, strides, data, dataCount, grabFocus);
    SendMessageResults(s, n, env, header, PayloadOf(data, dataCount), (dataCount * 4) % Two64);
  }

  /** Each failing check of `updateImage` gives exactly the rejection with its own message; a
      data count that does not match names the expected count. */
  lemma UpdateImageRejects(s: Conn, n: Net, env: Env, name: seq<Byte>, x: U32, y: U32, w: U32, h: U32, count: U32,
                           names: Option<seq<seq<Byte>>>, offsets: Option<seq<U64>>, strides: Option<seq<U64>>,
                           data: Option<seq<FloatBits>>, dataCount: U64, grabFocus: bool)
    requires names.Some? ==> count <= |names.value|
    requires offsets.Some? ==> count <= |offsets.value|
    requires strides.Some? ==> count <= |strides.value|
    requires data.Some? ==> dataCount <= |data.value| && dataCount * 4 < Two64
    ensures var o := UpdateImage(s, n, env, name, x, y, w, h, count, names, offsets, strides, data, dataCount, grabFocus);
            var check := UpdateImageCheck(count, names.Some? && offsets.Some? && strides.Some?);
            (check.Some? ==> o == Reject(s, n, check.value))
            && (check.None? && dataCount != Required(w, h, count, offsets, strides) ==>
                  o == Reject(s, n, SizeMismatchMessage(Required(w, h, count, offsets, strides))))
  {
  }

  /** A valid update sends its header with the defaults filled in, and `dataCount * 4` payload
      bytes, which are the caller's floats when there is a buffer. */
  lemma {:induction false} UpdateImageSends(s: Conn, n: Net, env: Env, name: seq<Byte>, x: U32, y: U32, w: U32, h: U32, count: U32,
                         names: Option<seq<seq<Byte>>>, offsets: Option<seq<U64>>, strides: Option<seq<U64>>,
                         data: Option<seq<FloatBits>>, dataCount: U64, grabFocus: bool)
    requires names.Some? ==> count <= |names.value|
    requires offsets.Some? ==> count <= |offsets.value|
    requires strides.Some? ==> count <= |strides.value|
    requires data.Some? ==> dataCount <= |data.value| && dataCount * 4 < Two64
    requires UpdateImageCheck(count, names.Some? && offsets.Some? && strides.Some?).None?
    requires dataCount == Required(w, h, count, offsets, strides)
    ensures UpdateImage(s, n, env, name, x, y, w, h, count, names, offsets, strides, data, dataCount, grabFocus)
         == SendMessage(s, n, env,
                        UpdateImageHeader(name, x, y, w, h, OrDefault(names, DefaultNames, count),
                                          OrDefault(offsets, DefaultOffsets, count),
                                          OrDefault(strides, DefaultStrides(count), count), grabFocus),
                        PayloadOf(data, dataCount), (dataCount * 4) % Two64)
  {
    var complete := names.Some? && offsets.Some? && strides.Some?;
    assert UpdateImageCheck(count, complete) == None;
  }

  /** A given buffer's payload is its first `dataCount` floats, and its length is the one the
      frame announces. */
  lemma PayloadLength(data: Option<seq<FloatBits>>, dataCount: U64)
    requires data.Some? ==> dataCount <= |data.value| && dataCount * 4 < Two64
    ensures data.Some? ==> PayloadOf(data, dataCount) == Some(Words(data.value[..dataCount]))
                           && |PayloadOf(data, dataCount).value| == (dataCount * 4) % Two64 == dataCount * 4
  {
  }
  /** With the default layout and no wrap-around, the required length is the tightly packed
      `w * h * count`. */
  lemma {:induction false} DefaultUpdateIsTight(w: U32, h: U32, count: U32)
    requires 1 <= count <= 4 && w > 0 && h > 0 && w * h < Two32 && w * h * count < Two64
    ensures UpdateImageCheck(count, false).None?
    ensures Required(w, h, count, None, None) == w * h * count
  {
    DefaultLayoutIsTight(w, h, count);
  }

  /** The wrapped requirement of an empty region: no data for one default channel, 2^64 - 1 floats
      for two. */
  lemma {:induction false} EmptyRegionRequirement(h: U32)
    ensures Required(0, h, 1, None, None) == 0
    ensures Required(0, h, 2, None, None) == Two64 - 1
  {
    EmptyRegionWraps(h);
    assert OrDefault(None, DefaultOffsets, 1) == DefaultOffsets[..1];
    assert OrDefault(None, DefaultStrides(1), 1) == DefaultStrides(1)[..1];
    assert OrDefault(None, DefaultOffsets, 2) == DefaultOffsets[..2];
    assert OrDefault(None, DefaultStrides(2), 2) == DefaultStrides(2)[..2];
  }

  /** An empty region is not rejected: with one default channel it needs no data and is sent. */
  lemma {:induction false} EmptyUpdateIsSent(s: Conn, n: Net, env: Env, name: seq<Byte>, x: U32, y: U32, h: U32, grabFocus: bool)
    ensures UpdateImage(s, n, env, name, x, y, 0, h, 1, None, None, None, None, 0, grabFocus)
         == SendMessage(s, n, env, UpdateImageHeader(name, x, y, 0, h, DefaultNames[..1], DefaultOffsets[..1],
                                                     DefaultStrides(1)[..1], grabFocus), None, 0)
  {
    EmptyRegionRequirement(h);
    UpdateImageSends(s, n, env, name, x, y, 0, h, 1, None, None, None, None, 0, grabFocus);
  }

  /** With two default channels an empty region asks for 2^64 - 1 floats. */
  lemma {:induction false} EmptyUpdateDemandsWrappedLength(s: Conn, n: Net, env: Env, name: seq<Byte>, x: U32, y: U32, h: U32, grabFocus: bool)
    ensures UpdateImage(s, n, env, name, x, y, 0, h, 2, None, None, None, None, 0, grabFocus)
         == Reject(s, n, SizeMismatchMessage(Two64 - 1))
  {
    EmptyRegionRequirement(h);
    UpdateImageRejects(s, n, env, name, x, y, 0, h, 2, None, None, None, None, 0, grabFocus);
  }

  /** The filling `createImage` cannot get past an invalid size or channel count: the create step's
      check fails, its message is recorded, and no update is attempted. More than four channels
      always fail here, since this overload passes no names. */
  lemma CreateImageFilledRejects(s: Conn, n: Net, env: Env, name: seq<Byte>, w: U32, h: U32, count: U32,
                                 data: Option<seq<FloatBits>>, dataCount: U64, grabFocus: bool)
    requires data.Some? ==> dataCount <= |data.value| && dataCount * 4 < Two64
    requires w == 0 || h == 0 || count == 0 || count > 4
    ensures var o := CreateImageFilled(s, n, env, name, w, h, count, data, dataCount, grabFocus);
            o.error == ArgumentError && o.net == n && o.conn.lastErrorString == CreateImageCheck(w, h, count, false).value
  {
  }

  /** A connected client whose server has room creates and fills an image with tightly packed
      data: the server receives the create message and then the update message carrying the
      floats, and the result is `Ok`. */
  lemma {:induction false} CreateImageFilledDelivers(s: Conn, n: Net, env: Env, name: seq<Byte>, w: U32, h: U32, count: U32,
                                  data: seq<FloatBits>, grabFocus: bool)
    requires IsConnected(s) && s.socketFd in n.open
    requires w > 0 && h > 0 && 1 <= count <= 4 && w * h < Two32
    requires |data| == w * h * count && |data| * 4 < Two64
    requires |Frame(CreateImageHeader(name, w, h, DefaultNames[..count], grabFocus), None, 0)|
             + |Frame(UpdateImageHeader(name, 0, 0, w, h, DefaultNames[..count], DefaultOffsets[..count],
                                        DefaultStrides(count)[..count], grabFocus), Some(Words(data)), |data| * 4)|
             <= n.room
    ensures var o := CreateImageFilled(s, n, env, name, w, h, count, Some(data), |data|, grabFocus);
            o.error == Ok && o.conn == s
            && o.net.wire == n.wire + Frame(CreateImageHeader(name, w, h, DefaultNames[..count], grabFocus), None, 0)
                             + Frame(UpdateImageHeader(name, 0, 0, w, h, DefaultNames[..count], DefaultOffsets[..count],
                                                       DefaultStrides(count)[..count], grabFocus), Some(Words(data)), |data| * 4)
  {
    var ch := CreateImageHeader(name, w, h, DefaultNames[..count], grabFocus);
    var c := CreateImage(s, n, env, name, w, h, count, None, grabFocus);
    DefaultCreateDelivers(s, n, env, name, w, h, count, grabFocus);
    assert CreateImageFilled(s, n, env, name, w, h, count, Some(data), |data|, grabFocus)
        == UpdateImage(c.conn, c.net, env, name, 0, 0, w, h, count, None, None, None, Some(data), |data|, grabFocus);
    DefaultUpdateDelivers(s, c.net, env, name, w, h, count, data, grabFocus);
  }

  /** The create step of `CreateImageFilled` on an open socket with room for its message. */
  lemma {:induction false} DefaultCreateDelivers(s: Conn, n: Net, env: Env, name: seq<Byte>, w: U32, h: U32, count: U32,
                                                 grabFocus: bool)
    requires IsConnected(s) && s.socketFd in n.open
    requires w > 0 && h > 0 && 1 <= count <= 4
    requires |Frame(CreateImageHeader(name, w, h, DefaultNames[..count], grabFocus), None, 0)| <= n.room
    ensures var c := CreateImage(s, n, env, name, w, h, count, None, grabFocus);
            var f := Frame(CreateImageHeader(name, w, h, DefaultNames[..count], grabFocus), None, 0);
            c.error == Ok && c.conn == s && c.net.open == n.open
            && c.net.wire == n.wire + f && c.net.room == n.room - |f|
  {
    var ch := CreateImageHeader(name, w, h, DefaultNames[..count], grabFocus);
    assert CreateImage(s, n, env, name, w, h, count, None, grabFocus) == SendMessage(s, n, env, ch, None, 0);
    SendMessageFits(s, n, env, ch, None, 0);
  }

  /** The update step of `CreateImageFilled`: the whole image in the default layout, on an open
      socket with room for its message. */
  lemma {:induction false} DefaultUpdateDelivers(s: Conn, n: Net, env: Env, name: seq<Byte>, w: U32, h: U32, count: U32,
                                                 data: seq<FloatBits>, grabFocus: bool)
    requires IsConnected(s) && s.socketFd in n.open
    requires w > 0 && h > 0 && 1 <= count <= 4 && w * h < Two32
    requires |data| == w * h * count && |data| * 4 < Two64
    requires |Frame(UpdateImageHeader(name, 0, 0, w, h, DefaultNames[..count], DefaultOffsets[..count],
                                      DefaultStrides(count)[..count], grabFocus), Some(Words(data)), |data| * 4)|
             <= n.room
    ensures var o := UpdateImage(s, n, env, name, 0, 0, w, h, count, None, None, None, Some(data), |data|, grabFocus);
            o.error == Ok && o.conn == s
            && o.net.wire == n.wire + Frame(UpdateImageHeader(name, 0, 0, w, h, DefaultNames[..count], DefaultOffsets[..count],
                                                              DefaultStrides(count)[..count], grabFocus),
                                            Some(Words(data)), |data| * 4)
  {
    var uh := UpdateImageHeader(name, 0, 0, w, h, DefaultNames[..count], DefaultOffsets[..count],
                                DefaultStrides(count)[..count], grabFocus);
    DefaultUpdateMessage(s, n, env, name, w, h, count, data, grabFocus);
    SendMessageFits(s, n, env, uh, Some(Words(data)), |data| * 4);
  }

  /** Updating the whole image in the default layout with tightly packed data sends the header
      and all the floats. */
  lemma {:induction false} DefaultUpdateMessage(s: Conn, n: Net, env: Env, name: seq<Byte>, w: U32, h: U32, count: U32,
                                                data: seq<FloatBits>, grabFocus: bool)
    requires w > 0 && h > 0 && 1 <= count <= 4 && w * h < Two32
    requires |data| == w * h * count && |data| * 4 < Two64
    ensures UpdateImage(s, n, env, name, 0, 0, w, h, count, None, None, None, Some(data), |data|, grabFocus)
         == SendMessage(s, n, env, UpdateImageHeader(name, 0, 0, w, h, DefaultNames[..count], DefaultOffsets[..count],
                                                     DefaultStrides(count)[..count], grabFocus),
                        Some(Words(data)), |data| * 4)
  {
    DefaultUpdateIsTight(w, h, count);
    UpdateImageSends(s, n, env, name, 0, 0, w, h, count, None, None, None, Some(data), |data|, grabFocus);
    PayloadLength(Some(data), |data|);
    assert data[..|data|] == data;
  }
}
