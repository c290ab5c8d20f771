/** `Client`: one connection to a tev server. It owns the state of `Client::Impl` (socket
    descriptor, last error, last error text), calls into the system through `os`, and counts
    itself in the process-wide `instances` counter. Every operation is proved to be the state
    transition the `Connection` module defines for it. */
module TevClient {
  import opened Wire
  import opened VgCommands
  import opened Layout
  import opened Packets
  import opened Errors
  import opened Transport
  import opened Connection
  import Instances

  /** The loop `for i < channelCount: msg << channelNames[i]`. */
  method WriteNames(msg: OStream, names: seq<seq<Byte>>, count: nat)
    requires count <= |names|
    modifies msg
    ensures msg.data == old(msg.data) + CStrs(names[..count])
  {
    for i := 0 to count
      invariant msg.data == old(msg.data) + CStrs(names[..i])
    {
      assert names[..i + 1] == names[..i] + [names[i]];
      CStrsSnoc(names[..i], names[i]);
      msg.WriteCString(names[i]);
    }
  }

  /** The command loop of `vectorGraphics`: each command in order. */
  method WriteCommands(msg: OStream, cmds: seq<VgCommand>)
    modifies msg
    ensures msg.data == old(msg.data) + EncodeCommands(cmds)
  {
    for i := 0 to |cmds|
      invariant msg.data == old(msg.data) + EncodeCommands(cmds[..i])
    {
      WriteCommand(msg, cmds[i]);
      EncodeCommandsSnoc(cmds[..i], cmds[i]);
      assert cmds[..i + 1] == cmds[..i] + [cmds[i]];
      assert msg.data == old(msg.data) + (EncodeCommands(cmds[..i]) + EncodeCommand(cmds[i]));
    }
    assert cmds[..|cmds|] == cmds;
  }

  /** One command: its type byte, then its `dataCount` words. */
  method WriteCommand(msg: OStream, c: VgCommand)
    modifies msg
    ensures msg.data == old(msg.data) + EncodeCommand(c)
  {
    msg.WriteChar(Code(c.kind));
    for j := 0 to DataCount(c)
      invariant msg.data == old(msg.data) + [Code(c.kind)] + Words(c.data[..j])
    {
      assert c.data[..j + 1] == c.data[..j] + [c.data[j]];
      WordsSnoc(c.data[..j], c.data[j]);
      msg.WriteFloat(c.data[j]);
    }
    assert c.data[..DataCount(c)] == c.data;
  }

  /** The header `openImage` builds. */
  method OpenImageMessage(path: seq<Byte>, selector: seq<Byte>, grabFocus: bool) returns (msg: OStream)
    ensures fresh(msg) && msg.data == OpenImageHeader(path, selector, grabFocus)
  {
    msg := new OStream();
    msg.WriteChar(Tag(OpenImageV2));
    msg.WriteBool(grabFocus);
    msg.WriteCString(path);
    msg.WriteCString(selector);
    assert msg.data == [Tag(OpenImageV2), BoolByte(grabFocus)] + CStr(path) + CStr(selector);
  }

  /** The header `reloadImage` builds. */
  method ReloadImageMessage(name: seq<Byte>, grabFocus: bool) returns (msg: OStream)
    ensures fresh(msg) && msg.data == ReloadImageHeader(name, grabFocus)
  {
    msg := new OStream();
    msg.WriteChar(Tag(ReloadImage));
    msg.WriteBool(grabFocus);
    msg.WriteCString(name);
    assert msg.data == [Tag(ReloadImage), BoolByte(grabFocus)] + CStr(name);
  }

  /** The header `closeImage` builds. */
  method CloseImageMessage(name: seq<Byte>) returns (msg: OStream)
    ensures fresh(msg) && msg.data == CloseImageHeader(name)
  {
    msg := new OStream();
    msg.WriteChar(Tag(CloseImage));
    msg.WriteCString(name);
    assert msg.data == [Tag(CloseImage)] + CStr(name);
  }

  /** The header `createImage` builds from the first `count` channel names. */
  method CreateImageMessage(name: seq<Byte>, w: U32, h: U32, count: U32, names: seq<seq<Byte>>, grabFocus: bool)
    returns (msg: OStream)
    requires count <= |names|
    ensures fresh(msg) && msg.data == CreateImageHeader(name, w, h, names[..count], grabFocus)
  {
    msg := new OStream();
    msg.WriteChar(Tag(CreateImage));
    msg.WriteBool(grabFocus);
    msg.WriteCString(name);
    assert msg.data == [Tag(CreateImage), BoolByte(grabFocus)] + CStr(name);
    msg.WriteU32(w);
    msg.WriteU32(h);
    msg.WriteU32(count);
    WriteNames(msg, names, count);
  }

  /** The header `updateImage` builds from the first `count` names, offsets and strides. */
  method UpdateImageMessage(name: seq<Byte>, x: U32, y: U32, w: U32, h: U32, count: U32, names: seq<seq<Byte>>,
                            offsets: seq<U64>, strides: seq<U64>, grabFocus: bool) returns (msg: OStream)
    requires count <= |names| && count <= |offsets| && count <= |strides|
    ensures fresh(msg)
    ensures msg.data == UpdateImageHeader(name, x, y, w, h, names[..count], offsets[..count], strides[..count], grabFocus)
  {
    msg := new OStream();
    msg.WriteChar(Tag(UpdateImageV3));
    msg.WriteBool(grabFocus);
    msg.WriteCString(name);
    assert msg.data == [Tag(UpdateImageV3), BoolByte(grabFocus)] + CStr(name);
    msg.WriteU32(count);
    WriteNames(msg, names, count);
    WriteRegion(msg, x, y, w, h, offsets[..count], strides[..count]);
  }

  /** `msg << x << y << width << height`, then the offset and stride loops of `updateImage`. */
  method WriteRegion(msg: OStream, x: U32, y: U32, w: U32, h: U32, offsets: seq<U64>, strides: seq<U64>)
    modifies msg
    ensures msg.data == old(msg.data) + Le(x, 4) + Le(y, 4) + Le(w, 4) + Le(h, 4)
                        + Scalars(offsets, 8) + Scalars(strides, 8)
  {
    msg.WriteU32(x);
    msg.WriteU32(y);
    msg.WriteU32(w);
    msg.WriteU32(h);
    ScalarRanges();
    msg.WriteScalars(offsets, 8);
    msg.WriteScalars(strides, 8);
  }

  /** The header `vectorGraphics` builds. */
  method VectorGraphicsMessage(name: seq<Byte>, cmds: seq<VgCommand>, append: bool, grabFocus: bool)
    returns (msg: OStream)
    ensures fresh(msg) && msg.data == VectorGraphicsHeader(name, cmds, append, grabFocus)
  {
    msg := new OStream();
    msg.WriteChar(Tag(VectorGraphics));
    msg.WriteBool(grabFocus);
    msg.WriteCString(name);
    assert msg.data == [Tag(VectorGraphics), BoolByte(grabFocus)] + CStr(name);
    msg.WriteBool(append);
    msg.WriteU32(|cmds| % Two32);
    WriteCommands(msg, cmds);
  }

  /** The default server address of `Client(hostname, port)`: the bytes of "127.0.0.1", and tev's port. */
  const DefaultHostname: seq<Byte> := [0x31, 0x32, 0x37, 0x2E, 0x30, 0x2E, 0x30, 0x2E, 0x31]
  const DefaultPort: U16 := 14158

  class Client {
    const hostname: seq<Byte>
    const port: U16
    const os: Os
    const instances: Instances.InstanceCounter
    var socketFd: int
    var lastError: Error
    var lastErrorString: string

    function State(): Conn
      reads this
    {
      Conn(socketFd, lastError, lastErrorString)
    }

    /** `Client(hostname, port)`: not connected; counts itself in `instances`. `startupResult` and
        `startupText` are what the platform start-up reports should this be the first instance;
        a failed start-up is recorded as a `SocketError`. */
    constructor (os: Os, instances: Instances.InstanceCounter, startupResult: int, startupText: string,
                 hostname: seq<Byte> := DefaultHostname, port: U16 := DefaultPort)
      modifies instances
      ensures this.hostname == hostname && this.port == port && this.os == os && this.instances == instances
      ensures instances.count == Instances.Step(old(instances.count), Instances.Init)
      ensures instances.events == old(instances.events) + Instances.StepEvents(old(instances.count), Instances.Init)
      ensures !Connection.IsConnected(State())
      ensures old(instances.count) != 0 || startupResult == 0 ==> State() == Initial()
      ensures old(instances.count) == 0 && startupResult != 0 ==>
                State() == Conn(InvalidSocket, SocketError, InitFailedPrefix + ErrorText(startupResult, startupText))
                && instances.initError == ErrorText(startupResult, startupText)
      ensures old(instances.count) != 0 || startupResult == 0 ==> instances.initError == old(instances.initError)
    {
      this.hostname := hostname;
      this.port := port;
      this.os := os;
      this.instances := instances;
      socketFd := InvalidSocket;
      lastError := Ok;
      lastErrorString := [];
      var ok, error := instances.Initialize(startupResult, startupText);
      if !ok {
        lastError := SocketError;
        lastErrorString := InitFailedPrefix + error;
      }
    }

    /** `~Client`: disconnects, then releases its count in `instances`. */
    method Dispose() returns (e: Error)
      modifies this, os, instances
      ensures Outcome(State(), os.Snapshot(), e) == Connection.Disconnect(old(State()), old(os.Snapshot()), os.env)
      ensures instances.count == Instances.Step(old(instances.count), Instances.Shut)
      ensures instances.events == old(instances.events) + Instances.StepEvents(old(instances.count), Instances.Shut)
      ensures instances.initError == old(instances.initError)
    {
      e := Disconnect();
      instances.Shutdown();
    }

    predicate IsConnected()
      reads this
    {
      socketFd != InvalidSocket
    }

    function Hostname(): seq<Byte> { hostname }
    function Port(): U16 { port }

    function LastError(): Error
      reads this
    {
      lastError
    }

    function LastErrorString(): string
      reads this
    {
      lastErrorString
    }

    method SetLastError(e: Error, text: string) returns (r: Error)
      modifies this
      ensures State() == Connection.SetLastError(old(State()), e, text) && r == e
    {
      lastError := e;
      lastErrorString := text;
      r := e;
    }

    method Connect() returns (e: Error)
      modifies this, os
      ensures Outcome(State(), os.Snapshot(), e) == Connection.Connect(old(State()), old(os.Snapshot()), os.env, hostname, port)
    {
      if socketFd != InvalidSocket {
        return Ok;
      }
      var resolution := os.env.resolve(hostname, port);
      if resolution.Unresolved? {
        e := SetLastError(SocketError, ResolveFailedPrefix + os.env.gaiStrerror(resolution.code));
        return;
      }
      var _ := SetLastError(Ok, []);
      socketFd := InvalidSocket;
      var cands := resolution.candidates;
      ghost var goal := Scan(State(), os.Snapshot(), os.env, cands);
      var i := 0;
      while i < |cands|
        invariant 0 <= i <= |cands|
        invariant Scan(State(), os.Snapshot(), os.env, cands[i..]) == goal
      {
        var c := cands[i];
        assert cands[i..][0] == c && cands[i..][1..] == cands[i + 1..];
        socketFd := os.Socket(c);
        if socketFd == InvalidSocket {
          var text := ErrorString(os.errno, os.env.strerror(os.errno));
          var _ := SetLastError(SocketError, SocketFailedPrefix + text);
        } else {
          var r := os.Connect(socketFd, c);
          if r == SocketErrorResult {
            var text := ErrorString(os.errno, os.env.strerror(os.errno));
            var _ := SetLastError(SocketError, ConnectFailedPrefix + text);
            var _ := os.Close(socketFd);
            socketFd := InvalidSocket;
          } else {
            break;
          }
        }
        i := i + 1;
      }
      e := lastError;
    }

    method Disconnect() returns (e: Error)
      modifies this, os
      ensures Outcome(State(), os.Snapshot(), e) == Connection.Disconnect(old(State()), old(os.Snapshot()), os.env)
    {
      if socketFd != InvalidSocket {
        var r := os.Close(socketFd);
        if r == SocketErrorResult {
          var text := ErrorString(os.errno, os.env.strerror(os.errno));
          e := SetLastError(SocketError, CloseFailedPrefix + text);
          return;
        }
      }
      e := Ok;
    }

    method Send(data: seq<Byte>) returns (e: Error)
      modifies this, os
      ensures Outcome(State(), os.Snapshot(), e) == Connection.Send(old(State()), old(os.Snapshot()), os.env, data)
    {
      if socketFd == InvalidSocket {
        e := SetLastError(NotConnected, NotConnectedText);
        return;
      }
      var sent := os.Send(socketFd, data);
      if sent != |data| {
        var text := ErrorString(os.errno, os.env.strerror(os.errno));
        e := SetLastError(SocketError, SendFailedPrefix + text);
        return;
      }
      e := Ok;
    }

    method SendMessage(header: OStream, extra: Option<seq<Byte>>, extraLen: U64) returns (e: Error)
      modifies this, os
      ensures Outcome(State(), os.Snapshot(), e)
           == Connection.SendMessage(old(State()), old(os.Snapshot()), os.env, header.data, extra, extraLen)
    {
      ghost var goal := Connection.SendMessage(State(), os.Snapshot(), os.env, header.data, extra, extraLen);
      var totalLen := (4 + |header.data| + extraLen) % Two32;
      e := Send(Le(totalLen, 4));
      if e != Ok {
        assert Outcome(State(), os.Snapshot(), e) == goal;
        return;
      }
      ghost var o1 := Outcome(State(), os.Snapshot(), e);
      e := Send(header.data);
      ghost var o2 := Connection.Send(o1.conn, o1.net, os.env, header.data);
      assert Outcome(State(), os.Snapshot(), e) == o2;
      if e != Ok {
        assert o2 == goal;
        return;
      }
      if extra.Some? {
        e := Send(extra.value);
      }
    }

    method OpenImage(path: seq<Byte>, selector: seq<Byte> := [], grabFocus: bool := true) returns (e: Error)
      modifies this, os
      ensures Outcome(State(), os.Snapshot(), e)
           == Connection.OpenImage(old(State()), old(os.Snapshot()), os.env, path, selector, grabFocus)
    {
      var msg := OpenImageMessage(path, selector, grabFocus);
      e := SendMessage(msg, None, 0);
    }

    method ReloadImage(name: seq<Byte>, grabFocus: bool := true) returns (e: Error)
      modifies this, os
      ensures Outcome(State(), os.Snapshot(), e)
           == Connection.ReloadImage(old(State()), old(os.Snapshot()), os.env, name, grabFocus)
    {
      var msg := ReloadImageMessage(name, grabFocus);
      e := SendMessage(msg, None, 0);
    }

    method CloseImage(name: seq<Byte>) returns (e: Error)
      modifies this, os
      ensures Outcome(State(), os.Snapshot(), e) == Connection.CloseImage(old(State()), old(os.Snapshot()), os.env, name)
    {
      var msg := CloseImageMessage(name);
      e := SendMessage(msg, None, 0);
    }

    method CreateImage(name: seq<Byte>, w: U32, h: U32, count: U32, names: Option<seq<seq<Byte>>> := None,
                       grabFocus: bool := true)
      returns (e: Error)
      requires names.Some? ==> count <= |names.value|
      modifies this, os
      ensures Outcome(State(), os.Snapshot(), e)
           == Connection.CreateImage(old(State()), old(os.Snapshot()), os.env, name, w, h, count, names, grabFocus)
    {
      if w == 0 || h == 0 {
        e := SetLastError(ArgumentError, WidthHeightMessage);
        return;
      }
      if count == 0 {
        e := SetLastError(ArgumentError, NoChannelMessage);
        return;
      }
      if count > 4 && names.None? {
        e := SetLastError(ArgumentError, CreateInferMessage);
        return;
      }
      var channelNames := if names.Some? then names.value else DefaultNames;
      var msg := CreateImageMessage(name, w, h, count, channelNames, grabFocus);
      assert channelNames[..count] == OrDefault(names, DefaultNames, count);
      e := SendMessage(msg, None, 0);
    }

    method UpdateImage(name: seq<Byte>, x: U32, y: U32, w: U32, h: U32, count: U32,
                       names: Option<seq<seq<Byte>>>, offsets: Option<seq<U64>>, strides: Option<seq<U64>>,
                       data: Option<seq<FloatBits>>, dataCount: U64, grabFocus: bool := true) returns (e: Error)
      requires names.Some? ==> count <= |names.value|
      requires offsets.Some? ==> count <= |offsets.value|
      requires strides.Some? ==> count <= |strides.value|
      requires data.Some? ==> dataCount <= |data.value| && dataCount * 4 < Two64
      modifies this, os
      ensures Outcome(State(), os.Snapshot(), e)
           == Connection.UpdateImage(old(State()), old(os.Snapshot()), os.env, name, x, y, w, h, count,
                                     names, offsets, strides, data, dataCount, grabFocus)
    {
      if count == 0 {
        e := SetLastError(ArgumentError, NoChannelMessage);
        return;
      }
      if count > 4 && (names.None? || offsets.None? || strides.None?) {
        e := SetLastError(ArgumentError, UpdateInferMessage);
        return;
      }
      var channelNames := if names.Some? then names.value else DefaultNames;
      var channelOffsets := if offsets.Some? then offsets.value else DefaultOffsets;
      var channelStrides := if strides.Some? then strides.value else DefaultStrides(count);
      e := SendUpdate(name, x, y, w, h, count, channelNames, channelOffsets, channelStrides, data, dataCount, grabFocus);
    }

    /** The rest of `updateImage` once its argument checks pass: the header, the size check
        against the layout, and the message. */
    method SendUpdate(name: seq<Byte>, x: U32, y: U32, w: U32, h: U32, count: U32,
                      names: seq<seq<Byte>>, offsets: seq<U64>, strides: seq<U64>,
                      data: Option<seq<FloatBits>>, dataCount: U64, grabFocus: bool) returns (e: Error)
      requires count <= |names| && count <= |offsets| && count <= |strides|
      requires data.Some? ==> dataCount <= |data.value| && dataCount * 4 < Two64
      modifies this, os
      ensures var expected := MaxExtent(offsets[..count], strides[..count], PixelCount(w, h), count);
              dataCount != expected ==>
                Outcome(State(), os.Snapshot(), e) == Reject(old(State()), old(os.Snapshot()), SizeMismatchMessage(expected))
      ensures dataCount == MaxExtent(offsets[..count], strides[..count], PixelCount(w, h), count) ==>
                Outcome(State(), os.Snapshot(), e)
                == Connection.SendMessage(old(State()), old(os.Snapshot()), os.env,
                                          UpdateImageHeader(name, x, y, w, h, names[..count], offsets[..count],
                                                            strides[..count], grabFocus),
                                          PayloadOf(data, dataCount), (dataCount * 4) % Two64)
    {
      var msg := UpdateImageMessage(name, x, y, w, h, count, names, offsets, strides, grabFocus);
      var expected := StridedDataCount(offsets[..count], strides[..count], w, h, count);
      if dataCount != expected {
        e := SetLastError(ArgumentError, SizeMismatchMessage(expected));
        return;
      }
      e := SendMessage(msg, PayloadOf(data, dataCount), (dataCount * 4) % Two64);
    }

    /** The `createImage` overload that also fills the image. */
    method CreateImageFilled(name: seq<Byte>, w: U32, h: U32, count: U32, data: Option<seq<FloatBits>>,
                             dataCount: U64, grabFocus: bool := true) returns (e: Error)
      requires data.Some? ==> dataCount <= |data.value| && dataCount * 4 < Two64
      modifies this, os
      ensures Outcome(State(), os.Snapshot(), e)
           == Connection.CreateImageFilled(old(State()), old(os.Snapshot()), os.env, name, w, h, count, data, dataCount, grabFocus)
    {
      e := CreateImage(name, w, h, count, None, grabFocus);
      if e != Ok {
        return;
      }
      e := UpdateImage(name, 0, 0, w, h, count, None, None, None, data, dataCount, grabFocus);
    }

    method VectorGraphics(name: seq<Byte>, cmds: seq<VgCommand>, append: bool := true, grabFocus: bool := true)
      returns (e: Error)
      modifies this, os
      ensures Outcome(State(), os.Snapshot(), e)
           == Connection.VectorGraphics(old(State()), old(os.Snapshot()), os.env, name, cmds, append, grabFocus)
    {
      var msg := VectorGraphicsMessage(name, cmds, append, grabFocus);
      e := SendMessage(msg, None, 0);
    }
  }
}
