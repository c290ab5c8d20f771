/** Packet tags, the byte layout of every command header, and the length-prefixed frame.
    The readers at the end are the receiving side's view of the same layouts; the round-trip
    lemmas show that each header the client writes can be read back field by field. */
module Packets {
  import opened Wire
  import opened VgCommands

  /** `EPacketType`: one byte at the head of every header. */
  datatype PacketType =
    | OpenImage | ReloadImage | CloseImage | UpdateImage | CreateImage
    | UpdateImageV2 | UpdateImageV3 | OpenImageV2 | VectorGraphics

  function Tag(p: PacketType): Byte
  {
    match p
    case OpenImage => 0
    case ReloadImage => 1
    case CloseImage => 2
    case UpdateImage => 3
    case CreateImage => 4
    case UpdateImageV2 => 5
    case UpdateImageV3 => 6
    case OpenImageV2 => 7
    case VectorGraphics => 8
  }

  /** No two packet types share a tag. */
  lemma TagsAreDistinct(p: PacketType, q: PacketType)
    ensures Tag(p) == Tag(q) <==> p == q
  {
  }

  /** `openImage`: `[7][focus][path\0][selector\0]`. */
  function OpenImageHeader(path: seq<Byte>, selector: seq<Byte>, grabFocus: bool): seq<Byte>
  {
    [Tag(OpenImageV2), BoolByte(grabFocus)] + CStr(path) + CStr(selector)
  }

  /** `reloadImage`: `[1][focus][name\0]`. */
  function ReloadImageHeader(name: seq<Byte>, grabFocus: bool): seq<Byte>
  {
    [Tag(ReloadImage), BoolByte(grabFocus)] + CStr(name)
  }

  /** `closeImage`: `[2][name\0]`, with no focus byte. */
  function CloseImageHeader(name: seq<Byte>): seq<Byte>
  {
    [Tag(CloseImage)] + CStr(name)
  }

  /** `createImage`: `[4][focus][name\0][width u32][height u32][count u32]` and the channel names. */
  function CreateImageHeader(name: seq<Byte>, w: U32, h: U32, names: seq<seq<Byte>>, grabFocus: bool): seq<Byte>
    requires |names| < Two32
  {
    [Tag(CreateImage), BoolByte(grabFocus)] + CStr(name) + Le(w, 4) + Le(h, 4) + Le(|names|, 4) + CStrs(names)
  }

  /** `updateImage`: `[6][focus][name\0][count u32]`, the channel names, `[x][y][width][height]` as u32,
      then the offsets and the strides as u64. */
  function UpdateImageHeader(name: seq<Byte>, x: U32, y: U32, w: U32, h: U32, names: seq<seq<Byte>>,
                             offsets: seq<U64>, strides: seq<U64>, grabFocus: bool): seq<Byte>
    requires |names| < Two32 && |offsets| == |names| && |strides| == |names|
  {
    [Tag(UpdateImageV3), BoolByte(grabFocus)] + CStr(name) + Le(|names|, 4) + CStrs(names)
      + Le(x, 4) + Le(y, 4) + Le(w, 4) + Le(h, 4) + Scalars(offsets, 8) + Scalars(strides, 8)
  }

  /** One vector-graphics command: its type byte and its `dataCount` words; `dataCount` itself is not written. */
  function EncodeCommand(c: VgCommand): seq<Byte>
  {
    [Code(c.kind)] + Words(c.data)
  }

  function EncodeCommands(cs: seq<VgCommand>): seq<Byte>
  {
    if cs == [] then [] else EncodeCommand(cs[0]) + EncodeCommands(cs[1..])
  }

  lemma {:induction false} EncodeCommandsSnoc(cs: seq<VgCommand>, c: VgCommand)
    ensures EncodeCommands(cs + [c]) == EncodeCommands(cs) + EncodeCommand(c)
  {
    if cs == [] {
      assert [] + [c] == [c];
    } else {
      assert (cs + [c])[1..] == cs[1..] + [c];
      EncodeCommandsSnoc(cs[1..], c);
    }
  }

  /** `vectorGraphics`: `[8][focus][name\0][append][count u32]` and the commands. The count is
      `static_cast<uint32_t>(commandCount)`, while every command is written. */
  function VectorGraphicsHeader(name: seq<Byte>, cmds: seq<VgCommand>, append: bool, grabFocus: bool): seq<Byte>
  {
    [Tag(VectorGraphics), BoolByte(grabFocus)] + CStr(name) + [BoolByte(append)]
      + Le(|cmds| % Two32, 4) + EncodeCommands(cmds)
  }

  /** The bytes `sendMessage` hands to the transport: a u32 length that counts itself, the header,
      and the payload only when there is one. The length always includes `extraLen`. */
  function Frame(header: seq<Byte>, extra: Option<seq<Byte>>, extraLen: U64): seq<Byte>
  {
    Le((4 + |header| + extraLen) % Two32, 4) + header + (if extra.Some? then extra.value else [])
  }

  /** The length prefix describes the whole frame, itself included, whenever it fits in 32 bits. */
  lemma {:induction false} FramePrefixCountsItself(header: seq<Byte>, extra: Option<seq<Byte>>, extraLen: U64)
    requires extra.Some? ==> |extra.value| == extraLen
    requires 4 + |header| + extraLen < Two32
    ensures FromLe(Frame(header, extra, extraLen)[..4]) == 4 + |header| + extraLen
    ensures extra.Some? ==> |Frame(header, extra, extraLen)| == 4 + |header| + extraLen
    ensures extra.None? ==> |Frame(header, extra, extraLen)| == 4 + |header|
  {
    var total := 4 + |header| + extraLen;
    var f := Frame(header, extra, extraLen);
    assert f[..4] == Le(total, 4);
    assert Pow256(4) == Two32;
    LeRoundTrip(total, 4);
  }

  // ---------------------------------------------------------------------------------------------
  // The receiving side.

  /** What a header holds, once read back. */
  datatype Packet =
    | OpenPacket(path: seq<Byte>, selector: seq<Byte>, grabFocus: bool)
    | ReloadPacket(name: seq<Byte>, grabFocus: bool)
    | ClosePacket(name: seq<Byte>)
    | CreatePacket(name: seq<Byte>, width: nat, height: nat, names: seq<seq<Byte>>, grabFocus: bool)
    | UpdatePacket(name: seq<Byte>, x: nat, y: nat, width: nat, height: nat, names: seq<seq<Byte>>,
                   offsets: seq<nat>, strides: seq<nat>, grabFocus: bool)
    | GraphicsPacket(name: seq<Byte>, append: bool, commands: seq<VgCommand>, grabFocus: bool)

  function ReadBool(bs: seq<Byte>): Option<(bool, seq<Byte>)>
  {
    if bs == [] || bs[0] > 1 then None else Some((bs[0] == 0, bs[1..]))
  }

  function ReadScalar(bs: seq<Byte>, size: nat): Option<(nat, seq<Byte>)>
  {
    if |bs| < size then None else Some((FromLe(bs[..size]), bs[size..]))
  }

  /** Splits at the first NUL. */
  function ReadCStr(bs: seq<Byte>): Option<(seq<Byte>, seq<Byte>)>
  {
    if bs == [] then None
    else if bs[0] == 0 then Some(([], bs[1..]))
    else
      var (s, rest) :- ReadCStr(bs[1..]);
      Some(([bs[0]] + s, rest))
  }

  function ReadCStrs(bs: seq<Byte>, n: nat): Option<(seq<seq<Byte>>, seq<Byte>)>
    decreases n
  {
    if n == 0 then Some(([], bs))
    else
      var first := ReadCStr(bs);
      if first.None? then None
      else
        var more := ReadCStrs(first.value.1, n - 1);
        if more.None? then None else Some(([first.value.0] + more.value.0, more.value.1))
  }

  function ReadScalars(bs: seq<Byte>, n: nat, size: nat): Option<(seq<nat>, seq<Byte>)>
    decreases n
  {
    if n == 0 then Some(([], bs))
    else
      var first := ReadScalar(bs, size);
      if first.None? then None
      else
        var more := ReadScalars(first.value.1, n - 1, size);
        if more.None? then None else Some(([first.value.0] + more.value.0, more.value.1))
  }

  function ReadWords(bs: seq<Byte>, n: nat): Option<(seq<FloatBits>, seq<Byte>)>
  {
    if n == 0 then Some(([], bs))
    else if |bs| < 4 then None
    else
      assert Pow256(4) == Two32;
      var w: FloatBits := FromLe(bs[..4]);
      var more := ReadWords(bs[4..], n - 1);
      if more.None? then None else Some(([w] + more.value.0, more.value.1))
  }

  /** A command is read by its type byte; the number of words follows from the type's arity. */
  function ReadCommand(bs: seq<Byte>): Option<(VgCommand, seq<Byte>)>
  {
    if bs == [] then None
    else
      var kind :- KindOf(bs[0]);
      var (ws, rest) :- ReadWords(bs[1..], Arity(kind));
      if |ws| <= MaxPayload then Some((VgCommand(kind, ws), rest)) else None
  }

  function ReadCommands(bs: seq<Byte>, n: nat): Option<(seq<VgCommand>, seq<Byte>)>
    decreases n
  {
    if n == 0 then Some(([], bs))
    else
      var first := ReadCommand(bs);
      if first.None? then None
      else
        var more := ReadCommands(first.value.1, n - 1);
        if more.None? then None else Some(([first.value.0] + more.value.0, more.value.1))
  }

  function ReadOpenBody(bs: seq<Byte>): Option<Packet>
  {
    var (focus, r1) :- ReadBool(bs);
    var (path, r2) :- ReadCStr(r1);
    var (selector, r3) :- ReadCStr(r2);
    if r3 == [] then Some(OpenPacket(path, selector, focus)) else None
  }

  function ReadReloadBody(bs: seq<Byte>): Option<Packet>
  {
    var (focus, r1) :- ReadBool(bs);
    var (name, r2) :- ReadCStr(r1);
    if r2 == [] then Some(ReloadPacket(name, focus)) else None
  }

  function ReadCloseBody(bs: seq<Byte>): Option<Packet>
  {
    var (name, r1) :- ReadCStr(bs);
    if r1 == [] then Some(ClosePacket(name)) else None
  }

  function ReadCreateBody(bs: seq<Byte>): Option<Packet>
  {
    var (focus, r1) :- ReadBool(bs);
    var (name, r2) :- ReadCStr(r1);
    var (w, r3) :- ReadScalar(r2, 4);
    var (h, r4) :- ReadScalar(r3, 4);
    var (n, r5) :- ReadScalar(r4, 4);
    var (names, r6) :- ReadCStrs(r5, n);
    if r6 == [] then Some(CreatePacket(name, w, h, names, focus)) else None
  }

  /** The region and the per-channel layout that follow the channel names of an update. */
  function ReadRegion(bs: seq<Byte>, n: nat): Option<(nat, nat, nat, nat, seq<nat>, seq<nat>)>
  {
    var (x, r1) :- ReadScalar(bs, 4);
    var (y, r2) :- ReadScalar(r1, 4);
    var (w, r3) :- ReadScalar(r2, 4);
    var (h, r4) :- ReadScalar(r3, 4);
    var (offsets, r5) :- ReadScalars(r4, n, 8);
    var (strides, r6) :- ReadScalars(r5, n, 8);
    if r6 == [] then Some((x, y, w, h, offsets, strides)) else None
  }

  function ReadUpdateBody(bs: seq<Byte>): Option<Packet>
  {
    var (focus, r1) :- ReadBool(bs);
    var (name, r2) :- ReadCStr(r1);
    var (n, r3) :- ReadScalar(r2, 4);
    var (names, r4) :- ReadCStrs(r3, n);
    var (x, y, w, h, offsets, strides) :- ReadRegion(r4, n);
    Some(UpdatePacket(name, x, y, w, h, names, offsets, strides, focus))
  }

  function ReadGraphicsBody(bs: seq<Byte>): Option<Packet>
  {
    var (focus, r1) :- ReadBool(bs);
    var (name, r2) :- ReadCStr(r1);
    var (append, r3) :- ReadBool(r2);
    var (n, r4) :- ReadScalar(r3, 4);
    var (cmds, r5) :- ReadCommands(r4, n);
    if r5 == [] then Some(GraphicsPacket(name, append, cmds, focus)) else None
  }

  /** Reads a whole header by its tag; the header must be used up. */
  function ReadHeader(bs: seq<Byte>): Option<Packet>
  {
    if bs == [] then None
    else if bs[0] == Tag(OpenImageV2) then ReadOpenBody(bs[1..])
    else if bs[0] == Tag(ReloadImage) then ReadReloadBody(bs[1..])
    else if bs[0] == Tag(CloseImage) then ReadCloseBody(bs[1..])
    else if bs[0] == Tag(CreateImage) then ReadCreateBody(bs[1..])
    else if bs[0] == Tag(UpdateImageV3) then ReadUpdateBody(bs[1..])
    else if bs[0] == Tag(VectorGraphics) then ReadGraphicsBody(bs[1..])
    else None
  }

  lemma {:induction false} ReadBoolOf(b: bool, rest: seq<Byte>)
    ensures ReadBool([BoolByte(b)] + rest) == Some((b, rest))
  {
    assert ([BoolByte(b)] + rest)[1..] == rest;
  }

  lemma {:induction false} ReadScalarOf(x: nat, size: nat, rest: seq<Byte>)
    requires x < Pow256(size)
    ensures ReadScalar(Le(x, size) + rest, size) == Some((x, rest))
  {
    var bs := Le(x, size) + rest;
    assert bs[..size] == Le(x, size) && bs[size..] == rest;
    LeRoundTrip(x, size);
  }

  lemma {:induction false} ReadCStrOf(s: seq<Byte>, rest: seq<Byte>)
    requires NoNul(s)
    ensures ReadCStr(CStr(s) + rest) == Some((s, rest))
  {
    var bs := CStr(s) + rest;
    if s == [] {
      assert bs == [0] + rest;
      assert bs[1..] == rest;
    } else {
      assert bs == [s[0]] + (CStr(s[1..]) + rest);
      assert bs[1..] == CStr(s[1..]) + rest;
      ReadCStrOf(s[1..], rest);
      assert [s[0]] + s[1..] == s;
    }
  }

  lemma {:induction false} ReadCStrsOf(names: seq<seq<Byte>>, rest: seq<Byte>)
    requires forall i :: 0 <= i < |names| ==> NoNul(names[i])
    ensures ReadCStrs(CStrs(names) + rest, |names|) == Some((names, rest))
  {
    if names != [] {
      var tail := CStrs(names[1..]) + rest;
      assert CStrs(names) + rest == CStr(names[0]) + tail;
      ReadCStrOf(names[0], tail);
      ReadCStrsOf(names[1..], rest);
      assert ReadCStr(CStrs(names) + rest) == Some((names[0], tail));
      assert ReadCStrs(tail, |names| - 1) == Some((names[1..], rest));
      assert [names[0]] + names[1..] == names;
    } else {
      assert CStrs(names) + rest == rest;
    }
  }

  lemma {:induction false} ReadScalarsOf(xs: seq<nat>, size: nat, rest: seq<Byte>)
    requires forall i :: 0 <= i < |xs| ==> xs[i] < Pow256(size)
    ensures ReadScalars(Scalars(xs, size) + rest, |xs|, size) == Some((xs, rest))
  {
    if xs != [] {
      var tail := Scalars(xs[1..], size) + rest;
      assert Scalars(xs, size) + rest == Le(xs[0], size) + tail;
      ReadScalarOf(xs[0], size, tail);
      ReadScalarsOf(xs[1..], size, rest);
      assert ReadScalar(Scalars(xs, size) + rest, size) == Some((xs[0], tail));
      assert ReadScalars(tail, |xs| - 1, size) == Some((xs[1..], rest));
      assert [xs[0]] + xs[1..] == xs;
    } else {
      assert Scalars(xs, size) + rest == rest;
    }
  }

  lemma {:induction false} ReadWordsOf(ws: seq<FloatBits>, rest: seq<Byte>)
    ensures ReadWords(Words(ws) + rest, |ws|) == Some((ws, rest))
  {
    if ws != [] {
      var bs := Words(ws) + rest;
      assert bs[..4] == Le(ws[0], 4) && bs[4..] == Words(ws[1..]) + rest;
      assert Pow256(4) == Two32;
      LeRoundTrip(ws[0], 4);
      assert FromLe(bs[..4]) == ws[0];
      ReadWordsOf(ws[1..], rest);
      assert ReadWords(bs[4..], |ws| - 1) == Some((ws[1..], rest));
      assert [ws[0]] + ws[1..] == ws;
    } else {
      assert Words(ws) + rest == rest;
    }
  }

  lemma {:induction false} ReadCommandOf(c: VgCommand, rest: seq<Byte>)
    requires WellFormed(c)
    ensures ReadCommand(EncodeCommand(c) + rest) == Some((c, rest))
  {
    var bs := EncodeCommand(c) + rest;
    assert bs[0] == Code(c.kind);
    assert bs[1..] == Words(c.data) + rest;
    CodeIsFixed(c.kind);
    ReadWordsOf(c.data, rest);
  }

  /** Commands whose `dataCount` is their operation's arity read back as themselves: the type
      byte alone tells the receiver how many words follow. */
  lemma {:induction false} ReadCommandsOf(cs: seq<VgCommand>, rest: seq<Byte>)
    requires forall i :: 0 <= i < |cs| ==> WellFormed(cs[i])
    ensures ReadCommands(EncodeCommands(cs) + rest, |cs|) == Some((cs, rest))
  {
    if cs != [] {
      var tail := EncodeCommands(cs[1..]) + rest;
      assert EncodeCommands(cs) + rest == EncodeCommand(cs[0]) + tail;
      ReadCommandOf(cs[0], tail);
      ReadCommandsOf(cs[1..], rest);
      assert ReadCommands(tail, |cs| - 1) == Some((cs[1..], rest));
      assert [cs[0]] + cs[1..] == cs;
    } else {
      assert EncodeCommands(cs) + rest == rest;
    }
  }

  /** A command whose `dataCount` disagrees with its operation's arity does not survive:
      a `Save` carrying one word is read as a bare `Save` followed by four stray bytes. */
  lemma {:induction false} PayloadOutsideArityIsMisread(w: FloatBits)
    ensures ReadCommands(EncodeCommands([WithPayload(Save, [w])]), 1) == Some(([SaveCmd()], Le(w, 4)))
  {
    var c := WithPayload(Save, [w]);
    assert Words([w]) == Le(w, 4) + Words([]);
    assert EncodeCommands([c]) == EncodeCommand(c) + EncodeCommands([]);
    var bs := EncodeCommands([c]);
    assert bs == [0] + Le(w, 4);
    assert bs[1..] == Le(w, 4) + [];
    assert ReadWords(bs[1..], 0) == Some(([], Le(w, 4)));
    assert ReadCommand(bs) == Some((SaveCmd(), Le(w, 4)));
    assert ReadCommands(Le(w, 4), 0) == Some(([], Le(w, 4)));
    assert [SaveCmd()] + [] == [SaveCmd()];
  }

  /** `openImage`'s header reads back as the path, the selector and the focus flag. */
  lemma {:induction false} OpenImageRoundTrip(path: seq<Byte>, selector: seq<Byte>, grabFocus: bool)
    requires NoNul(path) && NoNul(selector)
    ensures ReadHeader(OpenImageHeader(path, selector, grabFocus)) == Some(OpenPacket(path, selector, grabFocus))
  {
    var h := OpenImageHeader(path, selector, grabFocus);
    assert h[1..] == [BoolByte(grabFocus)] + (CStr(path) + (CStr(selector) + []));
    ReadBoolOf(grabFocus, CStr(path) + (CStr(selector) + []));
    ReadCStrOf(path, CStr(selector) + []);
    ReadCStrOf(selector, []);
  }

  /** `reloadImage`'s header reads back as the name and the focus flag. */
  lemma {:induction false} ReloadImageRoundTrip(name: seq<Byte>, grabFocus: bool)
    requires NoNul(name)
    ensures ReadHeader(ReloadImageHeader(name, grabFocus)) == Some(ReloadPacket(name, grabFocus))
  {
    var h := ReloadImageHeader(name, grabFocus);
    assert h[1..] == [BoolByte(grabFocus)] + (CStr(name) + []);
    ReadBoolOf(grabFocus, CStr(name) + []);
    ReadCStrOf(name, []);
  }

  /** `closeImage`'s header is the tag and the name alone. */
  lemma {:induction false} CloseImageRoundTrip(name: seq<Byte>)
    requires NoNul(name)
    ensures ReadHeader(CloseImageHeader(name)) == Some(ClosePacket(name))
    ensures |CloseImageHeader(name)| == |name| + 2
  {
    var h := CloseImageHeader(name);
    assert h[1..] == CStr(name) + [];
    ReadCStrOf(name, []);
    CStrOfText(name);
  }

  /** `createImage`'s header reads back as the name, the dimensions, the channel names and the focus flag. */
  lemma {:induction false} CreateImageRoundTrip(name: seq<Byte>, w: U32, h: U32, names: seq<seq<Byte>>, grabFocus: bool)
    requires |names| < Two32 && NoNul(name)
    requires forall i :: 0 <= i < |names| ==> NoNul(names[i])
    ensures ReadHeader(CreateImageHeader(name, w, h, names, grabFocus)) == Some(CreatePacket(name, w, h, names, grabFocus))
  {
    var hd := CreateImageHeader(name, w, h, names, grabFocus);
    var r5 := CStrs(names) + [];
    var r4 := Le(|names|, 4) + r5;
    var r3 := Le(h, 4) + r4;
    var r2 := Le(w, 4) + r3;
    var r1 := CStr(name) + r2;
    assert hd[1..] == [BoolByte(grabFocus)] + r1;
    assert Pow256(4) == Two32;
    ReadBoolOf(grabFocus, r1);
    ReadCStrOf(name, r2);
    ReadScalarOf(w, 4, r3);
    ReadScalarOf(h, 4, r4);
    ReadScalarOf(|names|, 4, r5);
    ReadCStrsOf(names, []);
  }

  /** The receiver hands everything after the tag to the reader of that tag's packet; the tags of
      the superseded packet types, which the client never sends, are not read. */
  lemma {:induction false} ReadHeaderDispatch(p: PacketType, body: seq<Byte>)
    ensures p == OpenImageV2 ==> ReadHeader([Tag(p)] + body) == ReadOpenBody(body)
    ensures p == ReloadImage ==> ReadHeader([Tag(p)] + body) == ReadReloadBody(body)
    ensures p == CloseImage ==> ReadHeader([Tag(p)] + body) == ReadCloseBody(body)
    ensures p == CreateImage ==> ReadHeader([Tag(p)] + body) == ReadCreateBody(body)
    ensures p == UpdateImageV3 ==> ReadHeader([Tag(p)] + body) == ReadUpdateBody(body)
    ensures p == VectorGraphics ==> ReadHeader([Tag(p)] + body) == ReadGraphicsBody(body)
    ensures p in {OpenImage, UpdateImage, UpdateImageV2} ==> ReadHeader([Tag(p)] + body) == None
  {
    assert ([Tag(p)] + body)[1..] == body;
  }

  lemma {:induction false} UpdateHeaderShape(name: seq<Byte>, x: U32, y: U32, w: U32, h: U32, names: seq<seq<Byte>>,
                          offsets: seq<U64>, strides: seq<U64>, grabFocus: bool)
    requires |names| < Two32 && |offsets| == |names| && |strides| == |names|
    ensures UpdateImageHeader(name, x, y, w, h, names, offsets, strides, grabFocus)
         == [Tag(UpdateImageV3)] + ([BoolByte(grabFocus)] + (CStr(name) + (Le(|names|, 4) + (CStrs(names)
              + RegionBytes(x, y, w, h, offsets, strides)))))
  {
    Regroup(Tag(UpdateImageV3), BoolByte(grabFocus), CStr(name), Le(|names|, 4), CStrs(names),
            Le(x, 4), Le(y, 4), Le(w, 4), Le(h, 4), Scalars(offsets, 8), Scalars(strides, 8));
  }

  /** The concatenation of the update header's eleven pieces, grouped the way it is read back. */
  lemma Regroup(t: Byte, g: Byte, a: seq<Byte>, b: seq<Byte>, c: seq<Byte>,
                q1: seq<Byte>, q2: seq<Byte>, q3: seq<Byte>, q4: seq<Byte>, q5: seq<Byte>, q6: seq<Byte>)
    ensures [t, g] + a + b + c + q1 + q2 + q3 + q4 + q5 + q6
         == [t] + ([g] + (a + (b + (c + (q1 + q2 + q3 + q4 + q5 + q6)))))
  {
    assert [t, g] == [t] + [g];
  }

  lemma {:induction false} GraphicsHeaderShape(name: seq<Byte>, cmds: seq<VgCommand>, append: bool, grabFocus: bool)
    requires |cmds| < Two32
    ensures VectorGraphicsHeader(name, cmds, append, grabFocus)
         == [Tag(VectorGraphics)] + ([BoolByte(grabFocus)] + (CStr(name) + ([BoolByte(append)]
              + (Le(|cmds|, 4) + (EncodeCommands(cmds) + [])))))
  {
    assert |cmds| % Two32 == |cmds|;
  }

  lemma {:induction false} ReadUpdateBodyOf(name: seq<Byte>, names: seq<seq<Byte>>, region: seq<Byte>, grabFocus: bool,
                         x: U32, y: U32, w: U32, h: U32, offsets: seq<U64>, strides: seq<U64>)
    requires |names| < Two32 && |offsets| == |names| && NoNul(name)
    requires forall i :: 0 <= i < |names| ==> NoNul(names[i])
    requires ReadRegion(region, |names|) == Some((x, y, w, h, offsets, strides))
    ensures ReadUpdateBody([BoolByte(grabFocus)] + (CStr(name) + (Le(|names|, 4) + (CStrs(names) + region))))
         == Some(UpdatePacket(name, x, y, w, h, names, offsets, strides, grabFocus))
  {
    var r3 := CStrs(names) + region;
    var r2 := Le(|names|, 4) + r3;
    var r1 := CStr(name) + r2;
    assert Pow256(4) == Two32;
    ReadBoolOf(grabFocus, r1);
    ReadCStrOf(name, r2);
    ReadScalarOf(|names|, 4, r3);
    ReadCStrsOf(names, region);
  }

  /** `updateImage`'s header reads back as every field it was built from. */
  lemma {:induction false} UpdateImageRoundTrip(name: seq<Byte>, x: U32, y: U32, w: U32, h: U32, names: seq<seq<Byte>>,
                             offsets: seq<U64>, strides: seq<U64>, grabFocus: bool)
    requires |names| < Two32 && |offsets| == |names| && |strides| == |names| && NoNul(name)
    requires forall i :: 0 <= i < |names| ==> NoNul(names[i])
    ensures ReadHeader(UpdateImageHeader(name, x, y, w, h, names, offsets, strides, grabFocus))
         == Some(UpdatePacket(name, x, y, w, h, names, offsets, strides, grabFocus))
  {
    var region := RegionBytes(x, y, w, h, offsets, strides);
    var body := [BoolByte(grabFocus)] + (CStr(name) + (Le(|names|, 4) + (CStrs(names) + region)));
    UpdateHeaderShape(name, x, y, w, h, names, offsets, strides, grabFocus);
    ReadHeaderDispatch(UpdateImageV3, body);
    ReadRegionOf(x, y, w, h, offsets, strides);
    ReadUpdateBodyOf(name, names, region, grabFocus, x, y, w, h, offsets, strides);
  }

  function RegionBytes(x: U32, y: U32, w: U32, h: U32, offsets: seq<U64>, strides: seq<U64>): seq<Byte>
  {
    Le(x, 4) + Le(y, 4) + Le(w, 4) + Le(h, 4) + Scalars(offsets, 8) + Scalars(strides, 8)
  }

  lemma {:induction false} ReadRegionOf(x: U32, y: U32, w: U32, h: U32, offsets: seq<U64>, strides: seq<U64>)
    requires |offsets| == |strides|
    ensures ReadRegion(RegionBytes(x, y, w, h, offsets, strides), |offsets|) == Some((x, y, w, h, offsets, strides))
  {
    var r6 := Scalars(strides, 8) + [];
    var r5 := Scalars(offsets, 8) + r6;
    var r4 := Le(h, 4) + r5;
    var r3 := Le(w, 4) + r4;
    var r2 := Le(y, 4) + r3;
    assert RegionBytes(x, y, w, h, offsets, strides) == Le(x, 4) + r2;
    assert Pow256(4) == Two32;
    assert Pow256(8) == Two32 * Two32;
    ReadScalarOf(x, 4, r2);
    ReadScalarOf(y, 4, r3);
    ReadScalarOf(w, 4, r4);
    ReadScalarOf(h, 4, r5);
    ReadScalarsOf(offsets, 8, r6);
    ReadScalarsOf(strides, 8, []);
  }

  lemma {:induction false} ReadGraphicsBodyOf(name: seq<Byte>, cmds: seq<VgCommand>, append: bool, grabFocus: bool)
    requires |cmds| < Two32 && NoNul(name)
    requires forall i :: 0 <= i < |cmds| ==> WellFormed(cmds[i])
    ensures ReadGraphicsBody([BoolByte(grabFocus)] + (CStr(name) + ([BoolByte(append)] + (Le(|cmds|, 4) + (EncodeCommands(cmds) + [])))))
         == Some(GraphicsPacket(name, append, cmds, grabFocus))
  {
    var r4 := EncodeCommands(cmds) + [];
    var r3 := Le(|cmds|, 4) + r4;
    var r2 := [BoolByte(append)] + r3;
    var r1 := CStr(name) + r2;
    assert Pow256(4) == Two32;
    ReadBoolOf(grabFocus, r1);
    ReadCStrOf(name, r2);
    ReadBoolOf(append, r3);
    ReadScalarOf(|cmds|, 4, r4);
    ReadCommandsOf(cmds, []);
  }

  /** `vectorGraphics`' header reads back as the name, the append and focus flags and the commands,
      provided every command carries its operation's arity and their number fits the u32 count. */
  lemma {:induction false} VectorGraphicsRoundTrip(name: seq<Byte>, cmds: seq<VgCommand>, append: bool, grabFocus: bool)
    requires |cmds| < Two32 && NoNul(name)
    requires forall i :: 0 <= i < |cmds| ==> WellFormed(cmds[i])
    ensures ReadHeader(VectorGraphicsHeader(name, cmds, append, grabFocus))
         == Some(GraphicsPacket(name, append, cmds, grabFocus))
  {
    var body := [BoolByte(grabFocus)] + (CStr(name) + ([BoolByte(append)] + (Le(|cmds|, 4) + (EncodeCommands(cmds) + []))));
    GraphicsHeaderShape(name, cmds, append, grabFocus);
    ReadHeaderDispatch(VectorGraphics, body);
    ReadGraphicsBodyOf(name, cmds, append, grabFocus);
  }
}
