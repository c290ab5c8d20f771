/** `VgCommand`, the value type of one vector-graphics drawing command. */
module VgCommands {
  import opened Wire

  /** The drawing operations, stored on the wire as one signed byte each. */
  datatype EType =
    | Invalid | Save | Restore | FillColor | Fill | StrokeColor | Stroke | BeginPath | ClosePath
    | PathWinding | DebugDumpPathCache | MoveTo | LineTo | ArcTo | Arc | BezierTo | Circle
    | Ellipse | QuadTo | Rect | RoundedRect | RoundedRectVarying

  /** The fixed integer of each operation (all of them fit the non-negative range of `int8_t`). */
  function Code(t: EType): Byte
  {
    match t
    case Invalid => 127
    case Save => 0
    case Restore => 1
    case FillColor => 2
    case Fill => 3
    case StrokeColor => 4
    case Stroke => 5
    case BeginPath => 6
    case ClosePath => 7
    case PathWinding => 8
    case DebugDumpPathCache => 9
    case MoveTo => 10
    case LineTo => 11
    case ArcTo => 12
    case Arc => 13
    case BezierTo => 14
    case Circle => 15
    case Ellipse => 16
    case QuadTo => 17
    case Rect => 18
    case RoundedRect => 19
    case RoundedRectVarying => 20
  }

  /** The receiver's reading of a type byte. */
  function KindOf(b: Byte): Option<EType>
  {
    if b == 127 then Some(Invalid)
    else if b > 20 then None
    else
      Some([Save, Restore, FillColor, Fill, StrokeColor, Stroke, BeginPath, ClosePath, PathWinding,
            DebugDumpPathCache, MoveTo, LineTo, ArcTo, Arc, BezierTo, Circle, Ellipse, QuadTo, Rect,
            RoundedRect, RoundedRectVarying][b])
  }

  /** The codes are the fixed integers 0..20 and 127, and no two operations share one. */
  lemma CodeIsFixed(t: EType)
    ensures KindOf(Code(t)) == Some(t)
    ensures t == Invalid <==> Code(t) == 127
    ensures t != Invalid ==> Code(t) <= 20
  {
  }

  /** `MaxPayload`: the capacity of the inline float array. */
  const MaxPayload: nat := 8

  type Payload = s: seq<FloatBits> | |s| <= MaxPayload

  /** A command: its operation and the `dataCount` words actually filled in, in order.
      The words of the inline array past `dataCount` are never read, so they are not part of the value. */
  datatype VgCommand = VgCommand(kind: EType, data: Payload)

  datatype Pos = Pos(x: FloatBits, y: FloatBits)
  datatype Size = Size(width: FloatBits, height: FloatBits)
  datatype Color = Color(r: FloatBits, g: FloatBits, b: FloatBits, a: FloatBits)
  datatype Winding = CounterClockwise | Clockwise

  /** `dataCount`. */
  function DataCount(c: VgCommand): (n: nat)
    ensures n <= MaxPayload
  {
    |c.data|
  }

  /** `VgCommand()`: the default member initialisers. */
  function DefaultCommand(): VgCommand
  {
    VgCommand(Invalid, [])
  }

  /** `VgCommand(EType)`: only the type is set. */
  function OfType(t: EType): VgCommand
  {
    VgCommand(t, [])
  }

  /** `VgCommand(EType, const float (&)[N])`: the `static_assert` is the requires clause. */
  function WithPayload(t: EType, d: seq<FloatBits>): VgCommand
    requires |d| <= MaxPayload
  {
    VgCommand(t, d)
  }

  /** `(float)(int)winding`: the single-precision bit patterns of 1.0 and 2.0. */
  function WindingBits(w: Winding): FloatBits
  {
    match w
    case CounterClockwise => 0x3F80_0000
    case Clockwise => 0x4000_0000
  }

  function SaveCmd(): VgCommand { OfType(Save) }
  function RestoreCmd(): VgCommand { OfType(Restore) }
  function FillColorCmd(c: Color): VgCommand { WithPayload(FillColor, [c.r, c.g, c.b, c.a]) }
  function FillCmd(): VgCommand { OfType(Fill) }
  function StrokeColorCmd(c: Color): VgCommand { WithPayload(StrokeColor, [c.r, c.g, c.b, c.a]) }
  function StrokeCmd(): VgCommand { OfType(Stroke) }
  function BeginPathCmd(): VgCommand { OfType(BeginPath) }
  function ClosePathCmd(): VgCommand { OfType(ClosePath) }
  function PathWindingCmd(w: Winding): VgCommand { WithPayload(PathWinding, [WindingBits(w)]) }
  function MoveToCmd(p: Pos): VgCommand { WithPayload(MoveTo, [p.x, p.y]) }
  function LineToCmd(p: Pos): VgCommand { WithPayload(LineTo, [p.x, p.y]) }

  function ArcToCmd(p1: Pos, p2: Pos, radius: FloatBits): VgCommand
  {
    WithPayload(ArcTo, [p1.x, p1.y, p2.x, p2.y, radius])
  }

  function ArcCmd(center: Pos, radius: FloatBits, angleBegin: FloatBits, angleEnd: FloatBits, w: Winding): VgCommand
  {
    WithPayload(Arc, [center.x, center.y, radius, angleBegin, angleEnd, WindingBits(w)])
  }

  function BezierToCmd(c1: Pos, c2: Pos, p: Pos): VgCommand
  {
    WithPayload(BezierTo, [c1.x, c1.y, c2.x, c2.y, p.x, p.y])
  }

  function CircleCmd(center: Pos, radius: FloatBits): VgCommand
  {
    WithPayload(Circle, [center.x, center.y, radius])
  }

  function EllipseCmd(center: Pos, radius: Size): VgCommand
  {
    WithPayload(Ellipse, [center.x, center.y, radius.width, radius.height])
  }

  function QuadToCmd(c: Pos, p: Pos): VgCommand { WithPayload(QuadTo, [c.x, c.y, p.x, p.y]) }
  function RectCmd(p: Pos, size: Size): VgCommand { WithPayload(Rect, [p.x, p.y, size.width, size.height]) }

  function RoundedRectCmd(p: Pos, size: Size, radius: FloatBits): VgCommand
  {
    WithPayload(RoundedRect, [p.x, p.y, size.width, size.height, radius])
  }

  function RoundedRectVaryingCmd(p: Pos, size: Size, topLeft: FloatBits, topRight: FloatBits,
                                 bottomRight: FloatBits, bottomLeft: FloatBits): VgCommand
  {
    WithPayload(RoundedRectVarying, [p.x, p.y, size.width, size.height, topLeft, topRight, bottomRight, bottomLeft])
  }

  /** The per-operation payload arity the factories establish; the operations no factory builds
      (`Invalid`, `DebugDumpPathCache`) carry none. */
  function Arity(t: EType): (n: nat)
    ensures n <= MaxPayload
  {
    match t
    case FillColor | StrokeColor | Ellipse | QuadTo | Rect => 4
    case PathWinding => 1
    case MoveTo | LineTo => 2
    case Circle => 3
    case ArcTo | RoundedRect => 5
    case Arc | BezierTo => 6
    case RoundedRectVarying => 8
    case _ => 0
  }

  /** A command whose `dataCount` is the arity of its operation. */
  predicate WellFormed(c: VgCommand)
  {
    DataCount(c) == Arity(c.kind)
  }

  /** The state, colour and straight-path factories set their own operation and a payload of
      exactly that operation's arity. */
  lemma StateFactoriesFollowArity(c: Color, w: Winding, p: Pos)
    ensures SaveCmd().kind == Save && WellFormed(SaveCmd()) && DataCount(SaveCmd()) == 0
    ensures RestoreCmd().kind == Restore && WellFormed(RestoreCmd()) && DataCount(RestoreCmd()) == 0
    ensures FillColorCmd(c).kind == FillColor && DataCount(FillColorCmd(c)) == 4 && WellFormed(FillColorCmd(c))
    ensures FillCmd().kind == Fill && WellFormed(FillCmd()) && DataCount(FillCmd()) == 0
    ensures StrokeColorCmd(c).kind == StrokeColor && DataCount(StrokeColorCmd(c)) == 4 && WellFormed(StrokeColorCmd(c))
    ensures StrokeCmd().kind == Stroke && WellFormed(StrokeCmd()) && DataCount(StrokeCmd()) == 0
    ensures BeginPathCmd().kind == BeginPath && WellFormed(BeginPathCmd()) && DataCount(BeginPathCmd()) == 0
    ensures ClosePathCmd().kind == ClosePath && WellFormed(ClosePathCmd()) && DataCount(ClosePathCmd()) == 0
    ensures PathWindingCmd(w).kind == PathWinding && DataCount(PathWindingCmd(w)) == 1 && WellFormed(PathWindingCmd(w))
    ensures MoveToCmd(p).kind == MoveTo && DataCount(MoveToCmd(p)) == 2 && WellFormed(MoveToCmd(p))
    ensures LineToCmd(p).kind == LineTo && DataCount(LineToCmd(p)) == 2 && WellFormed(LineToCmd(p))
  {
  }

  /** The arc, curve, circle and ellipse factories set their own operation and a payload of
      exactly that operation's arity. */
  lemma CurveFactoriesFollowArity(w: Winding, p: Pos, q: Pos, r: Pos, s: Size, f0: FloatBits, f1: FloatBits, f2: FloatBits)
    ensures ArcToCmd(p, q, f0).kind == ArcTo && DataCount(ArcToCmd(p, q, f0)) == 5 && WellFormed(ArcToCmd(p, q, f0))
    ensures ArcCmd(p, f0, f1, f2, w).kind == Arc && DataCount(ArcCmd(p, f0, f1, f2, w)) == 6
    ensures WellFormed(ArcCmd(p, f0, f1, f2, w))
    ensures BezierToCmd(p, q, r).kind == BezierTo && DataCount(BezierToCmd(p, q, r)) == 6
    ensures WellFormed(BezierToCmd(p, q, r))
    ensures CircleCmd(p, f0).kind == Circle && DataCount(CircleCmd(p, f0)) == 3 && WellFormed(CircleCmd(p, f0))
    ensures EllipseCmd(p, s).kind == Ellipse && DataCount(EllipseCmd(p, s)) == 4 && WellFormed(EllipseCmd(p, s))
  {
  }

  /** The quadratic-curve and rectangle factories set their own operation and a payload of
      exactly that operation's arity. */
  lemma ShapeFactoriesFollowArity(p: Pos, q: Pos, s: Size, f0: FloatBits, f1: FloatBits, f2: FloatBits, f3: FloatBits)
    ensures QuadToCmd(p, q).kind == QuadTo && DataCount(QuadToCmd(p, q)) == 4 && WellFormed(QuadToCmd(p, q))
    ensures RectCmd(p, s).kind == Rect && DataCount(RectCmd(p, s)) == 4 && WellFormed(RectCmd(p, s))
    ensures RoundedRectCmd(p, s, f0).kind == RoundedRect && DataCount(RoundedRectCmd(p, s, f0)) == 5
    ensures WellFormed(RoundedRectCmd(p, s, f0))
    ensures RoundedRectVaryingCmd(p, s, f0, f1, f2, f3).kind == RoundedRectVarying
    ensures DataCount(RoundedRectVaryingCmd(p, s, f0, f1, f2, f3)) == 8
    ensures WellFormed(RoundedRectVaryingCmd(p, s, f0, f1, f2, f3))
  {
  }

  /** The payload constructor keeps the given operation and copies `data[0..N)` in order;
      the other two constructors leave `dataCount` at 0. */
  lemma ConstructorsKeepTheirArguments(t: EType, d: seq<FloatBits>)
    requires |d| <= MaxPayload
    ensures WithPayload(t, d).kind == t && DataCount(WithPayload(t, d)) == |d|
    ensures forall i :: 0 <= i < |d| ==> WithPayload(t, d).data[i] == d[i]
    ensures OfType(t).kind == t && DataCount(OfType(t)) == 0
    ensures DefaultCommand().kind == Invalid && Code(DefaultCommand().kind) == 127 && DataCount(DefaultCommand()) == 0
  {
  }

  /** The winding words are the floats 1.0 and 2.0 as the server reads them back. */
  lemma WindingWordsDiffer(w: Winding, v: Winding)
    ensures WindingBits(w) == WindingBits(v) <==> w == v
  {
  }
}
