/** Bytes, native scalar layouts and C strings: what `OStream` appends to its buffer. */
module Wire {

  const Two32: nat := 0x1_0000_0000
  const Two64: nat := 0x1_0000_0000_0000_0000

  type Byte = b: int | 0 <= b < 0x100
  type U16 = x: int | 0 <= x < 0x1_0000
  type U32 = x: int | 0 <= x < 0x1_0000_0000
  type U64 = x: int | 0 <= x < 0x1_0000_0000_0000_0000

  /** The bit pattern of an IEEE-754 single-precision float. Floats are opaque 4-byte words here. */
  type FloatBits = U32

  datatype Option<+T> = None | Some(value: T) {
    predicate IsFailure() { None? }
    function PropagateFailure<U>(): Option<U> requires None? { None }
    function Extract(): T requires Some? { value }
  }

  function Pow256(n: nat): (r: nat)
    ensures r > 0
  {
    if n == 0 then 1 else 256 * Pow256(n - 1)
  }

  /** The value ranges of the scalar widths the client writes. */
  lemma {:induction false} ScalarRanges()
    ensures Pow256(1) == 0x100 && Pow256(4) == Two32 && Pow256(8) == Two64
  {
    assert Pow256(1) == 256 * Pow256(0);
    assert Pow256(4) == 256 * (256 * (256 * Pow256(1)));
    assert Pow256(8) == 256 * (256 * (256 * (256 * Pow256(4))));
  }

  /** The `n` low-order bytes of `x`, least significant first: the native layout of a
      scalar of `n` bytes on the little-endian machines the client runs on. */
  function Le(x: nat, n: nat): (r: seq<Byte>)
    ensures |r| == n
  {
    if n == 0 then [] else [x % 256] + Le(x / 256, n - 1)
  }

  /** Reads back a little-endian unsigned number. */
  function FromLe(bs: seq<Byte>): (x: nat)
    ensures x < Pow256(|bs|)
  {
    if bs == [] then 0 else bs[0] + 256 * FromLe(bs[1..])
  }

  lemma {:induction false} LeRoundTrip(x: nat, n: nat)
    requires x < Pow256(n)
    ensures FromLe(Le(x, n)) == x
  {
    if n > 0 {
      var r := Le(x, n);
      assert r[1..] == Le(x / 256, n - 1);
      LeRoundTrip(x / 256, n - 1);
    }
  }

  /** Every byte string of length `n` is the layout of exactly one number below 256^n. */
  lemma {:induction false} FromLeRoundTrip(bs: seq<Byte>)
    ensures Le(FromLe(bs), |bs|) == bs
  {
    if bs != [] {
      FromLeRoundTrip(bs[1..]);
      var x := FromLe(bs);
      assert x % 256 == bs[0] && x / 256 == FromLe(bs[1..]);
      assert bs == [bs[0]] + bs[1..];
    }
  }

  /** `operator<<(bool)` writes `char(var ? 0 : 1)`: true is 0 and false is 1 on the wire. */
  function BoolByte(b: bool): Byte
  {
    if b then 0 else 1
  }

  predicate NoNul(s: seq<Byte>)
  {
    forall i :: 0 <= i < |s| ==> s[i] != 0
  }

  /** What `operator<<(const char *)` appends: the bytes before the first NUL, then one NUL. */
  function CStr(s: seq<Byte>): (r: seq<Byte>)
    ensures |r| > 0 && r[|r| - 1] == 0
  {
    if s == [] || s[0] == 0 then [0] else [s[0]] + CStr(s[1..])
  }

  /** A text without NUL becomes its bytes followed by exactly one NUL. */
  lemma {:induction false} CStrOfText(s: seq<Byte>)
    requires NoNul(s)
    ensures CStr(s) == s + [0]
  {
    if s != [] {
      CStrOfText(s[1..]);
      assert s == [s[0]] + s[1..];
    }
  }

  lemma {:induction false} CStrStep(s: seq<Byte>, i: nat)
    requires i < |s| && s[i] != 0
    requires CStr(s) == s[..i] + CStr(s[i..])
    ensures CStr(s) == s[..i + 1] + CStr(s[i + 1..])
  {
    assert s[i..][1..] == s[i + 1..];
    assert CStr(s[i..]) == [s[i]] + CStr(s[i + 1..]);
    assert s[..i + 1] == s[..i] + [s[i]];
  }

  /** The concatenation of the C strings of `names`, in order. */
  function CStrs(names: seq<seq<Byte>>): seq<Byte>
  {
    if names == [] then [] else CStr(names[0]) + CStrs(names[1..])
  }

  lemma {:induction false} CStrsSnoc(names: seq<seq<Byte>>, s: seq<Byte>)
    ensures CStrs(names + [s]) == CStrs(names) + CStr(s)
  {
    if names == [] {
      assert [] + [s] == [s];
    } else {
      assert (names + [s])[1..] == names[1..] + [s];
      CStrsSnoc(names[1..], s);
    }
  }

  /** The layouts of `xs`, each `size` bytes wide, back to back. */
  function Scalars(xs: seq<nat>, size: nat): (r: seq<Byte>)
    ensures |r| == |xs| * size
  {
    if xs == [] then [] else Le(xs[0], size) + Scalars(xs[1..], size)
  }

  lemma {:induction false} ScalarsSnoc(xs: seq<nat>, x: nat, size: nat)
    ensures Scalars(xs + [x], size) == Scalars(xs, size) + Le(x, size)
  {
    if xs == [] {
      assert [] + [x] == [x];
    } else {
      assert (xs + [x])[1..] == xs[1..] + [x];
      ScalarsSnoc(xs[1..], x, size);
    }
  }

  /** The layouts of 4-byte float words, back to back. */
  function Words(ws: seq<FloatBits>): (r: seq<Byte>)
    ensures |r| == 4 * |ws|
  {
    if ws == [] then [] else Le(ws[0], 4) + Words(ws[1..])
  }

  lemma {:induction false} WordsSnoc(ws: seq<FloatBits>, w: FloatBits)
    ensures Words(ws + [w]) == Words(ws) + Le(w, 4)
  {
    if ws == [] {
      assert [] + [w] == [w];
    } else {
      assert (ws + [w])[1..] == ws[1..] + [w];
      WordsSnoc(ws[1..], w);
    }
  }

  /** The append-only byte buffer of the client: `mData` grows at the end and nothing else. */
  class OStream {
    var data: seq<Byte>

    constructor ()
      ensures data == []
    {
      data := [];
    }

    /** The template `operator<<(T)`: the `size` native bytes of a scalar, `size` being `sizeof(T)`. */
    method WriteScalar(x: nat, size: nat)
      requires x < Pow256(size)
      modifies this
      ensures data == old(data) + Le(x, size)
    {
      data := data + Le(x, size);
    }

    method WriteChar(c: Byte)
      modifies this
      ensures data == old(data) + [c]
    {
      WriteScalar(c, 1);
    }

    method WriteBool(b: bool)
      modifies this
      ensures data == old(data) + [BoolByte(b)]
    {
      WriteChar(if b then 0 else 1);
    }

    method WriteU32(x: U32)
      modifies this
      ensures data == old(data) + Le(x, 4)
    {
      WriteScalar(x, 4);
    }

    method WriteU64(x: U64)
      modifies this
      ensures data == old(data) + Le(x, 8)
    {
      WriteScalar(x, 8);
    }

    method WriteFloat(f: FloatBits)
      modifies this
      ensures data == old(data) + Le(f, 4)
    {
      WriteScalar(f, 4);
    }

    /** `operator<<(const char *)`: one char per byte up to the first NUL, then the terminator. */
    method WriteCString(s: seq<Byte>)
      modifies this
      ensures data == old(data) + CStr(s)
    {
      var i := 0;
      assert s[..0] == [] && s[0..] == s;
      while i < |s| && s[i] != 0
        invariant 0 <= i <= |s|
        invariant data == old(data) + s[..i]
        invariant CStr(s) == s[..i] + CStr(s[i..])
      {
        CStrStep(s, i);
        WriteChar(s[i]);
        i := i + 1;
      }
      assert CStr(s[i..]) == [0];
      WriteChar(0);
    }

    /** `operator<<(const std::string &)`: every byte, embedded NULs included, then a NUL. */
    method WriteString(s: seq<Byte>)
      modifies this
      ensures data == old(data) + s + [0]
    {
      for i := 0 to |s|
        invariant data == old(data) + s[..i]
      {
        assert s[..i + 1] == s[..i] + [s[i]];
        WriteChar(s[i]);
      }
      WriteChar(0);
    }

    /** `operator<<(const std::vector<T> &)`: the elements back to back, no count. */
    method WriteScalars(xs: seq<nat>, size: nat)
      requires forall i :: 0 <= i < |xs| ==> xs[i] < Pow256(size)
      modifies this
      ensures data == old(data) + Scalars(xs, size)
    {
      for i := 0 to |xs|
        invariant data == old(data) + Scalars(xs[..i], size)
      {
        assert xs[..i + 1] == xs[..i] + [xs[i]];
        ScalarsSnoc(xs[..i], xs[i], size);
        WriteScalar(xs[i], size);
      }
      assert xs[..|xs|] == xs;
    }
  }
}
