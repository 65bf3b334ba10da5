// Bytes on the wire and in buffers: the network-order accessors of netutil,
// C integer conversions and C strings.
module Bytes {

  type byte = b: int | 0 <= b < 256
  type u16 = x: int | 0 <= x < 0x1_0000
  type u32 = x: int | 0 <= x < 0x1_0000_0000
  type i32 = x: int | -0x8000_0000 <= x < 0x8000_0000

  /** The optional values of the model: NULL pointers, absent addresses, failed decodings. */
  datatype Option<+T> = None | Some(value: T)

  const NUL: byte := 0
  const COMMA: byte := 44

  /** A buffer after a copy of `data` to index `at`. */
  function Overlay(buf: seq<byte>, at: nat, data: seq<byte>): (r: seq<byte>)
    requires at + |data| <= |buf|
    ensures |r| == |buf|
    ensures r[at..at + |data|] == data
    ensures r[..at] == buf[..at] && r[at + |data|..] == buf[at + |data|..]
  {
    buf[..at] + data + buf[at + |data|..]
  }

  lemma OverlayTwo(buf: seq<byte>, a: seq<byte>, b: seq<byte>)
    requires |buf| == |a| + |b|
    ensures Overlay(Overlay(buf, 0, a), |a|, b) == a + b
  {}

  lemma Concat3(a: seq<byte>, b: seq<byte>, c: seq<byte>)
    ensures a + b + c == a + (b + c)
  {}

  // ---- network-order integers ----

  function ToUShort(buf: seq<byte>, index: nat): u16
    requires index + 2 <= |buf|
  {
    var (b0: int, b1: int) := (buf[index], buf[index + 1]);
    b0 * 0x100 + b1
  }

  function UShortBytes(x: u16): (r: seq<byte>)
    ensures |r| == 2
  {
    [x / 0x100, x % 0x100]
  }

  function ToUInt(buf: seq<byte>, index: nat): u32
    requires index + 4 <= |buf|
  {
    var (b0: int, b1: int, b2: int, b3: int) := (buf[index], buf[index + 1], buf[index + 2], buf[index + 3]);
    b0 * 0x100_0000 + b1 * 0x1_0000 + b2 * 0x100 + b3
  }

  function UIntBytes(x: u32): (r: seq<byte>)
    ensures |r| == 4
  {
    [x / 0x100_0000, x / 0x1_0000 % 0x100, x / 0x100 % 0x100, x % 0x100]
  }

  /** The C conversion from unsigned int to int: same bits, two's complement. */
  function AsSigned(x: u32): i32 {
    if x < 0x8000_0000 then x else x - 0x1_0000_0000
  }

  function AsUnsigned(x: i32): u32 {
    if x >= 0 then x else x + 0x1_0000_0000
  }

  function ToInt(buf: seq<byte>, index: nat): i32
    requires index + 4 <= |buf|
  {
    AsSigned(ToUInt(buf, index))
  }

  function IntBytes(x: i32): (r: seq<byte>)
    ensures |r| == 4
  {
    UIntBytes(AsUnsigned(x))
  }

  /** The most significant byte comes first. */
  lemma NetworkOrder(buf: seq<byte>, index: nat)
    requires index + 4 <= |buf|
    ensures ToUShort(buf, index) == 0x100 * (buf[index] as int) + buf[index + 1]
    ensures ToUInt(buf, index) == 0x1_0000 * (ToUShort(buf, index) as int) + ToUShort(buf, index + 2)
  {}

  /** A number read from four bytes is written as those four bytes. */
  lemma UIntOfBytes(buf: seq<byte>, index: nat)
    requires index + 4 <= |buf|
    ensures UIntBytes(ToUInt(buf, index)) == buf[index..index + 4]
  {
    var (b0: int, b1: int, b2: int, b3: int) := (buf[index], buf[index + 1], buf[index + 2], buf[index + 3]);
    var x := ToUInt(buf, index);
    assert x / 0x100 == b0 * 0x1_0000 + b1 * 0x100 + b2 && x % 0x100 == b3;
    assert x / 0x1_0000 == b0 * 0x100 + b1 && x / 0x100 % 0x100 == b2;
    assert x / 0x100_0000 == b0 && x / 0x1_0000 % 0x100 == b1;
  }

  lemma IntOfBytes(buf: seq<byte>, index: nat)
    requires index + 4 <= |buf|
    ensures IntBytes(ToInt(buf, index)) == buf[index..index + 4]
  {
    UIntOfBytes(buf, index);
  }

  /** Whatever surrounds them, the bytes written for a number are read back as that number. */
  lemma UIntRoundTrip(buf: seq<byte>, index: nat, x: u32)
    requires index + 4 <= |buf| && buf[index..index + 4] == UIntBytes(x)
    ensures ToUInt(buf, index) == x
  {
    var b := buf[index..index + 4];
    assert b[0] == buf[index] && b[1] == buf[index + 1] && b[2] == buf[index + 2] && b[3] == buf[index + 3];
    assert x == x / 0x100 * 0x100 + x % 0x100;
    assert x / 0x100 == x / 0x1_0000 * 0x100 + x / 0x100 % 0x100;
    assert x / 0x1_0000 == x / 0x100_0000 * 0x100 + x / 0x1_0000 % 0x100;
  }

  lemma IntRoundTrip(buf: seq<byte>, index: nat, x: i32)
    requires index + 4 <= |buf| && buf[index..index + 4] == IntBytes(x)
    ensures ToInt(buf, index) == x
  {
    UIntRoundTrip(buf, index, AsUnsigned(x));
  }

  lemma UShortRoundTrip(buf: seq<byte>, index: nat, x: u16)
    requires index + 2 <= |buf| && buf[index..index + 2] == UShortBytes(x)
    ensures ToUShort(buf, index) == x
  {}

  // ---- C strings ----

  /** A user's name, without its terminator. */
  type Nick = seq<byte>

  /** strlen of a buffer that is followed by a terminator. */
  function StrLen(data: seq<byte>): (n: nat)
    ensures n <= |data|
    ensures NUL !in data[..n]
    ensures n < |data| ==> data[n] == NUL
  {
    if data == [] || data[0] == NUL then 0
    else
      var n := 1 + StrLen(data[1..]);
      assert data[..n] == [data[0]] + data[1..][..n - 1];
      n
  }

  /** The C string at the front of a buffer that is followed by a terminator. */
  function CStr(data: seq<byte>): (s: seq<byte>)
    ensures NUL !in s && s <= data
    ensures |s| < |data| ==> data[|s|] == NUL
    ensures NUL !in data ==> s == data
  {
    data[..StrLen(data)]
  }

  lemma {:induction false} CStrOfTerminated(s: seq<byte>, rest: seq<byte>)
    requires NUL !in s
    ensures StrLen(s + [NUL] + rest) == |s| && CStr(s + [NUL] + rest) == s
  {
    var t := s + [NUL] + rest;
    if s != [] {
      assert t[1..] == s[1..] + [NUL] + rest;
      CStrOfTerminated(s[1..], rest);
    }
  }

  // ---- remainders ----

  lemma MulAway(d: int, n: int)
    requires n > 0
    ensures d >= 1 ==> d * n >= n
    ensures d <= -1 ==> d * n <= -n
  {}

  lemma ModUnique(x: int, q: int, r: int, n: int)
    requires 0 <= r < n && x == q * n + r
    ensures x % n == r
  {
    var d := x / n - q;
    assert d * n == r - x % n by {
      assert x == x / n * n + x % n;
      assert (x / n - q) * n == x / n * n - q * n;
    }
    MulAway(d, n);
  }

  /** The cell, of a ring of `n` cells, that lies `i` steps after counter `from`. */
  function Cell(from: int, i: int, n: int): (j: int)
    requires n > 0
    ensures 0 <= j < n
    ensures 0 <= from + i < n ==> j == from + i
  {
    (from + i) % n
  }

  lemma CellSame(f: int, i: int, g: int, j: int, n: int)
    requires n > 0 && f + i == g + j
    ensures Cell(f, i, n) == Cell(g, j, n)
  {}

  lemma CellNext(from: int, i: int, n: int)
    requires n > 0
    ensures Cell(from, i + n, n) == Cell(from, i, n)
  {
    var k := from + i;
    assert (k / n + 1) * n == k / n * n + n;
    ModUnique(k + n, k / n + 1, k % n, n);
  }

  /** Counters less than one turn apart fall on different cells. */
  lemma CellDistinct(f: int, i: int, g: int, j: int, n: int)
    requires n > 0 && f + i < g + j < f + i + n
    ensures Cell(f, i, n) != Cell(g, j, n)
  {
    var a, b := f + i, g + j;
    var d := a % n + (b - a);
    if d < n {
      ModUnique(b, a / n, d, n);
    } else {
      assert (a / n + 1) * n == a / n * n + n;
      ModUnique(b, a / n + 1, d - n, n);
    }
  }
}
