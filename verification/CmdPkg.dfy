// A command package under construction: type, length, data, and the terminator
// behind them.
module CmdPkgs {
  import opened Bytes

  type Pkg = seq<byte>

  const REGISTER_NICK: byte := 1
  const ADD_BUDDIES: byte := 2
  const REMOVE_BUDDIES: byte := 3
  const REGISTER_NICK_ACK: byte := 101
  const INITIALIZE_UDP: byte := 105
  const INITIALIZE_UDP_ACK: byte := 106
  const BUDDIES_IDS: byte := 150

  const HEADER := 3

  /** The buffer that packages are received in, and the data of the longest one
      that fits it together with its terminator. */
  const CMDPKG_MAX := 512
  const DATA_MAX := CMDPKG_MAX - 1 - HEADER

  /** The whole package with the given data. */
  function Package(pkgType: byte, data: seq<byte>): Pkg
    requires HEADER + |data| < 0x1_0000
  {
    [pkgType] + UShortBytes(HEADER + |data|) + data
  }

  class CmdPkg {
    const bytes: array<byte>

    ghost predicate Valid()
      reads bytes
    {
      && bytes.Length > HEADER
      && ToUShort(bytes[..], 1) == bytes.Length - 1
      && bytes[bytes.Length - 1] == NUL
    }

    /** The data bytes, between header and terminator. */
    function Data(): seq<byte>
      requires Valid()
      reads bytes
    {
      bytes[HEADER..bytes.Length - 1]
    }

    constructor (pkgType: byte, len: u16)
      requires len >= HEADER
      ensures Valid() && fresh(bytes)
      ensures bytes[0] == pkgType && |Data()| == len - HEADER
    {
      bytes := new byte[len + 1];
      new;
      bytes[len] := NUL;
      bytes[0] := pkgType;
      var b := UShortBytes(len);
      bytes[1], bytes[2] := b[0], b[1];
    }

    method SetByte(index: nat, val: byte)
      requires Valid() && index < |Data()|
      modifies bytes
      ensures Valid() && bytes[0] == old(bytes[0]) && Data() == old(Data())[index := val]
    {
      bytes[HEADER + index] := val;
    }

    method SetBytes(index: nat, data: seq<byte>)
      requires Valid() && index + |data| <= |Data()|
      modifies bytes
      ensures Valid() && bytes[0] == old(bytes[0]) && Data() == Overlay(old(Data()), index, data)
    {
      forall i | 0 <= i < |data| {
        bytes[HEADER + index + i] := data[i];
      }
      var d := Data();
      assert forall i :: 0 <= i < |d| ==>
                           d[i] == if index <= i < index + |data| then data[i - index] else old(Data())[i];
    }

    method SetInt(index: nat, val: i32)
      requires Valid() && index + 4 <= |Data()|
      modifies bytes
      ensures Valid() && bytes[0] == old(bytes[0]) && Data() == Overlay(old(Data()), index, IntBytes(val))
    {
      SetBytes(index, IntBytes(val));
    }

    method GetLen() returns (len: u16)
      requires Valid()
      ensures len == HEADER + |Data()|
    {
      len := ToUShort([bytes[1], bytes[2]], 0);
    }

    /** What is passed to the socket. */
    method GetBytes() returns (pkg: Pkg)
      requires Valid()
      ensures pkg == Package(bytes[0], Data())
    {
      var len := GetLen();
      pkg := bytes[..len];
      var b := bytes[..];
      UShortOf(b, len);
      assert pkg == [b[0]] + b[1..3] + Data();
    }
  }

  /** A number read back as `x` was written as `x`. */
  lemma UShortOf(b: seq<byte>, x: u16)
    requires |b| >= 3 && ToUShort(b, 1) == x
    ensures b[1..3] == UShortBytes(x)
  {}

  // ---- the server's small replies ----

  function StatusAck(pkgType: byte, status: byte): Pkg {
    Package(pkgType, [status])
  }

  function NickAck(id: u32): Pkg {
    Package(REGISTER_NICK_ACK, [1] + UIntBytes(id))
  }

  function InitUdpRequest(token: i32): Pkg {
    Package(INITIALIZE_UDP, IntBytes(token))
  }

  method NewStatusAck(pkgType: byte, status: byte) returns (p: CmdPkg)
    ensures fresh(p) && fresh(p.bytes) && p.Valid() && Package(p.bytes[0], p.Data()) == StatusAck(pkgType, status)
  {
    p := new CmdPkg(pkgType, 4);
    p.SetByte(0, status);
    assert p.Data() == [status];
  }

  method NewNickAck(id: u32) returns (p: CmdPkg)
    ensures fresh(p) && fresh(p.bytes) && p.Valid() && Package(p.bytes[0], p.Data()) == NickAck(id)
  {
    p := new CmdPkg(REGISTER_NICK_ACK, 8);
    p.SetByte(0, 1);
    p.SetInt(1, AsSigned(id));
    assert p.Data() == [1] + p.Data()[1..5];
  }

  method NewInitUdp(token: i32) returns (p: CmdPkg)
    ensures fresh(p) && fresh(p.bytes) && p.Valid() && Package(p.bytes[0], p.Data()) == InitUdpRequest(token)
  {
    p := new CmdPkg(INITIALIZE_UDP, 7);
    p.SetInt(0, token);
    assert p.Data() == p.Data()[0..4];
  }

  /** What a client reads from the replies is what the server put in. */
  lemma RepliesRoundTrip(id: u32, token: i32, status: byte)
    ensures NickAck(id)[0] == 101 && InitUdpRequest(token)[0] == 105
    ensures StatusAck(INITIALIZE_UDP_ACK, status)[0] == 106 && StatusAck(REGISTER_NICK_ACK, status)[0] == 101
    ensures NickAck(id)[HEADER] == 1 && ToUInt(NickAck(id), HEADER + 1) == id
    ensures ToUInt(InitUdpRequest(token), HEADER) == AsUnsigned(token)
    ensures ToInt(InitUdpRequest(token), HEADER) == token
    ensures StatusAck(INITIALIZE_UDP_ACK, status)[HEADER] == status
    ensures StatusAck(REGISTER_NICK_ACK, status)[HEADER] == status
    ensures ToUShort(NickAck(id), 1) == |NickAck(id)| == 8
    ensures ToUShort(InitUdpRequest(token), 1) == |InitUdpRequest(token)| == 7
    ensures ToUShort(StatusAck(INITIALIZE_UDP_ACK, status), 1) == |StatusAck(INITIALIZE_UDP_ACK, status)| == 4
  {
    hide UIntBytes, ToUInt, UShortBytes, ToUShort;
    var a, b, c := NickAck(id), InitUdpRequest(token), StatusAck(INITIALIZE_UDP_ACK, status);
    assert a[HEADER + 1..HEADER + 5] == UIntBytes(id);
    UIntRoundTrip(a, HEADER + 1, id);
    assert b[HEADER..HEADER + 4] == IntBytes(token);
    UIntRoundTrip(b, HEADER, AsUnsigned(token));
    IntRoundTrip(b, HEADER, token);
    assert a[1..3] == UShortBytes(8) && b[1..3] == UShortBytes(7) && c[1..3] == UShortBytes(4);
    UShortRoundTrip(a, 1, 8);
    UShortRoundTrip(b, 1, 7);
    UShortRoundTrip(c, 1, 4);
  }
}
