// Big-endian integers and network addresses as they travel on the wire.
module Wire {
  import opened Common

  function Pow256(w: nat): (p: nat)
    ensures p > 0
  {
    if w == 0 then 1 else 256 * Pow256(w - 1)
  }

  // The low w bytes of n, most significant first.
  function Be(n: nat, w: nat): (b: bytes)
    ensures |b| == w
  {
    if w == 0 then [] else Be(n / 256, w - 1) + [n % 256]
  }

  function UnBe(b: bytes): (n: nat)
    ensures n < Pow256(|b|)
  {
    if b == [] then 0 else 256 * UnBe(b[..|b| - 1]) + Last(b)
  }

  lemma {:induction false} UnBeBe(n: nat, w: nat)
    requires n < Pow256(w)
    ensures UnBe(Be(n, w)) == n
  {
    if w > 0 {
      UnBeBe(n / 256, w - 1);
      assert Be(n, w)[..w - 1] == Be(n / 256, w - 1);
    }
  }

  // 32-bit, 16-bit and 64-bit ranges, as powers.
  lemma Widths()
    ensures Pow256(1) == 256 && Pow256(2) == 0x1_0000 && Pow256(4) == 0x1_0000_0000
    ensures Pow256(8) == 0x1_0000_0000_0000_0000
  {
    assert Pow256(3) == 0x100_0000 && Pow256(5) == 0x100_0000_0000;
    assert Pow256(6) == 0x1_0000_0000_0000 && Pow256(7) == 0x100_0000_0000_0000;
  }

  // ---- Addresses ----

  type Bytes4 = b: bytes | |b| == 4 witness [0, 0, 0, 0]
  type Bytes16 = b: bytes | |b| == 16 witness seq(16, i => 0)
  type uint16 = n: int | 0 <= n < 0x1_0000

  // A zoneless address; Zero is the invalid address, which encodes like the
  // IPv6 unspecified one.
  datatype Addr = ZeroAddr | V4(ip: Bytes4) | V6(ip6: Bytes16)

  datatype AddrPort = AddrPort(addr: Addr, port: uint16)

  // The prefix of IPv4-mapped addresses, section 2.5.5.2 of RFC 4291.
  const MappedPrefix: bytes := [0, 0, 0, 0, 0, 0, 0, 0, 0, 0, 255, 255]

  function As16(a: Addr): Bytes16 {
    match a
    case ZeroAddr => seq(16, i => 0)
    case V4(ip) => MappedPrefix + ip
    case V6(ip6) => ip6
  }

  predicate IsMapped(ip: Bytes16) { ip[..12] == MappedPrefix }

  // AddrFrom16 followed by Unmap.
  function FromWire(ip: Bytes16): Addr { if IsMapped(ip) then V4(ip[12..]) else V6(ip) }

  // Addresses survive the wire exactly when they are valid and not IPv4-mapped IPv6.
  predicate Plain(a: Addr) { a.V4? || (a.V6? && !IsMapped(a.ip6)) }

  lemma AddrRoundTripIff(a: Addr)
    ensures FromWire(As16(a)) == a <==> Plain(a)
  {
    if a.V4? {
      assert (MappedPrefix + a.ip)[..12] == MappedPrefix && (MappedPrefix + a.ip)[12..] == a.ip;
    }
  }

  const EpLength := 18

  function EncodeAddrPort(ap: AddrPort): (b: bytes)
    ensures |b| == EpLength
  {
    As16(ap.addr) + Be(ap.port, 2)
  }

  function DecodeAddrPort(b: bytes): AddrPort
    requires |b| == EpLength
  {
    Widths();
    AddrPort(FromWire(b[..16]), UnBe(b[16..18]))
  }

  lemma AddrPortRoundTripIff(ap: AddrPort)
    ensures DecodeAddrPort(EncodeAddrPort(ap)) == ap <==> Plain(ap.addr)
  {
    Widths();
    AddrRoundTripIff(ap.addr);
    UnBeBe(ap.port, 2);
    var b := EncodeAddrPort(ap);
    assert b[..16] == As16(ap.addr) && b[16..18] == Be(ap.port, 2);
  }
}
