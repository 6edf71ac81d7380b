// The discovery message codec (disco/disco.go): nine message types, encoded by
// filling a buffer in place and decoded by cutting slices off its front.
module Disco {
  import opened Common
  import opened Wire

  type Key32 = k: bytes | |k| == 32 witness seq(32, i => 0)
  type TxID = k: bytes | |k| == 12 witness seq(12, i => 0)
  type uint32 = n: int | 0 <= n < 0x1_0000_0000
  type uint64 = n: int | 0 <= n < 0x1_0000_0000_0000_0000
  type Duration = n: int | -0x8000_0000_0000_0000 <= n < 0x8000_0000_0000_0000

  function Zeros(n: nat): bytes { seq(n, i => 0) }

  const ZeroKey: Key32 := Zeros(32)

  datatype BindCommon = BindCommon(vni: uint32, generation: uint32, remoteKey: Key32, challenge: Key32)

  datatype RelayEndpoint = RelayEndpoint(
    serverDisco: Key32,
    client0: Key32,
    client1: Key32,
    lamportID: uint64,
    vni: uint32,
    bindLifetime: Duration,
    steadyStateLifetime: Duration,
    addrPorts: seq<AddrPort>)

  datatype Message =
    | Ping(txID: TxID, nodeKey: Key32, padding: nat)
    | Pong(txID: TxID, src: AddrPort)
    | CallMeMaybe(myNumber: seq<AddrPort>)
    | BindUDPRelayEndpoint(common: BindCommon)
    | BindUDPRelayEndpointChallenge(common: BindCommon)
    | BindUDPRelayEndpointAnswer(common: BindCommon)
    | CallMeMaybeVia(endpoint: RelayEndpoint)
    | AllocateRequest(disco0: Key32, disco1: Key32, generation: uint32)
    | AllocateResponse(generation: uint32, endpoint: RelayEndpoint)

  const TypePing: byte := 1
  const TypePong: byte := 2
  const TypeCallMeMaybe: byte := 3
  const TypeBind: byte := 4
  const TypeChallenge: byte := 5
  const TypeAnswer: byte := 6
  const TypeCallMeMaybeVia: byte := 7
  const TypeAllocateRequest: byte := 8
  const TypeAllocateResponse: byte := 9

  const PongLen := 30
  const BindCommonLen := 72
  const AllocateRequestLen := 68
  // Three keys, Lamport ID, VNI and two lifetimes.
  const EndpointFixedLen := 124

  const ZeroEndpoint := RelayEndpoint(ZeroKey, ZeroKey, ZeroKey, 0, 0, 0, 0, [])

  // ---- Durations as 64-bit unsigned ----

  function ToU64(d: Duration): uint64 { if d < 0 then d + 0x1_0000_0000_0000_0000 else d }

  function FromU64(n: uint64): Duration { if n < 0x8000_0000_0000_0000 then n else n - 0x1_0000_0000_0000_0000 }

  // ---- The layout of every message ----

  function AddrPortsBytes(aps: seq<AddrPort>): (b: bytes)
    ensures |b| == EpLength * |aps|
  {
    if aps == [] then [] else EncodeAddrPort(aps[0]) + AddrPortsBytes(aps[1..])
  }

  function CommonBytes(c: BindCommon): (b: bytes)
    ensures |b| == BindCommonLen
  {
    Be(c.vni, 4) + Be(c.generation, 4) + c.remoteKey + c.challenge
  }

  function EndpointKeys(e: RelayEndpoint): (b: bytes)
    ensures |b| == 96
  {
    e.serverDisco + e.client0 + e.client1
  }

  function EndpointNumbers(e: RelayEndpoint): (b: bytes)
    ensures |b| == 28
  {
    Be(e.lamportID, 8) + Be(e.vni, 4) + Be(ToU64(e.bindLifetime), 8) + Be(ToU64(e.steadyStateLifetime), 8)
  }

  function EndpointFixed(e: RelayEndpoint): (b: bytes)
    ensures |b| == EndpointFixedLen
  {
    EndpointKeys(e) + EndpointNumbers(e)
  }

  function EndpointBytes(e: RelayEndpoint): bytes { EndpointFixed(e) + AddrPortsBytes(e.addrPorts) }

  function TypeOf(m: Message): byte {
    match m
    case Ping(_, _, _) => TypePing
    case Pong(_, _) => TypePong
    case CallMeMaybe(_) => TypeCallMeMaybe
    case BindUDPRelayEndpoint(_) => TypeBind
    case BindUDPRelayEndpointChallenge(_) => TypeChallenge
    case BindUDPRelayEndpointAnswer(_) => TypeAnswer
    case CallMeMaybeVia(_) => TypeCallMeMaybeVia
    case AllocateRequest(_, _, _) => TypeAllocateRequest
    case AllocateResponse(_, _) => TypeAllocateResponse
  }

  function PingBytes(tx: TxID, k: Key32, padding: nat): bytes {
    tx + (if k == ZeroKey then [] else k) + Zeros(padding)
  }

  function AllocateRequestBytes(d0: Key32, d1: Key32, generation: uint32): bytes { d0 + d1 + Be(generation, 4) }

  function Body(m: Message): bytes {
    if m.Ping? then PingBytes(m.txID, m.nodeKey, m.padding)
    else if m.Pong? then m.txID + EncodeAddrPort(m.src)
    else if m.CallMeMaybe? then AddrPortsBytes(m.myNumber)
    else if m.CallMeMaybeVia? then EndpointBytes(m.endpoint)
    else if m.AllocateRequest? then AllocateRequestBytes(m.disco0, m.disco1, m.generation)
    else if m.AllocateResponse? then Be(m.generation, 4) + EndpointBytes(m.endpoint)
    else CommonBytes(m.common)
  }

  // Type, version 0, body.
  function Marshal(m: Message): bytes { [TypeOf(m), 0] + Body(m) }

  // ---- Decoding as a function ----

  datatype ParseError = ErrShort | ErrUnknownType

  function DecodeAddrPorts(b: bytes): (aps: seq<AddrPort>)
    requires |b| % EpLength == 0
    ensures |aps| == |b| / EpLength
  {
    if b == [] then [] else [DecodeAddrPort(b[..EpLength])] + DecodeAddrPorts(b[EpLength..])
  }

  function DecodeCommon(b: bytes): Result<BindCommon, ParseError> {
    Widths();
    if |b| < BindCommonLen then Err(ErrShort)
    else Ok(BindCommon(UnBe(b[..4]), UnBe(b[4..8]), b[8..40], b[40..72]))
  }

  function DecodeEndpoint(b: bytes): Result<RelayEndpoint, ParseError> {
    Widths();
    if |b| < EndpointFixedLen + EpLength || (|b| - EndpointFixedLen) % EpLength != 0 then Err(ErrShort)
    else Ok(RelayEndpoint(
              b[..32], b[32..64], b[64..96], UnBe(b[96..104]), UnBe(b[104..108]),
              FromU64(UnBe(b[108..116])), FromU64(UnBe(b[116..124])), DecodeAddrPorts(b[124..])))
  }

  // The three messages of the bind handshake share their layout.
  function ParseBind(t: byte, b: bytes): Result<Message, ParseError> {
    match DecodeCommon(b)
    case Err(e) => Err(e)
    case Ok(c) =>
      Ok(if t == TypeBind then BindUDPRelayEndpoint(c)
         else if t == TypeChallenge then BindUDPRelayEndpointChallenge(c)
         else BindUDPRelayEndpointAnswer(c))
  }

  function ParsePing(p: bytes): Result<Message, ParseError> {
    if |p| < 12 then Err(ErrShort)
    else if |p| - 12 >= 32 then Ok(Ping(p[..12], p[12..44], |p| - 44))
    else Ok(Ping(p[..12], ZeroKey, |p| - 12))
  }

  function ParsePong(b: bytes): Result<Message, ParseError> {
    if |b| < PongLen then Err(ErrShort) else Ok(Pong(b[..12], DecodeAddrPort(b[12..30])))
  }

  function ParseCallMeMaybe(ver: byte, b: bytes): Result<Message, ParseError> {
    if |b| % EpLength != 0 || ver != 0 || |b| == 0 then Ok(CallMeMaybe([])) else Ok(CallMeMaybe(DecodeAddrPorts(b)))
  }

  function ParseVia(ver: byte, b: bytes): Result<Message, ParseError> {
    if ver != 0 then Ok(CallMeMaybeVia(ZeroEndpoint))
    else match DecodeEndpoint(b)
      case Ok(e) => Ok(CallMeMaybeVia(e))
      case Err(x) => Err(x)
  }

  function ParseAllocateRequest(ver: byte, b: bytes): Result<Message, ParseError> {
    Widths();
    if ver != 0 then Ok(AllocateRequest(ZeroKey, ZeroKey, 0))
    else if |b| < AllocateRequestLen then Err(ErrShort)
    else Ok(AllocateRequest(b[..32], b[32..64], UnBe(b[64..68])))
  }

  function ParseAllocateResponse(ver: byte, b: bytes): Result<Message, ParseError> {
    Widths();
    if ver != 0 then Ok(AllocateResponse(0, ZeroEndpoint))
    else if |b| < 4 then Err(ErrShort)
    else match DecodeEndpoint(b[4..])
      case Ok(e) => Ok(AllocateResponse(UnBe(b[..4]), e))
      case Err(x) => Err(x)
  }

  // An unknown version gives an empty message for the types that look at the
  // version at all.
  function ParseBody(t: byte, ver: byte, b: bytes): Result<Message, ParseError> {
    if t == TypePing then ParsePing(b)
    else if t == TypePong then ParsePong(b)
    else if t == TypeCallMeMaybe then ParseCallMeMaybe(ver, b)
    else if t == TypeBind || t == TypeChallenge || t == TypeAnswer then ParseBind(t, b)
    else if t == TypeCallMeMaybeVia then ParseVia(ver, b)
    else if t == TypeAllocateRequest then ParseAllocateRequest(ver, b)
    else if t == TypeAllocateResponse then ParseAllocateResponse(ver, b)
    else Err(ErrUnknownType)
  }

  function ParseMessage(p: bytes): Result<Message, ParseError> {
    if |p| < 2 then Err(ErrShort) else ParseBody(p[0], p[1], p[2..])
  }

  // ---- The round trip ----

  predicate AllPlain(aps: seq<AddrPort>) { forall i :: 0 <= i < |aps| ==> Plain(aps[i].addr) }

  // What a message must satisfy to come back as it was: plain addresses, at
  // least one in a relay endpoint, and no zero-key ping padded by 32 or more.
  predicate Survives(m: Message) {
    match m
    case Ping(_, k, padding) => k != ZeroKey || padding < 32
    case Pong(_, src) => Plain(src.addr)
    case CallMeMaybe(aps) => AllPlain(aps)
    case CallMeMaybeVia(e) => e.addrPorts != [] && AllPlain(e.addrPorts)
    case AllocateResponse(_, e) => e.addrPorts != [] && AllPlain(e.addrPorts)
    case _ => true
  }

  lemma {:induction false} AddrPortsRoundTripIff(aps: seq<AddrPort>)
    ensures |AddrPortsBytes(aps)| % EpLength == 0
    ensures DecodeAddrPorts(AddrPortsBytes(aps)) == aps <==> AllPlain(aps)
  {
    if aps != [] {
      AddrPortRoundTripIff(aps[0]);
      AddrPortsRoundTripIff(aps[1..]);
      var b := AddrPortsBytes(aps);
      assert b[..EpLength] == EncodeAddrPort(aps[0]) && b[EpLength..] == AddrPortsBytes(aps[1..]);
      assert aps == [aps[0]] + aps[1..];
      assert AllPlain(aps) <==> Plain(aps[0].addr) && AllPlain(aps[1..]);
    }
  }

  lemma CommonRoundTrip(c: BindCommon)
    ensures DecodeCommon(CommonBytes(c)) == Ok(c)
  {
    Widths();
    UnBeBe(c.vni, 4);
    UnBeBe(c.generation, 4);
    var b := CommonBytes(c);
    assert b[..4] == Be(c.vni, 4) && b[4..8] == Be(c.generation, 4) && b[8..40] == c.remoteKey && b[40..72] == c.challenge;
  }

  // The fields of an endpoint at their offsets.
  lemma KeySlices(e: RelayEndpoint, b: bytes)
    requires b == EndpointBytes(e)
    ensures b[..32] == e.serverDisco && b[32..64] == e.client0 && b[64..96] == e.client1
  {
    assert b[..96] == EndpointKeys(e);
    assert b[..96][..32] == b[..32] && b[..96][32..64] == b[32..64] && b[..96][64..96] == b[64..96];
  }

  lemma NumberSlices(e: RelayEndpoint, b: bytes)
    requires b == EndpointBytes(e)
    ensures UnBe(b[96..104]) == e.lamportID && UnBe(b[104..108]) == e.vni
    ensures UnBe(b[108..116]) == ToU64(e.bindLifetime) && UnBe(b[116..124]) == ToU64(e.steadyStateLifetime)
  {
    Widths();
    UnBeBe(e.lamportID, 8);
    UnBeBe(e.vni, 4);
    UnBeBe(ToU64(e.bindLifetime), 8);
    UnBeBe(ToU64(e.steadyStateLifetime), 8);
    var n := EndpointNumbers(e);
    assert b[96..124] == n;
    assert b[96..104] == n[..8] == Be(e.lamportID, 8);
    assert b[104..108] == n[8..12] == Be(e.vni, 4);
    assert b[108..116] == n[12..20] == Be(ToU64(e.bindLifetime), 8);
    assert b[116..124] == n[20..28] == Be(ToU64(e.steadyStateLifetime), 8);
  }

  lemma FromSlices(b: bytes, e: RelayEndpoint, tail: bytes)
    requires |b| == EndpointFixedLen + |tail| && |tail| >= EpLength && |tail| % EpLength == 0
    requires b[..32] == e.serverDisco && b[32..64] == e.client0 && b[64..96] == e.client1
    requires UnBe(b[96..104]) == e.lamportID && UnBe(b[104..108]) == e.vni
    requires UnBe(b[108..116]) == ToU64(e.bindLifetime) && UnBe(b[116..124]) == ToU64(e.steadyStateLifetime)
    requires b[124..] == tail
    ensures DecodeEndpoint(b) == Ok(e.(addrPorts := DecodeAddrPorts(tail)))
  {
    assert |b| - EndpointFixedLen == |tail|;
  }

  // The fixed fields of an endpoint always come back; only the list decides.
  lemma EndpointDecodes(e: RelayEndpoint)
    requires e.addrPorts != [] && |AddrPortsBytes(e.addrPorts)| % EpLength == 0
    ensures DecodeEndpoint(EndpointBytes(e)) == Ok(e.(addrPorts := DecodeAddrPorts(AddrPortsBytes(e.addrPorts))))
  {
    var b, tail := EndpointBytes(e), AddrPortsBytes(e.addrPorts);
    KeySlices(e, b);
    NumberSlices(e, b);
    assert b[124..] == tail;
    FromSlices(b, e, tail);
  }

  lemma EndpointRoundTripIff(e: RelayEndpoint)
    ensures DecodeEndpoint(EndpointBytes(e)) == Ok(e) <==> e.addrPorts != [] && AllPlain(e.addrPorts)
    ensures e.addrPorts == [] ==> DecodeEndpoint(EndpointBytes(e)) == Err(ErrShort)
  {
    if e.addrPorts != [] {
      AddrPortsRoundTripIff(e.addrPorts);
      EndpointDecodes(e);
    }
  }

  lemma PingRoundTrip(tx: TxID, k: Key32, padding: nat)
    ensures ParsePing(Body(Ping(tx, k, padding))) ==
            Ok(Ping(tx, k, if k == ZeroKey && padding >= 32 then padding - 32 else padding))
  {
    var b := Body(Ping(tx, k, padding));
    assert b[..12] == tx;
    if k != ZeroKey {
      assert b[12..44] == k;
    } else if padding >= 32 {
      assert b[12..44] == ZeroKey;
    }
  }

  // Padding behind a zero key is read as the key.
  lemma PaddedPingLoses(tx: TxID, padding: nat)
    requires padding >= 32
    ensures ParseMessage(Marshal(Ping(tx, ZeroKey, padding))) == Ok(Ping(tx, ZeroKey, padding - 32))
  {
    var m := Ping(tx, ZeroKey, padding);
    var p := Marshal(m);
    assert p[2..] == Body(m) && p[0] == TypePing;
    PingRoundTrip(tx, ZeroKey, padding);
  }

  // A relay endpoint without addresses is refused.
  lemma EmptyEndpointRefused(e: RelayEndpoint)
    requires e.addrPorts == []
    ensures ParseMessage(Marshal(CallMeMaybeVia(e))).Err?
  {
    var p := Marshal(CallMeMaybeVia(e));
    assert p[2..] == Body(CallMeMaybeVia(e));
  }

  lemma PongRoundTripIff(tx: TxID, src: AddrPort)
    ensures ParsePong(Body(Pong(tx, src))) == Ok(Pong(tx, src)) <==> Plain(src.addr)
  {
    AddrPortRoundTripIff(src);
    var b := Body(Pong(tx, src));
    assert b[..12] == tx && b[12..30] == EncodeAddrPort(src);
  }

  lemma AllocateRequestRoundTrip(d0: Key32, d1: Key32, generation: uint32)
    ensures ParseAllocateRequest(0, AllocateRequestBytes(d0, d1, generation)) == Ok(AllocateRequest(d0, d1, generation))
  {
    Widths();
    UnBeBe(generation, 4);
    var b := AllocateRequestBytes(d0, d1, generation);
    assert b[..32] == d0 && b[32..64] == d1 && b[64..68] == Be(generation, 4);
  }

  lemma AllocateResponseRoundTripIff(generation: uint32, e: RelayEndpoint)
    ensures ParseAllocateResponse(0, Be(generation, 4) + EndpointBytes(e)) == Ok(AllocateResponse(generation, e))
            <==> e.addrPorts != [] && AllPlain(e.addrPorts)
  {
    Widths();
    UnBeBe(generation, 4);
    var b := Be(generation, 4) + EndpointBytes(e);
    assert b[..4] == Be(generation, 4) && b[4..] == EndpointBytes(e);
    EndpointRoundTripIff(e);
  }

  lemma DirectRoundTripIff(m: Message)
    requires m.Ping? || m.Pong? || m.CallMeMaybe?
    ensures ParseBody(TypeOf(m), 0, Body(m)) == Ok(m) <==> Survives(m)
  {
    match m {
      case Ping(tx, k, padding) => PingRoundTrip(tx, k, padding);
      case Pong(tx, src) => PongRoundTripIff(tx, src);
      case CallMeMaybe(aps) => AddrPortsRoundTripIff(aps);
    }
  }

  lemma BindRoundTripIff(m: Message)
    requires m.BindUDPRelayEndpoint? || m.BindUDPRelayEndpointChallenge? || m.BindUDPRelayEndpointAnswer?
    ensures ParseBody(TypeOf(m), 0, Body(m)) == Ok(m) && Survives(m)
  {
    CommonRoundTrip(m.common);
  }

  lemma RelayRoundTripIff(m: Message)
    requires m.CallMeMaybeVia? || m.AllocateRequest? || m.AllocateResponse?
    ensures ParseBody(TypeOf(m), 0, Body(m)) == Ok(m) <==> Survives(m)
  {
    if m.CallMeMaybeVia? {
      EndpointRoundTripIff(m.endpoint);
    } else if m.AllocateRequest? {
      AllocateRequestRoundTrip(m.disco0, m.disco1, m.generation);
    } else {
      AllocateResponseRoundTripIff(m.generation, m.endpoint);
    }
  }

  // Every message comes back as it was exactly when it survives.
  lemma RoundTripIff(m: Message)
    ensures ParseMessage(Marshal(m)) == Ok(m) <==> Survives(m)
  {
    assert Marshal(m)[2..] == Body(m);
    if m.Ping? || m.Pong? || m.CallMeMaybe? {
      DirectRoundTripIff(m);
    } else if m.BindUDPRelayEndpoint? || m.BindUDPRelayEndpointChallenge? || m.BindUDPRelayEndpointAnswer? {
      BindRoundTripIff(m);
    } else {
      RelayRoundTripIff(m);
    }
  }

  // Messages that survive are told apart by their encoding.
  lemma MarshalInjective(m: Message, m': Message)
    requires Survives(m) && Survives(m') && Marshal(m) == Marshal(m')
    ensures m == m'
  {
    RoundTripIff(m);
    RoundTripIff(m');
  }

  lemma {:induction false} DecodedPlain(b: bytes)
    requires |b| % EpLength == 0
    ensures AllPlain(DecodeAddrPorts(b))
  {
    if b != [] {
      DecodedPlain(b[EpLength..]);
    }
  }

  // What a packet must satisfy for its decoded message to survive: no unknown
  // version where that yields an empty endpoint, no zero key before 32 or more
  // bytes of padding.
  predicate Stable(p: bytes)
    requires |p| >= 2
  {
    && (p[0] == TypeCallMeMaybeVia || p[0] == TypeAllocateResponse ==> p[1] == 0)
    && (p[0] == TypePing && |p| >= 78 ==> p[14..46] != ZeroKey)
  }

  lemma DecodedEndpoint(b: bytes)
    requires DecodeEndpoint(b).Ok?
    ensures |DecodeEndpoint(b).value.addrPorts| == (|b| - EndpointFixedLen) / EpLength >= 1
    ensures AllPlain(DecodeEndpoint(b).value.addrPorts)
  {
    DecodedPlain(b[124..]);
  }

  lemma DecodedSurvivesIff(p: bytes)
    requires ParseMessage(p).Ok?
    ensures Survives(ParseMessage(p).value) <==> Stable(p)
  {
    var b := p[2..];
    if p[0] == TypePing && |b| >= 44 {
      assert b[12..44] == p[14..46];
    } else if p[0] == TypeCallMeMaybe && |b| % EpLength == 0 {
      DecodedPlain(b);
    } else if p[0] == TypeCallMeMaybeVia && p[1] == 0 {
      DecodedEndpoint(b);
    } else if p[0] == TypeAllocateResponse && p[1] == 0 {
      DecodedEndpoint(b[4..]);
    }
  }

  // Decoding, encoding and decoding again gives the same message exactly for
  // the stable packets, whatever sent them.
  lemma ReparseIff(p: bytes)
    requires ParseMessage(p).Ok?
    ensures ParseMessage(Marshal(ParseMessage(p).value)) == ParseMessage(p) <==> Stable(p)
  {
    RoundTripIff(ParseMessage(p).value);
    DecodedSurvivesIff(p);
  }

  // ---- Encoding in place ----

  // Copies x to the cursor and returns the cursor after it.  Ahead of the
  // cursor the buffer is still zero.
  method Fill(a: array<byte>, at: nat, x: bytes) returns (next: nat)
    requires at + |x| <= a.Length && a[at..] == Zeros(a.Length - at)
    modifies a
    ensures next == at + |x|
    ensures a[..next] == old(a[..at]) + x && a[next..] == Zeros(a.Length - next)
  {
    next := at + |x|;
    ghost var was := a[..];
    assert forall k :: at <= k < a.Length ==> was[k] == a[at..][k - at] == 0;
    for i := 0 to |x|
      invariant forall k :: 0 <= k < at ==> a[k] == was[k]
      invariant forall k :: 0 <= k < i ==> a[at + k] == x[k]
      invariant forall k :: at + i <= k < a.Length ==> a[k] == 0
    {
      a[at + i] := x[i];
    }
    assert a[..next] == was[..at] + x;
  }

  method AppendMsgHeader(b: bytes, t: byte, ver: byte, dataLen: nat) returns (all: array<byte>)
    ensures fresh(all) && all.Length == |b| + 2 + dataLen
    ensures all[..|b| + 2] == b + [t, ver] && all[|b| + 2..] == Zeros(dataLen)
  {
    all := new byte[|b| + 2 + dataLen](_ => 0);
    assert all[0..] == Zeros(all.Length);
    var at := Fill(all, 0, b);
    at := Fill(all, at, [t]);
    at := Fill(all, at, [ver]);
    assert b + [t] + [ver] == b + [t, ver];
  }

  method FillAddrPort(a: array<byte>, at: nat, ap: AddrPort) returns (next: nat)
    requires at + EpLength <= a.Length && a[at..] == Zeros(a.Length - at)
    modifies a
    ensures next == at + EpLength
    ensures a[..next] == old(a[..at]) + EncodeAddrPort(ap) && a[next..] == Zeros(a.Length - next)
  {
    next := Fill(a, at, As16(ap.addr));
    next := Fill(a, next, Be(ap.port, 2));
    assert old(a[..at]) + As16(ap.addr) + Be(ap.port, 2) == old(a[..at]) + EncodeAddrPort(ap);
  }

  // One more address at the end adds its bytes at the end.
  lemma {:induction false} AddrPortsSnoc(aps: seq<AddrPort>, ap: AddrPort)
    ensures AddrPortsBytes(aps + [ap]) == AddrPortsBytes(aps) + EncodeAddrPort(ap)
  {
    if aps == [] {
      assert aps + [ap] == [ap];
    } else {
      AddrPortsSnoc(aps[1..], ap);
      assert (aps + [ap])[1..] == aps[1..] + [ap];
    }
  }

  method FillAddrPorts(a: array<byte>, at: nat, aps: seq<AddrPort>) returns (next: nat)
    requires at + EpLength * |aps| <= a.Length && a[at..] == Zeros(a.Length - at)
    modifies a
    ensures next == at + EpLength * |aps|
    ensures a[..next] == old(a[..at]) + AddrPortsBytes(aps) && a[next..] == Zeros(a.Length - next)
  {
    next := at;
    ghost var before := a[..at];
    for i := 0 to |aps|
      invariant next == at + EpLength * i
      invariant a[..next] == before + AddrPortsBytes(aps[..i]) && a[next..] == Zeros(a.Length - next)
    {
      ghost var done := AddrPortsBytes(aps[..i]);
      next := FillAddrPort(a, next, aps[i]);
      AddrPortsSnoc(aps[..i], aps[i]);
      assert aps[..i + 1] == aps[..i] + [aps[i]];
      assert before + done + EncodeAddrPort(aps[i]) == before + (done + EncodeAddrPort(aps[i]));
    }
    assert aps[..|aps|] == aps;
  }

  method FillCommon(a: array<byte>, at: nat, c: BindCommon) returns (next: nat)
    requires at + BindCommonLen <= a.Length && a[at..] == Zeros(a.Length - at)
    modifies a
    ensures next == at + BindCommonLen
    ensures a[..next] == old(a[..at]) + CommonBytes(c) && a[next..] == Zeros(a.Length - next)
  {
    next := Fill(a, at, Be(c.vni, 4));
    next := Fill(a, next, Be(c.generation, 4));
    next := Fill(a, next, c.remoteKey);
    next := Fill(a, next, c.challenge);
    assert old(a[..at]) + Be(c.vni, 4) + Be(c.generation, 4) + c.remoteKey + c.challenge == old(a[..at]) + CommonBytes(c);
  }

  method FillEndpointKeys(a: array<byte>, at: nat, e: RelayEndpoint) returns (next: nat)
    requires at + 96 <= a.Length && a[at..] == Zeros(a.Length - at)
    modifies a
    ensures next == at + 96
    ensures a[..next] == old(a[..at]) + EndpointKeys(e) && a[next..] == Zeros(a.Length - next)
  {
    next := Fill(a, at, e.serverDisco);
    next := Fill(a, next, e.client0);
    next := Fill(a, next, e.client1);
    assert old(a[..at]) + e.serverDisco + e.client0 + e.client1 == old(a[..at]) + EndpointKeys(e);
  }

  method FillEndpointNumbers(a: array<byte>, at: nat, e: RelayEndpoint) returns (next: nat)
    requires at + 28 <= a.Length && a[at..] == Zeros(a.Length - at)
    modifies a
    ensures next == at + 28
    ensures a[..next] == old(a[..at]) + EndpointNumbers(e) && a[next..] == Zeros(a.Length - next)
  {
    var x0, x1, x2, x3 := Be(e.lamportID, 8), Be(e.vni, 4), Be(ToU64(e.bindLifetime), 8), Be(ToU64(e.steadyStateLifetime), 8);
    next := Fill(a, at, x0);
    next := Fill(a, next, x1);
    next := Fill(a, next, x2);
    next := Fill(a, next, x3);
    assert old(a[..at]) + x0 + x1 + x2 + x3 == old(a[..at]) + EndpointNumbers(e);
  }

  method FillEndpoint(a: array<byte>, at: nat, e: RelayEndpoint) returns (next: nat)
    requires at + EndpointFixedLen + EpLength * |e.addrPorts| <= a.Length && a[at..] == Zeros(a.Length - at)
    modifies a
    ensures next == at + |EndpointBytes(e)|
    ensures a[..next] == old(a[..at]) + EndpointBytes(e) && a[next..] == Zeros(a.Length - next)
  {
    next := FillEndpointKeys(a, at, e);
    next := FillEndpointNumbers(a, next, e);
    next := FillAddrPorts(a, next, e.addrPorts);
    assert old(a[..at]) + EndpointKeys(e) + EndpointNumbers(e) + AddrPortsBytes(e.addrPorts) == old(a[..at]) + EndpointBytes(e);
  }

  lemma Assembled(m: Message, b: bytes, ret: bytes)
    requires ret == b + [TypeOf(m), 0] + Body(m)
    ensures ret == b + Marshal(m)
  {
  }

  // AppendMarshal, message type by message type: the buffer is sized first and
  // filled left to right; it ends up holding the layout, with nothing left over.
  method AppendPing(tx: TxID, k: Key32, padding: nat, b: bytes) returns (ret: bytes)
    ensures ret == b + Marshal(Ping(tx, k, padding))
  {
    var dataLen := if k == ZeroKey then 12 else 44;
    var all := AppendMsgHeader(b, TypePing, 0, dataLen + padding);
    var at := Fill(all, |b| + 2, tx);
    if k != ZeroKey {
      at := Fill(all, at, k);
    }
    assert all[..] == all[..at] + all[at..];
    ret := all[..];
    Assembled(Ping(tx, k, padding), b, ret);
  }

  method AppendPong(tx: TxID, src: AddrPort, b: bytes) returns (ret: bytes)
    ensures ret == b + Marshal(Pong(tx, src))
  {
    var all := AppendMsgHeader(b, TypePong, 0, PongLen);
    var at := Fill(all, |b| + 2, tx);
    at := FillAddrPort(all, at, src);
    assert all[..] == all[..at];
    ret := all[..];
    Assembled(Pong(tx, src), b, ret);
  }

  method AppendCallMeMaybe(aps: seq<AddrPort>, b: bytes) returns (ret: bytes)
    ensures ret == b + Marshal(CallMeMaybe(aps))
  {
    var all := AppendMsgHeader(b, TypeCallMeMaybe, 0, EpLength * |aps|);
    var at := FillAddrPorts(all, |b| + 2, aps);
    assert all[..] == all[..at];
    ret := all[..];
    Assembled(CallMeMaybe(aps), b, ret);
  }

  method AppendBind(t: byte, c: BindCommon, b: bytes) returns (ret: bytes)
    ensures ret == b + [t, 0] + CommonBytes(c)
  {
    var all := AppendMsgHeader(b, t, 0, BindCommonLen);
    var at := FillCommon(all, |b| + 2, c);
    assert all[..] == all[..at];
    ret := all[..];
  }

  method AppendVia(e: RelayEndpoint, b: bytes) returns (ret: bytes)
    ensures ret == b + Marshal(CallMeMaybeVia(e))
  {
    var all := AppendMsgHeader(b, TypeCallMeMaybeVia, 0, EndpointFixedLen + EpLength * |e.addrPorts|);
    var at := FillEndpoint(all, |b| + 2, e);
    assert all[..] == all[..at];
    ret := all[..];
    Assembled(CallMeMaybeVia(e), b, ret);
  }

  method AppendAllocateRequest(d0: Key32, d1: Key32, generation: uint32, b: bytes) returns (ret: bytes)
    ensures ret == b + Marshal(AllocateRequest(d0, d1, generation))
  {
    var all := AppendMsgHeader(b, TypeAllocateRequest, 0, AllocateRequestLen);
    var at := Fill(all, |b| + 2, d0);
    at := Fill(all, at, d1);
    at := Fill(all, at, Be(generation, 4));
    assert all[..] == all[..at];
    ret := all[..];
    Assembled(AllocateRequest(d0, d1, generation), b, ret);
  }

  method AppendAllocateResponse(generation: uint32, e: RelayEndpoint, b: bytes) returns (ret: bytes)
    ensures ret == b + Marshal(AllocateResponse(generation, e))
  {
    var all := AppendMsgHeader(b, TypeAllocateResponse, 0, 4 + EndpointFixedLen + EpLength * |e.addrPorts|);
    var at := Fill(all, |b| + 2, Be(generation, 4));
    at := FillEndpoint(all, at, e);
    assert all[..] == all[..at];
    ret := all[..];
    Assembled(AllocateResponse(generation, e), b, ret);
  }

  method AppendMarshal(m: Message, b: bytes) returns (ret: bytes)
    ensures ret == b + Marshal(m)
  {
    match m {
      case Ping(tx, k, padding) => ret := AppendPing(tx, k, padding, b);
      case Pong(tx, src) => ret := AppendPong(tx, src, b);
      case CallMeMaybe(aps) => ret := AppendCallMeMaybe(aps, b);
      case CallMeMaybeVia(e) => ret := AppendVia(e, b);
      case AllocateRequest(d0, d1, generation) => ret := AppendAllocateRequest(d0, d1, generation, b);
      case AllocateResponse(generation, e) => ret := AppendAllocateResponse(generation, e, b);
      case _ =>
        ret := AppendBind(TypeOf(m), m.common, b);
        assert ret == b + ([TypeOf(m), 0] + CommonBytes(m.common));
    }
  }

  // ---- Decoding by a cursor ----

  method TakeAddrPorts(b: bytes) returns (aps: seq<AddrPort>)
    requires |b| % EpLength == 0
    ensures aps == DecodeAddrPorts(b)
  {
    aps := [];
    var p := b;
    while |p| > 0
      invariant |p| % EpLength == 0
      invariant aps + DecodeAddrPorts(p) == DecodeAddrPorts(b)
    {
      assert DecodeAddrPorts(p) == [DecodeAddrPort(p[..EpLength])] + DecodeAddrPorts(p[EpLength..]);
      Widths();
      var ap := AddrPort(FromWire(p[..16]), UnBe(p[16..18]));
      assert p[..EpLength][..16] == p[..16] && p[..EpLength][16..18] == p[16..18];
      assert aps + ([ap] + DecodeAddrPorts(p[EpLength..])) == aps + [ap] + DecodeAddrPorts(p[EpLength..]);
      aps := aps + [ap];
      p := p[EpLength..];
    }
  }

  method TakeEndpoint(b: bytes) returns (r: Result<RelayEndpoint, ParseError>)
    ensures r == DecodeEndpoint(b)
  {
    if |b| < EndpointFixedLen + EpLength || (|b| - EndpointFixedLen) % EpLength != 0 {
      return Err(ErrShort);
    }
    Widths();
    var serverDisco, p := b[..32], b[32..];
    assert p == b[32..];
    var client0 := p[..32];
    p := p[32..];
    assert client0 == b[32..64] && p == b[64..];
    var client1 := p[..32];
    p := p[32..];
    assert client1 == b[64..96] && p == b[96..];
    var lamportID := UnBe(p[..8]);
    assert p[..8] == b[96..104];
    p := p[8..];
    assert p == b[104..];
    var vni := UnBe(p[..4]);
    assert p[..4] == b[104..108];
    p := p[4..];
    assert p == b[108..];
    var bindLifetime := FromU64(UnBe(p[..8]));
    assert p[..8] == b[108..116];
    p := p[8..];
    assert p == b[116..];
    var steadyStateLifetime := FromU64(UnBe(p[..8]));
    assert p[..8] == b[116..124];
    p := p[8..];
    assert p == b[124..];
    // The capacity the list is made with is never negative.
    assert |p| - EndpointFixedLen / EpLength >= 0;
    var aps := TakeAddrPorts(p);
    r := Ok(RelayEndpoint(serverDisco, client0, client1, lamportID, vni, bindLifetime, steadyStateLifetime, aps));
  }
}
