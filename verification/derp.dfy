// DERP framing: the length-prefixed frames a relay client writes and reads
// (derp/derp.go, derp/derp_client.go).
module Derp {
  import opened Common
  import opened Wire

  const FrameHeaderLen := 5
  const KeyLen := 32
  const NonceLen := 24
  const MaxInfoLen := 0x10_0000
  const MaxPacketSize := 0x1_0000
  const MaxRecvFrame := 0x10_0000
  const MaxWriteFrame := 10 * 0x10_0000

  const FrameServerInfo: byte := 0x03
  const FrameSendPacket: byte := 0x04
  const FrameRecvPacket: byte := 0x05
  const FrameKeepAlive: byte := 0x06
  const FrameNotePreferred: byte := 0x07
  const FramePeerGone: byte := 0x08
  const FramePeerPresent: byte := 0x09
  const FrameForwardPacket: byte := 0x0a
  const FrameWatchConns: byte := 0x10
  const FrameClosePeer: byte := 0x11
  const FramePing: byte := 0x12
  const FramePong: byte := 0x13
  const FrameHealth: byte := 0x14
  const FrameRestarting: byte := 0x15

  type Key = k: bytes | |k| == 32 witness seq(32, i => 0)
  type Bytes8 = b: bytes | |b| == 8 witness seq(8, i => 0)

  // ---- Frames ----

  datatype Frame = Frame(typ: byte, payload: bytes)

  function Header(t: byte, n: nat): (h: bytes)
    ensures |h| == FrameHeaderLen
  {
    [t] + Be(n, 4)
  }

  function Encode(f: Frame): bytes { Header(f.typ, |f.payload|) + f.payload }

  function EncodeAll(fs: seq<Frame>): bytes {
    if fs == [] then [] else Encode(fs[0]) + EncodeAll(fs[1..])
  }

  // The frame at the front of a stream, when it is complete.
  function Cut(s: bytes): Option<(Frame, bytes)> {
    if |s| < FrameHeaderLen then None
    else
      var n := UnBe(s[1..5]);
      if |s| < FrameHeaderLen + n then None
      else Some((Frame(s[0], s[FrameHeaderLen..FrameHeaderLen + n]), s[FrameHeaderLen + n..]))
  }

  // All frames of a stream; None when it does not end at a frame boundary.
  function ParseAll(s: bytes): Option<seq<Frame>>
    decreases |s|
  {
    if s == [] then Some([])
    else match Cut(s)
      case None => None
      case Some((f, rest)) =>
        match ParseAll(rest)
        case None => None
        case Some(fs) => Some([f] + fs)
  }

  ghost predicate Fits(f: Frame) { |f.payload| < 0x1_0000_0000 }

  lemma CutEncode(f: Frame, rest: bytes)
    requires Fits(f)
    ensures Cut(Encode(f) + rest) == Some((f, rest))
  {
    Widths();
    UnBeBe(|f.payload|, 4);
    var s := Encode(f) + rest;
    assert s[1..5] == Be(|f.payload|, 4);
    assert s[5..5 + |f.payload|] == f.payload && s[5 + |f.payload|..] == rest;
  }

  // What the writer writes parses back to exactly the frames written.
  lemma {:induction false} ParseEncodeAll(fs: seq<Frame>)
    requires forall i :: 0 <= i < |fs| ==> Fits(fs[i])
    ensures ParseAll(EncodeAll(fs)) == Some(fs)
  {
    if fs != [] {
      CutEncode(fs[0], EncodeAll(fs[1..]));
      ParseEncodeAll(fs[1..]);
      assert [fs[0]] + fs[1..] == fs;
    }
  }

  lemma {:induction false} EncodeAllAppend(fs: seq<Frame>, f: Frame)
    ensures EncodeAll(fs + [f]) == EncodeAll(fs) + Encode(f)
  {
    if fs == [] {
      assert [f][1..] == [] && fs + [f] == [f];
    } else {
      assert (fs + [f])[1..] == fs[1..] + [f];
      EncodeAllAppend(fs[1..], f);
    }
  }

  // ---- The buffered writer ----

  class Writer {
    var sent: bytes    // passed on to the connection
    var buf: bytes     // still buffered
    const size: nat

    ghost predicate Valid()
      reads this
    {
      size > 0 && |buf| <= size
    }

    ghost function Output(): bytes
      reads this
    {
      sent + buf
    }

    function Available(): int
      reads this
    {
      size - |buf|
    }

    constructor (size: nat)
      requires size > 0
      ensures Valid() && Output() == [] && buf == []
    {
      this.size := size;
      sent, buf := [], [];
    }

    method Flush()
      requires Valid()
      modifies this
      ensures Valid() && buf == [] && Output() == old(Output())
    {
      sent, buf := sent + buf, [];
    }

    method WriteByte(b: byte)
      requires Valid()
      modifies this
      ensures Valid() && Output() == old(Output()) + [b]
    {
      if Available() <= 0 {
        Flush();
      }
      buf := buf + [b];
    }

    // What does not fit goes through the buffer in pieces, or past it when it is empty.
    method Write(p: bytes)
      requires Valid()
      modifies this
      ensures Valid() && Output() == old(Output()) + p
    {
      var rest := p;
      ghost var before := Output();
      while |rest| > Available()
        invariant Valid() && Output() + rest == before + p
        decreases |rest|, |buf|
      {
        if |buf| == 0 {
          sent := sent + rest;
          assert Output() == before + p;
          rest := [];
        } else {
          var n := Available();
          assert rest == rest[..n] + rest[n..];
          buf := buf + rest[..n];
          rest := rest[n..];
          Flush();
        }
      }
      buf := buf + rest;
    }

    // writeUint32: one byte at a time.
    method WriteUint32(v: nat)
      requires Valid()
      modifies this
      ensures Valid() && Output() == old(Output()) + Be(v, 4)
    {
      var b := Be(v, 4);
      for i := 0 to 4
        invariant Valid() && Output() == old(Output()) + b[..i]
      {
        WriteByte(b[i]);
      }
    }

    // WriteFrameHeader: straight into the buffer when there is room, else byte
    // by byte.  Both ways the same five bytes come out.
    method WriteFrameHeader(t: byte, frameLen: nat)
      requires Valid()
      modifies this
      ensures Valid() && Output() == old(Output()) + Header(t, frameLen)
    {
      if Available() >= FrameHeaderLen {
        Write([t] + Be(frameLen, 4));
      } else {
        WriteByte(t);
        WriteUint32(frameLen);
        assert Header(t, frameLen) == [t] + Be(frameLen, 4);
      }
    }

    method WriteFrame(t: byte, b: bytes) returns (ok: bool)
      requires Valid()
      modifies this
      ensures Valid() && (ok <==> |b| <= MaxWriteFrame)
      ensures ok ==> buf == [] && Output() == old(Output()) + Encode(Frame(t, b))
      ensures !ok ==> Output() == old(Output())
    {
      if |b| > MaxWriteFrame {
        return false;
      }
      WriteFrameHeader(t, |b|);
      Write(b);
      Flush();
      ok := true;
    }
  }

  // A frame written piece by piece.
  lemma InPieces(before: bytes, t: byte, src: Key, dst: Key, pkt: bytes)
    ensures before + Header(t, KeyLen * 2 + |pkt|) + src + dst + pkt == before + Encode(Frame(t, src + dst + pkt))
  {
    var h := Header(t, KeyLen * 2 + |pkt|);
    ConcatAssoc(before, h, src);
    ConcatAssoc(before, h + src, dst);
    ConcatAssoc(before, h + src + dst, pkt);
    ConcatAssoc(h, src, dst);
    ConcatAssoc(h, src + dst, pkt);
  }

  // ---- The sending half of the client ----

  class Sender {
    const bw: Writer
    ghost var frames: seq<Frame>

    // Everything written so far is exactly the frames sent, all of them passed on.
    ghost predicate Valid()
      reads this, bw
    {
      && bw.Valid() && bw.buf == [] && bw.sent == EncodeAll(frames)
      && forall i :: 0 <= i < |frames| ==> Fits(frames[i])
    }

    constructor (size: nat)
      requires size > 0
      ensures Valid() && frames == [] && fresh(bw)
    {
      bw := new Writer(size);
      frames := [];
    }

    // Flush at the end of a frame.
    method Finish(ghost f: Frame)
      requires bw.Valid() && Fits(f) && bw.Output() == EncodeAll(frames) + Encode(f)
      requires forall i :: 0 <= i < |frames| ==> Fits(frames[i])
      modifies this, bw
      ensures Valid() && frames == old(frames) + [f]
    {
      bw.Flush();
      assert bw.sent + [] == bw.sent;
      EncodeAllAppend(frames, f);
      frames := frames + [f];
    }

    // send: too large a packet is an error, a packet over the rate is dropped,
    // and neither writes anything.
    method Send(dst: Key, pkt: bytes, allowed: bool) returns (ok: bool)
      requires Valid()
      modifies this, bw
      ensures Valid() && (ok <==> |pkt| <= MaxPacketSize)
      ensures frames == old(frames) + if ok && allowed then [Frame(FrameSendPacket, dst + pkt)] else []
    {
      if |pkt| > MaxPacketSize {
        return false;
      }
      if !allowed {
        return true;
      }
      bw.WriteFrameHeader(FrameSendPacket, KeyLen + |pkt|);
      bw.Write(dst);
      bw.Write(pkt);
      assert bw.Output() == EncodeAll(frames) + Encode(Frame(FrameSendPacket, dst + pkt));
      Finish(Frame(FrameSendPacket, dst + pkt));
      ok := true;
    }

    method ForwardPacket(src: Key, dst: Key, pkt: bytes) returns (ok: bool)
      requires Valid()
      modifies this, bw
      ensures Valid() && (ok <==> |pkt| <= MaxPacketSize)
      ensures frames == old(frames) + if ok then [Frame(FrameForwardPacket, src + dst + pkt)] else []
    {
      if |pkt| > MaxPacketSize {
        return false;
      }
      bw.WriteFrameHeader(FrameForwardPacket, KeyLen * 2 + |pkt|);
      bw.Write(src);
      bw.Write(dst);
      bw.Write(pkt);
      InPieces(EncodeAll(frames), FrameForwardPacket, src, dst, pkt);
      Finish(Frame(FrameForwardPacket, src + dst + pkt));
      ok := true;
    }

    method SendPingOrPong(ping: bool, data: Bytes8)
      requires Valid()
      modifies this, bw
      ensures Valid() && frames == old(frames) + [Frame(if ping then FramePing else FramePong, data)]
    {
      var typ := if ping then FramePing else FramePong;
      bw.WriteFrameHeader(typ, 8);
      bw.Write(data);
      assert bw.Output() == EncodeAll(frames) + Encode(Frame(typ, data));
      Finish(Frame(typ, data));
    }

    method NotePreferred(preferred: bool)
      requires Valid()
      modifies this, bw
      ensures Valid() && frames == old(frames) + [Frame(FrameNotePreferred, [if preferred then 1 else 0])]
    {
      bw.WriteFrameHeader(FrameNotePreferred, 1);
      var b: byte := if preferred then 1 else 0;
      bw.WriteByte(b);
      assert bw.Output() == EncodeAll(frames) + Encode(Frame(FrameNotePreferred, [b]));
      Finish(Frame(FrameNotePreferred, [b]));
    }

    method WatchConnectionChanges()
      requires Valid()
      modifies this, bw
      ensures Valid() && frames == old(frames) + [Frame(FrameWatchConns, [])]
    {
      bw.WriteFrameHeader(FrameWatchConns, 0);
      assert bw.Output() == EncodeAll(frames) + Encode(Frame(FrameWatchConns, []));
      Finish(Frame(FrameWatchConns, []));
    }

    method ClosePeer(target: Key)
      requires Valid()
      modifies this, bw
      ensures Valid() && frames == old(frames) + [Frame(FrameClosePeer, target)]
    {
      var ok := bw.WriteFrame(FrameClosePeer, target);
      assert bw.sent + [] == bw.sent;
      EncodeAllAppend(frames, Frame(FrameClosePeer, target));
      frames := frames + [Frame(FrameClosePeer, target)];
    }
  }

  // ---- The buffered reader ----

  datatype ReadError = EOF | TooLarge | BadServerInfo

  // All that the connection will ever deliver, and how far it was read.
  class Reader {
    const stream: bytes
    const size: nat
    var pos: nat

    ghost predicate Valid()
      reads this
    {
      pos <= |stream| && size >= 16
    }

    ghost function Rest(): bytes
      reads this
      requires Valid()
    {
      stream[pos..]
    }

    constructor (stream: bytes, size: nat)
      requires size >= 16
      ensures Valid() && Rest() == stream && this.size == size
    {
      this.stream, this.size := stream, size;
      pos := 0;
    }

    // The next n bytes, left in place.
    method Peek(n: nat) returns (b: Option<bytes>)
      requires Valid() && n <= size
      ensures b == if n <= |Rest()| then Some(Rest()[..n]) else None
    {
      assert pos + n <= |stream| ==> stream[pos..pos + n] == Rest()[..n];
      b := if pos + n <= |stream| then Some(stream[pos..pos + n]) else None;
    }

    method Discard(n: nat)
      requires Valid() && n <= |Rest()|
      modifies this
      ensures Valid() && Rest() == old(Rest())[n..]
    {
      pos := pos + n;
    }

    // io.ReadFull; at the end of the stream what is left is consumed.
    method ReadFull(n: nat) returns (b: Option<bytes>)
      requires Valid()
      modifies this
      ensures Valid()
      ensures b == if n <= |old(Rest())| then Some(old(Rest())[..n]) else None
      ensures Rest() == if n <= |old(Rest())| then old(Rest())[n..] else []
    {
      if pos + n <= |stream| {
        assert stream[pos..pos + n] == Rest()[..n];
        b := Some(stream[pos..pos + n]);
        pos := pos + n;
      } else {
        b := None;
        pos := |stream|;
      }
    }

    method ReadFrameHeader() returns (h: Option<(byte, nat)>)
      requires Valid()
      modifies this
      ensures Valid()
      ensures h.Some? <==> |old(Rest())| >= FrameHeaderLen
      ensures h.Some? ==> h.value == (old(Rest())[0], UnBe(old(Rest())[1..5])) && Rest() == old(Rest())[FrameHeaderLen..]
      ensures h.None? ==> Rest() == old(Rest())
    {
      var hdr := Peek(FrameHeaderLen);
      if hdr.None? {
        return None;
      }
      assert hdr.value[1..5] == Rest()[1..5];
      h := Some((hdr.value[0], UnBe(hdr.value[1..5])));
      Discard(FrameHeaderLen);
    }

    // readFrame into a buffer of bufLen bytes.  A complete frame within the
    // limit is consumed to its end whatever the buffer; what does not fit is
    // discarded and reported.
    method ReadFrame(maxSize: nat, bufLen: nat) returns (r: Result<(byte, nat, bytes, bool), ReadError>)
      requires Valid()
      modifies this
      ensures Valid()
      ensures r.Ok? <==> Cut(old(Rest())).Some? && |Cut(old(Rest())).value.0.payload| <= maxSize
      ensures r.Ok? ==>
                var (f, rest) := Cut(old(Rest())).value;
                && Rest() == rest && r.value.0 == f.typ && r.value.1 == |f.payload|
                && r.value.2 == f.payload[..Min(|f.payload|, bufLen)]
                && (r.value.3 <==> |f.payload| > bufLen)
    {
      ghost var before := Rest();
      var h := ReadFrameHeader();
      if h.None? {
        return Err(EOF);
      }
      var (t, frameLen) := h.value;
      if frameLen > maxSize {
        return Err(TooLarge);
      }
      var b := ReadFull(Min(frameLen, bufLen));
      if b.None? {
        return Err(EOF);
      }
      var remain := frameLen - |b.value|;
      if remain > 0 {
        var skipped := ReadFull(remain);
        if skipped.None? {
          return Err(EOF);
        }
      }
      r := Ok((t, frameLen, b.value, remain > 0));
    }
  }

  // ---- Messages ----

  datatype Message =
    | ReceivedPacket(source: Key, data: bytes)
    | PeerGone(peer: Key, reason: byte)
    | PeerPresent(key: Key, ipPort: AddrPort, flags: byte)
    | ServerInfo(bytesPerSecond: int, burst: int)
    | Ping(data8: Bytes8)
    | Pong(data8: Bytes8)
    | KeepAlive
    | Health(problem: bytes)
    | Restarting(reconnectInMs: nat, tryForMs: nat)

  datatype Outcome = Drop | Deliver(m: Message) | Reject

  // Opening the box and reading the JSON of a server info frame.
  type Opener = bytes -> Option<(int, int)>

  function ParseServerInfo(open: Opener, b: bytes): Option<(int, int)> {
    if NonceLen <= |b| <= NonceLen + MaxInfoLen then open(b) else None
  }

  // A peer-present frame: a key, then perhaps an address, then perhaps flags.
  function DecodePeerPresent(b: bytes): Outcome {
    if |b| < KeyLen then Drop
    else
      var k: Key := b[..KeyLen];
      var rest := b[KeyLen..];
      if |rest| < EpLength then Deliver(PeerPresent(k, AddrPort(ZeroAddr, 0), 0))
      else
        var ap := DecodeAddrPort(rest[..EpLength]);
        Deliver(PeerPresent(k, ap, if |rest| > EpLength then rest[EpLength] else 0))
  }

  // What a client makes of one frame.
  function Decode(open: Opener, f: Frame): Outcome {
    var b := f.payload;
    if f.typ == FrameServerInfo then
      var si := ParseServerInfo(open, b);
      if si.None? then Reject else Deliver(ServerInfo(si.value.0, si.value.1))
    else if f.typ == FrameKeepAlive then Deliver(KeepAlive)
    else if f.typ == FramePeerGone then
      if |b| < KeyLen then Drop else Deliver(PeerGone(b[..KeyLen], if |b| > KeyLen then b[KeyLen] else 0))
    else if f.typ == FramePeerPresent then DecodePeerPresent(b)
    else if f.typ == FrameRecvPacket then
      if |b| < KeyLen then Drop else Deliver(ReceivedPacket(b[..KeyLen], b[KeyLen..]))
    else if f.typ == FramePing then if |b| < 8 then Drop else Deliver(Ping(b[..8]))
    else if f.typ == FramePong then if |b| < 8 then Drop else Deliver(Pong(b[..8]))
    else if f.typ == FrameHealth then Deliver(Health(b))
    else if f.typ == FrameRestarting then
      if |b| < 8 then Drop else Deliver(Restarting(UnBe(b[..4]), UnBe(b[4..8])))
    else Drop
  }

  // The frame layouts of the protocol, for every message but server info.
  function FrameOf(m: Message): Frame
    requires !m.ServerInfo?
  {
    match m
    case ReceivedPacket(source, data) => Frame(FrameRecvPacket, source + data)
    case PeerGone(peer, reason) => Frame(FramePeerGone, peer + [reason])
    case PeerPresent(key, ap, flags) => Frame(FramePeerPresent, key + EncodeAddrPort(ap) + [flags])
    case Ping(d) => Frame(FramePing, d)
    case Pong(d) => Frame(FramePong, d)
    case KeepAlive => Frame(FrameKeepAlive, [])
    case Health(p) => Frame(FrameHealth, p)
    case Restarting(in_, for_) => Frame(FrameRestarting, Be(in_, 4) + Be(for_, 4))
  }

  // A frame laid out as the protocol says is delivered as the message meant.
  lemma DecodeFrameOf(open: Opener, m: Message)
    requires !m.ServerInfo?
    requires m.PeerPresent? ==> Plain(m.ipPort.addr)
    requires m.Restarting? ==> m.reconnectInMs < 0x1_0000_0000 && m.tryForMs < 0x1_0000_0000
    ensures Decode(open, FrameOf(m)) == Deliver(m)
  {
    match m {
      case PeerPresent(key, ap, flags) =>
        AddrPortRoundTripIff(ap);
        var b := key + EncodeAddrPort(ap) + [flags];
        assert b[..KeyLen] == key && b[KeyLen..] == EncodeAddrPort(ap) + [flags];
        assert b[KeyLen..][..EpLength] == EncodeAddrPort(ap);
      case Restarting(in_, for_) =>
        Widths();
        UnBeBe(in_, 4);
        UnBeBe(for_, 4);
        var b := Be(in_, 4) + Be(for_, 4);
        assert b[..4] == Be(in_, 4) && b[4..8] == Be(for_, 4);
      case ReceivedPacket(source, data) => assert (source + data)[..KeyLen] == source && (source + data)[KeyLen..] == data;
      case PeerGone(peer, reason) => assert (peer + [reason])[..KeyLen] == peer;
      case Ping(d) => assert d[..8] == d;
      case Pong(d) => assert d[..8] == d;
      case _ =>
    }
  }

  // The next message in a stream of bytes, or the error that ends it, and what
  // is left.
  datatype Received = Received(r: Result<Message, ReadError>, rest: bytes)

  function NextMessage(open: Opener, s: bytes): (n: Received)
    ensures n.r.Ok? ==> |n.rest| < |s|
    decreases |s|
  {
    if |s| < FrameHeaderLen then Received(Err(EOF), s)
    else if UnBe(s[1..5]) > MaxRecvFrame then Received(Err(TooLarge), s)
    else match Cut(s)
      case None => Received(Err(EOF), s)
      case Some((f, rest)) =>
        match Decode(open, f)
        case Drop => NextMessage(open, rest)
        case Deliver(m) => Received(Ok(m), rest)
        case Reject => Received(Err(BadServerInfo), rest)
  }

  // The frame at the front, or why there is none to be had.
  function FrameAt(s: bytes): (r: Result<Frame, ReadError>)
    ensures r.Ok? ==> Cut(s).Some? && Cut(s).value.0 == r.value
  {
    if |s| < FrameHeaderLen then Err(EOF)
    else if UnBe(s[1..5]) > MaxRecvFrame then Err(TooLarge)
    else match Cut(s) case None => Err(EOF) case Some((f, _)) => Ok(f)
  }

  lemma NextByFrame(open: Opener, s: bytes)
    ensures FrameAt(s).Err? ==> NextMessage(open, s).r == Err(FrameAt(s).error)
    ensures FrameAt(s).Ok? ==>
              var rest := Cut(s).value.1;
              |rest| < |s| &&
              match Decode(open, FrameAt(s).value)
              case Drop => NextMessage(open, s) == NextMessage(open, rest)
              case Deliver(m) => NextMessage(open, s) == Received(Ok(m), rest)
              case Reject => NextMessage(open, s).r == Err(BadServerInfo)
  {
  }

  // ---- The receiving half of the client ----

  class Receiver {
    const br: Reader
    const open: Opener
    var peeked: nat
    var readErr: Option<ReadError>
    var rate: Option<(int, int)>

    ghost predicate Valid()
      reads this, br
    {
      br.Valid() && (readErr.None? ==> peeked <= |br.Rest()|)
    }

    // What has arrived or will, beyond the message returned last.
    ghost function Pending(): bytes
      reads this, br
      requires Valid() && readErr.None?
    {
      br.Rest()[peeked..]
    }

    constructor (stream: bytes, size: nat, open: Opener)
      requires size >= 16
      ensures Valid() && readErr.None? && Pending() == stream && this.open == open && rate.None? && fresh(br)
    {
      br := new Reader(stream, size);
      this.open := open;
      peeked, readErr, rate := 0, None, None;
    }

    // Drop the bytes peeked for the previous message.
    method DiscardPeeked()
      requires Valid() && readErr.None?
      modifies this`peeked, br
      ensures Valid() && peeked == 0 && br.Rest() == old(Pending())
    {
      if peeked != 0 {
        br.Discard(peeked);
        peeked := 0;
      }
      assert br.Rest()[0..] == br.Rest();
    }

    // The payload of a frame: peeked when it fits the buffer, else copied out.
    method ReadPayload(n: nat) returns (b: Option<bytes>)
      requires Valid() && readErr.None? && peeked == 0
      modifies this`peeked, br
      ensures br.Valid() && (b.Some? ==> Valid())
      ensures b == if n <= |old(br.Rest())| then Some(old(br.Rest())[..n]) else None
      ensures b.Some? ==> Pending() == old(br.Rest())[n..]
    {
      if n <= br.size {
        b := br.Peek(n);
        peeked := n;
      } else {
        b := br.ReadFull(n);
        assert br.Rest()[0..] == br.Rest();
      }
    }

    // The part of a round of recvTimeout that reads: one frame.
    method OneFrame() returns (r: Result<Frame, ReadError>)
      requires Valid() && readErr.None?
      modifies this`peeked, br
      ensures br.Valid() && r == FrameAt(old(Pending()))
      ensures r.Ok? ==> Valid() && Pending() == Cut(old(Pending())).value.1
    {
      DiscardPeeked();
      ghost var s := br.Rest();
      var h := br.ReadFrameHeader();
      if h.None? {
        return Err(EOF);
      }
      var (t, n) := h.value;
      if n > MaxRecvFrame {
        return Err(TooLarge);
      }
      var b := ReadPayload(n);
      CutAt(s, n);
      r := if b.None? then Err(EOF) else Ok(Frame(t, b.value));
    }

    // recvTimeout: the same as reading the next message off the stream,
    // whatever the size of the reader's buffer; the first error is kept and
    // returned ever after.
    method Recv() returns (r: Result<Message, ReadError>)
      requires Valid()
      modifies this`peeked, this`readErr, this`rate, br
      ensures Valid()
      ensures old(readErr).Some? ==> r == Err(old(readErr).value) && readErr == old(readErr) && rate == old(rate)
      ensures old(readErr).None? ==>
                && r == NextMessage(open, old(Pending())).r
                && (r.Ok? ==> readErr.None? && Pending() == NextMessage(open, old(Pending())).rest)
                && (r.Err? ==> readErr == Some(r.error))
      ensures old(readErr).None? && r.Ok? && r.value.ServerInfo? ==>
                rate == if r.value.bytesPerSecond == 0 then None else Some((r.value.bytesPerSecond, r.value.burst))
      ensures !(r.Ok? && r.value.ServerInfo?) ==> rate == old(rate)
    {
      if readErr.Some? {
        return Err(readErr.value);
      }
      ghost var all := Pending();
      while true
        invariant Valid() && readErr.None? && rate == old(rate)
        invariant NextMessage(open, Pending()) == NextMessage(open, all)
        decreases |Pending()|
      {
        NextByFrame(open, Pending());
        var f := OneFrame();
        if f.Err? {
          readErr := Some(f.error);
          return Err(f.error);
        }
        match Decode(open, f.value) {
          case Drop =>
          case Deliver(m) =>
            if m.ServerInfo? {
              rate := if m.bytesPerSecond == 0 then None else Some((m.bytesPerSecond, m.burst));
            }
            return Ok(m);
          case Reject =>
            readErr := Some(BadServerInfo);
            return Err(BadServerInfo);
        }
      }
    }
  }

  lemma CutAt(s: bytes, n: nat)
    requires |s| >= FrameHeaderLen && n == UnBe(s[1..5])
    ensures Cut(s).Some? <==> n <= |s[FrameHeaderLen..]|
    ensures Cut(s).Some? ==> Cut(s).value == (Frame(s[0], s[FrameHeaderLen..][..n]), s[FrameHeaderLen..][n..])
  {
    if n <= |s[FrameHeaderLen..]| {
      assert s[FrameHeaderLen..][..n] == s[FrameHeaderLen..FrameHeaderLen + n];
      assert s[FrameHeaderLen..][n..] == s[FrameHeaderLen + n..];
    }
  }

  // ---- What a sequence of calls returns ----

  // Calling Recv until it fails.
  function RecvAll(open: Opener, s: bytes): (seq<Message>, ReadError)
    decreases |s|
  {
    var n := NextMessage(open, s);
    match n.r
    case Err(e) => ([], e)
    case Ok(m) => var (ms, e) := RecvAll(open, n.rest); ([m] + ms, e)
  }

  // What a list of frames means to a client: the messages of those it does not
  // drop, up to the first it cannot accept.
  function Meaning(open: Opener, fs: seq<Frame>): (seq<Message>, ReadError) {
    if fs == [] then ([], EOF)
    else if |fs[0].payload| > MaxRecvFrame then ([], TooLarge)
    else match Decode(open, fs[0])
      case Drop => Meaning(open, fs[1..])
      case Deliver(m) => var (ms, e) := Meaning(open, fs[1..]); ([m] + ms, e)
      case Reject => ([], BadServerInfo)
  }

  // An incomplete frame at the end of a stream.
  ghost predicate Truncated(s: bytes) {
    |s| < FrameHeaderLen || (UnBe(s[1..5]) <= MaxRecvFrame && |s| < FrameHeaderLen + UnBe(s[1..5]))
  }

  // The frame at the front decides what happens next.
  lemma NextStep(open: Opener, f: Frame, rest: bytes)
    requires Fits(f)
    ensures var n := NextMessage(open, Encode(f) + rest);
            if |f.payload| > MaxRecvFrame then n.r == Err(TooLarge)
            else match Decode(open, f)
              case Drop => n == NextMessage(open, rest)
              case Deliver(m) => n == Received(Ok(m), rest)
              case Reject => n.r == Err(BadServerInfo)
  {
    CutEncode(f, rest);
    HeaderLength(f, rest);
  }

  lemma DeliveredFirst(open: Opener, s: bytes, m: Message, rest: bytes)
    requires NextMessage(open, s) == Received(Ok(m), rest)
    ensures RecvAll(open, s) == ([m] + RecvAll(open, rest).0, RecvAll(open, rest).1)
  {
  }

  lemma FailsFirst(open: Opener, s: bytes, e: ReadError)
    requires NextMessage(open, s).r == Err(e)
    ensures RecvAll(open, s) == ([], e)
  {
  }

  lemma DroppedChangesNothing(open: Opener, s: bytes, rest: bytes)
    requires NextMessage(open, s) == NextMessage(open, rest)
    ensures RecvAll(open, s) == RecvAll(open, rest)
  {
  }

  // The frame at the front decides what repeated calls return.
  lemma RecvAllStep(open: Opener, f: Frame, rest: bytes)
    requires Fits(f)
    ensures RecvAll(open, Encode(f) + rest) ==
            if |f.payload| > MaxRecvFrame then ([], TooLarge)
            else match Decode(open, f)
              case Drop => RecvAll(open, rest)
              case Deliver(m) => ([m] + RecvAll(open, rest).0, RecvAll(open, rest).1)
              case Reject => ([], BadServerInfo)
  {
    var s := Encode(f) + rest;
    NextStep(open, f, rest);
    if |f.payload| > MaxRecvFrame {
      FailsFirst(open, s, TooLarge);
    } else {
      match Decode(open, f)
      case Drop => DroppedChangesNothing(open, s, rest);
      case Deliver(m) => DeliveredFirst(open, s, m, rest);
      case Reject => FailsFirst(open, s, BadServerInfo);
    }
  }

  lemma FirstEncoded(fs: seq<Frame>, tail: bytes)
    requires fs != [] && forall i :: 0 <= i < |fs| ==> Fits(fs[i])
    ensures EncodeAll(fs) + tail == Encode(fs[0]) + (EncodeAll(fs[1..]) + tail)
  {
    ConcatAssoc(Encode(fs[0]), EncodeAll(fs[1..]), tail);
  }

  // Repeated Recv calls on any frames, with or without a piece of another one
  // behind them, return the messages of the frames not dropped, in order.
  lemma {:induction false} RecvAllFrames(open: Opener, fs: seq<Frame>, tail: bytes)
    requires (forall i :: 0 <= i < |fs| ==> Fits(fs[i])) && Truncated(tail)
    ensures RecvAll(open, EncodeAll(fs) + tail) == Meaning(open, fs)
  {
    if fs == [] {
      assert [] + tail == tail;
      FailsFirst(open, tail, EOF);
    } else {
      FirstEncoded(fs, tail);
      RecvAllStep(open, fs[0], EncodeAll(fs[1..]) + tail);
      RecvAllFrames(open, fs[1..], tail);
    }
  }

  lemma HeaderLength(f: Frame, rest: bytes)
    requires Fits(f)
    ensures UnBe((Encode(f) + rest)[1..5]) == |f.payload|
  {
    Widths();
    UnBeBe(|f.payload|, 4);
    assert (Encode(f) + rest)[1..5] == Be(|f.payload|, 4);
  }
}
