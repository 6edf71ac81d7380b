// Port ranges (ipn/serve.go ServicePortRange, tailcfg/proto_port_range.go,
// tailcfg/tailcfg.go PortRange, types/ipproto/ipproto.go): served ports are
// coalesced into ranges, and ranges are printed and parsed.
module Ports {
  import opened Common

  type uint16 = n: int | 0 <= n < 0x1_0000

  datatype PortRange = PortRange(first: uint16, last: uint16)

  datatype ProtoPortRange = ProtoPortRange(proto: int, ports: PortRange)

  const PortRangeAny := PortRange(0, 65535)
  const TCP := 6

  // ---- Coalescing ----

  ghost predicate Increasing(s: seq<uint16>) { forall i, j :: 0 <= i < j < |s| ==> s[i] < s[j] }

  predicate In(p: int, r: ProtoPortRange) { r.ports.first <= p <= r.ports.last }

  ghost predicate Covers(rs: seq<ProtoPortRange>, p: int) { exists r :: r in rs && In(p, r) }

  // Ranges in order, none empty, with a gap between neighbours.
  ghost predicate Canonical(rs: seq<ProtoPortRange>) {
    && (forall r | r in rs :: r.proto == TCP && r.ports.first <= r.ports.last)
    && (forall i, j :: 0 <= i < j < |rs| ==> rs[i].ports.last + 1 < rs[j].ports.first)
  }

  // The elements of a set in order.
  method SortedPorts(ports: set<uint16>) returns (s: seq<uint16>)
    ensures Increasing(s) && forall p :: p in s <==> p in ports
  {
    s := [];
    var rest := ports;
    while rest != {}
      invariant rest <= ports && Increasing(s) && (forall p :: p in s <==> p in ports && p !in rest)
      invariant forall p, q | p in s && q in rest :: p < q
      decreases rest
    {
      var low := Lowest(rest);
      assert forall k :: 0 <= k < |s| ==> s[k] in s;
      s := s + [low];
      rest := rest - {low};
    }
  }

  method Lowest(ports: set<uint16>) returns (low: uint16)
    requires ports != {}
    ensures low in ports && forall p | p in ports :: low <= p
  {
    low :| low in ports;
    var rest := ports - {low};
    while rest != {}
      invariant low in ports && rest <= ports && forall p | p in ports && p !in rest :: low <= p
      decreases rest
    {
      var p :| p in rest;
      rest := rest - {p};
      if p < low {
        low := p;
      }
    }
  }

  // The ranges cover the first i ports and end at the last of them.
  ghost predicate CoalescedTo(ranges: seq<ProtoPortRange>, s: seq<uint16>, i: nat) {
    && i <= |s| && Canonical(ranges) && (forall p :: Covers(ranges, p) <==> p in s[..i])
    && (i > 0 <==> ranges != []) && (i > 0 ==> Last(ranges).ports.last == s[i - 1])
  }

  lemma ExtendKeeps(rs: seq<ProtoPortRange>, s: seq<uint16>, i: nat)
    requires CoalescedTo(rs, s, i) && i < |s| && rs != [] && s[i] == Last(rs).ports.last + 1
    ensures CoalescedTo(rs[|rs| - 1 := Last(rs).(ports := Last(rs).ports.(last := s[i]))], s, i + 1)
  {
    assert s[..i + 1] == s[..i] + [s[i]];
    CoversExtended(rs, rs[|rs| - 1 := Last(rs).(ports := Last(rs).ports.(last := s[i]))], s[i]);
  }

  lemma AppendKeeps(rs: seq<ProtoPortRange>, s: seq<uint16>, i: nat)
    requires CoalescedTo(rs, s, i) && i < |s| && Increasing(s) && (rs != [] ==> s[i] != Last(rs).ports.last + 1)
    ensures CoalescedTo(rs + [ProtoPortRange(TCP, PortRange(s[i], s[i]))], s, i + 1)
  {
    assert s[..i + 1] == s[..i] + [s[i]];
    assert i > 0 ==> s[i - 1] < s[i];
    CoversAppended(rs, s[i]);
  }

  // The ranges of a service outside Tun mode.  The successor of the last port
  // wraps around at 65536.
  method ServicePortRange(tcp: set<uint16>, tun: bool) returns (ranges: seq<ProtoPortRange>)
    ensures tun ==> ranges == [ProtoPortRange(0, PortRangeAny)]
    ensures !tun ==> Canonical(ranges) && forall p :: Covers(ranges, p) <==> p in tcp && p > 0
  {
    if tun {
      return [ProtoPortRange(0, PortRangeAny)];
    }
    var servePorts := set p | p in tcp && p > 0;
    var s := SortedPorts(servePorts);
    ranges := [];
    for i := 0 to |s|
      invariant CoalescedTo(ranges, s, i)
    {
      if |ranges| > 0 && s[i] == (Last(ranges).ports.last + 1) % 0x1_0000 {
        assert s[i] in s;
        ExtendKeeps(ranges, s, i);
        ranges := ranges[|ranges| - 1 := Last(ranges).(ports := Last(ranges).ports.(last := s[i]))];
      } else {
        AppendKeeps(ranges, s, i);
        ranges := ranges + [ProtoPortRange(TCP, PortRange(s[i], s[i]))];
      }
    }
    assert s[..|s|] == s;
  }

  lemma CoversAppended(rs: seq<ProtoPortRange>, p: uint16)
    ensures forall x :: Covers(rs + [ProtoPortRange(TCP, PortRange(p, p))], x) <==> Covers(rs, x) || x == p
  {
    var r := ProtoPortRange(TCP, PortRange(p, p));
    forall x
      ensures Covers(rs + [r], x) <==> Covers(rs, x) || x == p
    {
      if x == p {
        assert (rs + [r])[|rs|] == r && In(x, r);
      }
      if Covers(rs, x) {
        var y :| y in rs && In(x, y);
        assert y in rs + [r];
      }
    }
  }

  lemma CoversExtended(rs: seq<ProtoPortRange>, rs': seq<ProtoPortRange>, p: uint16)
    requires rs != [] && Canonical(rs) && p == Last(rs).ports.last + 1
    requires rs' == rs[|rs| - 1 := Last(rs).(ports := Last(rs).ports.(last := p))]
    ensures Canonical(rs') && forall x :: Covers(rs', x) <==> Covers(rs, x) || x == p
  {
    var n := |rs| - 1;
    assert rs[n] in rs;
    forall x
      ensures Covers(rs', x) <==> Covers(rs, x) || x == p
    {
      if Covers(rs, x) {
        var i :| 0 <= i < |rs| && In(x, rs[i]);
        assert In(x, rs'[i]);
      }
      if x == p {
        assert In(x, rs'[n]);
      }
      if Covers(rs', x) && x != p {
        var i :| 0 <= i < |rs'| && In(x, rs'[i]);
        assert In(x, rs[i]);
      }
    }
  }

  // ---- Canonical lists are determined by what they cover ----

  lemma CoveredFrom(rs: seq<ProtoPortRange>, x: int)
    requires Canonical(rs) && rs != [] && Covers(rs, x)
    ensures x >= rs[0].ports.first && (x > rs[0].ports.last ==> x > rs[0].ports.last + 1 && Covers(rs[1..], x))
    ensures Covers(rs, rs[0].ports.first) && Covers(rs, rs[0].ports.last)
  {
    assert rs[0] in rs && In(rs[0].ports.first, rs[0]) && In(rs[0].ports.last, rs[0]);
    var i :| 0 <= i < |rs| && In(x, rs[i]);
    if i > 0 {
      assert rs[1..][i - 1] == rs[i];
    }
  }

  lemma CoversSomethingIff(rs: seq<ProtoPortRange>)
    requires Canonical(rs)
    ensures (exists x :: Covers(rs, x)) <==> rs != []
  {
    if rs != [] {
      assert rs[0] in rs && In(rs[0].ports.first, rs[0]);
      assert Covers(rs, rs[0].ports.first);
    }
  }

  lemma TailCovers(rs: seq<ProtoPortRange>, x: int)
    requires Canonical(rs) && rs != []
    ensures Canonical(rs[1..])
    ensures Covers(rs[1..], x) <==> Covers(rs, x) && x > rs[0].ports.last
  {
    assert rs[0] in rs;
    if Covers(rs[1..], x) {
      var i :| 0 <= i < |rs| - 1 && In(x, rs[1..][i]);
      assert rs[1..][i] == rs[i + 1] && rs[i + 1] in rs;
    }
    if Covers(rs, x) && x > rs[0].ports.last {
      CoveredFrom(rs, x);
    }
  }

  lemma FirstNotAfter(rs: seq<ProtoPortRange>, rs': seq<ProtoPortRange>)
    requires Canonical(rs) && Canonical(rs') && rs != [] && rs' != []
    requires forall x :: Covers(rs, x) <==> Covers(rs', x)
    ensures rs[0].ports.first <= rs'[0].ports.first
    ensures rs[0].ports.first == rs'[0].ports.first ==> rs[0].ports.last >= rs'[0].ports.last
  {
    var f, l := rs'[0].ports.first, rs[0].ports.last;
    assert rs'[0] in rs' && In(f, rs'[0]) && rs[0] in rs;
    CoveredFrom(rs, f);
    if f == rs[0].ports.first && l < rs'[0].ports.last {
      assert In(l + 1, rs'[0]) && Covers(rs, l + 1);
      CoveredFrom(rs, l + 1);
    }
  }

  lemma {:induction false} CanonicalUnique(rs: seq<ProtoPortRange>, rs': seq<ProtoPortRange>)
    requires Canonical(rs) && Canonical(rs')
    requires forall x :: Covers(rs, x) <==> Covers(rs', x)
    ensures rs == rs'
    decreases |rs|
  {
    if rs == [] || rs' == [] {
      CoversSomethingIff(rs);
      CoversSomethingIff(rs');
    } else {
      FirstNotAfter(rs, rs');
      FirstNotAfter(rs', rs);
      assert rs[0] in rs && rs'[0] in rs';
      forall x
        ensures Covers(rs[1..], x) <==> Covers(rs'[1..], x)
      {
        TailCovers(rs, x);
        TailCovers(rs', x);
      }
      TailCovers(rs, 0);
      TailCovers(rs', 0);
      CanonicalUnique(rs[1..], rs'[1..]);
      assert rs == [rs[0]] + rs[1..] && rs' == [rs'[0]] + rs'[1..];
    }
  }

  // The port after a range is in no range.
  lemma GapAfter(rs: seq<ProtoPortRange>, i: nat)
    requires Canonical(rs) && i < |rs|
    ensures !Covers(rs, rs[i].ports.last + 1)
  {
    forall r | r in rs
      ensures !In(rs[i].ports.last + 1, r)
    {
      var j :| 0 <= j < |rs| && rs[j] == r;
      assert rs[i] in rs;
    }
  }

  // Which range of any covers the first port of each range of rs.
  ghost predicate Picks(rs: seq<ProtoPortRange>, any: seq<ProtoPortRange>, at: seq<nat>) {
    |at| <= |rs| && forall i :: 0 <= i < |at| ==> at[i] < |any| && In(rs[i].ports.first, any[at[i]])
  }

  lemma {:induction false} PicksExist(rs: seq<ProtoPortRange>, any: seq<ProtoPortRange>, n: nat) returns (at: seq<nat>)
    requires Canonical(rs) && (forall x :: Covers(any, x) <==> Covers(rs, x)) && n <= |rs|
    ensures |at| == n && Picks(rs, any, at)
  {
    at := [];
    if n > 0 {
      at := PicksExist(rs, any, n - 1);
      var f := rs[n - 1].ports.first;
      assert rs[n - 1] in rs && In(f, rs[n - 1]);
      assert Covers(rs, f);
      var r :| r in any && In(f, r);
      var k: nat :| k < |any| && any[k] == r;
      at := at + [k];
    }
  }

  // No range reaches from one into another: it would cover the gap.
  lemma PicksDistinct(rs: seq<ProtoPortRange>, any: seq<ProtoPortRange>, at: seq<nat>, i: nat, j: nat)
    requires Canonical(rs) && (forall x :: Covers(any, x) <==> Covers(rs, x)) && Picks(rs, any, at) && i < j < |at|
    ensures at[i] != at[j]
  {
    GapAfter(rs, i);
    var gap := rs[i].ports.last + 1;
    assert rs[i] in rs && rs[i].ports.first < gap < rs[j].ports.first;
    assert any[at[i]] in any;
    assert !In(gap, any[at[i]]);
  }

  lemma {:induction false} DistinctBound(at: seq<nat>, n: nat)
    requires (forall i :: 0 <= i < |at| ==> at[i] < n) && (forall i, j :: 0 <= i < j < |at| ==> at[i] != at[j])
    ensures |at| <= n
  {
    assert at != [] ==> at[0] < n;
    if at != [] {
      if k :| 0 <= k < |at| && at[k] == n - 1 {
        var rest := at[..k] + at[k + 1..];
        forall i | 0 <= i < |rest| ensures rest[i] == at[if i < k then i else i + 1] && rest[i] < n - 1 {}
        DistinctBound(rest, n - 1);
      } else {
        DistinctBound(at, n - 1);
      }
    }
  }

  // No list of ranges with the same ports is shorter.
  lemma CanonicalShortest(rs: seq<ProtoPortRange>, any: seq<ProtoPortRange>)
    requires Canonical(rs) && forall x :: Covers(any, x) <==> Covers(rs, x)
    ensures |rs| <= |any|
  {
    var at := PicksExist(rs, any, |rs|);
    forall i, j | 0 <= i < j < |at| ensures at[i] != at[j] { PicksDistinct(rs, any, at, i, j); }
    DistinctBound(at, |any|);
  }

  // ---- Text ----

  function Digit(n: nat): char
    requires n < 10
  {
    ('0' as int + n) as char
  }

  predicate IsDigit(c: char) { '0' <= c <= '9' }

  function Decimal(n: nat): (s: string)
    ensures s != []
  {
    if n < 10 then [Digit(n)] else Decimal(n / 10) + [Digit(n % 10)]
  }

  predicate AllDigits(s: string) { forall i :: 0 <= i < |s| ==> IsDigit(s[i]) }

  function Value(s: string): nat
    requires AllDigits(s)
  {
    if s == [] then 0 else 10 * Value(s[..|s| - 1]) + (s[|s| - 1] as int - '0' as int)
  }

  // strconv.ParseUint in base 10 with an upper bound.
  function ParseUint(s: string, max: nat): Option<nat> {
    if s == [] || !AllDigits(s) || Value(s) > max then None else Some(Value(s))
  }

  function Lower(s: string): string { seq(|s|, i requires 0 <= i < |s| => LowerChar(s[i])) }

  function LowerChar(c: char): char { if 'A' <= c <= 'Z' then (c as int + 32) as char else c }

  function LastColon(s: string): (r: Option<nat>)
    ensures r.Some? ==> r.value < |s|
  {
    if s == [] then None else if s[|s| - 1] == ':' then Some(|s| - 1) else LastColon(s[..|s| - 1])
  }

  // The first dash.
  function Dash(s: string): (r: Option<nat>)
    ensures r.Some? ==> r.value < |s|
  {
    if s == [] then None
    else if s[0] == '-' then Some(0)
    else match Dash(s[1..]) case None => None case Some(i) => Some(i + 1)
  }

  // ---- Protocol names ----

  function PreferredName(p: nat): Option<string> {
    if p == 51 then Some("ah") else if p == 33 then Some("dccp") else if p == 8 then Some("egp")
    else if p == 50 then Some("esp") else if p == 47 then Some("gre") else if p == 1 then Some("icmp")
    else if p == 2 then Some("igmp") else if p == 9 then Some("igp") else if p == 4 then Some("ipv4")
    else if p == 58 then Some("ipv6-icmp") else if p == 132 then Some("sctp") else if p == TCP then Some("tcp")
    else if p == 17 then Some("udp") else None
  }

  const AcceptedNames: map<string, byte> :=
    map["ah" := 51, "dccp" := 33, "egp" := 8, "esp" := 50, "gre" := 47, "icmp" := 1, "icmpv4" := 1, "icmpv6" := 58,
        "igmp" := 2, "igp" := 9, "ip-in-ip" := 4, "ipv4" := 4, "ipv6-icmp" := 58, "sctp" := 132, "tcp" := TCP,
        "tsmp" := 99, "udp" := 17]

  function ProtoText(p: byte): string { match PreferredName(p) case Some(s) => s case None => Decimal(p) }

  // Proto.UnmarshalText of a non-empty text.
  function ParseProto(s: string): Option<byte> {
    match ParseUint(s, 255)
    case Some(n) => Some(n)
    case None => if Lower(s) in AcceptedNames then Some(AcceptedNames[Lower(s)]) else None
  }

  // ---- Printing and parsing ----

  function PortText(r: PortRange): string {
    if r.first == r.last then Decimal(r.first)
    else if r == PortRangeAny then "*"
    else Decimal(r.first) + "-" + Decimal(r.last)
  }

  // The protocol is cut to eight bits.
  function Print(p: ProtoPortRange): string {
    if p.proto == 0 && p.ports == PortRangeAny then "*"
    else (if p.proto != 0 then ProtoText(p.proto % 256) + ":" else "") + PortText(p.ports)
  }

  function ParsePorts(s: string): Option<PortRange> {
    if s == "*" then Some(PortRangeAny)
    else if s == [] then None
    else
      match Dash(s)
      case None => MakeRange(ParseUint(s, 65535), ParseUint(s, 65535))
      case Some(i) => if '-' in s[i + 1..] then None else MakeRange(ParseUint(s[..i], 65535), ParseUint(s[i + 1..], 65535))
  }

  function MakeRange(first: Option<nat>, last: Option<nat>): Option<PortRange> {
    if first.None? || last.None? || first.value == 0 || first.value > last.value || last.value > 65535 then None
    else Some(PortRange(first.value, last.value))
  }

  function ParseHostPortRange(hostport: string): Option<(string, PortRange)> {
    var s := Lower(hostport);
    match LastColon(s)
    case None => None
    case Some(colon) =>
      if ',' in s[..colon] then None
      else match ParsePorts(s[colon + 1..])
        case None => None
        case Some(r) => Some((s[..colon], r))
  }

  function WithProto(protoStr: string, ports: PortRange): Option<ProtoPortRange> {
    if protoStr == "" then None
    else if protoStr == "*" then Some(ProtoPortRange(0, ports))
    else match ParseProto(protoStr)
      case None => None
      case Some(proto) => Some(ProtoPortRange(proto, ports))
  }

  function ParsePair(s: string): Option<ProtoPortRange> {
    match ParseHostPortRange(s)
    case None => None
    case Some((protoStr, ports)) => WithProto(protoStr, ports)
  }

  function Parse(s: string): Option<ProtoPortRange> {
    if s == "" then None
    else if s == "*" then Some(ProtoPortRange(0, PortRangeAny))
    else ParsePair(if ':' in s then s else "*:" + s)
  }

  // ---- The round trip ----

  predicate PortsPrintable(r: PortRange) { r == PortRangeAny || 0 < r.first <= r.last }

  predicate Printable(p: ProtoPortRange) { 0 <= p.proto < 256 && PortsPrintable(p.ports) }

  lemma PortsParsed(s: string)
    ensures ParsePorts(s).Some? ==> PortsPrintable(ParsePorts(s).value)
  {
  }

  lemma HostPortParsed(s: string)
    ensures ParseHostPortRange(s).Some? ==> PortsPrintable(ParseHostPortRange(s).value.1)
  {
    var t := Lower(s);
    if LastColon(t).Some? {
      PortsParsed(t[LastColon(t).value + 1..]);
    }
  }

  lemma ProtoAdded(protoStr: string, ports: PortRange)
    ensures var r := WithProto(protoStr, ports); r.Some? ==> 0 <= r.value.proto < 256 && r.value.ports == ports
  {
  }

  lemma PairParsed(s: string)
    ensures ParsePair(s).Some? ==> Printable(ParsePair(s).value)
  {
    HostPortParsed(s);
    if ParseHostPortRange(s).Some? {
      ProtoAdded(ParseHostPortRange(s).value.0, ParseHostPortRange(s).value.1);
    }
  }

  // Whatever is accepted is printable.
  lemma ParsedPrintable(s: string)
    requires Parse(s).Some?
    ensures Printable(Parse(s).value)
  {
    PairParsed(if ':' in s then s else "*:" + s);
  }

  lemma {:induction false} DecimalReads(n: nat)
    ensures AllDigits(Decimal(n)) && Value(Decimal(n)) == n
  {
    if n < 10 {
      assert Decimal(n)[..0] == [];
    } else {
      DecimalReads(n / 10);
      assert Decimal(n)[..|Decimal(n)| - 1] == Decimal(n / 10);
    }
  }

  lemma {:induction false} NoDash(s: string)
    requires forall i :: 0 <= i < |s| ==> s[i] != '-'
    ensures Dash(s) == None
  {
    if s != [] {
      NoDash(s[1..]);
    }
  }

  lemma {:induction false} DashAfter(a: string, b: string)
    requires forall i :: 0 <= i < |a| ==> a[i] != '-'
    ensures Dash(a + "-" + b) == Some(|a|)
  {
    if a != [] {
      DashAfter(a[1..], b);
      assert (a + "-" + b)[1..] == a[1..] + "-" + b;
    }
  }

  lemma {:induction false} ColonBefore(a: string, b: string)
    requires forall i :: 0 <= i < |b| ==> b[i] != ':'
    ensures LastColon(a + ":" + b) == Some(|a|)
  {
    var s := a + ":" + b;
    if b != [] {
      ColonBefore(a, b[..|b| - 1]);
      assert s[..|s| - 1] == a + ":" + b[..|b| - 1];
      assert s[|s| - 1] == b[|b| - 1];
    }
  }

  predicate PortChars(s: string) { forall i :: 0 <= i < |s| ==> IsDigit(s[i]) || s[i] == '-' || s[i] == '*' }

  lemma SinglePortReads(n: uint16)
    requires n > 0
    ensures ParsePorts(Decimal(n)) == Some(PortRange(n, n)) && PortChars(Decimal(n))
  {
    DecimalReads(n);
    var a := Decimal(n);
    assert IsDigit(a[0]);
    NoDash(a);
  }

  lemma TwoPortsRead(first: uint16, last: uint16)
    requires 0 < first < last
    ensures ParsePorts(Decimal(first) + "-" + Decimal(last)) == Some(PortRange(first, last))
    ensures PortChars(Decimal(first) + "-" + Decimal(last))
  {
    DecimalReads(first);
    DecimalReads(last);
    var a, b := Decimal(first), Decimal(last);
    var s := a + "-" + b;
    assert IsDigit(s[0]);
    DashAfter(a, b);
    assert s[..|a|] == a && s[|a| + 1..] == b;
  }

  lemma PortTextReads(r: PortRange)
    requires PortsPrintable(r)
    ensures ParsePorts(PortText(r)) == Some(r) && PortChars(PortText(r))
  {
    if r == PortRangeAny {
      assert PortText(r) == "*";
    } else if r.first == r.last {
      SinglePortReads(r.first);
    } else {
      TwoPortsRead(r.first, r.last);
    }
  }

  // ---- Names ----

  predicate HostChars(s: string) { forall i :: 0 <= i < |s| ==> s[i] != ':' && s[i] != ',' && LowerChar(s[i]) == s[i] }

  lemma LowerFixed(s: string)
    requires forall i :: 0 <= i < |s| ==> LowerChar(s[i]) == s[i]
    ensures Lower(s) == s
  {
  }

  lemma NumberReads(p: byte)
    ensures ParseProto(Decimal(p)) == Some(p) && HostChars(Decimal(p)) && Decimal(p) != "*"
  {
    DecimalReads(p);
    assert IsDigit(Decimal(p)[0]);
  }

  lemma NameChars(p: byte, name: string)
    requires PreferredName(p) == Some(name)
    ensures HostChars(name) && name != "" && name != "*" && !IsDigit(name[0])
  {
  }

  lemma NameAccepted(p: byte, name: string)
    requires PreferredName(p) == Some(name)
    ensures name in AcceptedNames && AcceptedNames[name] == p
  {
  }

  lemma WordReads(name: string)
    requires HostChars(name) && name != "" && !IsDigit(name[0]) && name in AcceptedNames
    ensures ParseProto(name) == Some(AcceptedNames[name])
  {
    LowerFixed(name);
  }

  lemma NameReads(p: byte, name: string)
    requires PreferredName(p) == Some(name)
    ensures ParseProto(name) == Some(p) && HostChars(name) && name != "" && name != "*"
  {
    NameChars(p, name);
    NameAccepted(p, name);
    WordReads(name);
  }

  lemma ProtoTextReads(p: byte)
    ensures ParseProto(ProtoText(p)) == Some(p) && HostChars(ProtoText(p)) && ProtoText(p) != "" && ProtoText(p) != "*"
  {
    match PreferredName(p)
    case Some(name) => NameReads(p, name);
    case None => NumberReads(p);
  }

  lemma HostPortReads(host: string, r: PortRange)
    requires HostChars(host) && PortsPrintable(r)
    ensures ParseHostPortRange(host + ":" + PortText(r)) == Some((host, r))
  {
    PortTextReads(r);
    var s := host + ":" + PortText(r);
    LowerFixed(s);
    ColonBefore(host, PortText(r));
    assert s[..|host|] == host && s[|host| + 1..] == PortText(r);
  }

  lemma NamedReads(proto: byte, ports: PortRange)
    requires PortsPrintable(ports)
    ensures ParsePair(ProtoText(proto) + ":" + PortText(ports)) == Some(ProtoPortRange(proto, ports))
  {
    ProtoTextReads(proto);
    HostPortReads(ProtoText(proto), ports);
  }

  lemma BareReads(ports: PortRange)
    requires PortsPrintable(ports)
    ensures ParsePair("*:" + PortText(ports)) == Some(ProtoPortRange(0, ports))
  {
    HostPortReads("*", ports);
    StarColon(PortText(ports));
  }

  lemma StarColon(pt: string)
    ensures "*" + ":" + pt == "*:" + pt
  {
  }

  lemma ParseWithColon(name: string, pt: string)
    ensures Parse(name + ":" + pt) == ParsePair(name + ":" + pt)
  {
    var s := name + ":" + pt;
    assert s[|name|] == ':';
    assert s != "*";
  }

  lemma ParseBare(pt: string)
    requires PortChars(pt) && pt != "" && pt != "*"
    ensures Parse(pt) == ParsePair("*:" + pt)
  {
  }

  lemma NotStar(r: PortRange)
    requires r != PortRangeAny
    ensures PortText(r) != "" && PortText(r) != "*"
  {
    DecimalReads(r.first);
    assert IsDigit(Decimal(r.first)[0]);
  }

  lemma PrintedPair(p: ProtoPortRange)
    requires Printable(p) && p.proto != 0
    ensures Parse(Print(p)) == Some(p)
  {
    var name, pt := ProtoText(p.proto), PortText(p.ports);
    assert Print(p) == name + ":" + pt;
    NamedReads(p.proto, p.ports);
    ParseWithColon(name, pt);
  }

  lemma PrintedBare(ports: PortRange)
    requires PortsPrintable(ports) && ports != PortRangeAny
    ensures Parse(PortText(ports)) == Some(ProtoPortRange(0, ports))
  {
    PortTextReads(ports);
    NotStar(ports);
    BareReads(ports);
    ParseBare(PortText(ports));
  }

  lemma PrintedReads(p: ProtoPortRange)
    requires Printable(p)
    ensures Parse(Print(p)) == Some(p)
  {
    if p.proto != 0 {
      PrintedPair(p);
    } else if p.ports != PortRangeAny {
      assert Print(p) == PortText(p.ports);
      PrintedBare(p.ports);
    }
  }

  // Printing and parsing gives a range back exactly when its protocol fits eight
  // bits and its ports are in order and non-zero, or all.
  lemma PrintParseIff(p: ProtoPortRange)
    ensures Parse(Print(p)) == Some(p) <==> Printable(p)
  {
    if Printable(p) {
      PrintedReads(p);
    } else if Parse(Print(p)).Some? {
      ParsedPrintable(Print(p));
    }
  }

  // Whatever is accepted survives being printed and parsed again.
  lemma AcceptedSurvives(s: string)
    requires Parse(s).Some?
    ensures Parse(Print(Parse(s).value)) == Parse(s)
  {
    ParsedPrintable(s);
    PrintParseIff(Parse(s).value);
  }

  // Every range a service reports survives too.
  lemma ServedSurvive(rs: seq<ProtoPortRange>, r: ProtoPortRange)
    requires Canonical(rs) && r in rs && !Covers(rs, 0)
    ensures Parse(Print(r)) == Some(r)
  {
    assert r.ports.first == 0 ==> In(0, r);
    PrintParseIff(r);
  }
}
