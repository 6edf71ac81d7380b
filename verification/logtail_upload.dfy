// One-shot log upload (logtail/logtail.go, UploadLogs): entries are encoded,
// collected into JSON arrays up to a size and posted batch by batch.  The JSON
// encoder, the compressor, the clock, cancellation and the server's answers are
// parameters.
module LogtailUpload {
  import opened Common

  datatype Logtail = Logtail(clientTime: Option<int>, procID: nat, procSeq: nat)

  // The value is opaque: only the encoder looks at it.
  datatype LogEntry = LogEntry(logtail: Logtail, value: bytes)

  datatype Config = Config(
    maxUploadSize: int,
    lowMem: bool,
    skipClientTime: bool,
    includeProcSequence: bool,
    compressLogs: bool,
    procID: nat)

  const MaxSize := 262144
  const LowMemRatio := 4

  const OpenBracket: byte := 91
  const CloseBracket: byte := 93
  const Comma: byte := 44
  const CloseBrace: byte := 125

  datatype Err = Cancelled | EncodingFailed(entry: nat) | UploadFailed

  // What is handed to upload: the bytes and the length before compression, or
  // -1 when they are not compressed.
  datatype Upload = Upload(out: bytes, origLen: int)

  // The outside world during one call.
  datatype World = World(
    now: nat -> int,                      // the clock at the k-th entry
    cancelled: nat -> bool,               // whether the context is done at the k-th entry
    encode: LogEntry -> Option<bytes>, // the JSON encoder
    compress: bytes -> bytes,
    accepts: nat -> bool)                 // whether the k-th upload succeeds

  // Encoded entries are JSON objects.
  ghost predicate Objects(world: World) {
    forall e :: world.encode(e).Some? ==> world.encode(e).value != [] && Last(world.encode(e).value) == CloseBrace
  }

  // Division that truncates toward zero.
  function TruncDiv(n: int, d: int): int
    requires d > 0
  {
    if n >= 0 then n / d else -((-n) / d)
  }

  function MaxLen(conf: Config): int {
    var n := if conf.maxUploadSize != 0 then conf.maxUploadSize else MaxSize;
    if conf.lowMem then TruncDiv(n, LowMemRatio) else n
  }

  // The k-th entry (from 0) with its metadata.
  function Filled(conf: Config, world: World, e: LogEntry, k: nat): LogEntry {
    LogEntry(
      Logtail(
        if e.logtail.clientTime == None && !conf.skipClientTime then Some(world.now(k)) else e.logtail.clientTime,
        if e.logtail.procID == 0 then conf.procID else e.logtail.procID,
        if conf.includeProcSequence then k + 1 else e.logtail.procSeq),
      e.value)
  }

  function Encoded(conf: Config, world: World, e: LogEntry, k: nat): Option<bytes> {
    world.encode(Filled(conf, world, e, k))
  }

  // ---- Bodies ----

  // Every encoding followed by a comma.
  function Items(encs: seq<bytes>): bytes {
    if encs == [] then [] else Items(encs[..|encs| - 1]) + Last(encs) + [Comma]
  }

  // The JSON array of some encodings.
  function ArrayOf(encs: seq<bytes>): bytes
    requires encs != []
  {
    [OpenBracket] + Items(encs[..|encs| - 1]) + Last(encs) + [CloseBracket]
  }

  // What is sent for a body: compressed when asked for and worth it.
  function Shipped(conf: Config, world: World, body: bytes): Upload {
    if conf.compressLogs && |body| > 256 && |body| - |world.compress(body)| > 64
    then Upload(world.compress(body), |body|)
    else Upload(body, -1)
  }

  // bytes.TrimRight(b, ",").
  method TrimCommas(b: bytes) returns (r: bytes)
    ensures |r| <= |b| && r == b[..|r|]
    ensures r != [] ==> Last(r) != Comma
    ensures forall k :: |r| <= k < |b| ==> b[k] == Comma
  {
    var n := |b|;
    while n > 0 && b[n - 1] == Comma
      invariant 0 <= n <= |b|
      invariant forall k :: n <= k < |b| ==> b[k] == Comma
    {
      n := n - 1;
    }
    r := b[..n];
  }

  // ---- Batches ----

  function Flat(groups: seq<seq<bytes>>): seq<bytes> {
    if groups == [] then [] else Flat(groups[..|groups| - 1]) + Last(groups)
  }

  // The body is within the limit before its closing bracket.
  predicate Fits(encs: seq<bytes>, maxLen: int)
    requires encs != []
  {
    |encs| == 1 || |ArrayOf(encs)| <= maxLen + 1
  }

  ghost predicate CutBetween(g: seq<bytes>, h: seq<bytes>, maxLen: int) {
    h != [] && 1 + |Items(g)| + |h[0]| > maxLen
  }

  // Batches are cut as late as possible: none is empty, each fits, and the
  // first entry of the next one would have made it overflow.
  ghost predicate Greedy(groups: seq<seq<bytes>>, maxLen: int) {
    && (forall g | g in groups :: g != [] && Fits(g, maxLen))
    && (forall k {:trigger CutAfter(groups, k, maxLen)} :: 0 <= k < |groups| - 1 ==> CutAfter(groups, k, maxLen))
  }

  ghost predicate CutAfter(groups: seq<seq<bytes>>, k: int, maxLen: int) {
    0 <= k < |groups| - 1 && CutBetween(groups[k], groups[k + 1], maxLen)
  }

  lemma GreedyGrows(groups: seq<seq<bytes>>, g: seq<bytes>, maxLen: int)
    requires Greedy(groups, maxLen) && g != [] && Fits(g, maxLen)
    requires groups != [] ==> CutBetween(Last(groups), g, maxLen)
    ensures Greedy(groups + [g], maxLen)
  {
    var more := groups + [g];
    forall k | 0 <= k < |more| - 1
      ensures CutAfter(more, k, maxLen)
    {
      assert k < |groups| - 1 ==> CutAfter(groups, k, maxLen);
    }
  }

  // ---- Greedy batches are determined by their entries ----

  lemma {:induction false} ItemsPrefix(encs: seq<bytes>, n: nat)
    requires n < |encs|
    ensures |Items(encs[..n])| + |encs[n]| + 1 <= |Items(encs)|
  {
    var k := |encs| - 1;
    if n < k {
      ItemsPrefix(encs[..k], n);
      assert encs[..k][..n] == encs[..n];
    }
  }

  lemma {:induction false} FlatFront(groups: seq<seq<bytes>>)
    requires groups != []
    ensures Flat(groups) == groups[0] + Flat(groups[1..])
  {
    var k := |groups| - 1;
    if k == 0 {
      assert groups[..0] == [] && groups[1..] == [];
    } else {
      var g, mid, l := groups[0], Flat(groups[1..][..k - 1]), Last(groups);
      FlatFront(groups[..k]);
      assert groups[..k][1..] == groups[1..][..k - 1];
      assert Flat(groups[1..]) == mid + l;
      assert (g + mid) + l == g + (mid + l);
    }
  }

  // The entry after the first batch would have overflowed it.
  lemma NextOverflows(groups: seq<seq<bytes>>, n: nat, maxLen: int)
    requires Greedy(groups, maxLen) && groups != [] && n == |groups[0]| < |Flat(groups)|
    ensures Flat(groups)[..n] == groups[0] && 1 + |Items(Flat(groups)[..n])| + |Flat(groups)[n]| > maxLen
  {
    FlatFront(groups);
    var rest := groups[1..];
    assert rest != [];
    FlatFront(rest);
    assert CutAfter(groups, 0, maxLen);
    assert Flat(groups)[n] == Flat(rest)[0] == rest[0][0];
  }

  // An entry inside the first batch fits after the ones before it.
  lemma InnerFits(groups: seq<seq<bytes>>, n: nat, maxLen: int)
    requires Greedy(groups, maxLen) && groups != [] && 0 < n < |groups[0]|
    ensures n < |Flat(groups)| && 1 + |Items(Flat(groups)[..n])| + |Flat(groups)[n]| <= maxLen
  {
    FlatFront(groups);
    var g := groups[0];
    assert g in groups && Fits(g, maxLen);
    ItemsPrefix(g, n);
    assert Flat(groups)[..n] == g[..n] && Flat(groups)[n] == g[n];
    assert |ArrayOf(g)| == 1 + |Items(g)|;
  }

  lemma FirstNotShorter(groups: seq<seq<bytes>>, groups': seq<seq<bytes>>, maxLen: int)
    requires Greedy(groups, maxLen) && Greedy(groups', maxLen) && Flat(groups) == Flat(groups')
    requires groups != [] && groups' != []
    ensures |groups[0]| >= |groups'[0]|
  {
    var n := |groups[0]|;
    FlatFront(groups');
    assert groups[0] in groups;
    if n < |Flat(groups)| {
      NextOverflows(groups, n, maxLen);
    }
    if n < |groups'[0]| {
      InnerFits(groups', n, maxLen);
    }
  }

  lemma FlatEmptyIff(groups: seq<seq<bytes>>, maxLen: int)
    requires Greedy(groups, maxLen)
    ensures Flat(groups) == [] <==> groups == []
  {
    if groups != [] {
      FlatFront(groups);
      assert groups[0] in groups;
    }
  }

  lemma GreedyTail(groups: seq<seq<bytes>>, maxLen: int)
    requires Greedy(groups, maxLen) && groups != []
    ensures Greedy(groups[1..], maxLen)
  {
    var rest := groups[1..];
    assert forall g :: g in rest ==> g in groups;
    forall k | 0 <= k < |rest| - 1
      ensures CutAfter(rest, k, maxLen)
    {
      assert CutAfter(groups, k + 1, maxLen);
    }
  }

  lemma {:induction false} GreedyUnique(groups: seq<seq<bytes>>, groups': seq<seq<bytes>>, maxLen: int)
    requires Greedy(groups, maxLen) && Greedy(groups', maxLen) && Flat(groups) == Flat(groups')
    ensures groups == groups'
    decreases |groups|
  {
    if groups == [] || groups' == [] {
      FlatEmptyIff(groups, maxLen);
      FlatEmptyIff(groups', maxLen);
    } else {
      FirstNotShorter(groups, groups', maxLen);
      FirstNotShorter(groups', groups, maxLen);
      FlatFront(groups);
      FlatFront(groups');
      var n := |groups[0]|;
      assert groups[0] == Flat(groups)[..n] && groups'[0] == Flat(groups)[..n];
      assert Flat(groups[1..]) == Flat(groups)[n..] && Flat(groups'[1..]) == Flat(groups)[n..];
      GreedyTail(groups, maxLen);
      GreedyTail(groups', maxLen);
      GreedyUnique(groups[1..], groups'[1..], maxLen);
      assert groups == [groups[0]] + groups[1..] && groups' == [groups'[0]] + groups'[1..];
    }
  }

  // The encodings of the first entries.
  ghost predicate EncodedPrefix(conf: Config, world: World, entries: seq<LogEntry>, encs: seq<bytes>) {
    |encs| <= |entries| && forall k :: 0 <= k < |encs| ==> Encoded(conf, world, entries[k], k) == Some(encs[k])
  }

  // What was posted for the batches, and that all but the last succeeded.
  ghost predicate Posted(conf: Config, world: World, groups: seq<seq<bytes>>, uploads: seq<Upload>) {
    && |uploads| == |groups|
    && (forall k :: 0 <= k < |groups| ==> groups[k] != [] && uploads[k] == Shipped(conf, world, ArrayOf(groups[k])))
    && (forall k :: 0 <= k < |groups| - 1 ==> world.accepts(k))
  }

  lemma ArrayLength(encs: seq<bytes>, enc: bytes)
    ensures |ArrayOf(encs + [enc])| == 1 + |Items(encs)| + |enc| + 1
    ensures Items(encs + [enc]) == Items(encs) + enc + [Comma]
  {
    assert (encs + [enc])[..|encs|] == encs;
  }

  lemma ItemsEmptyIff(encs: seq<bytes>)
    ensures |Items(encs)| > 0 <==> encs != []
  {
  }

  lemma FlatGrows(groups: seq<seq<bytes>>, g: seq<bytes>)
    ensures Flat(groups + [g]) == Flat(groups) + g
  {
    assert (groups + [g])[..|groups|] == groups;
  }

  lemma CutFlat(groups: seq<seq<bytes>>, cur: seq<bytes>, enc: bytes)
    ensures Flat(groups + [cur]) + [enc] == Flat(groups) + cur + [enc] && |Flat(groups + [cur])| == |Flat(groups)| + |cur|
    ensures [OpenBracket] + enc + [Comma] == [OpenBracket] + Items([enc])
  {
    FlatGrows(groups, cur);
    ArrayLength([], enc);
    assert [] + [enc] == [enc];
  }

  lemma JoinFlat(groups: seq<seq<bytes>>, cur: seq<bytes>, enc: bytes)
    ensures Flat(groups) + (cur + [enc]) == Flat(groups) + cur + [enc]
    ensures [OpenBracket] + Items(cur) + enc + [Comma] == [OpenBracket] + Items(cur + [enc])
  {
    ArrayLength(cur, enc);
  }

  // Trimming the trailing comma and closing the bracket gives the array.
  lemma Trimmed(encs: seq<bytes>, r: bytes)
    requires encs != [] && Last(encs) != [] && Last(Last(encs)) == CloseBrace
    requires var b := [OpenBracket] + Items(encs);
             |r| <= |b| && r == b[..|r|] && (r != [] ==> Last(r) != Comma) && forall k :: |r| <= k < |b| ==> b[k] == Comma
    ensures r + [CloseBracket] == ArrayOf(encs)
  {
    var b := [OpenBracket] + Items(encs);
    var x := [OpenBracket] + Items(encs[..|encs| - 1]) + Last(encs);
    assert b == x + [Comma];
    assert b[|x| - 1] == CloseBrace && b[|x|] == Comma;
    assert |r| == |x|;
    assert r == x;
  }

  method SendBatch(conf: Config, world: World, body: bytes, k: nat, ghost encs: seq<bytes>)
      returns (up: Upload, ok: bool)
    requires encs != [] && Last(encs) != [] && Last(Last(encs)) == CloseBrace
    requires body == [OpenBracket] + Items(encs)
    ensures up == Shipped(conf, world, ArrayOf(encs)) && ok == world.accepts(k)
  {
    var out := TrimCommas(body);
    Trimmed(encs, out);
    out := out + [CloseBracket];
    up := Upload(out, -1);
    if conf.compressLogs && |out| > 256 {
      var zbody := world.compress(out);
      if |out| - |zbody| > 64 {
        up := Upload(zbody, |out|);
      }
    }
    ok := world.accepts(k);
  }

  // The batch being collected, after the groups already sent.
  ghost predicate Open(maxLen: int, groups: seq<seq<bytes>>, cur: seq<bytes>) {
    && Greedy(groups, maxLen)
    && (cur != [] ==> Fits(cur, maxLen) && Last(cur) != [] && Last(Last(cur)) == CloseBrace)
    && (groups != [] ==> cur != [] && CutBetween(Last(groups), cur, maxLen))
  }

  // The state of the loop: groups have been sent, cur is in the body.
  ghost predicate Collecting(conf: Config, world: World, groups: seq<seq<bytes>>, cur: seq<bytes>, uploads: seq<Upload>) {
    && Open(MaxLen(conf), groups, cur) && Posted(conf, world, groups, uploads)
    && (groups != [] ==> world.accepts(|groups| - 1))
  }

  lemma EncodedShrinks(conf: Config, world: World, entries: seq<LogEntry>, encs: seq<bytes>, more: seq<bytes>)
    requires EncodedPrefix(conf, world, entries, encs + more)
    ensures EncodedPrefix(conf, world, entries, encs)
  {
    assert forall k :: 0 <= k < |encs| ==> (encs + more)[k] == encs[k];
  }

  lemma EncodedGrows(conf: Config, world: World, entries: seq<LogEntry>, encs: seq<bytes>, enc: bytes)
    requires EncodedPrefix(conf, world, entries, encs) && |encs| < |entries|
    requires Encoded(conf, world, entries[|encs|], |encs|) == Some(enc)
    ensures EncodedPrefix(conf, world, entries, encs + [enc])
  {
  }

  // The batch in the body is posted.
  lemma FlushKeeps(conf: Config, world: World, groups: seq<seq<bytes>>, cur: seq<bytes>, uploads: seq<Upload>)
    requires Collecting(conf, world, groups, cur, uploads) && cur != []
    ensures var posted := uploads + [Shipped(conf, world, ArrayOf(cur))];
            Greedy(groups + [cur], MaxLen(conf)) && Posted(conf, world, groups + [cur], posted)
  {
    GreedyGrows(groups, cur, MaxLen(conf));
  }

  // An entry joins the body.
  lemma JoinKeeps(conf: Config, world: World, groups: seq<seq<bytes>>, cur: seq<bytes>, uploads: seq<Upload>, enc: bytes)
    requires Collecting(conf, world, groups, cur, uploads) && enc != [] && Last(enc) == CloseBrace
    requires cur == [] || 1 + |Items(cur)| + |enc| <= MaxLen(conf)
    ensures Collecting(conf, world, groups, cur + [enc], uploads)
  {
    ArrayLength(cur, enc);
  }

  // The body is posted first, then the entry begins a new one.
  lemma CutKeeps(conf: Config, world: World, groups: seq<seq<bytes>>, cur: seq<bytes>, uploads: seq<Upload>, enc: bytes)
    requires Collecting(conf, world, groups, cur, uploads) && cur != [] && enc != [] && Last(enc) == CloseBrace
    requires 1 + |Items(cur)| + |enc| > MaxLen(conf) && world.accepts(|groups|)
    ensures Collecting(conf, world, groups + [cur], [enc], uploads + [Shipped(conf, world, ArrayOf(cur))])
  {
    FlushKeeps(conf, world, groups, cur, uploads);
  }

  ghost predicate NeverCancelled(world: World, n: nat) { forall k :: 0 <= k < n ==> !world.cancelled(k) }

  // Why the call ended.
  ghost predicate Outcome(conf: Config, world: World, entries: seq<LogEntry>, groups: seq<seq<bytes>>, sent: nat, err: Option<Err>) {
    match err
    case None =>
      && sent == |Flat(groups)| == |entries| && (groups != [] ==> world.accepts(|groups| - 1))
      && NeverCancelled(world, |entries|)
    case Some(UploadFailed) => groups != [] && !world.accepts(|groups| - 1) && sent == |Flat(groups[..|groups| - 1])|
    case Some(Cancelled) =>
      && sent == |Flat(groups)| && (groups != [] ==> world.accepts(|groups| - 1))
      && exists k :: sent <= k < |entries| && world.cancelled(k)
    case Some(EncodingFailed(n)) =>
      && sent == |Flat(groups)| && (groups != [] ==> world.accepts(|groups| - 1))
      && sent < n <= |entries| && Encoded(conf, world, entries[n - 1], n - 1) == None
  }

  // Fills in the metadata and encodes.
  method Prepare(conf: Config, world: World, entry: LogEntry, i: nat) returns (enc: Option<bytes>)
    ensures enc == Encoded(conf, world, entry, i)
  {
    var e := entry;
    if e.logtail.clientTime == None && !conf.skipClientTime {
      e := e.(logtail := e.logtail.(clientTime := Some(world.now(i))));
    }
    if e.logtail.procID == 0 {
      e := e.(logtail := e.logtail.(procID := conf.procID));
    }
    if conf.includeProcSequence {
      e := e.(logtail := e.logtail.(procSeq := i + 1));
    }
    enc := world.encode(e);
  }

  // The end of the loop body: flush before an entry that would overflow the
  // batch, then append it.
  method Collect(conf: Config, world: World, body: bytes, sent: nat, pending: nat, uploads: seq<Upload>, enc: bytes,
                 ghost groups: seq<seq<bytes>>, ghost cur: seq<bytes>)
      returns (ok: bool, body': bytes, sent': nat, pending': nat, uploads': seq<Upload>,
               ghost groups': seq<seq<bytes>>, ghost cur': seq<bytes>)
    requires Collecting(conf, world, groups, cur, uploads) && enc != [] && Last(enc) == CloseBrace
    requires body == [OpenBracket] + Items(cur) && pending == |cur| && sent == |Flat(groups)|
    ensures ok ==> Collecting(conf, world, groups', cur', uploads') && Flat(groups') + cur' == Flat(groups) + cur + [enc]
    ensures ok ==> body' == [OpenBracket] + Items(cur') && pending' == |cur'| && sent' == |Flat(groups')|
    ensures !ok ==> cur != [] && groups' == groups + [cur] && !world.accepts(|groups|) && sent' == sent
    ensures !ok ==> Greedy(groups', MaxLen(conf)) && Posted(conf, world, groups', uploads')
  {
    body', sent', pending', uploads', groups', cur' := body, sent, pending, uploads, groups, cur;
    ItemsEmptyIff(cur);
    if |body| > 1 && |body| + |enc| > MaxLen(conf) {
      var up;
      up, ok := SendBatch(conf, world, body, |uploads|, cur);
      uploads', groups' := uploads + [up], groups + [cur];
      if !ok {
        FlushKeeps(conf, world, groups, cur, uploads);
        return;
      }
      CutKeeps(conf, world, groups, cur, uploads, enc);
      CutFlat(groups, cur, enc);
      sent', cur' := sent + pending, [enc];
      body', pending' := [OpenBracket], 0;
    } else {
      JoinKeeps(conf, world, groups, cur, uploads, enc);
      JoinFlat(groups, cur, enc);
      cur' := cur + [enc];
    }
    ok := true;
    body' := body' + enc;
    body' := body' + [Comma];
    pending' := pending' + 1;
  }

  // The batch left when the entries are used up.
  method SendRest(conf: Config, world: World, ghost entries: seq<LogEntry>, body: bytes, sent: nat, pending: nat,
                  uploads: seq<Upload>, ghost groups: seq<seq<bytes>>, ghost cur: seq<bytes>)
      returns (sent': nat, err: Option<Err>, uploads': seq<Upload>, ghost groups': seq<seq<bytes>>)
    requires Collecting(conf, world, groups, cur, uploads) && NeverCancelled(world, |entries|)
    requires EncodedPrefix(conf, world, entries, Flat(groups) + cur) && |Flat(groups) + cur| == |entries|
    requires body == [OpenBracket] + Items(cur) && pending == |cur| && sent == |Flat(groups)|
    ensures Greedy(groups', MaxLen(conf)) && Posted(conf, world, groups', uploads')
    ensures EncodedPrefix(conf, world, entries, Flat(groups'))
    ensures Outcome(conf, world, entries, groups', sent', err)
  {
    sent', err, uploads', groups' := sent, None, uploads, groups;
    ItemsEmptyIff(cur);
    if |body| > 1 {
      var up, ok := SendBatch(conf, world, body, |uploads|, cur);
      FlushKeeps(conf, world, groups, cur, uploads);
      FlatGrows(groups, cur);
      uploads', groups' := uploads + [up], groups + [cur];
      assert groups'[..|groups|] == groups;
      if !ok {
        return sent', Some(UploadFailed), uploads', groups';
      }
      sent' := sent + pending;
    } else {
      assert Flat(groups) + cur == Flat(groups);
    }
  }

  // What holds of the loop's variables before entry i.
  ghost predicate Loop(conf: Config, world: World, entries: seq<LogEntry>, i: nat, body: bytes, sent: nat, pending: nat,
                       uploads: seq<Upload>, groups: seq<seq<bytes>>, cur: seq<bytes>)
  {
    && Collecting(conf, world, groups, cur, uploads) && NeverCancelled(world, i)
    && EncodedPrefix(conf, world, entries, Flat(groups) + cur) && |Flat(groups) + cur| == i
    && body == [OpenBracket] + Items(cur) && pending == |cur| && sent == |Flat(groups)|
  }

  // Stopping between batches: what was sent so far stands.
  lemma StopsBetween(conf: Config, world: World, entries: seq<LogEntry>, i: nat, body: bytes, sent: nat, pending: nat,
                     uploads: seq<Upload>, groups: seq<seq<bytes>>, cur: seq<bytes>)
    requires Loop(conf, world, entries, i, body, sent, pending, uploads, groups, cur) && i < |entries|
    ensures Greedy(groups, MaxLen(conf)) && Posted(conf, world, groups, uploads) && EncodedPrefix(conf, world, entries, Flat(groups))
    ensures world.cancelled(i) ==> Outcome(conf, world, entries, groups, sent, Some(Cancelled))
    ensures Encoded(conf, world, entries[i], i) == None ==> Outcome(conf, world, entries, groups, sent, Some(EncodingFailed(i + 1)))
  {
    EncodedShrinks(conf, world, entries, Flat(groups), cur);
  }

  // Stopping at a batch the server refused.
  lemma StopsRefused(conf: Config, world: World, entries: seq<LogEntry>, groups: seq<seq<bytes>>, cur: seq<bytes>, sent: nat)
    requires EncodedPrefix(conf, world, entries, Flat(groups) + cur) && sent == |Flat(groups)| && !world.accepts(|groups|)
    ensures EncodedPrefix(conf, world, entries, Flat(groups + [cur]))
    ensures Outcome(conf, world, entries, groups + [cur], sent, Some(UploadFailed))
  {
    FlatGrows(groups, cur);
    assert (groups + [cur])[..|groups|] == groups;
  }

  // The loop over the entries.
  method UploadEntries(conf: Config, world: World, entries: seq<LogEntry>)
      returns (sent: nat, err: Option<Err>, uploads: seq<Upload>, ghost groups: seq<seq<bytes>>)
    requires Objects(world)
    ensures Greedy(groups, MaxLen(conf)) && Posted(conf, world, groups, uploads)
    ensures EncodedPrefix(conf, world, entries, Flat(groups))
    ensures Outcome(conf, world, entries, groups, sent, err)
  {
    var body, pending := [OpenBracket], 0;
    sent, err, uploads, groups := 0, None, [], [];
    ghost var cur: seq<bytes> := [];
    for i := 0 to |entries|
      invariant Loop(conf, world, entries, i, body, sent, pending, uploads, groups, cur)
    {
      StopsBetween(conf, world, entries, i, body, sent, pending, uploads, groups, cur);
      if world.cancelled(i) {
        err := Some(Cancelled);
        return;
      }
      var enc := Prepare(conf, world, entries[i], i);
      if enc == None {
        err := Some(EncodingFailed(i + 1));
        return;
      }
      ghost var groups0, cur0 := groups, cur;
      EncodedGrows(conf, world, entries, Flat(groups) + cur, enc.value);
      var ok;
      ok, body, sent, pending, uploads, groups, cur := Collect(conf, world, body, sent, pending, uploads, enc.value, groups, cur);
      if !ok {
        StopsRefused(conf, world, entries, groups0, cur0, sent);
        err := Some(UploadFailed);
        return;
      }
    }
    sent, err, uploads, groups := SendRest(conf, world, entries, body, sent, pending, uploads, groups, cur);
  }

  lemma SentBound(conf: Config, world: World, entries: seq<LogEntry>, groups: seq<seq<bytes>>, sent: nat, err: Option<Err>)
    requires EncodedPrefix(conf, world, entries, Flat(groups)) && Outcome(conf, world, entries, groups, sent, err)
    ensures sent <= |entries| && (err == None ==> sent == |entries|)
  {
    if groups != [] {
      FlatGrows(groups[..|groups| - 1], Last(groups));
      assert groups == groups[..|groups| - 1] + [Last(groups)];
    }
  }

  // Entries are posted in order, each in exactly one batch, in greedy batches;
  // the count returned is that of the entries in successful batches on every
  // way out.
  method UploadLogs(conf: Config, world: World, entries: seq<LogEntry>)
      returns (sent: nat, err: Option<Err>, uploads: seq<Upload>, ghost groups: seq<seq<bytes>>)
    requires Objects(world)
    ensures sent <= |entries| && (err == None ==> sent == |entries|)
    ensures Greedy(groups, MaxLen(conf)) && Posted(conf, world, groups, uploads)
    ensures EncodedPrefix(conf, world, entries, Flat(groups))
    ensures Outcome(conf, world, entries, groups, sent, err)
  {
    sent, err, uploads, groups := UploadEntries(conf, world, entries);
    SentBound(conf, world, entries, groups, sent, err);
  }
}
