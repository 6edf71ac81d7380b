// The in-memory log buffer (logtail/buffer.go): a bounded queue that counts the
// lines it refuses and reports them ahead of the next line it accepts.
module LogtailBuffer {
  import opened Common

  datatype Entry = Entry(msg: bytes, dropCount: nat)

  datatype Buffered = Buffered(
    next: Option<bytes>,
    pending: seq<Entry>,
    dropCount: nat,
    writeCalls: nat,
    readCalls: nat,
    writeBytes: int,
    readBytes: int,
    droppedBytes: int,
    storedBytes: int)

  const Empty := Buffered(None, [], 0, 0, 0, 0, 0, 0, 0)

  // ---- The marker line ----

  function Decimal(n: nat): (d: bytes)
    ensures d != []
  {
    if n < 10 then [48 + n] else Decimal(n / 10) + [48 + n % 10]
  }

  const Dashes: bytes := [45, 45, 45, 45, 45, 45, 45, 45, 45, 45]
  // " logs dropped "
  const LogsDropped: bytes := [32, 108, 111, 103, 115, 32, 100, 114, 111, 112, 112, 101, 100, 32]

  function Marker(n: nat): bytes { Dashes + [45, 32] + Decimal(n) + LogsDropped + Dashes }

  function Undecimal(d: bytes): int { if d == [] then 0 else 10 * Undecimal(d[..|d| - 1]) + (Last(d) as int) - 48 }

  lemma {:induction false} DecimalReads(n: nat)
    ensures Undecimal(Decimal(n)) == n
  {
    if n < 10 {
      assert Decimal(n)[..0] == [];
    } else {
      DecimalReads(n / 10);
      assert Decimal(n)[..|Decimal(n)| - 1] == Decimal(n / 10);
    }
  }

  // A marker tells its count.
  lemma MarkerInjective(n: nat, m: nat)
    requires Marker(n) == Marker(m)
    ensures n == m
  {
    var k := |Marker(n)| - 24;
    assert Marker(n)[12..k] == Decimal(n) && Marker(m)[12..k] == Decimal(m);
    DecimalReads(n);
    DecimalReads(m);
  }

  // ---- The operations on values ----

  function WriteSpec(cap: nat, s: Buffered, b: bytes): Buffered {
    if |s.pending| < cap then
      s.(pending := s.pending + [Entry(b, s.dropCount)], dropCount := 0, writeCalls := s.writeCalls + 1,
         writeBytes := s.writeBytes + |b|, storedBytes := s.storedBytes + |b|)
    else
      s.(dropCount := s.dropCount + 1, writeCalls := s.writeCalls + 1, droppedBytes := s.droppedBytes + |b|)
  }

  // What one read hands out.
  datatype Out = Line(line: bytes) | Dropped(count: nat)

  function Text(o: Out): bytes { match o case Line(b) => b case Dropped(n) => Marker(n) }

  function ReadOut(s: Buffered): Option<Out> {
    if s.next.Some? then Some(Line(s.next.value))
    else if s.pending == [] then None
    else if s.pending[0].dropCount > 0 then Some(Dropped(s.pending[0].dropCount))
    else Some(Line(s.pending[0].msg))
  }

  function ReadSpec(s: Buffered): Buffered {
    var r := s.(readCalls := s.readCalls + 1);
    if s.next.Some? then
      r.(next := None, readBytes := s.readBytes + |s.next.value|, storedBytes := s.storedBytes - |s.next.value|)
    else if s.pending == [] then r
    else
      var ent, rest := s.pending[0], s.pending[1..];
      if ent.dropCount > 0 then
        var n := |Marker(ent.dropCount)|;
        r.(next := Some(ent.msg), pending := rest, writeBytes := s.writeBytes + n, readBytes := s.readBytes + n)
      else
        r.(pending := rest, readBytes := s.readBytes + |ent.msg|, storedBytes := s.storedBytes - |ent.msg|)
  }

  // ---- The buffer ----

  class MemBuffer {
    const cap: nat
    var next: Option<bytes>
    var pending: seq<Entry>
    var dropCount: nat
    var writeCalls: nat
    var readCalls: nat
    var writeBytes: int
    var readBytes: int
    var droppedBytes: int
    var storedBytes: int

    function View(): Buffered
      reads this
    {
      Buffered(next, pending, dropCount, writeCalls, readCalls, writeBytes, readBytes, droppedBytes, storedBytes)
    }

    constructor (numEntries: nat)
      ensures cap == numEntries && View() == Empty
    {
      cap := numEntries;
      next, pending, dropCount, writeCalls, readCalls := None, [], 0, 0, 0;
      writeBytes, readBytes, droppedBytes, storedBytes := 0, 0, 0, 0;
    }

    method TryReadLine() returns (r: Option<bytes>)
      modifies this
      ensures View() == ReadSpec(old(View()))
      ensures match ReadOut(old(View())) case None => r == None case Some(o) => r == Some(Text(o))
    {
      readCalls := readCalls + 1;
      if next.Some? {
        var msg := next.value;
        next := None;
        readBytes := readBytes + |msg|;
        storedBytes := storedBytes - |msg|;
        return Some(msg);
      }
      if pending == [] {
        return None;
      }
      var ent := pending[0];
      pending := pending[1..];
      if ent.dropCount > 0 {
        next := Some(ent.msg);
        var b := Marker(ent.dropCount);
        writeBytes := writeBytes + |b|;
        readBytes := readBytes + |b|;
        return Some(b);
      }
      readBytes := readBytes + |ent.msg|;
      storedBytes := storedBytes - |ent.msg|;
      return Some(ent.msg);
    }

    method Write(b: bytes) returns (ok: bool)
      modifies this
      ensures View() == WriteSpec(cap, old(View()), b)
      ensures ok <==> |old(pending)| < cap
    {
      writeCalls := writeCalls + 1;
      var ent := Entry(b, dropCount);
      if |pending| < cap {
        pending := pending + [ent];
        writeBytes := writeBytes + |b|;
        storedBytes := storedBytes + |b|;
        dropCount := 0;
        return true;
      }
      dropCount := dropCount + 1;
      droppedBytes := droppedBytes + |b|;
      return false;
    }
  }

  // ---- Runs ----

  datatype Op = Write(b: bytes) | Read

  function After(cap: nat, run: seq<Op>): Buffered {
    if run == [] then Empty
    else
      var s := After(cap, run[..|run| - 1]);
      if Last(run).Write? then WriteSpec(cap, s, Last(run).b) else ReadSpec(s)
  }

  datatype Written = Written(line: bytes, accepted: bool)

  // The writes of a run with what became of them.
  function Writes(cap: nat, run: seq<Op>): seq<Written> {
    if run == [] then []
    else
      var p := run[..|run| - 1];
      if Last(run).Write? then Writes(cap, p) + [Written(Last(run).b, |After(cap, p).pending| < cap)] else Writes(cap, p)
  }

  // What the reads of a run handed out.
  function Reads(cap: nat, run: seq<Op>): seq<Out> {
    if run == [] then []
    else
      var p := run[..|run| - 1];
      var o := ReadOut(After(cap, p));
      if Last(run).Read? && o.Some? then Reads(cap, p) + [o.value] else Reads(cap, p)
  }

  // ---- What a reader should see ----

  // Refusals since the last accepted write.
  function Trailing(ws: seq<Written>): nat {
    if ws == [] || Last(ws).accepted then 0 else Trailing(ws[..|ws| - 1]) + 1
  }

  // Every accepted line, each preceded by the number of refusals just before
  // it if there were any.
  function Story(ws: seq<Written>): seq<Out> {
    if ws == [] then []
    else
      var p := ws[..|ws| - 1];
      if Last(ws).accepted then Story(p) + Announced(Last(ws).line, Trailing(p)) else Story(p)
  }

  function Announced(line: bytes, drops: nat): seq<Out> { (if drops > 0 then [Dropped(drops)] else []) + [Line(line)] }

  // What is still to come out.
  function Queued(s: Buffered): seq<Out> {
    (if s.next.Some? then [Line(s.next.value)] else []) + Expand(s.pending)
  }

  function Expand(q: seq<Entry>): seq<Out> {
    if q == [] then [] else Announced(q[0].msg, q[0].dropCount) + Expand(q[1..])
  }

  lemma {:induction false} ExpandSnoc(q: seq<Entry>, e: Entry)
    ensures Expand(q + [e]) == Expand(q) + Announced(e.msg, e.dropCount)
  {
    if q == [] {
      assert q + [e] == [e];
    } else {
      ExpandSnoc(q[1..], e);
      assert (q + [e])[1..] == q[1..] + [e];
    }
  }

  lemma StoryGrows(ws: seq<Written>, w: Written)
    ensures Story(ws + [w]) == if w.accepted then Story(ws) + Announced(w.line, Trailing(ws)) else Story(ws)
    ensures Trailing(ws + [w]) == if w.accepted then 0 else Trailing(ws) + 1
  {
    assert (ws + [w])[..|ws|] == ws;
  }

  lemma ReadTakesHead(s: Buffered)
    ensures ReadOut(s).None? ==> Queued(s) == [] && Queued(ReadSpec(s)) == []
    ensures ReadOut(s).Some? ==> Queued(s) == [ReadOut(s).value] + Queued(ReadSpec(s))
  {
    if s.next.None? && s.pending != [] {
      assert Expand(s.pending) == Announced(s.pending[0].msg, s.pending[0].dropCount) + Expand(s.pending[1..]);
    }
  }

  ghost predicate Tells(s: Buffered, outs: seq<Out>, ws: seq<Written>) {
    outs + Queued(s) == Story(ws) && s.dropCount == Trailing(ws)
  }

  lemma WriteTells(cap: nat, s: Buffered, outs: seq<Out>, ws: seq<Written>, b: bytes)
    requires Tells(s, outs, ws)
    ensures Tells(WriteSpec(cap, s, b), outs, ws + [Written(b, |s.pending| < cap)])
  {
    StoryGrows(ws, Written(b, |s.pending| < cap));
    if |s.pending| < cap {
      ExpandSnoc(s.pending, Entry(b, s.dropCount));
      assert Queued(WriteSpec(cap, s, b)) == Queued(s) + Announced(b, s.dropCount);
    }
  }

  lemma ReadTells(s: Buffered, outs: seq<Out>, ws: seq<Written>)
    requires Tells(s, outs, ws)
    ensures Tells(ReadSpec(s), if ReadOut(s).Some? then outs + [ReadOut(s).value] else outs, ws)
  {
    ReadTakesHead(s);
  }

  // After every run, what was read followed by what is queued is the story of
  // the writes: nothing lost, nothing reordered, every refusal reported in place.
  lemma {:induction false} BufferTellsStory(cap: nat, run: seq<Op>)
    ensures Reads(cap, run) + Queued(After(cap, run)) == Story(Writes(cap, run))
    ensures After(cap, run).dropCount == Trailing(Writes(cap, run))
  {
    if run != [] {
      var p := run[..|run| - 1];
      BufferTellsStory(cap, p);
      if Last(run).Write? {
        WriteTells(cap, After(cap, p), Reads(cap, p), Writes(cap, p), Last(run).b);
      } else {
        ReadTells(After(cap, p), Reads(cap, p), Writes(cap, p));
      }
    }
  }

  // ---- Lines and refusals ----

  function LinesOf(outs: seq<Out>): seq<bytes> {
    if outs == [] then []
    else
      var p := LinesOf(outs[..|outs| - 1]);
      if Last(outs).Line? then p + [Last(outs).line] else p
  }

  function DropsIn(outs: seq<Out>): nat {
    if outs == [] then 0 else DropsIn(outs[..|outs| - 1]) + (if Last(outs).Line? then 0 else Last(outs).count)
  }

  function Accepted(ws: seq<Written>): seq<bytes> {
    if ws == [] then []
    else
      var p := Accepted(ws[..|ws| - 1]);
      if Last(ws).accepted then p + [Last(ws).line] else p
  }

  function Refusals(ws: seq<Written>): nat {
    if ws == [] then 0 else Refusals(ws[..|ws| - 1]) + (if Last(ws).accepted then 0 else 1)
  }

  lemma {:induction false} PartsAdd(a: seq<Out>, b: seq<Out>)
    ensures LinesOf(a + b) == LinesOf(a) + LinesOf(b) && DropsIn(a + b) == DropsIn(a) + DropsIn(b)
  {
    if b == [] {
      assert a + b == a;
    } else {
      PartsAdd(a, b[..|b| - 1]);
      assert (a + b)[..|a + b| - 1] == a + b[..|b| - 1];
    }
  }

  lemma PartsOne(o: Out)
    ensures LinesOf([o]) == (if o.Line? then [o.line] else []) && DropsIn([o]) == (if o.Line? then 0 else o.count)
  {
    assert [o][..0] == [];
  }

  lemma AnnouncedParts(line: bytes, drops: nat)
    ensures LinesOf(Announced(line, drops)) == [line] && DropsIn(Announced(line, drops)) == drops
  {
    PartsOne(Line(line));
    PartsOne(Dropped(drops));
    if drops > 0 {
      PartsAdd([Dropped(drops)], [Line(line)]);
    } else {
      assert Announced(line, drops) == [Line(line)];
    }
  }

  lemma {:induction false} StoryParts(ws: seq<Written>)
    ensures LinesOf(Story(ws)) == Accepted(ws) && DropsIn(Story(ws)) + Trailing(ws) == Refusals(ws)
  {
    if ws != [] {
      var p := ws[..|ws| - 1];
      StoryParts(p);
      PartsAdd(Story(p), Announced(Last(ws).line, Trailing(p)));
      AnnouncedParts(Last(ws).line, Trailing(p));
    }
  }

  // Lines come out first in, first out, and every refusal is counted once: in a
  // marker read, in one queued, or in the current count.
  lemma FirstInFirstOut(cap: nat, run: seq<Op>)
    ensures LinesOf(Reads(cap, run)) + LinesOf(Queued(After(cap, run))) == Accepted(Writes(cap, run))
    ensures DropsIn(Reads(cap, run)) + DropsIn(Queued(After(cap, run))) + After(cap, run).dropCount == Refusals(Writes(cap, run))
  {
    BufferTellsStory(cap, run);
    PartsAdd(Reads(cap, run), Queued(After(cap, run)));
    StoryParts(Writes(cap, run));
  }

  // ---- Byte counts ----

  function Bytes(outs: seq<Out>): nat { if outs == [] then 0 else Bytes(outs[..|outs| - 1]) + |Text(Last(outs))| }

  function LineBytes(outs: seq<Out>): nat {
    if outs == [] then 0
    else LineBytes(outs[..|outs| - 1]) + (if Last(outs).Line? then |Last(outs).line| else 0)
  }

  function RefusedBytes(ws: seq<Written>): nat {
    if ws == [] then 0
    else RefusedBytes(ws[..|ws| - 1]) + (if Last(ws).accepted then 0 else |Last(ws).line|)
  }

  lemma {:induction false} LineBytesAdds(a: seq<Out>, b: seq<Out>)
    ensures LineBytes(a + b) == LineBytes(a) + LineBytes(b)
  {
    if b == [] {
      assert a + b == a;
    } else {
      LineBytesAdds(a, b[..|b| - 1]);
      assert (a + b)[..|a + b| - 1] == a + b[..|b| - 1];
    }
  }

  lemma AnnouncedBytes(line: bytes, drops: nat)
    ensures LineBytes(Announced(line, drops)) == |line|
  {
    assert Announced(line, drops)[..|Announced(line, drops)| - 1] == if drops > 0 then [Dropped(drops)] else [];
    assert LineBytes([Dropped(drops)]) == 0;
  }

  lemma LineBytesOne(o: Out)
    ensures LineBytes([o]) == (if o.Line? then |o.line| else 0) && Bytes([o]) == |Text(o)|
  {
    assert [o][..0] == [];
  }

  // Bytes read are those handed out, bytes dropped those refused, bytes stored
  // those of the lines still queued, and everything written has been read or is
  // stored.
  ghost predicate Agree(cap: nat, s: Buffered, outs: seq<Out>, ws: seq<Written>) {
    && s.readBytes == Bytes(outs)
    && s.droppedBytes == RefusedBytes(ws)
    && s.storedBytes == LineBytes(Queued(s))
    && s.writeBytes == s.readBytes + s.storedBytes
    && |s.pending| <= cap
    && s.writeCalls == |ws|
  }

  lemma WriteAgrees(cap: nat, s: Buffered, outs: seq<Out>, ws: seq<Written>, b: bytes)
    requires Agree(cap, s, outs, ws)
    ensures Agree(cap, WriteSpec(cap, s, b), outs, ws + [Written(b, |s.pending| < cap)])
  {
    var w := Written(b, |s.pending| < cap);
    assert (ws + [w])[..|ws|] == ws;
    if w.accepted {
      ExpandSnoc(s.pending, Entry(b, s.dropCount));
      assert Queued(WriteSpec(cap, s, b)) == Queued(s) + Announced(b, s.dropCount);
      LineBytesAdds(Queued(s), Announced(b, s.dropCount));
      AnnouncedBytes(b, s.dropCount);
    }
  }

  lemma ReadAgrees(cap: nat, s: Buffered, outs: seq<Out>, ws: seq<Written>)
    requires Agree(cap, s, outs, ws)
    ensures Agree(cap, ReadSpec(s), if ReadOut(s).Some? then outs + [ReadOut(s).value] else outs, ws)
  {
    if ReadOut(s).Some? {
      ReadMoves(s, ReadOut(s).value);
      BytesMore(outs, ReadOut(s).value);
    } else {
      ReadTakesHead(s);
    }
  }

  lemma BytesMore(outs: seq<Out>, o: Out)
    ensures Bytes(outs + [o]) == Bytes(outs) + |Text(o)|
  {
    assert (outs + [o])[..|outs|] == outs;
  }

  // What a read takes from the queue, in bytes of lines.
  lemma ReadMoves(s: Buffered, o: Out)
    requires ReadOut(s) == Some(o)
    ensures LineBytes(Queued(s)) == (if o.Line? then |o.line| else 0) + LineBytes(Queued(ReadSpec(s)))
  {
    ReadTakesHead(s);
    LineBytesAdds([o], Queued(ReadSpec(s)));
    LineBytesOne(o);
  }

  lemma {:induction false} CountersAgree(cap: nat, run: seq<Op>)
    ensures Agree(cap, After(cap, run), Reads(cap, run), Writes(cap, run))
    ensures After(cap, run).writeCalls + After(cap, run).readCalls == |run|
  {
    if run != [] {
      var p := run[..|run| - 1];
      CountersAgree(cap, p);
      if Last(run).Write? {
        WriteAgrees(cap, After(cap, p), Reads(cap, p), Writes(cap, p), Last(run).b);
      } else {
        ReadAgrees(cap, After(cap, p), Reads(cap, p), Writes(cap, p));
      }
    }
  }
}
