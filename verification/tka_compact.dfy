// Compaction: which stored updates may be forgotten (tka/tailchonk.go), and
// that forgetting them changes neither head nor state.
module TkaCompact {
  import opened Common
  import opened TkaTypes
  import opened TkaState
  import opened TkaChain
  import opened TkaStore
  import opened TkaAuthority
  import opened TkaSync
  import opened TkaAncestry

  // The retention marks, one set of hashes per bit.
  datatype Verdict = Verdict(
    known: set<AUMHash>,
    active: set<AUMHash>,
    young: set<AUMHash>,
    leaf: set<AUMHash>,
    ancestor: set<AUMHash>,
    candidate: set<AUMHash>)
  {
    // Everything with a mark that prevents deletion.
    function Kept(): set<AUMHash> { active + young + leaf + ancestor }
  }

  ghost predicate AllStored(S: set<AUM>, hs: set<AUMHash>) {
    forall h :: h in hs ==> IsStored(S, h)
  }

  // ---- Young updates ----

  method MarkYoungAUMs(m: Mem, v: Verdict, minTime: int) returns (w: Verdict)
    requires m.Valid() && v.known == m.aums.Keys
    ensures w == v.(young := w.young) && w.young == set h | h in m.aums && m.commitTimes[h] > minTime
  {
    var rest := v.known;
    var young: set<AUMHash> := {};
    while rest != {}
      invariant rest <= v.known
      invariant young == set h | h in v.known - rest && m.commitTimes[h] > minTime
      decreases rest
    {
      var h :| h in rest;
      rest := rest - {h};
      if m.commitTimes[h] > minTime {
        young := young + {h};
      }
    }
    w := v.(young := young);
  }

  // ---- The active chain ----

  // c is where the active chain is cut: everything from ch[c] on is active,
  // what lies before is candidate for deletion.
  ghost predicate CutAt(ch: seq<AUM>, v: Verdict, c: nat) {
    && c < |ch| && ch[c].kind == AUMCheckpoint
    && v.active == Digests(ch[c..])
    && (forall t {:trigger Digest(ch[t])} :: 0 <= t < c ==> Digest(ch[t]) in v.candidate)
    && (forall h {:trigger OnBefore(ch, c, h)} :: h in v.candidate ==> ch[0].prev == Some(h) || OnBefore(ch, c, h))
  }

  // h is the hash of an update before ch[c].
  ghost predicate OnBefore(ch: seq<AUM>, c: nat, h: AUMHash) {
    c <= |ch| && h.Digest? && h.aum in ch[..c]
  }

  lemma DigestsFront(ch: seq<AUM>, j: nat)
    requires j < |ch|
    ensures Digests(ch[j..]) == Digests(ch[j + 1..]) + {Digest(ch[j])}
  {
    assert ch[j..] == [ch[j]] + ch[j + 1..];
  }

  // The chain in force as the marking sees it: linked, stored, beginning at a
  // checkpoint from which everything stored descends.
  ghost predicate Laid(m: Mem, ch: seq<AUM>)
    reads m
  {
    && m.Valid() && ch != [] && Linked(ch) && ch[0].kind == AUMCheckpoint && Closed(m.Stored(), ch[0])
    && forall i :: 0 <= i < |ch| ==> ch[i] in m.Stored()
  }

  // The parent of an update of the chain, if it has one and that is stored.
  method StoredParent(m: Mem, next: AUM, ghost ch: seq<AUM>, ghost j: nat) returns (parent: Option<AUM>)
    requires Laid(m, ch) && j < |ch| && next == ch[j]
    ensures parent == if j > 0 then Some(ch[j - 1]) else None
    ensures j > 0 ==> next.prev == Some(Digest(ch[j - 1]))
    ensures j == 0 ==> next.kind == AUMCheckpoint
  {
    RootParentUnknown(m.Stored(), ch[0]);
    OneBack(ch, j);
    if next.prev.None? {
      return None;
    }
    parent := m.AUM(next.prev.value);
  }

  // Where the chain is cut: at its beginning if it has at most minChain
  // updates, else at the last update before the newest minChain ones that can
  // be compacted to.
  ghost predicate CutIndex(ch: seq<AUM>, young: set<AUMHash>, minChain: nat, c: nat) {
    c < |ch| &&
    if |ch| <= minChain then c == 0
    else
      && c < |ch| - minChain && Compactable(young, ch[c])
      && forall i :: c < i < |ch| - minChain ==> !Compactable(young, ch[i])
  }

  // The newest minChain updates are active.  Then back to a checkpoint that
  // is old enough, or has no parent.
  method MarkActiveChain(m: Mem, v: Verdict, minChain: nat, head: AUM, ghost ch: seq<AUM>)
    returns (r: Result<AUMHash, Failure>, w: Verdict, ghost c: nat)
    requires Laid(m, ch) && head == Last(ch) && v.active == {} && v.candidate == {} && minChain > 0
    ensures w == v.(active := w.active, candidate := w.candidate)
    ensures r.Ok? ==> CutAt(ch, w, c) && r.value == Digest(ch[c])
    ensures r.Ok? ==> CutIndex(ch, v.young, minChain, c)
    ensures r.Err? ==> forall i :: !CutIndex(ch, v.young, minChain, i)
  {
    w, c := v, 0;
    var next := head;
    ghost var j := |ch| - 1;
    assert ch[|ch|..] == [];
    for i := 0 to minChain
      invariant 0 <= j == |ch| - 1 - i && next == ch[j]
      invariant w == v.(active := w.active) && w.active == Digests(ch[j + 1..])
    {
      DigestsFront(ch, j);
      w := w.(active := w.active + {Digest(next)});
      var parent := StoredParent(m, next, ch, j);
      if parent.None? {
        return Ok(Digest(next)), w, 0;
      }
      next := parent.value;
      j := j - 1;
    }
    r, w, c := FindCompactionTarget(m, w, next, ch, j);
  }

  // A checkpoint that is old enough, or is the genesis.
  predicate Compactable(young: set<AUMHash>, a: AUM) {
    a.kind == AUMCheckpoint && (Digest(a) !in young || a.prev.None?)
  }

  // Back from ch[j] to the nearest checkpoint that can be compacted to.
  method FindCompactionTarget(m: Mem, v: Verdict, start: AUM, ghost ch: seq<AUM>, ghost j0: nat)
    returns (r: Result<AUMHash, Failure>, w: Verdict, ghost c: nat)
    requires Laid(m, ch) && j0 < |ch| && start == ch[j0]
    requires v.active == Digests(ch[j0 + 1..]) && v.candidate == {}
    ensures w == v.(active := w.active, candidate := w.candidate)
    ensures r.Ok? ==> CutAt(ch, w, c) && r.value == Digest(ch[c]) && c <= j0
    ensures r.Ok? ==> Compactable(v.young, ch[c]) && forall i :: c < i <= j0 ==> !Compactable(v.young, ch[i])
    ensures r.Err? ==> forall i :: 0 <= i <= j0 ==> !Compactable(v.young, ch[i])
  {
    w := v;
    var next := start;
    ghost var j: int := j0;
    while true
      invariant 0 <= j <= j0 && next == ch[j]
      invariant forall i :: j < i <= j0 ==> !Compactable(v.young, ch[i])
      invariant w == v.(active := w.active) && w.active == Digests(ch[j + 1..])
      decreases j
    {
      DigestsFront(ch, j);
      w := w.(active := w.active + {Digest(next)});
      if Compactable(v.young, next) {
        break;
      }
      var parent := StoredParent(m, next, ch, j);
      if parent.None? {
        return Err(NotExist), w, j;
      }
      next := parent.value;
      j := j - 1;
    }
    r, c := Ok(Digest(next)), j;
    w := MarkCandidates(m, w, next, ch, j);
  }

  ghost predicate CandidatesFrom(ch: seq<AUM>, c: nat, t: nat, hs: set<AUMHash>) {
    && (forall i :: t <= i < c && i < |ch| ==> Digest(ch[i]) in hs)
    && (forall h :: h in hs ==> OnBefore(ch, c, h))
  }

  lemma CandidatesMore(ch: seq<AUM>, c: nat, t: nat, hs: set<AUMHash>)
    requires 0 < t <= c < |ch| && CandidatesFrom(ch, c, t, hs)
    ensures CandidatesFrom(ch, c, t - 1, hs + {Digest(ch[t - 1])})
  {
    assert ch[..c][t - 1] == ch[t - 1];
  }

  // Every known ancestor of ch[c] is a candidate.
  method MarkCandidates(m: Mem, v: Verdict, start: AUM, ghost ch: seq<AUM>, ghost c: nat)
    returns (w: Verdict)
    requires Laid(m, ch) && c < |ch| && start == ch[c] && start.kind == AUMCheckpoint
    requires v.active == Digests(ch[c..]) && v.candidate == {}
    ensures w == v.(candidate := w.candidate) && CutAt(ch, w, c)
  {
    w := v;
    var next := start;
    ghost var t: int := c;
    while next.prev.Some?
      invariant 0 <= t <= c && next == ch[t]
      invariant w == v.(candidate := w.candidate) && CandidatesFrom(ch, c, t, w.candidate)
      decreases t
    {
      var parent := StoredParent(m, next, ch, t);
      if t > 0 { CandidatesMore(ch, c, t, w.candidate); }
      w := w.(candidate := w.candidate + {next.prev.value});
      if parent.None? {
        return;
      }
      next := parent.value;
      t := t - 1;
    }
    OneBack(ch, t);
  }

  // ---- Descendants ----

  method ToSeq(s: set<AUMHash>) returns (r: seq<AUMHash>)
    ensures forall h :: h in r <==> h in s
  {
    r := [];
    var rest := s;
    while rest != {}
      invariant rest <= s && forall h :: h in r <==> h in s - rest
      decreases rest
    {
      var h :| h in rest;
      rest := rest - {h};
      r := r + [h];
    }
  }

  ghost function Unmarked(S: set<AUM>, marked: set<AUMHash>): set<AUM> {
    set a | a in S && Digest(a) !in marked
  }

  ghost predicate SeqStored(S: set<AUM>, hs: seq<AUMHash>) {
    forall h :: h in hs ==> IsStored(S, h)
  }

  // Children of marked updates are marked or waiting.
  ghost predicate LeafInv(S: set<AUM>, leaf: set<AUMHash>, now: seq<AUMHash>, later: seq<AUMHash>) {
    && AllStored(S, leaf) && SeqStored(S, now) && SeqStored(S, later)
    && forall b :: b in S && b.prev.Some? && b.prev.value in leaf ==>
         Digest(b) in leaf || Digest(b) in now || Digest(b) in later
  }

  // What is marked or waiting was there to begin with, or has a marked parent.
  ghost predicate LeafSourced(start: set<AUMHash>, leaf: set<AUMHash>, now: seq<AUMHash>, later: seq<AUMHash>) {
    forall h :: h in leaf || h in now || h in later ==>
      h in start || (h.Digest? && h.aum.prev.Some? && h.aum.prev.value in leaf)
  }

  // One round of the work list.
  method LeafRound(m: Mem, leaf: set<AUMHash>, toScan: seq<AUMHash>, ghost start: set<AUMHash>)
    returns (marked: set<AUMHash>, later: seq<AUMHash>)
    requires m.Valid() && LeafInv(m.Stored(), leaf, toScan, []) && LeafSourced(start, leaf, toScan, [])
    ensures LeafInv(m.Stored(), marked, [], later) && leaf <= marked && LeafSourced(start, marked, [], later)
    ensures forall h :: h in toScan ==> h in marked
    ensures marked == leaf ==> later == []
  {
    marked, later := leaf, [];
    for i := 0 to |toScan|
      invariant LeafInv(m.Stored(), marked, toScan[i..], later) && leaf <= marked && LeafSourced(start, marked, toScan[i..], later)
      invariant forall h :: h in toScan[..i] ==> h in marked
      invariant marked == leaf ==> later == []
    {
      var h := toScan[i];
      assert toScan[i..] == [h] + toScan[i + 1..] && toScan[..i + 1] == toScan[..i] + [h];
      if h !in marked {
        var children := m.ChildAUMs(h);
        var hashes := HashesOf(children);
        LeafStep(m.Stored(), start, marked, h, toScan[i + 1..], later, hashes);
        marked := marked + {h};
        later := later + hashes;
      }
    }
    assert toScan[..|toScan|] == toScan && toScan[|toScan|..] == [];
  }

  lemma LeafStep(S: set<AUM>, start: set<AUMHash>, marked: set<AUMHash>, h: AUMHash, now: seq<AUMHash>, later: seq<AUMHash>, hashes: seq<AUMHash>)
    requires LeafInv(S, marked, [h] + now, later) && LeafSourced(start, marked, [h] + now, later)
    requires forall g :: g in hashes <==> g.Digest? && g.aum in S && g.aum.prev == Some(h)
    ensures LeafInv(S, marked + {h}, now, later + hashes) && LeafSourced(start, marked + {h}, now, later + hashes)
  {
    assert h in [h] + now && forall g :: g in now ==> g in [h] + now;
    forall b | b in S && b.prev.Some? && b.prev.value in marked + {h}
      ensures Digest(b) in marked + {h} || Digest(b) in now || Digest(b) in later + hashes
    {
      if b.prev.value == h { assert Digest(b) in hashes; }
    }
  }

  function HashesOf(aums: seq<AUM>): (hs: seq<AUMHash>)
    ensures forall h :: h in hs <==> h.Digest? && h.aum in aums
  {
    if aums == [] then [] else [Digest(aums[0])] + HashesOf(aums[1..])
  }

  // Every descendant of an update kept so far is kept.
  method MarkDescendantAUMs(m: Mem, v: Verdict) returns (w: Verdict)
    requires m.Valid() && v.leaf == {} && v.ancestor == {} && AllStored(m.Stored(), v.active + v.young)
    ensures w == v.(leaf := w.leaf) && v.active + v.young <= w.leaf && AllStored(m.Stored(), w.leaf)
    ensures forall b :: b in m.Stored() && b.prev.Some? && b.prev.value in w.leaf ==> Digest(b) in w.leaf
    ensures LeafSourced(v.active + v.young, w.leaf, [], [])
  {
    var toScan := ToSeq(v.Kept());
    var leaf: set<AUMHash> := {};
    while |toScan| > 0
      invariant LeafInv(m.Stored(), leaf, toScan, []) && LeafSourced(v.active + v.young, leaf, toScan, [])
      invariant forall h :: h in v.active + v.young ==> h in leaf || h in toScan
      decreases Unmarked(m.Stored(), leaf), |toScan|
    {
      ghost var before := leaf;
      leaf, toScan := LeafRound(m, leaf, toScan, v.active + v.young);
      MarkingShrinks(m.Stored(), before, leaf);
    }
    w := v.(leaf := leaf);
  }

  // Marking descendants leaves exactly what descends from the start.
  lemma {:induction false} MarkedDescends(S: set<AUM>, start: set<AUMHash>, leaf: set<AUMHash>, a: AUM)
    requires AllStored(S, leaf) && LeafSourced(start, leaf, [], []) && Digest(a) in leaf
    ensures Descends(S, start, a)
    decreases a
  {
    if Digest(a) in start {
      assert StartsAt(S, start, a, a);
    } else {
      var q := a.prev.value.aum;
      assert Digest(q) in leaf;
      MarkedDescends(S, start, leaf, q);
      var y :| StartsAt(S, start, y, q);
      assert UpTo(q, a);
      UpToTrans(y, q, a);
      assert StartsAt(S, start, y, a);
    }
  }

  lemma {:induction false} DescendsMarked(S: set<AUM>, root: AUM, leaf: set<AUMHash>, y: AUM, a: AUM)
    requires Closed(S, root) && y in S && a in S && UpTo(y, a) && Digest(y) in leaf
    requires forall b :: b in S && b.prev.Some? && b.prev.value in leaf ==> Digest(b) in leaf
    ensures Digest(a) in leaf
    decreases a
  {
    if y != a {
      var q := ParentOf(a).value;
      UpToDepth(y, q);
      DeeperThanRoot(S, root, y);
      PathStored(S, root, q, a);
      DescendsMarked(S, root, leaf, y, q);
    }
  }

  lemma LeafIsBase(S: set<AUM>, root: AUM, start: set<AUMHash>, leaf: set<AUMHash>)
    requires Closed(S, root) && AllStored(S, leaf) && start <= leaf && LeafSourced(start, leaf, [], [])
    requires forall b :: b in S && b.prev.Some? && b.prev.value in leaf ==> Digest(b) in leaf
    ensures forall h :: h in leaf <==> h.Digest? && h.aum in BaseOf(S, start)
  {
    forall h
      ensures h in leaf <==> h.Digest? && h.aum in BaseOf(S, start)
    {
      if h in leaf {
        MarkedDescends(S, start, leaf, h.aum);
      }
      if h.Digest? && h.aum in BaseOf(S, start) {
        var y :| StartsAt(S, start, y, h.aum);
        DescendsMarked(S, root, leaf, y, h.aum);
      }
    }
  }

  lemma MarkingShrinks(S: set<AUM>, before: set<AUMHash>, after: set<AUMHash>)
    requires before <= after && AllStored(S, after)
    ensures Unmarked(S, after) <= Unmarked(S, before)
    ensures before != after ==> Unmarked(S, after) != Unmarked(S, before)
  {
    if before != after {
      var h :| h in after && h !in before;
      assert h.aum in Unmarked(S, before);
    }
  }

  // ---- Connecting what is kept to the active chain ----

  // The scan: marks, the update compacted to, and whether it was moved back.
  datatype Scan = Scan(v: Verdict, target: AUMHash, adjusted: bool)

  // The marked update's parent is kept, or waits to be scanned.
  ghost predicate ParentCovered(v: Verdict, h: AUMHash, now: seq<AUMHash>, later: seq<AUMHash>) {
    && h.Digest? && h.aum.prev.Some?
    && (h.aum.prev.value in v.Kept() || h.aum.prev.value in now || h.aum.prev.value in later)
  }

  // The target is ch[p], at or before ch[c], and all in between is marked; or
  // it has been moved beyond the oldest stored update (lost), which fails in
  // the end.
  ghost predicate TargetAt(S: set<AUM>, ch: seq<AUM>, c: nat, s: Scan, p: nat, lost: bool) {
    && CutAt(ch, s.v, c) && p <= c
    && (forall t :: p <= t < c ==> Digest(ch[t]) in s.v.ancestor)
    && (s.adjusted <==> p < c || lost)
    && (if lost then p == 0 && ch[0].prev == Some(s.target) && s.target in s.v.ancestor && !IsStored(S, s.target)
        else s.target == Digest(ch[p]) && AllStored(S, s.v.ancestor))
  }

  // Marked updates are connected to the target, and what was kept before the
  // scan is marked or waits.
  ghost predicate Connected(ch: seq<AUM>, c: nat, s: Scan, p: nat, lost: bool, now: seq<AUMHash>, later: seq<AUMHash>)
    requires c < |ch|
  {
    && (!lost ==> forall h :: h in s.v.ancestor ==> (h == s.target && p < c) || ParentCovered(s.v, h, now, later))
    && forall h :: h in s.v.active + s.v.young + s.v.leaf ==>
         h == Digest(ch[c]) || h in s.v.ancestor || h in now || h in later
  }

  ghost predicate ScanInv(S: set<AUM>, ch: seq<AUM>, c: nat, s: Scan, p: nat, lost: bool, now: seq<AUMHash>, later: seq<AUMHash>) {
    TargetAt(S, ch, c, s, p, lost) && Connected(ch, c, s, p, lost, now, later)
  }

  // A hash already marked needs no second look.
  lemma ScanSkip(S: set<AUM>, ch: seq<AUM>, c: nat, s: Scan, p: nat, lost: bool, h: AUMHash, now: seq<AUMHash>, later: seq<AUMHash>)
    requires ScanInv(S, ch, c, s, p, lost, [h] + now, later) && h in s.v.ancestor
    ensures ScanInv(S, ch, c, s, p, lost, now, later)
  {
    forall g | g in s.v.ancestor && !lost && !(g == s.target && p < c) ensures ParentCovered(s.v, g, now, later) {
      assert ParentCovered(s.v, g, [h] + now, later);
    }
  }

  // Marking h when its parent is kept, or is put on the list.
  lemma ScanMark(S: set<AUM>, ch: seq<AUM>, c: nat, s: Scan, p: nat, lost: bool, h: AUMHash,
                 now: seq<AUMHash>, later: seq<AUMHash>, added: seq<AUMHash>)
    requires ScanInv(S, ch, c, s, p, lost, [h] + now, later) && IsStored(S, h) && h.aum.prev.Some?
    requires h.aum.prev.value in s.v.Kept() || h.aum.prev.value in added
    ensures ScanInv(S, ch, c, s.(v := s.v.(ancestor := s.v.ancestor + {h})), p, lost, now, later + added)
  {
    var s' := s.(v := s.v.(ancestor := s.v.ancestor + {h}));
    forall g | g in s'.v.ancestor && !lost && !(g == s.target && p < c) ensures ParentCovered(s'.v, g, now, later + added) {
      if g != h { assert ParentCovered(s.v, g, [h] + now, later); }
    }
  }

  // Moving the target back to ch[t]: all from there to ch[c] gets marked.
  lemma ScanAdjust(S: set<AUM>, ch: seq<AUM>, c: nat, s: Scan, p: nat, lost: bool, h: AUMHash,
                   now: seq<AUMHash>, later: seq<AUMHash>, t: nat)
    requires ScanInv(S, ch, c, s, p, lost, [h] + now, later) && IsStored(S, h) && Linked(ch)
    requires t < c && h.aum.prev == Some(Digest(ch[t])) && Digest(ch[t]) !in s.v.Kept()
    requires forall i :: 0 <= i < |ch| ==> ch[i] in S
    ensures var marks := s.v.ancestor + {h} + Digests(ch[t..c]);
            ScanInv(S, ch, c, Scan(s.v.(ancestor := marks), Digest(ch[t]), true), t, false, now, later + [Digest(ch[t])])
  {
    var marks := s.v.ancestor + {h} + Digests(ch[t..c]);
    var s' := Scan(s.v.(ancestor := marks), Digest(ch[t]), true);
    assert !lost && t < p;
    forall i | t <= i < c ensures Digest(ch[i]) in marks {
      assert ch[t..c][i - t] == ch[i];
    }
    assert TargetAt(S, ch, c, s', t, false);
    forall g | g in marks && g != s'.target ensures ParentCovered(s'.v, g, now, later + [Digest(ch[t])]) {
      if g in Digests(ch[t..c]) || g == s.target {
        MarkedBetween(ch, c, marks, t, p, g);
      } else if g != h {
        assert ParentCovered(s.v, g, [h] + now, later);
      }
    }
  }

  lemma MarkedBetween(ch: seq<AUM>, c: nat, marks: set<AUMHash>, t: nat, p: nat, g: AUMHash)
    requires Linked(ch) && t < p <= c < |ch| && (forall i :: t <= i < c ==> Digest(ch[i]) in marks)
    requires (g in Digests(ch[t..c]) || g == Digest(ch[p])) && g != Digest(ch[t])
    ensures g.Digest? && g.aum.prev.Some? && g.aum.prev.value in marks
  {
    var i :| t <= i <= c && g == Digest(ch[i]);
    assert ch[i - 1 + 1].prev == Some(Digest(ch[i - 1]));
  }

  // Moving the target beyond the oldest stored update.
  lemma ScanLost(S: set<AUM>, ch: seq<AUM>, c: nat, s: Scan, p: nat, lost: bool, h: AUMHash,
                 now: seq<AUMHash>, later: seq<AUMHash>, q: AUMHash)
    requires ScanInv(S, ch, c, s, p, lost, [h] + now, later) && ch[0].prev == Some(q) && !IsStored(S, q)
    ensures var marks := s.v.ancestor + {h, q} + Digests(ch[..c]);
            ScanInv(S, ch, c, Scan(s.v.(ancestor := marks), q, true), 0, true, now, later + [q])
  {
    forall i | 0 <= i < c ensures Digest(ch[i]) in Digests(ch[..c]) {
      assert ch[..c][i] == ch[i];
    }
  }

  // ---- Why the scan marks nothing else ----

  // The oldest update must stay although the chain is cut after it: then the
  // scan finds no way back to the chain.
  ghost predicate RootStuck(ch: seq<AUM>, c: nat, base: set<AUM>) { c > 0 && ch != [] && ch[0] in base }

  // h is an ancestor of something that must stay; an unknown hash turns up
  // only when the root is stuck.
  ghost predicate SourcedHash(S: set<AUM>, ch: seq<AUM>, c: nat, base: set<AUM>, h: AUMHash) {
    if IsStored(S, h) then BelowSome(base, h.aum) else RootStuck(ch, c, base)
  }

  // A waiting hash of the chain's first part is there because it must stay.
  ghost predicate FreshOnChain(ch: seq<AUM>, c: nat, base: set<AUM>, h: AUMHash)
    requires c < |ch|
  {
    forall i :: 0 <= i <= c && h == Digest(ch[i]) ==> i < c && ch[i] in base
  }

  ghost predicate Sourced(S: set<AUM>, ch: seq<AUM>, c: nat, base: set<AUM>, s: Scan, p: nat, lost: bool,
                          now: seq<AUMHash>, later: seq<AUMHash>)
  {
    && p <= c < |ch|
    && (forall h :: h in s.v.ancestor || h in now || h in later ==> SourcedHash(S, ch, c, base, h))
    && (forall h :: (h in now || h in later) && h !in s.v.ancestor ==> FreshOnChain(ch, c, base, h))
    && (forall i :: p < i <= c ==> !AllBelow(ch, c, base, i))
    && (!lost && p < c ==> ch[p] !in base)
    && (lost ==> RootStuck(ch, c, base))
  }

  // The updates that must stay are those marked before the scan.
  ghost predicate BaseIs(v: Verdict, base: set<AUM>) {
    forall h :: h in v.active + v.young + v.leaf <==> h.Digest? && h.aum in base
  }

  lemma SourcedSkip(S: set<AUM>, ch: seq<AUM>, c: nat, base: set<AUM>, s: Scan, p: nat, lost: bool,
                    h: AUMHash, now: seq<AUMHash>, later: seq<AUMHash>)
    requires Sourced(S, ch, c, base, s, p, lost, [h] + now, later)
    ensures Sourced(S, ch, c, base, s, p, lost, now, later)
  {
    assert forall g :: g in now ==> g in [h] + now;
  }

  // A stored update without a stored parent is the root.
  lemma OnlyRootEnds(S: set<AUM>, ch: seq<AUM>, c: nat, base: set<AUM>, h: AUMHash)
    requires c < |ch| && Closed(S, ch[0]) && IsStored(S, h) && FreshOnChain(ch, c, base, h)
    requires h.aum.prev.None? || !IsStored(S, h.aum.prev.value)
    ensures h == Digest(ch[0]) && RootStuck(ch, c, base)
  {
    assert ParentOf(h.aum).Some? ==> h.aum.prev.value.aum == ParentOf(h.aum).value;
  }

  lemma ParentSourced(S: set<AUM>, ch: seq<AUM>, c: nat, base: set<AUM>, h: AUMHash)
    requires c < |ch| && Closed(S, ch[0]) && IsStored(S, h) && h.aum.prev.Some?
    requires SourcedHash(S, ch, c, base, h) && FreshOnChain(ch, c, base, h)
    ensures SourcedHash(S, ch, c, base, h.aum.prev.value)
  {
    var q := h.aum.prev.value;
    if IsStored(S, q) {
      var b :| b in base && UpTo(h.aum, b);
      assert UpTo(q.aum, h.aum);
      UpToTrans(q.aum, h.aum, b);
    } else {
      OnlyRootEnds(S, ch, c, base, h);
    }
  }

  lemma SourcedMark(S: set<AUM>, ch: seq<AUM>, c: nat, base: set<AUM>, s: Scan, p: nat, lost: bool,
                    h: AUMHash, now: seq<AUMHash>, later: seq<AUMHash>, added: seq<AUMHash>)
    requires Sourced(S, ch, c, base, s, p, lost, [h] + now, later) && Closed(S, ch[0])
    requires CutAt(ch, s.v, c) && IsStored(S, h) && h.aum.prev.Some? && h !in s.v.ancestor
    requires added == [] || (added == [h.aum.prev.value] && h.aum.prev.value !in s.v.Kept() && h.aum.prev.value !in s.v.candidate)
    ensures Sourced(S, ch, c, base, s.(v := s.v.(ancestor := s.v.ancestor + {h})), p, lost, now, later + added)
  {
    assert h in [h] + now;
    ParentSourced(S, ch, c, base, h);
    var q := h.aum.prev.value;
    assert ch[c..][0] == ch[c];
    assert added != [] ==> FreshOnChain(ch, c, base, q);
    assert forall g :: g in now ==> g in [h] + now;
  }

  // Where a branch leaves the chain, everything later on the chain is not
  // above all that must stay.
  lemma BranchLimits(ch: seq<AUM>, c: nat, base: set<AUM>, h: AUM, t: nat, i: nat)
    requires Linked(ch) && t < i <= c < |ch| && h.prev == Some(Digest(ch[t]))
    requires BelowSome(base, h) && FreshOnChain(ch, c, base, Digest(h))
    ensures !AllBelow(ch, c, base, i)
  {
    if AllBelow(ch, c, base, i) {
      var b :| b in base && UpTo(h, b);
      ChainUpTo(ch, i, c);
      assert UpTo(ch[i], b);
      LinkedDepth(ch, i);
      LinkedDepth(ch, t);
      LinkedDepth(ch, t + 1);
      LinkedDepth(ch, c);
      UpToLinear(h, ch[i], b);
      OnChainAt(ch, h, i, t + 1);
      assert Digest(h) == Digest(ch[t + 1]);
      assert ch[t + 1] in base && t + 1 < c;
      assert UpTo(ch[i], ch[t + 1]) && ch[i] != ch[t + 1];
      UpToDepth(ch[i], ch[t + 1]);
    }
  }

  lemma SourcedMove(S: set<AUM>, ch: seq<AUM>, c: nat, base: set<AUM>, s: Scan, p: nat, lost: bool,
                    h: AUMHash, now: seq<AUMHash>, later: seq<AUMHash>, t: nat)
    requires Sourced(S, ch, c, base, s, p, lost, [h] + now, later) && BaseIs(s.v, base) && Linked(ch)
    requires CutAt(ch, s.v, c) && IsStored(S, h) && h !in s.v.ancestor && forall i :: 0 <= i < |ch| ==> ch[i] in S
    requires t < c && h.aum.prev == Some(Digest(ch[t])) && Digest(ch[t]) !in s.v.Kept()
    ensures var marks := s.v.ancestor + {h} + Digests(ch[t..c]);
            Sourced(S, ch, c, base, Scan(s.v.(ancestor := marks), Digest(ch[t]), true), t, false, now, later + [Digest(ch[t])])
  {
    var marks := s.v.ancestor + {h} + Digests(ch[t..c]);
    assert h in [h] + now && forall g :: g in now ==> g in [h] + now;
    assert ch[c] in base by {
      assert ch[c..][0] == ch[c];
      assert Digest(ch[c]) in s.v.active;
    }
    assert Digest(ch[t]) in Digests(ch[t..c]) by { assert ch[t..c][0] == ch[t]; }
    forall g | g in Digests(ch[t..c])
      ensures SourcedHash(S, ch, c, base, g)
    {
      var i :| t <= i < c && g == Digest(ch[i]);
      ChainUpTo(ch, i, c);
    }
    forall i | t < i <= c
      ensures !AllBelow(ch, c, base, i)
    {
      BranchLimits(ch, c, base, h.aum, t, i);
    }
  }

  lemma SourcedLost(S: set<AUM>, ch: seq<AUM>, c: nat, base: set<AUM>, s: Scan, p: nat, lost: bool,
                    h: AUMHash, now: seq<AUMHash>, later: seq<AUMHash>, q: AUMHash)
    requires Sourced(S, ch, c, base, s, p, lost, [h] + now, later) && Closed(S, ch[0]) && Linked(ch)
    requires IsStored(S, h) && h !in s.v.ancestor && h.aum.prev == Some(q) && !IsStored(S, q)
    requires BaseIs(s.v, base) && CutAt(ch, s.v, c) && forall i :: 0 <= i < |ch| ==> ch[i] in S
    ensures var marks := s.v.ancestor + {h, q} + Digests(ch[..c]);
            Sourced(S, ch, c, base, Scan(s.v.(ancestor := marks), q, true), 0, true, now, later + [q])
  {
    assert h in [h] + now && forall g :: g in now ==> g in [h] + now;
    OnlyRootEnds(S, ch, c, base, h);
    assert ch[c] in base by {
      assert ch[c..][0] == ch[c];
      assert Digest(ch[c]) in s.v.active;
    }
    forall g | g in Digests(ch[..c])
      ensures SourcedHash(S, ch, c, base, g)
    {
      var i :| 0 <= i < c && g == Digest(ch[i]);
      ChainUpTo(ch, i, c);
    }
    forall i | 0 < i <= c
      ensures !AllBelow(ch, c, base, i)
    {
      RootNotBelow(ch, c, base, i);
    }
  }

  // Both sides of the scan: what is kept is connected, and nothing is kept
  // without need.
  ghost predicate ScanOk(S: set<AUM>, ch: seq<AUM>, c: nat, base: set<AUM>, s: Scan, p: nat, lost: bool,
                         now: seq<AUMHash>, later: seq<AUMHash>)
  {
    ScanInv(S, ch, c, s, p, lost, now, later) && Sourced(S, ch, c, base, s, p, lost, now, later) && BaseIs(s.v, base)
  }

  lemma OkSkip(S: set<AUM>, ch: seq<AUM>, c: nat, base: set<AUM>, s: Scan, p: nat, lost: bool,
               h: AUMHash, now: seq<AUMHash>, later: seq<AUMHash>)
    requires ScanOk(S, ch, c, base, s, p, lost, [h] + now, later) && h in s.v.ancestor
    ensures ScanOk(S, ch, c, base, s, p, lost, now, later)
  {
    ScanSkip(S, ch, c, s, p, lost, h, now, later);
    SourcedSkip(S, ch, c, base, s, p, lost, h, now, later);
  }

  lemma OkMark(S: set<AUM>, ch: seq<AUM>, c: nat, base: set<AUM>, s: Scan, p: nat, lost: bool,
               h: AUMHash, now: seq<AUMHash>, later: seq<AUMHash>, added: seq<AUMHash>)
    requires ScanOk(S, ch, c, base, s, p, lost, [h] + now, later) && Closed(S, ch[0])
    requires IsStored(S, h) && h.aum.prev.Some? && h !in s.v.ancestor
    requires if h.aum.prev.value in s.v.Kept() then added == []
             else added == [h.aum.prev.value] && h.aum.prev.value !in s.v.candidate
    ensures ScanOk(S, ch, c, base, s.(v := s.v.(ancestor := s.v.ancestor + {h})), p, lost, now, later + added)
  {
    ScanMark(S, ch, c, s, p, lost, h, now, later, added);
    SourcedMark(S, ch, c, base, s, p, lost, h, now, later, added);
  }

  lemma OkAdjust(S: set<AUM>, ch: seq<AUM>, c: nat, base: set<AUM>, s: Scan, p: nat, lost: bool,
                 h: AUMHash, now: seq<AUMHash>, later: seq<AUMHash>, t: nat)
    requires ScanOk(S, ch, c, base, s, p, lost, [h] + now, later) && IsStored(S, h) && h !in s.v.ancestor && Linked(ch)
    requires t < c && h.aum.prev == Some(Digest(ch[t])) && Digest(ch[t]) !in s.v.Kept()
    requires forall i :: 0 <= i < |ch| ==> ch[i] in S
    ensures var marks := s.v.ancestor + {h} + Digests(ch[t..c]);
            ScanOk(S, ch, c, base, Scan(s.v.(ancestor := marks), Digest(ch[t]), true), t, false, now, later + [Digest(ch[t])])
  {
    ScanAdjust(S, ch, c, s, p, lost, h, now, later, t);
    SourcedMove(S, ch, c, base, s, p, lost, h, now, later, t);
  }

  lemma OkLost(S: set<AUM>, ch: seq<AUM>, c: nat, base: set<AUM>, s: Scan, p: nat, lost: bool,
               h: AUMHash, now: seq<AUMHash>, later: seq<AUMHash>, q: AUMHash)
    requires ScanOk(S, ch, c, base, s, p, lost, [h] + now, later) && Closed(S, ch[0]) && Linked(ch)
    requires IsStored(S, h) && h !in s.v.ancestor && h.aum.prev == Some(q) && !IsStored(S, q)
    requires forall i :: 0 <= i < |ch| ==> ch[i] in S
    ensures var marks := s.v.ancestor + {h, q} + Digests(ch[..c]);
            ScanOk(S, ch, c, base, Scan(s.v.(ancestor := marks), q, true), 0, true, now, later + [q])
  {
    assert h in [h] + now;
    OnlyRootEnds(S, ch, c, base, h);
    ScanLost(S, ch, c, s, p, lost, h, now, later, q);
    SourcedLost(S, ch, c, base, s, p, lost, h, now, later, q);
  }

  // A waiting hash that is unknown, or has no parent, means the root is stuck.
  lemma StuckScan(S: set<AUM>, ch: seq<AUM>, c: nat, base: set<AUM>, s: Scan, p: nat, lost: bool,
                  h: AUMHash, now: seq<AUMHash>, later: seq<AUMHash>)
    requires ScanOk(S, ch, c, base, s, p, lost, [h] + now, later) && h !in s.v.ancestor && Closed(S, ch[0])
    requires !IsStored(S, h) || h.aum.prev.None?
    ensures RootStuck(ch, c, base)
  {
    assert h in [h] + now;
    assert SourcedHash(S, ch, c, base, h) && FreshOnChain(ch, c, base, h);
    if IsStored(S, h) {
      OnlyRootEnds(S, ch, c, base, h);
    }
  }

  // ---- The scan itself ----

  // The child of next that is on the active chain before ch[c], if any.
  method CandidateChild(m: Mem, v: Verdict, next: AUMHash) returns (r: Option<AUMHash>)
    requires m.Valid()
    ensures r.Some? ==> IsStored(m.Stored(), r.value) && r.value.aum.prev == Some(next) && r.value in v.candidate && r.value !in v.active
    ensures r.None? ==> forall b :: b in m.Stored() && b.prev == Some(next) ==> Digest(b) !in v.candidate || Digest(b) in v.active
  {
    var children := m.ChildAUMs(next);
    for i := 0 to |children|
      invariant forall j :: 0 <= j < i ==> Digest(children[j]) !in v.candidate || Digest(children[j]) in v.active
    {
      var h := Digest(children[i]);
      assert children[i] in children;
      if h in v.candidate && h !in v.active {
        return Some(h);
      }
    }
    r := None;
  }

  // h is the hash before index e of the chain: the oldest's parent before 0.
  ghost predicate HashBefore(ch: seq<AUM>, e: nat, h: AUMHash) {
    if e == 0 then ch != [] && ch[0].prev == Some(h) else e <= |ch| && h == Digest(ch[e - 1])
  }

  lemma CandidateChildIs(S: set<AUM>, ch: seq<AUM>, c: nat, v: Verdict, e: nat, h: AUMHash, b: AUM)
    requires CutAt(ch, v, c) && Linked(ch) && Closed(S, ch[0]) && (forall i :: 0 <= i < |ch| ==> ch[i] in S)
    requires e <= c && HashBefore(ch, e, h) && b in S && b.prev == Some(h)
    ensures Digest(b) in v.candidate ==> e < c && b == ch[e]
    ensures e < c && b == ch[e] ==> Digest(b) in v.candidate && Digest(b) !in v.active
  {
    RootParentUnknown(S, ch[0]);
    if e < c && b == ch[e] {
      if Digest(b) in v.active {
        var i :| c <= i < |ch| && ch[i] == b;
        LinkedDepth(ch, i);
        LinkedDepth(ch, e);
      }
    }
    if Digest(b) in v.candidate {
      assert OnBefore(ch, c, Digest(b));
      var i :| 0 <= i < c && ch[i] == b;
      OneBack(ch, i);
      if e > 0 {
        LinkedDepth(ch, e - 1);
        if i > 0 { LinkedDepth(ch, i - 1); }
      }
    }
  }

  // On the active chain that child is the next update.
  method NextCandidate(m: Mem, v: Verdict, next: AUMHash, ghost ch: seq<AUM>, ghost c: nat, ghost e: nat)
    returns (r: Option<AUMHash>)
    requires Laid(m, ch) && CutAt(ch, v, c) && e <= c && HashBefore(ch, e, next)
    ensures r.Some? <==> e < c
    ensures r.Some? ==> r.value == Digest(ch[e]) && HashBefore(ch, e + 1, r.value)
  {
    r := CandidateChild(m, v, next);
    if e < c {
      OneBack(ch, e);
      CandidateChildIs(m.Stored(), ch, c, v, e, next, ch[e]);
    }
    if r.Some? {
      CandidateChildIs(m.Stored(), ch, c, v, e, next, r.value.aum);
    }
  }

  // marks is marked with the chain from ch[i] to before ch[e] added.
  ghost predicate MarkedTo(marks: set<AUMHash>, marked: set<AUMHash>, ch: seq<AUM>, i: nat, e: nat) {
    i <= e <= |ch| && marks == marked + Digests(ch[i..e])
  }

  lemma MarkedNone(marked: set<AUMHash>, ch: seq<AUM>, i: nat)
    requires i <= |ch|
    ensures MarkedTo(marked, marked, ch, i, i)
  {
  }

  lemma MarkedMore(marks: set<AUMHash>, marked: set<AUMHash>, ch: seq<AUM>, i: nat, e: nat, h: AUMHash)
    requires MarkedTo(marks, marked, ch, i, e) && e < |ch| && h == Digest(ch[e])
    ensures MarkedTo(marks + {h}, marked, ch, i, e + 1)
  {
    assert ch[i..e + 1] == ch[i..e] + [ch[e]];
  }

  // Mark the active chain from ch[i] up to ch[c], given the hash before ch[i].
  method MarkForward(m: Mem, v: Verdict, from: AUMHash, ghost ch: seq<AUM>, ghost c: nat, ghost i: nat)
    returns (marks: set<AUMHash>)
    requires Laid(m, ch) && CutAt(ch, v, c) && i <= c && HashBefore(ch, i, from)
    ensures MarkedTo(marks, v.ancestor, ch, i, c)
  {
    marks := v.ancestor;
    MarkedNone(v.ancestor, ch, i);
    var next := from;
    ghost var e := i;
    while true
      invariant i <= e <= c && MarkedTo(marks, v.ancestor, ch, i, e) && HashBefore(ch, e, next)
      decreases c - e
    {
      var child := NextCandidate(m, v, next, ch, c, e);
      if child.None? {
        return;
      }
      MarkedMore(marks, v.ancestor, ch, i, e, child.value);
      marks := marks + {child.value};
      next, e := child.value, e + 1;
    }
  }

  // Where an update's parent lies when it is a candidate: on the chain, or
  // just beyond its end.
  lemma CandidateParent(S: set<AUM>, ch: seq<AUM>, v: Verdict, c: nat, q: AUMHash) returns (t: nat)
    requires CutAt(ch, v, c) && q in v.candidate && (forall i :: 0 <= i < |ch| ==> ch[i] in S)
    ensures IsStored(S, q) ==> (t < c && q == Digest(ch[t])) || ch[0].prev == Some(q)
    ensures !IsStored(S, q) ==> ch[0].prev == Some(q)
  {
    t := 0;
    if OnBefore(ch, c, q) {
      t :| 0 <= t < c && ch[..c][t] == q.aum;
    }
  }

  // Handling one hash of the list.
  method ScanOne(m: Mem, s: Scan, h: AUMHash, ghost ch: seq<AUM>, ghost c: nat, ghost base: set<AUM>,
                 ghost p: nat, ghost lost: bool, ghost now: seq<AUMHash>, ghost later: seq<AUMHash>)
    returns (r: Result<(Scan, seq<AUMHash>), Failure>, ghost p': nat, ghost lost': bool)
    requires Laid(m, ch) && ScanOk(m.Stored(), ch, c, base, s, p, lost, [h] + now, later)
    ensures r.Ok? ==> ScanOk(m.Stored(), ch, c, base, r.value.0, p', lost', now, later + r.value.1)
    ensures r.Ok? ==> r.value.0.v == s.v.(ancestor := r.value.0.v.ancestor) && s.v.ancestor + {h} <= r.value.0.v.ancestor
    ensures r.Ok? && h !in s.v.ancestor ==> IsStored(m.Stored(), h)
    ensures r.Ok? && h in s.v.ancestor ==> r.value.1 == []
    ensures r.Err? ==> RootStuck(ch, c, base)
  {
    p', lost' := p, lost;
    assert later + [] == later;
    if h in s.v.ancestor {
      OkSkip(m.Stored(), ch, c, base, s, p, lost, h, now, later);
      return Ok((s, [])), p, lost;
    }
    if !IsStored(m.Stored(), h) || h.aum.prev.None? {
      StuckScan(m.Stored(), ch, c, base, s, p, lost, h, now, later);
    }
    var aum := m.AUM(h);
    if aum.None? {
      return Err(NotExist), p, lost;
    }
    if aum.value.prev.None? {
      return Err(NoChain), p, lost;
    }
    var parent := aum.value.prev.value;
    if parent !in s.v.Kept() && parent in s.v.candidate {
      var s';
      s', p', lost' := MoveTarget(m, s, h, parent, ch, c, base, p, lost, now, later);
      return Ok((s', [parent])), p', lost';
    }
    var added := if parent in s.v.Kept() then [] else [parent];
    OkMark(m.Stored(), ch, c, base, s, p, lost, h, now, later, added);
    r := Ok((s.(v := s.v.(ancestor := s.v.ancestor + {h})), added));
  }

  // The parent is on the active chain before the target: move the target.
  method MoveTarget(m: Mem, s: Scan, h: AUMHash, parent: AUMHash, ghost ch: seq<AUM>, ghost c: nat, ghost base: set<AUM>,
                    ghost p: nat, ghost lost: bool, ghost now: seq<AUMHash>, ghost later: seq<AUMHash>)
    returns (s': Scan, ghost p': nat, ghost lost': bool)
    requires Laid(m, ch) && ScanOk(m.Stored(), ch, c, base, s, p, lost, [h] + now, later)
    requires IsStored(m.Stored(), h) && h !in s.v.ancestor && h.aum.prev == Some(parent) && parent in s.v.candidate && parent !in s.v.Kept()
    ensures ScanOk(m.Stored(), ch, c, base, s', p', lost', now, later + [parent])
    ensures s'.v == s.v.(ancestor := s'.v.ancestor) && s.v.ancestor + {h} <= s'.v.ancestor
  {
    RootParentUnknown(m.Stored(), ch[0]);
    ghost var t := CandidateParent(m.Stored(), ch, s.v, c, parent);
    var v1 := s.v.(ancestor := s.v.ancestor + {h} + {parent});
    if IsStored(m.Stored(), parent) {
      OkAdjust(m.Stored(), ch, c, base, s, p, lost, h, now, later, t);
      p', lost' := t, false;
    } else {
      OkLost(m.Stored(), ch, c, base, s, p, lost, h, now, later, parent);
      p', lost' := 0, true;
    }
    ghost var i := if lost' then 0 else t + 1;
    var marks := MarkForward(m, v1, parent, ch, c, i);
    MarksAre(ch, c, s.v.ancestor, h, parent, i, lost');
    s' := Scan(s.v.(ancestor := marks), parent, true);
  }

  lemma MarksAre(ch: seq<AUM>, c: nat, marked: set<AUMHash>, h: AUMHash, parent: AUMHash, i: nat, lost: bool)
    requires i <= c <= |ch| && (lost ==> i == 0) && (!lost ==> i > 0 && parent == Digest(ch[i - 1]))
    ensures lost ==> marked + {h} + {parent} + Digests(ch[i..c]) == marked + {h, parent} + Digests(ch[..c])
    ensures !lost ==> marked + {h} + {parent} + Digests(ch[i..c]) == marked + {h} + Digests(ch[i - 1..c])
  {
    assert lost ==> ch[i..c] == ch[..c];
    assert !lost ==> ch[i - 1..c] == [ch[i - 1]] + ch[i..c];
  }

  // One round of the list.
  method ScanRound(m: Mem, s0: Scan, toScan: seq<AUMHash>, ghost ch: seq<AUM>, ghost c: nat, ghost base: set<AUM>,
                   ghost p0: nat, ghost lost0: bool)
    returns (r: Result<(Scan, seq<AUMHash>), Failure>, ghost p: nat, ghost lost: bool)
    requires Laid(m, ch) && ScanOk(m.Stored(), ch, c, base, s0, p0, lost0, toScan, [])
    ensures r.Ok? ==> ScanOk(m.Stored(), ch, c, base, r.value.0, p, lost, r.value.1, [])
    ensures r.Ok? ==> r.value.0.v == s0.v.(ancestor := r.value.0.v.ancestor) && s0.v.ancestor <= r.value.0.v.ancestor
    ensures r.Ok? ==> r.value.1 == [] || Unmarked(m.Stored(), r.value.0.v.ancestor) < Unmarked(m.Stored(), s0.v.ancestor)
    ensures r.Err? ==> RootStuck(ch, c, base)
  {
    var s, later := s0, [];
    p, lost := p0, lost0;
    assert toScan[0..] == toScan;
    for i := 0 to |toScan|
      invariant ScanOk(m.Stored(), ch, c, base, s, p, lost, toScan[i..], later)
      invariant s.v == s0.v.(ancestor := s.v.ancestor) && s0.v.ancestor <= s.v.ancestor
      invariant later == [] || Unmarked(m.Stored(), s.v.ancestor) < Unmarked(m.Stored(), s0.v.ancestor)
    {
      assert toScan[i..] == [toScan[i]] + toScan[i + 1..];
      var one;
      one, p, lost := ScanOne(m, s, toScan[i], ch, c, base, p, lost, toScan[i + 1..], later);
      if one.Err? {
        return Err(one.error), p, lost;
      }
      MarkOneMore(m.Stored(), s0.v.ancestor, s.v.ancestor, one.value.0.v.ancestor, toScan[i]);
      s, later := one.value.0, later + one.value.1;
    }
    SwapLists(m.Stored(), ch, c, base, s, p, lost, toScan[|toScan|..], later);
    r := Ok((s, later));
  }

  lemma MarkOneMore(S: set<AUM>, first: set<AUMHash>, before: set<AUMHash>, after: set<AUMHash>, h: AUMHash)
    requires first <= before && before + {h} <= after
    ensures Unmarked(S, after) <= Unmarked(S, before) <= Unmarked(S, first)
    ensures h !in before && IsStored(S, h) ==> Unmarked(S, after) < Unmarked(S, first)
  {
    if h !in before && IsStored(S, h) {
      assert h.aum in Unmarked(S, before) && h.aum !in Unmarked(S, after);
    }
  }

  lemma SwapLists(S: set<AUM>, ch: seq<AUM>, c: nat, base: set<AUM>, s: Scan, p: nat, lost: bool, none: seq<AUMHash>, later: seq<AUMHash>)
    requires ScanOk(S, ch, c, base, s, p, lost, none, later) && none == []
    ensures ScanOk(S, ch, c, base, s, p, lost, later, [])
  {
    forall g | g in s.v.ancestor && !lost && !(g == s.target && p < c) ensures ParentCovered(s.v, g, later, []) {
      assert ParentCovered(s.v, g, none, later);
    }
  }

  // What a scan leaves: everything kept reaches ch[k] through kept updates.
  ghost predicate KeptOk(S: set<AUM>, ch: seq<AUM>, k: nat, kept: set<AUMHash>) {
    && k < |ch| && ch[k].kind == AUMCheckpoint
    && AllStored(S, kept)
    && (forall i :: k <= i < |ch| ==> Digest(ch[i]) in kept)
    && (forall h :: h in kept && h != Digest(ch[k]) ==> h.aum.prev.Some? && h.aum.prev.value in kept)
  }

  // The work list, until it is empty.
  method ScanAll(m: Mem, v: Verdict, target: AUMHash, ghost ch: seq<AUM>, ghost c: nat, ghost base: set<AUM>)
    returns (r: Result<Scan, Failure>, ghost p: nat, ghost lost: bool)
    requires Laid(m, ch) && CutAt(ch, v, c) && target == Digest(ch[c]) && v.ancestor == {}
    requires BaseIs(v, base) && base <= m.Stored()
    ensures r.Ok? ==> ScanOk(m.Stored(), ch, c, base, r.value, p, lost, [], [])
    ensures r.Ok? ==> r.value.v == v.(ancestor := r.value.v.ancestor)
    ensures r.Err? ==> RootStuck(ch, c, base)
  {
    var toScan := ToSeq(v.Kept() - {target});
    var s := Scan(v, target, false);
    p, lost := c, false;
    ghost var S := m.Stored();
    ScanStart(S, ch, c, base, s, toScan);
    while |toScan| > 0
      invariant ScanOk(S, ch, c, base, s, p, lost, toScan, []) && s.v == v.(ancestor := s.v.ancestor)
      decreases Unmarked(S, s.v.ancestor), |toScan|
    {
      var round;
      round, p, lost := ScanRound(m, s, toScan, ch, c, base, p, lost);
      if round.Err? {
        return Err(round.error), p, lost;
      }
      s, toScan := round.value.0, round.value.1;
    }
    assert toScan == [];
    r := Ok(s);
  }

  lemma ScanStart(S: set<AUM>, ch: seq<AUM>, c: nat, base: set<AUM>, s: Scan, toScan: seq<AUMHash>)
    requires BaseIs(s.v, base) && base <= S && Linked(ch) && CutAt(ch, s.v, c) && s.target == Digest(ch[c]) && s.v.ancestor == {} && !s.adjusted
    requires forall h :: h in toScan <==> h in s.v.Kept() - {s.target}
    ensures ScanOk(S, ch, c, base, s, c, false, toScan, [])
  {
    forall h | h in toScan
      ensures SourcedHash(S, ch, c, base, h) && FreshOnChain(ch, c, base, h)
    {
      assert h in s.v.active + s.v.young + s.v.leaf;
      assert UpTo(h.aum, h.aum);
    }
  }

  // Everything kept lies at or below the target.
  lemma {:induction false} KeptUp(S: set<AUM>, ch: seq<AUM>, c: nat, s: Scan, p: nat, h: AUMHash)
    requires ScanInv(S, ch, c, s, p, false, [], []) && AllStored(S, s.v.Kept()) && Linked(ch) && h in s.v.Kept()
    ensures UpTo(ch[p], h.aum)
    decreases h.aum
  {
    if h == Digest(ch[c]) {
      ChainUpTo(ch, p, c);
    } else if h != s.target {
      MarkedParent(ch, c, s, p, h);
      KeptUp(S, ch, c, s, p, h.aum.prev.value);
    }
  }

  lemma KeptAllBelow(S: set<AUM>, ch: seq<AUM>, c: nat, base: set<AUM>, s: Scan, p: nat)
    requires ScanOk(S, ch, c, base, s, p, false, [], []) && AllStored(S, s.v.Kept()) && Linked(ch)
    ensures AllBelow(ch, c, base, p) && !RootStuck(ch, c, base)
  {
    forall b | b in base
      ensures b == ch[c] || (UpTo(ch[p], b) && b != ch[p])
    {
      assert Digest(b) in s.v.active + s.v.young + s.v.leaf;
      KeptUp(S, ch, c, s, p, Digest(b));
    }
    if RootStuck(ch, c, base) {
      RootNotBelow(ch, c, base, p);
    }
  }

  // Where compaction leaves the chain: at the last checkpoint not after ch[p],
  // the last update of the chain, up to ch[c], above everything that must stay.
  ghost predicate CompactedAt(ch: seq<AUM>, c: nat, base: set<AUM>, p: nat, k: nat) {
    && k <= p <= c < |ch| && AllBelow(ch, c, base, p) && (forall i :: p < i <= c ==> !AllBelow(ch, c, base, i))
    && ch[k].kind == AUMCheckpoint && NoCheckpoint(ch, k, p)
  }

  // Nothing is kept that is not above something that must stay.
  ghost predicate NoneExtra(base: set<AUM>, kept: set<AUMHash>) {
    forall h :: h in kept ==> h.Digest? && BelowSome(base, h.aum)
  }

  lemma ScanNoneExtra(S: set<AUM>, ch: seq<AUM>, c: nat, base: set<AUM>, s: Scan, p: nat)
    requires ScanOk(S, ch, c, base, s, p, false, [], []) && AllStored(S, s.v.Kept())
    ensures NoneExtra(base, s.v.Kept())
  {
    forall h | h in s.v.Kept()
      ensures h.Digest? && BelowSome(base, h.aum)
    {
      if h in s.v.ancestor {
        assert SourcedHash(S, ch, c, base, h);
      } else {
        assert h in s.v.active + s.v.young + s.v.leaf && UpTo(h.aum, h.aum);
      }
    }
  }

  lemma ChainNoneExtra(ch: seq<AUM>, c: nat, base: set<AUM>, kept: set<AUMHash>, k: nat, p: nat)
    requires NoneExtra(base, kept) && Linked(ch) && k <= p <= c < |ch| && ch[c] in base
    ensures NoneExtra(base, kept + Digests(ch[k..p + 1]))
  {
    forall h | h in Digests(ch[k..p + 1])
      ensures BelowSome(base, h.aum)
    {
      var i :| k <= i <= p && h == Digest(ch[i]);
      ChainUpTo(ch, i, c);
    }
  }

  // markAncestorIntersectionAUMs.
  method MarkAncestorIntersection(m: Mem, v: Verdict, target: AUMHash,
                                  ghost ch: seq<AUM>, ghost c: nat, ghost base: set<AUM>)
    returns (r: Result<(AUMHash, Verdict), Failure>, ghost k: nat, ghost p: nat)
    requires Laid(m, ch) && CutAt(ch, v, c) && target == Digest(ch[c]) && v.ancestor == {}
    requires BaseIs(v, base) && base <= m.Stored()
    ensures r.Err? <==> RootStuck(ch, c, base)
    ensures r.Ok? ==> KeptOk(m.Stored(), ch, k, r.value.1.Kept()) && r.value.0 == Digest(ch[k])
    ensures r.Ok? ==> CompactedAt(ch, c, base, p, k) && NoneExtra(base, r.value.1.Kept())
    ensures r.Ok? ==> v.Kept() <= r.value.1.Kept() && r.value.1.known == v.known
  {
    k, p := 0, 0;
    ghost var lost;
    var scan;
    scan, p, lost := ScanAll(m, v, target, ch, c, base);
    if scan.Err? {
      return Err(scan.error), k, p;
    }
    var s := scan.value;
    if !s.adjusted {
      ScanDone(m.Stored(), ch, c, base, s, p);
      ScanUnmoved(m.Stored(), ch, c, s, p);
      return Ok((s.target, s.v)), c, p;
    }
    var aum := m.AUM(s.target);
    if aum.None? {
      return Err(NotExist), k, p;
    }
    var moved;
    moved, k := MoveToCheckpoint(m, s, aum.value, ch, c, base, p);
    r := Ok(moved);
  }

  // The target was moved back: on to the nearest checkpoint before it.
  method MoveToCheckpoint(m: Mem, s: Scan, start: AUM, ghost ch: seq<AUM>, ghost c: nat, ghost base: set<AUM>, ghost p: nat)
    returns (moved: (AUMHash, Verdict), ghost k: nat)
    requires Laid(m, ch) && ScanOk(m.Stored(), ch, c, base, s, p, false, [], []) && p < c && start == ch[p] && base <= m.Stored()
    ensures !RootStuck(ch, c, base)
    ensures KeptOk(m.Stored(), ch, k, moved.1.Kept()) && moved.0 == Digest(ch[k])
    ensures CompactedAt(ch, c, base, p, k) && NoneExtra(base, moved.1.Kept())
    ensures s.v.Kept() <= moved.1.Kept() && moved.1.known == s.v.known
  {
    ScanDone(m.Stored(), ch, c, base, s, p);
    var newTarget, active;
    newTarget, active, k := BackToCheckpoint(m, s.v.active, start, ch, p);
    ScanMoved(m.Stored(), ch, c, s, p, k, active);
    ChainNoneExtra(ch, c, base, s.v.Kept(), k, p);
    KeptWithChain(s.v, active, Digests(ch[k..p + 1]));
    moved := (newTarget, s.v.(active := active));
  }

  lemma KeptWithChain(v: Verdict, active: set<AUMHash>, more: set<AUMHash>)
    requires active == v.active + more
    ensures v.(active := active).Kept() == v.Kept() + more
  {
  }

  // What a finished scan that was not lost means.
  lemma ScanDone(S: set<AUM>, ch: seq<AUM>, c: nat, base: set<AUM>, s: Scan, p: nat)
    requires ScanOk(S, ch, c, base, s, p, false, [], []) && base <= S && Linked(ch)
    ensures AllStored(S, s.v.active + s.v.young + s.v.leaf) && AllStored(S, s.v.Kept())
    ensures AllBelow(ch, c, base, p) && !RootStuck(ch, c, base) && NoneExtra(base, s.v.Kept()) && ch[c] in base
    ensures forall i :: p < i <= c ==> !AllBelow(ch, c, base, i)
  {
    assert AllStored(S, s.v.active + s.v.young + s.v.leaf);
    KeptAllBelow(S, ch, c, base, s, p);
    ScanNoneExtra(S, ch, c, base, s, p);
    assert ch[c..][0] == ch[c] && Digest(ch[c]) in s.v.active;
  }

  lemma ScanUnmoved(S: set<AUM>, ch: seq<AUM>, c: nat, s: Scan, p: nat)
    requires ScanInv(S, ch, c, s, p, false, [], []) && !s.adjusted
    requires AllStored(S, s.v.active + s.v.young + s.v.leaf)
    ensures KeptOk(S, ch, c, s.v.Kept()) && s.target == Digest(ch[c])
  {
    forall i | c <= i < |ch| ensures Digest(ch[i]) in s.v.Kept() { assert ch[c..][i - c] == ch[i]; }
    forall h | h in s.v.Kept() && h != Digest(ch[c]) ensures h.aum.prev.Some? && h.aum.prev.value in s.v.Kept() {
      assert h in s.v.ancestor ==> ParentCovered(s.v, h, [], []);
    }
  }

  lemma ScanMoved(S: set<AUM>, ch: seq<AUM>, c: nat, s: Scan, p: nat, k: nat, active: set<AUMHash>)
    requires ScanInv(S, ch, c, s, p, false, [], []) && p < c && k <= p
    requires AllStored(S, s.v.active + s.v.young + s.v.leaf) && Linked(ch) && forall i :: 0 <= i < |ch| ==> ch[i] in S
    requires ch[k].kind == AUMCheckpoint && active == s.v.active + Digests(ch[k..p + 1])
    ensures KeptOk(S, ch, k, s.v.(active := active).Kept())
  {
    var kept := s.v.(active := active).Kept();
    assert kept == s.v.Kept() + Digests(ch[k..p + 1]);
    assert AllStored(S, kept);
    assert s.target in Digests(ch[k..p + 1]) by { assert ch[k..p + 1][p - k] == ch[p]; }
    ChainKept(ch, k, p, c, s.v, kept);
    forall h | h in kept && h != Digest(ch[k]) ensures h.aum.prev.Some? && h.aum.prev.value in kept {
      if h in Digests(ch[k..p + 1]) || h == Digest(ch[c]) {
        OnKeptChain(ch, k, p, c, h, kept);
      } else {
        MarkedParent(ch, c, s, p, h);
      }
    }
  }

  lemma MarkedParent(ch: seq<AUM>, c: nat, s: Scan, p: nat, h: AUMHash)
    requires c < |ch| && Connected(ch, c, s, p, false, [], []) && h in s.v.Kept() && h != Digest(ch[c]) && h != s.target
    ensures h.Digest? && h.aum.prev.Some? && h.aum.prev.value in s.v.Kept()
  {
    assert h in s.v.ancestor;
    assert ParentCovered(s.v, h, [], []);
  }

  lemma ChainKept(ch: seq<AUM>, k: nat, p: nat, c: nat, v: Verdict, kept: set<AUMHash>)
    requires k <= p < c < |ch| && v.active == Digests(ch[c..]) && (forall t :: p <= t < c ==> Digest(ch[t]) in v.ancestor)
    requires v.Kept() + Digests(ch[k..p + 1]) <= kept
    ensures forall i :: k <= i < |ch| ==> Digest(ch[i]) in kept
  {
    forall i | k <= i < |ch| ensures Digest(ch[i]) in kept {
      assert i <= p ==> ch[k..p + 1][i - k] == ch[i];
      assert i >= c ==> ch[c..][i - c] == ch[i];
    }
  }

  lemma OnKeptChain(ch: seq<AUM>, k: nat, p: nat, c: nat, h: AUMHash, kept: set<AUMHash>)
    requires Linked(ch) && k <= p < c < |ch| && (forall i :: k <= i < |ch| ==> Digest(ch[i]) in kept)
    requires (h in Digests(ch[k..p + 1]) || h == Digest(ch[c])) && h != Digest(ch[k])
    ensures h.aum.prev.Some? && h.aum.prev.value in kept
  {
    var i :| k < i < |ch| && h == Digest(ch[i]);
    assert ch[i - 1 + 1].prev == Some(Digest(ch[i - 1]));
  }

  // No checkpoint after ch[k] up to ch[p].
  ghost predicate NoCheckpoint(ch: seq<AUM>, k: nat, p: nat)
    requires p < |ch|
  {
    forall i :: k < i <= p ==> ch[i].kind != AUMCheckpoint
  }

  // Back from ch[p] to the nearest checkpoint, marking on the way.
  method BackToCheckpoint(m: Mem, active0: set<AUMHash>, start: AUM, ghost ch: seq<AUM>, ghost p: nat)
    returns (target: AUMHash, active: set<AUMHash>, ghost k: nat)
    requires Laid(m, ch) && p < |ch| && start == ch[p]
    ensures k <= p && target == Digest(ch[k]) && ch[k].kind == AUMCheckpoint
    ensures NoCheckpoint(ch, k, p)
    ensures active == active0 + Digests(ch[k..p + 1])
  {
    var next := start;
    k := p;
    active := active0 + {Digest(next)};
    assert ch[p..p + 1] == [ch[p]];
    while next.kind != AUMCheckpoint
      invariant k <= p && next == ch[k] && BackMarked(active, active0, ch, k, p) && NoCheckpoint(ch, k, p)
      decreases k
    {
      var parent := StoredParent(m, next, ch, k);
      BackMarkedMore(active, active0, ch, k, p);
      next, k := parent.value, k - 1;
      active := active + {Digest(next)};
    }
    target := Digest(next);
  }

  ghost predicate BackMarked(active: set<AUMHash>, active0: set<AUMHash>, ch: seq<AUM>, k: nat, p: nat) {
    k <= p < |ch| && active == active0 + Digests(ch[k..p + 1])
  }

  lemma BackMarkedMore(active: set<AUMHash>, active0: set<AUMHash>, ch: seq<AUM>, k: nat, p: nat)
    requires BackMarked(active, active0, ch, k, p) && k > 0
    ensures BackMarked(active + {Digest(ch[k - 1])}, active0, ch, k - 1, p)
  {
    assert ch[k - 1..p + 1] == [ch[k - 1]] + ch[k..p + 1];
  }

  // ---- Compaction as a whole ----

  ghost function KeptOf(S: set<AUM>, kept: set<AUMHash>): set<AUM> { set a | a in S && Digest(a) in kept }

  lemma {:induction false} KeptDescends(S: set<AUM>, R: set<AUM>, ch: seq<AUM>, k: nat, kept: set<AUMHash>)
    requires KeptOk(S, ch, k, kept) && R == KeptOf(S, kept)
    ensures Closed(R, ch[k])
  {
    forall a | a in R && a != ch[k] ensures ParentOf(a).Some? && ParentOf(a).value in R {
      assert Digest(a) in kept && a.prev.value in kept;
    }
  }

  // What is kept is an authority's storage in its own right, with the same
  // chain in force from the new oldest update on.
  lemma KeptStands(env: Env, S: set<AUM>, root: AUM, ch: seq<AUM>, k: nat, kept: set<AUMHash>, R: set<AUM>)
    requires Rooted(env, S, root) && NoCollisions(env, S) && Active(env, S, root, ch) && KeptOk(S, ch, k, kept)
    requires R == KeptOf(S, kept)
    ensures Rooted(env, R, ch[k]) && NoCollisions(env, R) && Active(env, R, ch[k], ch[k..])
  {
    KeptDescends(S, R, ch, k, kept);
    RootedGood(env, S, root, ch[k]);
    forall a | a in R && a != ch[k] ensures VerifiedStep(env, a) {
      if a == root {
        DeeperThanRoot(R, ch[k], root);
        DeeperThanRoot(S, root, ch[k]);
      }
    }
    SuffixActive(env, S, root, ch, k);
    var tail := ch[k..];
    forall i | 0 <= i < |tail| - 1 ensures IsNext(env, R, tail[i], tail[i + 1]) {
      assert IsNext(env, S, tail[i], tail[i + 1]) && tail[i + 1] == ch[k + i + 1];
    }
  }

  // Kept is exactly what lies between the new oldest update and something
  // that must stay.
  ghost predicate Needed(ch: seq<AUM>, k: nat, base: set<AUM>, a: AUM)
    requires k < |ch|
  {
    UpTo(ch[k], a) && BelowSome(base, a)
  }

  lemma {:induction false} KeptBelowOldest(S: set<AUM>, ch: seq<AUM>, k: nat, kept: set<AUMHash>, a: AUM)
    requires KeptOk(S, ch, k, kept) && Digest(a) in kept
    ensures UpTo(ch[k], a)
    decreases a
  {
    if a != ch[k] {
      assert Digest(a) != Digest(ch[k]) && a.prev.value in kept;
      KeptBelowOldest(S, ch, k, kept, a.prev.value.aum);
    }
  }

  lemma {:induction false} BetweenKept(S: set<AUM>, ch: seq<AUM>, k: nat, kept: set<AUMHash>, a: AUM, b: AUM)
    requires KeptOk(S, ch, k, kept) && Digest(b) in kept && UpTo(a, b) && UpTo(ch[k], a)
    ensures Digest(a) in kept
    decreases b
  {
    if a != b {
      UpToDepth(a, b);
      UpToDepth(ch[k], a);
      assert Digest(b) != Digest(ch[k]) && b.prev.value in kept;
      BetweenKept(S, ch, k, kept, a, ParentOf(b).value);
    }
  }

  lemma KeptIffNeeded(S: set<AUM>, ch: seq<AUM>, k: nat, kept: set<AUMHash>, base: set<AUM>, a: AUM)
    requires KeptOk(S, ch, k, kept) && NoneExtra(base, kept) && forall b :: b in base ==> Digest(b) in kept
    ensures Digest(a) in kept <==> Needed(ch, k, base, a)
  {
    if Digest(a) in kept {
      KeptBelowOldest(S, ch, k, kept, a);
    }
    if Needed(ch, k, base, a) {
      var b :| b in base && UpTo(a, b);
      BetweenKept(S, ch, k, kept, a, b);
    }
  }

  ghost function YoungIn(m: Mem, minTime: int): set<AUMHash>
    requires m.Valid()
    reads m
  {
    set h | h in m.aums && m.commitTimes[h] > minTime
  }

  // What must stay: the chain from the cut on, everything young, and all that
  // descends from them.
  ghost function Base(S: set<AUM>, ch: seq<AUM>, young: set<AUMHash>, c: nat): set<AUM>
    requires c <= |ch|
  {
    BaseOf(S, young + Digests(ch[c..]))
  }

  // Compaction is possible: the chain can be cut, and not behind a young root.
  ghost predicate CanCompact(ch: seq<AUM>, young: set<AUMHash>, minChain: nat) {
    exists c :: CutIndex(ch, young, minChain, c) && (c == 0 || Digest(ch[0]) !in young)
  }

  lemma CutUnique(ch: seq<AUM>, young: set<AUMHash>, minChain: nat, c: nat, d: nat)
    requires CutIndex(ch, young, minChain, c) && CutIndex(ch, young, minChain, d)
    ensures c == d
  {
  }

  lemma RootStuckIff(S: set<AUM>, ch: seq<AUM>, young: set<AUMHash>, c: nat)
    requires c < |ch| && Linked(ch) && Closed(S, ch[0])
    ensures RootStuck(ch, c, Base(S, ch, young, c)) <==> c > 0 && Digest(ch[0]) in young
  {
    var start := young + Digests(ch[c..]);
    if RootStuck(ch, c, Base(S, ch, young, c)) {
      var y :| StartsAt(S, start, y, ch[0]);
      DeeperThanRoot(S, ch[0], y);
      UpToDepth(y, ch[0]);
      if Digest(ch[0]) in Digests(ch[c..]) {
        var i :| c <= i < |ch| && ch[i] == ch[0];
        LinkedDepth(ch, i);
      }
    }
    if c > 0 && Digest(ch[0]) in young {
      assert StartsAt(S, start, ch[0], ch[0]);
    }
  }

  // What compaction leaves of S: the chain is cut as late as the options allow,
  // the new oldest update is a checkpoint as late as what must stay allows, and
  // exactly what is needed between the two remains.
  ghost predicate CompactedTo(S: set<AUM>, R: set<AUM>, ch: seq<AUM>, young: set<AUMHash>, minChain: nat, c: nat, p: nat, k: nat) {
    && CutIndex(ch, young, minChain, c) && CompactedAt(ch, c, Base(S, ch, young, c), p, k)
    && forall x {:trigger x in R} :: x in R <==> x in S && Needed(ch, k, Base(S, ch, young, c), x)
  }

  // So the newest minChain updates of the chain and everything young stay, as
  // the options promise.
  lemma KeepsNewestAndYoung(S: set<AUM>, R: set<AUM>, ch: seq<AUM>, young: set<AUMHash>, minChain: nat, c: nat, p: nat, k: nat)
    requires CompactedTo(S, R, ch, young, minChain, c, p, k) && Linked(ch) && forall i :: 0 <= i < |ch| ==> ch[i] in S
    ensures forall i :: 0 <= i < |ch| && i >= |ch| - minChain ==> ch[i] in R
    ensures forall x :: x in S && Digest(x) in young ==> x in R
  {
    var start, base := young + Digests(ch[c..]), Base(S, ch, young, c);
    forall x | x in S && Digest(x) in start
      ensures x in R
    {
      assert StartsAt(S, start, x, x) && x in base && UpTo(x, x);
      ChainUpTo(ch, k, p);
      ChainUpTo(ch, p, c);
      UpToTrans(ch[k], ch[p], x);
    }
    forall i | 0 <= i < |ch| && i >= |ch| - minChain
      ensures ch[i] in R
    {
      assert ch[c..][i - c] == ch[i];
    }
  }

  // Compact forgets old updates.  It succeeds exactly when the options are
  // positive and compaction is possible; otherwise nothing is forgotten.  The
  // authority stands as before on the same head and state.
  method Compact(env: Env, m: Mem, a: Authority, minChain: nat, minAge: nat, now: int, ghost ch: seq<AUM>, ghost young: set<AUMHash>)
    returns (r: Result<AUMHash, Failure>, ghost k: nat, ghost p: nat, ghost c: nat)
    requires Standing(env, m, a, ch) && young == YoungIn(m, now - minAge)
    modifies m
    ensures m.Valid() && (r.Ok? <==> minChain > 0 && minAge > 0 && CanCompact(ch, young, minChain))
    ensures TimesLeft(old(m.commitTimes), m.commitTimes)
    ensures r.Err? ==> m.Stored() == old(m.Stored()) && m.lastActiveAncestor == old(m.lastActiveAncestor)
    ensures r.Ok? ==> CompactedTo(old(m.Stored()), m.Stored(), ch, young, minChain, c, p, k)
    ensures r.Ok? ==> r.value == Digest(ch[k]) && m.lastActiveAncestor == Some(r.value)
    ensures r.Ok? ==> Standing(env, m, a.(oldest := ch[k]), ch[k..])
  {
    k, p, c := 0, 0, 0;
    if minChain == 0 || minAge == 0 {
      return Err(InvalidState), k, p, c;
    }
    ghost var S := m.Stored();
    var v, marked;
    StandingLaid(env, m, a, ch);
    marked, v, k, p, c := MarkAll(m, minChain, now - minAge, a.head, ch);
    if marked.Err? {
      return Err(marked.error), k, p, c;
    }
    ghost var R := KeptOf(S, v.Kept());
    StandsOn(env, S, a.oldest, ch, k, v.Kept(), R);
    Forget(m, v, marked.value);
    assert m.Stored() == R;
    r := Ok(marked.value);
  }

  lemma StandingLaid(env: Env, m: Mem, a: Authority, ch: seq<AUM>)
    requires Standing(env, m, a, ch)
    ensures Laid(m, ch) && a.head == Last(ch)
  {
    StandingChain(env, m, a, ch);
  }

  lemma StandsOn(env: Env, S: set<AUM>, root: AUM, ch: seq<AUM>, k: nat, kept: set<AUMHash>, R: set<AUM>)
    requires Rooted(env, S, root) && NoCollisions(env, S) && Active(env, S, root, ch)
    requires KeptOk(S, ch, k, kept) && R == KeptOf(S, kept)
    ensures Rooted(env, R, ch[k]) && NoCollisions(env, R) && Active(env, R, ch[k], ch[k..]) && Last(ch[k..]) == Last(ch)
  {
    KeptStands(env, S, root, ch, k, kept, R);
  }

  // The deletion at the end: everything known without a mark.
  method Forget(m: Mem, v: Verdict, oldest: AUMHash)
    requires m.Valid() && v.known == m.aums.Keys
    modifies m
    ensures m.Valid() && m.lastActiveAncestor == Some(oldest)
    ensures m.Stored() == KeptOf(old(m.Stored()), v.Kept()) && TimesLeft(old(m.commitTimes), m.commitTimes)
  {
    var toDelete := ToSeq(v.known - v.Kept());
    PurgedIsKept(m, v, toDelete);
    m.SetLastActiveAncestor(oldest);
    m.PurgeAUMs(toDelete);
  }

  lemma PurgedIsKept(m: Mem, v: Verdict, toDelete: seq<AUMHash>)
    requires m.Valid() && v.known == m.aums.Keys && forall h :: h in toDelete <==> h in v.known - v.Kept()
    ensures (set a | a in m.Stored() && Digest(a) !in toDelete) == KeptOf(m.Stored(), v.Kept())
  {
    forall a | a in m.Stored() ensures Digest(a) in v.known { m.StoredIff(Digest(a)); }
  }

  // All the marking, before anything is deleted.
  method MarkAll(m: Mem, minChain: nat, minTime: int, head: AUM, ghost ch: seq<AUM>)
    returns (r: Result<AUMHash, Failure>, v: Verdict, ghost k: nat, ghost p: nat, ghost c: nat)
    requires Laid(m, ch) && head == Last(ch) && minChain > 0
    ensures r.Ok? <==> CanCompact(ch, YoungIn(m, minTime), minChain)
    ensures r.Ok? ==> CompactedTo(m.Stored(), KeptOf(m.Stored(), v.Kept()), ch, YoungIn(m, minTime), minChain, c, p, k)
    ensures r.Ok? ==> KeptOk(m.Stored(), ch, k, v.Kept()) && r.value == Digest(ch[k]) && v.known == m.aums.Keys
  {
    k, p := 0, 0;
    ghost var S, young := m.Stored(), YoungIn(m, minTime);
    v := MarkYoungAUMs(m, Verdict(m.aums.Keys, {}, {}, {}, {}, {}), minTime);
    assert v.young == young;
    r, v, c := MarkActiveChain(m, v, minChain, head, ch);
    if r.Err? {
      return;
    }
    v := MarkedBase(m, v, ch[0], ch, c);
    ghost var base := Base(S, ch, young, c);
    var last;
    last, k, p := MarkAncestorIntersection(m, v, r.value, ch, c, base);
    CanCompactIff(S, ch, young, minChain, c);
    if last.Err? {
      return Err(last.error), v, k, p, c;
    }
    r, v := Ok(last.value.0), last.value.1;
    forall x | x in S
      ensures Digest(x) in v.Kept() <==> Needed(ch, k, base, x)
    {
      KeptIffNeeded(S, ch, k, v.Kept(), base, x);
    }
  }

  lemma CanCompactIff(S: set<AUM>, ch: seq<AUM>, young: set<AUMHash>, minChain: nat, c: nat)
    requires CutIndex(ch, young, minChain, c) && Linked(ch) && Closed(S, ch[0])
    ensures CanCompact(ch, young, minChain) <==> !RootStuck(ch, c, Base(S, ch, young, c))
  {
    RootStuckIff(S, ch, young, c);
    forall d | CutIndex(ch, young, minChain, d)
      ensures d == c
    {
      CutUnique(ch, young, minChain, c, d);
    }
  }

  // Marking descendants makes what is marked the base.
  method MarkedBase(m: Mem, v: Verdict, ghost root: AUM, ghost ch: seq<AUM>, ghost c: nat) returns (w: Verdict)
    requires m.Valid() && Closed(m.Stored(), root) && v.leaf == {} && v.ancestor == {} && c <= |ch|
    requires v.active == Digests(ch[c..]) && (forall i :: 0 <= i < |ch| ==> ch[i] in m.Stored())
    requires forall h :: h in v.young ==> h in m.aums
    ensures w == v.(leaf := w.leaf) && BaseIs(w, Base(m.Stored(), ch, v.young, c))
  {
    forall h | h in v.active + v.young
      ensures IsStored(m.Stored(), h)
    {
      m.StoredIff(h);
    }
    w := MarkDescendantAUMs(m, v);
    assert v.active + v.young == v.young + Digests(ch[c..]);
    LeafIsBase(m.Stored(), root, v.active + v.young, w.leaf);
  }
}
