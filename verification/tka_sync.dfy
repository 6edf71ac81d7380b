// Synchronising two authorities (tka/sync.go): what each offers, which
// updates it sends, and that both end up with the same head.
module TkaSync {
  import opened Common
  import opened TkaTypes
  import opened TkaState
  import opened TkaChain
  import opened TkaStore
  import opened TkaAuthority

  const AncestorsSkipStart := 4
  const MaxSyncIter := 2000
  const MaxSyncHeadIntersectionIter := 400

  datatype SyncOffer = SyncOffer(head: AUMHash, ancestors: seq<AUMHash>)

  datatype Intersection = UpToDate | HeadIntersection(h: AUMHash) | TailIntersection(h: AUMHash)

  // The authority stands at the end of ch, the chain in force in its storage.
  ghost predicate Standing(env: Env, m: Mem, a: Authority, ch: seq<AUM>)
    reads m
  {
    && Ready(env, m, a.oldest) && Active(env, m.Stored(), a.oldest, ch)
    && Last(ch) == a.head && StateAt(a.head) == Some(a.state)
  }

  lemma StandingChain(env: Env, m: Mem, a: Authority, ch: seq<AUM>)
    requires Standing(env, m, a, ch)
    ensures ch != [] && ch[0] == a.oldest && Linked(ch)
    ensures forall i :: 0 <= i < |ch| ==> ch[i] in m.Stored()
  {
    PathLinked(env, m.Stored(), ch);
  }

  // ---- The offer ----

  // The hash d updates before the head, if the chain is that long.
  ghost function Back(ch: seq<AUM>, d: nat): seq<AUMHash> {
    if d < |ch| then [Digest(ch[|ch| - 1 - d])] else []
  }

  // Of the ancestors 4, 16, 64 and 256 updates back, those fewer than i back.
  ghost function BackUpTo(ch: seq<AUM>, i: nat): seq<AUMHash> {
    (if 4 < i then Back(ch, 4) else []) + (if 16 < i then Back(ch, 16) else []) +
    (if 64 < i then Back(ch, 64) else []) + (if 256 < i then Back(ch, 256) else [])
  }

  ghost function Offered(ch: seq<AUM>): seq<AUMHash>
    requires ch != []
  {
    BackUpTo(ch, 257) + [Digest(ch[0])]
  }

  ghost function SkipAt(i: nat): nat {
    if i <= 4 then 4 else if i <= 16 then 16 else if i <= 64 then 64 else if i <= 256 then 256 else 1024
  }

  // The loop of SyncOffer, walking back from the head.
  method BackAncestors(m: Mem, head: AUM, oldest: AUM, ghost ch: seq<AUM>) returns (ancestors: seq<AUMHash>)
    requires m.Valid() && ch != [] && Linked(ch) && ch[0] == oldest && Last(ch) == head
    requires forall i :: 0 <= i < |ch| ==> ch[i] in m.Stored()
    ensures ancestors == BackUpTo(ch, 257)
  {
    ancestors := [];
    var skip := AncestorsSkipStart;
    var curs := Digest(head);
    var i := 0;
    while i < MaxSyncHeadIntersectionIter
      invariant 0 <= i <= MaxSyncHeadIntersectionIter && i < |ch|
      invariant curs == Digest(ch[|ch| - 1 - i])
      invariant OfferedTo(ch, i, skip, ancestors)
    {
      OfferedNext(ch, i, skip, ancestors);
      if i > 0 && i % skip == 0 {
        ancestors := ancestors + [curs];
        skip := skip * 4;
      }
      var parent := m.AUM(curs);
      OneBack(ch, |ch| - 1 - i);
      if Digest(parent.value) == Digest(oldest) {
        break;
      }
      curs := parent.value.prev.value;
      i := i + 1;
    }
    OfferComplete(ch, i);
  }

  // Authority.SyncOffer: the head, ancestors at exponentially growing
  // distances, and the oldest.
  method MakeSyncOffer(env: Env, m: Mem, a: Authority, ghost ch: seq<AUM>) returns (offer: SyncOffer)
    requires Standing(env, m, a, ch)
    ensures offer.head == Digest(a.head) && offer.ancestors == Offered(ch)
  {
    StandingChain(env, m, a, ch);
    var ancestors := BackAncestors(m, a.head, a.oldest, ch);
    offer := SyncOffer(Digest(a.head), ancestors + [Digest(a.oldest)]);
  }

  lemma OfferStep(ch: seq<AUM>, i: nat)
    requires i < MaxSyncHeadIntersectionIter && i < |ch|
    ensures var hit := i > 0 && i % SkipAt(i) == 0;
            && SkipAt(i + 1) == (if hit then SkipAt(i) * 4 else SkipAt(i))
            && BackUpTo(ch, i + 1) == BackUpTo(ch, i) + (if hit then [Digest(ch[|ch| - 1 - i])] else [])
  {
    if 0 < i < SkipAt(i) { assert i % SkipAt(i) == i; }
  }

  // The loop's variables after i steps back.
  ghost predicate OfferedTo(ch: seq<AUM>, i: nat, skip: int, ancestors: seq<AUMHash>) {
    skip > 0 && skip == SkipAt(i) && ancestors == BackUpTo(ch, i)
  }

  lemma OfferedNext(ch: seq<AUM>, i: nat, skip: int, ancestors: seq<AUMHash>)
    requires OfferedTo(ch, i, skip, ancestors) && i < MaxSyncHeadIntersectionIter && i < |ch|
    ensures i > 0 && i % skip == 0 ==> OfferedTo(ch, i + 1, skip * 4, ancestors + [Digest(ch[|ch| - 1 - i])])
    ensures !(i > 0 && i % skip == 0) ==> OfferedTo(ch, i + 1, skip, ancestors)
  {
    OfferStep(ch, i);
    assert ancestors + [] == ancestors;
  }

  lemma OfferComplete(ch: seq<AUM>, i: nat)
    requires i < |ch|
    ensures i == |ch| - 1 ==> BackUpTo(ch, i + 1) == BackUpTo(ch, 257)
    ensures i == MaxSyncHeadIntersectionIter ==> BackUpTo(ch, i) == BackUpTo(ch, 257)
  {
  }

  // One step back along a chain, and where it ends.
  lemma OneBack(ch: seq<AUM>, j: nat)
    requires Linked(ch) && j < |ch|
    ensures ch[j] == ch[0] <==> j == 0
    ensures j > 0 ==> ch[j].prev == Some(Digest(ch[j - 1]))
  {
    StopsAtStart(ch, j);
    assert j > 0 ==> ch[j - 1 + 1].prev == Some(Digest(ch[j - 1]));
  }

  lemma StopsAtStart(ch: seq<AUM>, i: nat)
    requires Linked(ch) && i < |ch|
    ensures ch[i] == ch[0] <==> i == 0
  {
    LinkedDepth(ch, i);
  }

  // ---- Which updates to send ----

  lemma {:induction false} MeetBack(path: seq<AUM>, ch: seq<AUM>, n: nat)
    requires Linked(path) && Linked(ch) && path != [] && ch != [] && Last(path) == Last(ch)
    requires n < |path| && n < |ch|
    ensures path[|path| - 1 - n] == ch[|ch| - 1 - n]
  {
    if n > 0 {
      MeetBack(path, ch, n - 1);
      assert path[|path| - 1 - n + 1].prev == Some(Digest(path[|path| - 1 - n]));
      assert ch[|ch| - 1 - n + 1].prev == Some(Digest(ch[|ch| - 1 - n]));
    }
  }

  // A way from a stored update to the head lies on the chain in force.
  lemma OnTheChain(path: seq<AUM>, ch: seq<AUM>)
    requires Linked(path) && Linked(ch) && path != [] && ch != [] && Last(path) == Last(ch)
    requires Depth(path[0]) >= Depth(ch[0])
    ensures path[0] in ch
  {
    LinkedDepth(path, |path| - 1);
    LinkedDepth(ch, |ch| - 1);
    MeetBack(path, ch, |path| - 1);
  }

  // From an update of the chain in force, fast forward follows that chain to the head.
  lemma ForwardReachesHead(env: Env, S: set<AUM>, root: AUM, ch: seq<AUM>, k: nat, path: seq<AUM>)
    requires Active(env, S, root, ch) && k < |ch| && root in S
    requires ForwardPath(env, S, ch[k], Some(Digest(Last(ch))), path)
    ensures ForwardEnd(S, Some(Digest(Last(ch))), Last(path)) ==> Last(path) == Last(ch)
    ensures |path| == MaxSyncIter + 1 ==> !Shallow(S, root, MaxSyncIter)
  {
    SuffixActive(env, S, root, ch, k);
    var tail := ch[k..];
    NoPathBeyondLeaf(env, S, ch[k], tail, path);
    PathsAgree(env, S, tail, path, |path| - 1);
    if |path| < |tail| {
      assert IsNext(env, S, tail[|path| - 1], tail[|path| - 1 + 1]);
    }
    if |path| == MaxSyncIter + 1 {
      PathLinked(env, S, path);
      PathLinked(env, S, ch);
      LinkedDepth(path, MaxSyncIter);
      LinkedDepth(ch, k);
      assert path[MaxSyncIter] in S;
    }
  }

  // Walking back from the local head in search of the remote one.
  method FindRemoteHead(env: Env, m: Mem, a: Authority, remoteHead: AUMHash, ghost ch: seq<AUM>) returns (found: bool)
    requires Standing(env, m, a, ch)
    ensures found <==> RecentlyOn(ch, remoteHead)
  {
    StandingChain(env, m, a, ch);
    RootParentUnknown(m.Stored(), a.oldest);
    found := WalkToHead(m, a.head, remoteHead, ch);
  }

  // The loop, on a chain that begins where storage does.
  method WalkToHead(m: Mem, head: AUM, remoteHead: AUMHash, ghost ch: seq<AUM>) returns (found: bool)
    requires m.Valid() && ch != [] && Linked(ch) && Last(ch) == head
    requires forall i :: 0 <= i < |ch| ==> ch[i] in m.Stored()
    requires ch[0].prev.Some? ==> !IsStored(m.Stored(), ch[0].prev.value)
    ensures found <==> RecentlyOn(ch, remoteHead)
  {
    var curs := Digest(head);
    for i := 0 to MaxSyncHeadIntersectionIter
      invariant if i < |ch| then curs == Digest(ch[|ch| - 1 - i]) else curs == Digest(ch[0]) || !IsStored(m.Stored(), curs)
      invariant forall k :: 0 <= k < |ch| && |ch| - i <= k ==> remoteHead != Digest(ch[k])
    {
      var parent := m.AUM(curs);
      if parent.None? {
        return false;
      }
      if Digest(parent.value) == remoteHead {
        assert i < |ch|;
        return true;
      }
      if i < |ch| { OneBack(ch, |ch| - 1 - i); }
      if parent.value.prev.Some? {
        curs := parent.value.prev.value;
      }
    }
    found := false;
  }

  // One of the newest updates of the chain that the search looks at.
  ghost predicate RecentlyOn(ch: seq<AUM>, h: AUMHash) {
    exists k :: 0 <= k < |ch| && |ch| - MaxSyncHeadIntersectionIter <= k && h == Digest(ch[k])
  }

  // One remote ancestor: is it on our chain?
  method IsTailIntersection(env: Env, m: Mem, a: Authority, h: AUMHash, ghost ch: seq<AUM>) returns (r: Result<bool, Failure>)
    requires Standing(env, m, a, ch)
    ensures r == Ok(true) ==> h.Digest? && h.aum in ch
    ensures r == Ok(false) ==> !(h.Digest? && h.aum in ch)
    ensures r.Err? ==> !Shallow(m.Stored(), a.oldest, MaxSyncIter)
  {
    StandingChain(env, m, a, ch);
    ReadyStocked(env, m, a.oldest, None);
    var state := ComputeStateAt(env, m, MaxSyncIter, h);
    if state.Err? {
      if state.error != NotExist {
        CheckpointNear(env, m.Stored(), a.oldest, h.aum);
        return Err(state.error);
      }
      return Ok(false);
    }
    RootedGood(env, m.Stored(), a.oldest, h.aum);
    var end, visited, path := FastForward(env, m, MaxSyncIter, state.value, Some(Digest(a.head)));
    PathLinked(env, m.Stored(), path);
    DeeperThanRoot(m.Stored(), a.oldest, h.aum);
    if h.aum in ch {
      ghost var k :| 0 <= k < |ch| && ch[k] == h.aum;
      ForwardReachesHead(env, m.Stored(), a.oldest, ch, k, path);
    }
    if end.Err? {
      LinkedDepth(path, MaxSyncIter);
      assert path[MaxSyncIter] in m.Stored();
      return Err(end.error);
    }
    if end.value.0 == a.head { OnTheChain(path, ch); }
    r := Ok(Digest(end.value.0) == Digest(a.head));
  }

  // None of these hashes is on the chain.
  ghost predicate NoneOn(hs: seq<AUMHash>, ch: seq<AUM>) {
    forall h :: h in hs ==> !(h.Digest? && h.aum in ch)
  }

  // h is the first of hs on the chain.
  ghost predicate FirstOn(hs: seq<AUMHash>, ch: seq<AUM>, h: AUMHash) {
    h.Digest? && h.aum in ch && exists j :: 0 <= j < |hs| && hs[j] == h && NoneOn(hs[..j], ch)
  }

  // computeSyncIntersection: an update of our chain that the remote names; its
  // head if that is a recent one of ours, else the first ancestor it lists.
  method ComputeSyncIntersection(env: Env, m: Mem, a: Authority, remote: SyncOffer, ghost ch: seq<AUM>)
    returns (r: Result<Intersection, Failure>)
    requires Standing(env, m, a, ch)
    ensures r == Ok(UpToDate) <==> remote.head == Digest(a.head)
    ensures r.Ok? && r.value.HeadIntersection? <==> remote.head != Digest(a.head) && RecentlyOn(ch, remote.head)
    ensures r.Ok? && r.value.HeadIntersection? ==> r.value.h == remote.head
    ensures r.Ok? && r.value.TailIntersection? ==> FirstOn(remote.ancestors, ch, r.value.h)
    ensures r.Err? ==> remote.head != Digest(a.head) && !RecentlyOn(ch, remote.head)
    ensures r.Err? ==> !Shallow(m.Stored(), a.oldest, MaxSyncIter) || NoneOn(remote.ancestors, ch)
  {
    if remote.head == Digest(a.head) {
      return Ok(UpToDate);
    }
    StandingChain(env, m, a, ch);
    var has := m.AUM(remote.head);
    if has.Some? {
      var found := FindRemoteHead(env, m, a, remote.head, ch);
      if found {
        return Ok(HeadIntersection(remote.head));
      }
    }
    for i := 0 to |remote.ancestors|
      invariant forall j :: 0 <= j < i ==> !(remote.ancestors[j].Digest? && remote.ancestors[j].aum in ch)
    {
      var hit := IsTailIntersection(env, m, a, remote.ancestors[i], ch);
      if hit.Err? {
        return Err(hit.error);
      }
      if hit.value {
        return Ok(TailIntersection(remote.ancestors[i]));
      }
    }
    r := Err(NoIntersection);
  }

  // Some update the remote names is on ch.
  ghost predicate Names(remote: SyncOffer, ch: seq<AUM>, k: nat) {
    k < |ch| && (remote.head == Digest(ch[k]) || Digest(ch[k]) in remote.ancestors)
  }

  // The remote names nothing we would look for: its head is not one of our
  // newest updates, and none of its ancestors is on our chain.
  ghost predicate Unmatched(remote: SyncOffer, ch: seq<AUM>) {
    && ch != [] && remote.head != Digest(Last(ch))
    && !RecentlyOn(ch, remote.head) && NoneOn(remote.ancestors, ch)
  }

  // Authority.MissingAUMs: our chain after an update the remote named, so that
  // the remote has the parent of everything we send.
  method MissingAUMs(env: Env, m: Mem, a: Authority, remote: SyncOffer, ghost ch: seq<AUM>)
    returns (r: Result<seq<AUM>, Failure>, ghost k: nat)
    requires Standing(env, m, a, ch)
    ensures r.Ok? ==> Names(remote, ch, k) && r.value == ch[k + 1..]
    ensures Unmatched(remote, ch) ==> r.Err?
    ensures r.Err? ==> Unmatched(remote, ch) || !Shallow(m.Stored(), a.oldest, MaxSyncIter)
  {
    StandingChain(env, m, a, ch);
    k := |ch| - 1;
    var x := ComputeSyncIntersection(env, m, a, remote, ch);
    if x.Err? {
      return Err(x.error), k;
    }
    if x.value == UpToDate {
      return Ok([]), k;
    }
    k :| 0 <= k < |ch| && ch[k] == x.value.h.aum;
    r := ChainAfter(env, m, a, x.value.h, ch, k);
  }

  // The updates fast forward passes after the intersection.
  method ChainAfter(env: Env, m: Mem, a: Authority, h: AUMHash, ghost ch: seq<AUM>, ghost k: nat)
    returns (r: Result<seq<AUM>, Failure>)
    requires Standing(env, m, a, ch) && k < |ch| && h == Digest(ch[k])
    ensures r.Ok? ==> r.value == ch[k + 1..]
    ensures r.Err? ==> !Shallow(m.Stored(), a.oldest, MaxSyncIter)
  {
    StandingChain(env, m, a, ch);
    ReadyStocked(env, m, a.oldest, None);
    var state := ComputeStateAt(env, m, MaxSyncIter, h);
    if state.Err? {
      CheckpointNear(env, m.Stored(), a.oldest, ch[k]);
      return Err(state.error);
    }
    RootedGood(env, m.Stored(), a.oldest, ch[k]);
    var end, visited, path := FastForward(env, m, MaxSyncIter, state.value, None);
    if end.Err? {
      PathLinked(env, m.Stored(), path);
      LinkedDepth(path, MaxSyncIter);
      LinkedDepth(ch, k);
      assert path[MaxSyncIter] in m.Stored();
      return Err(end.error);
    }
    SuffixActive(env, m.Stored(), a.oldest, ch, k);
    ActiveUnique(env, m.Stored(), ch[k], path, ch[k..]);
    LinkedSuffix(ch, k);
    var out := AllBut(visited, h);
    r := Ok(out);
  }

  lemma LinkedSuffix(ch: seq<AUM>, k: nat)
    requires Linked(ch) && k < |ch|
    ensures Linked(ch[k..]) && ch[k..][1..] == ch[k + 1..]
  {
    var s := ch[k..];
    forall i | 0 <= i < |s| - 1 ensures s[i + 1].prev == Some(Digest(s[i])) {
      assert ch[k + i + 1].prev == Some(Digest(ch[k + i]));
    }
  }

  // The callback: collect every update but the intersection.
  method AllBut(visited: seq<AUM>, h: AUMHash) returns (out: seq<AUM>)
    requires Linked(visited) && visited != [] && h == Digest(visited[0])
    ensures out == visited[1..]
  {
    out := [];
    for i := 0 to |visited|
      invariant out == if i == 0 then [] else visited[1..i]
    {
      StopsAtStart(visited, i);
      if Digest(visited[i]) != h {
        out := out + [visited[i]];
      }
    }
  }

  // ---- A whole exchange ----

  // What an offer names is on the offering side's chain.
  lemma NamedIsOnChain(ch: seq<AUM>, other: seq<AUM>, k: nat)
    requires ch != [] && Names(SyncOffer(Digest(Last(ch)), Offered(ch)), other, k)
    ensures other[k] in ch
  {
  }

  // Two chains from one update that meet at an update share everything up to it.
  lemma SharedPrefix(S: set<AUM>, cs: seq<AUM>, ct: seq<AUM>, q: nat, j: nat)
    requires Linked(cs) && Linked(ct) && cs != [] && q < |ct| && ct[q] == cs[0] && j < |ct| && ct[j] in cs
    requires forall i :: 0 <= i < |cs| ==> cs[i] in S
    ensures q <= j && S + Elems(ct[j + 1..]) == S + Elems(ct[q..])
  {
    var i :| 0 <= i < |cs| && cs[i] == ct[j];
    LinkedDepth(cs, i);
    LinkedDepth(ct, j);
    LinkedDepth(ct, q);
    LinkedSuffix(ct, q);
    assert ct[q..][j - q] == ct[j];
    LinkedMeet(cs, ct[q..], i, j - q);
    assert ct[q..] == ct[q..][..j - q + 1] + ct[j + 1..];
    assert forall a :: a in cs[..i + 1] ==> a in S;
  }

  // Everything sent after an update the receiver stores can be taken in.
  lemma SendAcceptable(env: Env, S: set<AUM>, T: set<AUM>, root: AUM, ch: seq<AUM>, k: nat)
    requires Rooted(env, T, root) && Linked(ch) && k < |ch| && ch[0] == root && ch[k] in S
    requires forall i :: 0 <= i < |ch| ==> ch[i] in T
    ensures AllAcceptable(env, S, ch[k + 1..], |ch| - k - 1)
  {
    var us := ch[k + 1..];
    forall i: nat | i < |us| ensures Acceptable(env, S, us, i) {
      var n := k + 1 + i;
      LinkedDepth(ch, n);
      assert ch[n - 1 + 1].prev == Some(Digest(ch[n - 1]));
      assert us[i] == ch[n] && VerifiedStep(env, ch[n]);
      assert i > 0 ==> us[..i][i - 1] == ch[n - 1];
    }
  }

  // Taking in what the other side sent; nothing sent, nothing done.
  method TakeIn(env: Env, m: Mem, a: Authority, updates: seq<AUM>, now: int) returns (r: Authority)
    requires Ready(env, m, a.oldest) && InForce(env, m.Stored(), a)
    requires NoCollisions(env, m.Stored() + Elems(updates))
    requires Shallow(m.Stored() + Elems(updates), a.oldest, MaxScanIterations)
    requires AllAcceptable(env, m.Stored(), updates, |updates|)
    modifies m
    ensures m.Valid() && m.Stored() == old(m.Stored()) + Elems(updates)
    ensures Ready(env, m, a.oldest) && InForce(env, m.Stored(), r) && r.oldest == a.oldest
  {
    r := a;
    if |updates| > 0 {
      var informed := InformIdempotent(env, m, a, updates, now);
      r := informed.value;
    }
  }

  lemma ExchangeAgrees(env: Env, S: set<AUM>, T: set<AUM>, rs: AUM, rt: AUM, cs: seq<AUM>, ct: seq<AUM>, q: nat,
                       a: Authority, b: Authority)
    requires Rooted(env, S, rs) && Rooted(env, T, rt) && NoCollisions(env, S + T)
    requires Active(env, S, rs, cs) && Active(env, T, rt, ct) && q < |ct| && ct[q] == rs
    requires InForce(env, S + Elems(ct[q..]), a) && a.oldest == rs
    requires InForce(env, T + Elems(cs), b) && b.oldest == rt
    ensures a.head == b.head && a.state == b.state
  {
    ExchangeConverges(env, S, T, rs, rt, cs, ct, q);
    var ca :| Active(env, S + Elems(ct[q..]), rs, ca) && Last(ca) == a.head;
    var cb :| Active(env, T + Elems(cs), rt, cb) && Last(cb) == b.head;
    if Active(env, S + Elems(ct[q..]), rs, cs) && Active(env, T + Elems(cs), rt, ct[..q] + cs) {
      ActiveUnique(env, S + Elems(ct[q..]), rs, ca, cs);
      ActiveUnique(env, T + Elems(cs), rt, cb, ct[..q] + cs);
    } else {
      ActiveUnique(env, S + Elems(ct[q..]), rs, ca, ct[q..]);
      ActiveUnique(env, T + Elems(cs), rt, cb, ct);
    }
  }

  // A node and the control plane, the node's oldest update on control's chain:
  // control's own oldest, or a later one if the node compacted its history.
  ghost predicate Pair(env: Env, mn: Mem, node: Authority, mc: Mem, control: Authority, cn: seq<AUM>, cc: seq<AUM>, q: nat)
    reads mn, mc
  {
    && mn != mc && Standing(env, mn, node, cn) && Standing(env, mc, control, cc)
    && q < |cc| && cc[q] == node.oldest
    && NoCollisions(env, mn.Stored() + mc.Stored())
    && Shallow(mn.Stored() + mc.Stored(), control.oldest, MaxSyncIter)
  }

  ghost predicate OffAt(offered: seq<AUM>, ch: seq<AUM>, d: nat) {
    d < |offered| ==> offered[|offered| - 1 - d] !in ch
  }

  // None of the updates one side offers, its oldest or those 4, 16, 64 and 256
  // back from its head, is on the other's chain.
  ghost predicate Missed(offered: seq<AUM>, ch: seq<AUM>) {
    && offered != [] && offered[0] !in ch
    && OffAt(offered, ch, 4) && OffAt(offered, ch, 16) && OffAt(offered, ch, 64) && OffAt(offered, ch, 256)
  }

  // One side's offer is no use to the other: its head is not the other's, nor
  // one of the other's newest updates, and nothing else it offers is on the
  // other's chain.
  ghost predicate OutOfTouch(offered: seq<AUM>, ch: seq<AUM>) {
    && Missed(offered, ch) && ch != [] && Last(offered) != Last(ch)
    && !RecentlyOn(ch, Digest(Last(offered)))
  }

  // One side's offer, and what the other then sends.
  method MissingFor(env: Env, m: Mem, a: Authority, ghost ch: seq<AUM>, mo: Mem, other: Authority, ghost co: seq<AUM>)
    returns (r: Result<seq<AUM>, Failure>, ghost k: nat)
    requires Standing(env, m, a, ch) && Standing(env, mo, other, co) && Shallow(m.Stored(), a.oldest, MaxSyncIter)
    ensures r.Ok? ==> k < |ch| && ch[k] in co && r.value == ch[k + 1..]
    ensures r.Err? <==> OutOfTouch(co, ch)
  {
    StandingChain(env, m, a, ch);
    StandingChain(env, mo, other, co);
    var offer := MakeSyncOffer(env, mo, other, co);
    r, k := MissingAUMs(env, m, a, offer, ch);
    NoneOfferedMissed(co, ch);
    if r.Ok? {
      NamedIsOnChain(co, ch, k);
    }
  }

  lemma NoneOfferedMissed(offered: seq<AUM>, ch: seq<AUM>)
    requires offered != []
    ensures NoneOn(Offered(offered), ch) <==> Missed(offered, ch)
  {
    assert Digest(offered[0]) in Offered(offered);
    BackOffered(offered, ch, 4);
    BackOffered(offered, ch, 16);
    BackOffered(offered, ch, 64);
    BackOffered(offered, ch, 256);
    if Missed(offered, ch) {
      forall h | h in Offered(offered) ensures !(h.Digest? && h.aum in ch) {
        assert h in Back(offered, 4) || h in Back(offered, 16) || h in Back(offered, 64) || h in Back(offered, 256)
            || h == Digest(offered[0]);
      }
    }
  }

  lemma BackOffered(offered: seq<AUM>, ch: seq<AUM>, d: nat)
    requires d == 4 || d == 16 || d == 64 || d == 256
    ensures offered != [] && d < |offered| ==> Digest(offered[|offered| - 1 - d]) in Offered(offered)
    ensures OffAt(offered, ch, d) <==> NoneOn(Back(offered, d), ch)
  {
    if d < |offered| {
      assert Digest(offered[|offered| - 1 - d]) in Back(offered, d);
      assert Digest(offered[|offered| - 1 - d]) in BackUpTo(offered, 257);
    }
  }

  // An offer names an update of a chain exactly when it does not miss it or
  // the offering head is on it.
  lemma NamesIff(offered: seq<AUM>, ch: seq<AUM>)
    requires offered != []
    ensures (exists k: nat :: Names(SyncOffer(Digest(Last(offered)), Offered(offered)), ch, k)) <==>
              !Missed(offered, ch) || Last(offered) in ch
  {
    var offer := SyncOffer(Digest(Last(offered)), Offered(offered));
    NoneOfferedMissed(offered, ch);
    if Last(offered) in ch {
      var k :| 0 <= k < |ch| && ch[k] == Last(offered);
      assert Names(offer, ch, k);
    }
    if !NoneOn(Offered(offered), ch) {
      var h :| h in Offered(offered) && h.Digest? && h.aum in ch;
      var k :| 0 <= k < |ch| && ch[k] == h.aum;
      assert Names(offer, ch, k);
    }
  }

  // When control's chain merely extends the node's by k updates, the node
  // finds no intersection exactly when there is something to learn (k > 0), it
  // compacted (q > 0) and none of the offered distances falls within its own
  // chain.
  lemma BehindTooFarIff(cn: seq<AUM>, cc: seq<AUM>, q: nat, k: nat)
    requires Linked(cc) && cn != [] && q + |cn| + k == |cc| && cc[q..q + |cn|] == cn
    ensures OutOfTouch(cc, cn) <==>
              k > 0 && q > 0 && !(k <= 4 < k + |cn|) && !(k <= 16 < k + |cn|) && !(k <= 64 < k + |cn|) && !(k <= 256 < k + |cn|)
  {
    WhereOn(cn, cc, q, 0);
    WhereOn(cn, cc, q, |cc| - 1);
    assert k == 0 ==> Last(cn) == Last(cc);
    OffAtIff(cn, cc, q, k, 4);
    OffAtIff(cn, cc, q, k, 16);
    OffAtIff(cn, cc, q, k, 64);
    OffAtIff(cn, cc, q, k, 256);
  }

  lemma OffAtIff(cn: seq<AUM>, cc: seq<AUM>, q: nat, k: nat, d: nat)
    requires Linked(cc) && q + |cn| + k == |cc| && cc[q..q + |cn|] == cn
    ensures OffAt(cc, cn, d) <==> !(k <= d < k + |cn|)
  {
    if d < |cc| { WhereOn(cn, cc, q, |cc| - 1 - d); }
  }

  lemma WhereOn(cn: seq<AUM>, cc: seq<AUM>, q: nat, i: nat)
    requires Linked(cc) && q + |cn| <= |cc| && cc[q..q + |cn|] == cn && i < |cc|
    ensures cc[i] in cn <==> q <= i < q + |cn|
  {
    if q <= i < q + |cn| { assert cn[i - q] == cc[i]; }
    if cc[i] in cn {
      var j :| 0 <= j < |cn| && cn[j] == cc[i];
      LinkedDepth(cc, i);
      LinkedDepth(cc, q + j);
    }
  }

  // What each side misses, before either takes anything in.
  method MissingBothWays(env: Env, mn: Mem, node: Authority, mc: Mem, control: Authority,
                         ghost cn: seq<AUM>, ghost cc: seq<AUM>, ghost q: nat)
    returns (r: Result<(seq<AUM>, seq<AUM>), Failure>, ghost k: nat, ghost j: nat)
    requires Pair(env, mn, node, mc, control, cn, cc, q)
    ensures r.Ok? ==> k < |cn| && cn[k] in cc && r.value.0 == cn[k + 1..]
    ensures r.Ok? ==> j < |cc| && cc[j] in cn && r.value.1 == cc[j + 1..]
    ensures r.Err? <==> OutOfTouch(cc, cn)
  {
    j := 0;
    PairShallow(env, mn, node, mc, control, cn, cc, q);
    var toSend;
    toSend, k := MissingFor(env, mn, node, cn, mc, control, cc);
    if toSend.Err? {
      return Err(toSend.error), k, j;
    }
    var fromControl;
    fromControl, j := MissingFor(env, mc, control, cc, mn, node, cn);
    r := Ok((toSend.value, fromControl.value));
  }

  lemma PairShallow(env: Env, mn: Mem, node: Authority, mc: Mem, control: Authority, cn: seq<AUM>, cc: seq<AUM>, q: nat)
    requires Pair(env, mn, node, mc, control, cn, cc, q)
    ensures Shallow(mn.Stored(), node.oldest, MaxSyncIter) && Shallow(mc.Stored(), control.oldest, MaxSyncIter)
    ensures !Missed(cn, cc) && (q == 0 ==> !Missed(cc, cn))
  {
    StandingChain(env, mn, node, cn);
    StandingChain(env, mc, control, cc);
    ShallowParts(mn.Stored(), mc.Stored(), node.oldest, control.oldest, cc, q);
    assert cc[q] in cc && cn[0] in cn;
  }

  // A node and the control plane synchronise: offers both ways, each side
  // computes what the other misses before taking anything in, then both take
  // in what they were sent.  It fails, and changes nothing, exactly when
  // control's offer is no use to the node, which takes a node that compacted;
  // otherwise both end with the same head and state.
  method Exchange(env: Env, mn: Mem, node: Authority, mc: Mem, control: Authority, now: int,
                  ghost cn: seq<AUM>, ghost cc: seq<AUM>, ghost q: nat)
    returns (r: Result<(Authority, Authority), Failure>)
    requires Pair(env, mn, node, mc, control, cn, cc, q)
    modifies mn, mc
    ensures r.Ok? ==> r.value.0.head == r.value.1.head && r.value.0.state == r.value.1.state
    ensures r.Ok? ==> r.value.0.oldest == node.oldest && r.value.1.oldest == control.oldest
    ensures r.Ok? ==> InForce(env, mn.Stored(), r.value.0) && InForce(env, mc.Stored(), r.value.1)
    ensures r.Ok? ==> mn.Stored() == old(mn.Stored()) + Elems(cc[q..]) && mc.Stored() == old(mc.Stored()) + Elems(cn)
    ensures r.Err? ==> mn.Stored() == old(mn.Stored()) && mc.Stored() == old(mc.Stored()) && q > 0
    ensures r.Err? <==> OutOfTouch(cc, cn)
  {
    var missing, k, j := MissingBothWays(env, mn, node, mc, control, cn, cc, q);
    if missing.Err? {
      return Err(missing.error);
    }
    var n, c := TakeBothIn(env, mn, node, mc, control, missing.value.0, missing.value.1, now, cn, cc, q, k, j);
    r := Ok((n, c));
  }

  lemma ShallowParts(S: set<AUM>, T: set<AUM>, rs: AUM, rt: AUM, ct: seq<AUM>, q: nat)
    requires Shallow(S + T, rt, MaxSyncIter) && Linked(ct) && q < |ct| && ct[0] == rt && ct[q] == rs
    ensures Shallow(S, rs, MaxSyncIter) && Shallow(T, rt, MaxSyncIter)
  {
    LinkedDepth(ct, q);
  }

  method TakeBothIn(env: Env, mn: Mem, node: Authority, mc: Mem, control: Authority, toSend: seq<AUM>, fromControl: seq<AUM>,
                    now: int, ghost cn: seq<AUM>, ghost cc: seq<AUM>, ghost q: nat, ghost k: nat, ghost j: nat)
    returns (n: Authority, c: Authority)
    requires Pair(env, mn, node, mc, control, cn, cc, q)
    requires k < |cn| && cn[k] in cc && toSend == cn[k + 1..]
    requires j < |cc| && cc[j] in cn && fromControl == cc[j + 1..]
    modifies mn, mc
    ensures n.head == c.head && n.state == c.state && n.oldest == node.oldest && c.oldest == control.oldest
    ensures InForce(env, mn.Stored(), n) && InForce(env, mc.Stored(), c)
    ensures mn.Stored() == old(mn.Stored()) + Elems(cc[q..]) && mc.Stored() == old(mc.Stored()) + Elems(cn)
  {
    ghost var S, T := mn.Stored(), mc.Stored();
    StandingChain(env, mn, node, cn);
    StandingChain(env, mc, control, cc);
    BothSend(env, S, T, node.oldest, control.oldest, cn, cc, q, k, j);
    n := TakeIn(env, mn, node, fromControl, now);
    c := TakeIn(env, mc, control, toSend, now);
    ExchangeAgrees(env, S, T, node.oldest, control.oldest, cn, cc, q, n, c);
  }

  // What each side sends completes the other's view of the chains.
  lemma BothSend(env: Env, S: set<AUM>, T: set<AUM>, rs: AUM, rt: AUM, cs: seq<AUM>, ct: seq<AUM>, q: nat, k: nat, j: nat)
    requires Rooted(env, S, rs) && Rooted(env, T, rt) && Linked(cs) && Linked(ct) && cs != [] && cs[0] == rs && ct != [] && ct[0] == rt
    requires (forall i :: 0 <= i < |cs| ==> cs[i] in S) && (forall i :: 0 <= i < |ct| ==> ct[i] in T)
    requires q < |ct| && ct[q] == rs && k < |cs| && cs[k] in ct && j < |ct| && ct[j] in cs
    requires NoCollisions(env, S + T) && Shallow(S + T, rt, MaxSyncIter)
    ensures S + Elems(ct[j + 1..]) == S + Elems(ct[q..]) && T + Elems(cs[k + 1..]) == T + Elems(cs)
    ensures AllAcceptable(env, S, ct[j + 1..], |ct| - j - 1) && AllAcceptable(env, T, cs[k + 1..], |cs| - k - 1)
    ensures NoCollisions(env, S + Elems(ct[j + 1..])) && NoCollisions(env, T + Elems(cs[k + 1..]))
    ensures Shallow(S + Elems(ct[j + 1..]), rs, MaxSyncIter) && Shallow(T + Elems(cs[k + 1..]), rt, MaxSyncIter)
  {
    LinkedDepth(ct, q);
    SharedPrefix(S, cs, ct, q, j);
    LinkedSuffix(ct, q);
    ghost var i :| 0 <= i < |ct| && ct[i] == cs[k];
    LinkedDepth(ct, i);
    LinkedDepth(cs, k);
    assert ct[q..][i - q] == cs[k];
    SharedPrefix(T, ct[q..], cs, 0, k);
    assert cs[0..] == cs;
    SendAcceptable(env, S, T, rt, ct, j);
    SendAcceptable(env, T, S, rs, cs, k);
    assert S + Elems(ct[j + 1..]) <= S + T && T + Elems(cs[k + 1..]) <= S + T;
  }
}
