// Finding the chain in force in storage, and taking in new updates
// (tka/tka.go).
module TkaAuthority {
  import opened Common
  import opened TkaTypes
  import opened TkaState
  import opened TkaChain
  import opened TkaAncestry
  import opened TkaForest
  import opened TkaStore

  datatype Failure = NotExist | IterationLimit | InvalidState | NoChain | MultipleChains | EmptyUpdate | BadUpdate
    | NotEmpty | BadBootstrap | NoIntersection

  const MaxScanIterations := 2000

  // Storage an authority rooted at root can work on.
  ghost predicate Ready(env: Env, m: Mem, root: AUM)
    reads m
  {
    m.Valid() && Rooted(env, m.Stored(), root) && NoCollisions(env, m.Stored())
  }

  // Storage that may hold several such trees.
  ghost predicate Stocked(env: Env, m: Mem)
    reads m
  {
    m.Valid() && Planted(env, m.Stored()) && NoCollisions(env, m.Stored())
  }

  // Every stored chain is shorter than n.
  ghost predicate Shallow(S: set<AUM>, root: AUM, n: nat) {
    forall a :: a in S ==> Depth(a) - Depth(root) < n
  }

  ghost predicate IsStored(S: set<AUM>, h: AUMHash) { h.Digest? && h.aum in S }

  // ---- Choosing the next update ----

  method GoesBefore(env: Env, s: State, a: AUM, b: AUM) returns (r: bool)
    requires AUMStaticOk(a) && AUMStaticOk(b) && Good(s)
    ensures r == Before(env, s, a, b)
  {
    var wa := Weight(a, s);
    var wb := Weight(b, s);
    if wa != wb {
      return wb < wa;
    }
    if a.kind != b.kind && (a.kind == AUMRemoveKey || b.kind == AUMRemoveKey) {
      return a.kind == AUMRemoveKey;
    }
    r := env.num(Digest(b)) > env.num(Digest(a));
  }

  // The head of the candidates once sorted: the one that goes before all others.
  method PickNextAUM(env: Env, s: State, candidates: seq<AUM>) returns (next: AUM)
    requires candidates != [] && Good(s)
    requires forall a :: a in candidates ==> AUMStaticOk(a)
    requires NoCollisions(env, Elems(candidates))
    ensures next in candidates
    ensures forall c :: c in candidates && c != next ==> Before(env, s, next, c)
  {
    next := candidates[0];
    for i := 1 to |candidates|
      invariant next in candidates
      invariant forall j :: 0 <= j < i && candidates[j] != next ==> Before(env, s, next, candidates[j])
    {
      var c := candidates[i];
      var first := GoesBefore(env, s, c, next);
      if first {
        forall j | 0 <= j < i && candidates[j] != c ensures Before(env, s, c, candidates[j]) {
          BeforeIsTotalOrder(env, s, c, next, candidates[j]);
        }
        next := c;
      } else if c != next {
        assert c in Elems(candidates) && next in Elems(candidates);
        BeforeIsTotalOrder(env, s, c, next, c);
      }
    }
  }

  method AdvanceByPrimary(env: Env, s: State, candidates: seq<AUM>) returns (r: Result<Option<(AUM, State)>, Failure>)
    requires Good(s)
    requires forall a :: a in candidates ==> AUMStaticOk(a)
    requires NoCollisions(env, Elems(candidates))
    ensures candidates == [] ==> r == Ok(None)
    ensures r.Ok? && candidates != [] ==> r.value.Some?
    ensures r.Ok? && r.value.Some? ==>
              && r.value.value.0 in candidates
              && (forall c :: c in candidates && c != r.value.value.0 ==> Before(env, s, r.value.value.0, c))
              && Apply(s, r.value.value.0) == Some(r.value.value.1)
    ensures r.Err? ==> exists a :: a in candidates && Apply(s, a).None?
  {
    if |candidates| == 0 {
      return Ok(None);
    }
    var aum := PickNextAUM(env, s, candidates);
    var next := ApplyVerifiedAUM(s, aum);
    if next.None? {
      return Err(BadUpdate);
    }
    r := Ok(Some((aum, next.value)));
  }

  // ---- Fast forward along the chain in force ----

  // path is a way along chosen children from a, not past stop.
  ghost predicate ForwardPath(env: Env, S: set<AUM>, a: AUM, stop: Option<AUMHash>, path: seq<AUM>) {
    && PrimaryPath(env, S, path) && path[0] == a
    && forall i :: 0 <= i < |path| - 1 ==> stop != Some(Digest(path[i]))
  }

  ghost predicate ForwardEnd(S: set<AUM>, stop: Option<AUMHash>, a: AUM) {
    stop == Some(Digest(a)) || Children(S, a) == {}
  }

  // Follow the chosen children from the state's last update until stop or a
  // leaf.  visited are the updates the stop condition was asked about; path
  // is the way taken, also when the iteration limit cut it short.
  method FastForward(env: Env, m: Mem, maxIter: nat, start: State, stop: Option<AUMHash>)
    returns (r: Result<(AUM, State), Failure>, visited: seq<AUM>, ghost path: seq<AUM>)
    requires Stocked(env, m)
    requires start.last.Some? && IsStored(m.Stored(), start.last.value) ==> StateAt(start.last.value.aum) == Some(start)
    ensures start.last.None? || !IsStored(m.Stored(), start.last.value) ==> r.Err?
    ensures start.last.Some? && IsStored(m.Stored(), start.last.value) ==>
              ForwardPath(env, m.Stored(), start.last.value.aum, stop, path)
    ensures r.Ok? ==>
              && path != [] && visited == path && r.value.0 == Last(path) && StateAt(r.value.0) == Some(r.value.1)
              && ForwardEnd(m.Stored(), stop, r.value.0)
    ensures r.Err? && start.last.Some? && IsStored(m.Stored(), start.last.value) ==> |path| == maxIter + 1
  {
    if start.last.None? {
      return Err(InvalidState), [], [];
    }
    var first := m.AUM(start.last.value);
    if first.None? {
      return Err(NotExist), [], [];
    }
    r, visited, path := ForwardLoop(env, m, maxIter, first.value, start, stop);
  }

  method ForwardLoop(env: Env, m: Mem, maxIter: nat, first: AUM, start: State, stop: Option<AUMHash>)
    returns (r: Result<(AUM, State), Failure>, visited: seq<AUM>, ghost path: seq<AUM>)
    requires Stocked(env, m) && first in m.Stored() && StateAt(first) == Some(start)
    ensures ForwardPath(env, m.Stored(), first, stop, path)
    ensures r.Ok? ==>
              && visited == path && r.value.0 == Last(path) && StateAt(r.value.0) == Some(r.value.1)
              && ForwardEnd(m.Stored(), stop, r.value.0)
    ensures r.Err? ==> |path| == maxIter + 1
  {
    var curs, s := first, start;
    visited, path := [], [curs];
    for i := 0 to maxIter
      invariant |path| == i + 1 && visited == path[..i] && curs == path[i]
      invariant ForwardPath(env, m.Stored(), first, stop, path)
      invariant curs in m.Stored() && StateAt(curs) == Some(s)
    {
      visited := visited + [curs];
      assert visited == path;
      if stop == Some(Digest(curs)) {
        return Ok((curs, s)), visited, path;
      }
      var next := NextOf(env, m, curs, s);
      if next.None? {
        return Ok((curs, s)), visited, path;
      }
      PathGrows(env, m.Stored(), first, stop, path, next.value.0);
      curs, s := next.value.0, next.value.1;
      path := path + [curs];
    }
    r := Err(IterationLimit);
  }

  // One round of the loop: the chosen child and its state, if there is a child.
  method NextOf(env: Env, m: Mem, curs: AUM, s: State) returns (next: Option<(AUM, State)>)
    requires Stocked(env, m) && curs in m.Stored() && StateAt(curs) == Some(s)
    ensures next.None? ==> Children(m.Stored(), curs) == {}
    ensures next.Some? ==> IsNext(env, m.Stored(), curs, next.value.0)
    ensures next.Some? ==> next.value.0 in m.Stored() && StateAt(next.value.0) == Some(next.value.1)
  {
    var children := m.ChildAUMs(Digest(curs));
    ChildrenReady(env, m.Stored(), curs, children);
    var r := AdvanceByPrimary(env, s, children);
    next := r.value;
    if next.Some? {
      StepState(env, next.value.0);
    } else {
      assert Elems(children) == {};
    }
  }

  lemma PathGrows(env: Env, S: set<AUM>, a: AUM, stop: Option<AUMHash>, path: seq<AUM>, b: AUM)
    requires ForwardPath(env, S, a, stop, path) && IsNext(env, S, Last(path), b) && stop != Some(Digest(Last(path)))
    ensures ForwardPath(env, S, a, stop, path + [b])
  {
  }

  // The stored children of a stored update, as the advancer needs them.
  lemma ChildrenReady(env: Env, S: set<AUM>, a: AUM, children: seq<AUM>)
    requires Planted(env, S) && NoCollisions(env, S) && a in S
    requires forall c :: c in children <==> c in S && c.prev == Some(Digest(a))
    ensures StateAt(a).Some? && Good(StateAt(a).value) && NoCollisions(env, Elems(children))
    ensures Elems(children) == Children(S, a)
    ensures forall c :: c in children ==>
              AUMStaticOk(c) && c in S && VerifiedStep(env, c) && ParentOf(c) == Some(a) && Apply(StateAt(a).value, c).Some?
  {
    PlantedGood(env, S, a);
    forall c | c in children
      ensures AUMStaticOk(c) && VerifiedStep(env, c) && ParentOf(c) == Some(a) && Apply(StateAt(a).value, c).Some?
    {
      PlantedGood(env, S, c);
      assert Grounded(env, S, c);
    }
  }

  // ---- The state at a stored update ----

  // How far back the nearest checkpoint lies.
  ghost function CheckpointDistance(a: AUM): nat
    decreases a
  {
    if a.kind != AUMCheckpoint && a.prev.Some? && a.prev.value.Digest? then 1 + CheckpointDistance(a.prev.value.aum) else 0
  }

  // The advancer of computeStateAt: apply the first candidate on the path.
  method AdvanceAlong(s: State, candidates: seq<AUM>, path: set<AUMHash>, ghost want: AUM) returns (r: Result<(AUM, State), Failure>)
    requires want in candidates && Digest(want) in path && Apply(s, want).Some?
    requires forall c :: c in candidates && Digest(c) in path ==> c == want
    ensures r.Ok? && r.value.0 == want && Apply(s, want) == Some(r.value.1)
  {
    for i := 0 to |candidates|
      invariant forall j :: 0 <= j < i ==> Digest(candidates[j]) !in path
    {
      if Digest(candidates[i]) in path {
        var next := ApplyVerifiedAUM(s, candidates[i]);
        return Ok((candidates[i], next.value));
      }
    }
    assert false;
  }

  ghost function Digests(ch: seq<AUM>): set<AUMHash> { set a | a in ch :: Digest(a) }

  // Fast forward along a chain already walked back.
  method FollowPath(env: Env, m: Mem, maxIter: nat, start: State, path: set<AUMHash>, stop: AUMHash,
                    ghost chain: seq<AUM>) returns (r: Result<State, Failure>)
    requires Stocked(env, m)
    requires chain != [] && Linked(chain) && (forall a :: a in chain ==> a in m.Stored())
    requires start.last == Some(Digest(chain[0])) && StateAt(chain[0]) == Some(start)
    requires path == Digests(chain) && stop == Digest(Last(chain))
    ensures r.Ok? <==> |chain| <= maxIter
    ensures r.Ok? ==> StateAt(Last(chain)) == Some(r.value)
    ensures r.Err? ==> r.error == IterationLimit
  {
    var first := m.AUM(start.last.value);
    var curs, s := first.value, start;
    for i := 0 to maxIter
      invariant i < |chain| && curs == chain[i] && StateAt(curs) == Some(s)
    {
      StopsAtEnd(chain, i);
      if Digest(curs) == stop {
        return Ok(s);
      }
      curs, s := NextAlong(env, m, curs, s, path, chain, i);
    }
    r := Err(IterationLimit);
  }

  lemma StopsAtEnd(chain: seq<AUM>, i: nat)
    requires Linked(chain) && i < |chain|
    ensures chain[i] == Last(chain) <==> i == |chain| - 1
  {
    LinkedDepth(chain, i);
    LinkedDepth(chain, |chain| - 1);
  }

  // One round of the loop: the next update of the chain, found among the children.
  method NextAlong(env: Env, m: Mem, curs: AUM, s: State, path: set<AUMHash>, ghost chain: seq<AUM>, ghost i: nat)
    returns (next: AUM, t: State)
    requires Stocked(env, m)
    requires Linked(chain) && (forall a :: a in chain ==> a in m.Stored()) && path == Digests(chain)
    requires i + 1 < |chain| && curs == chain[i] && StateAt(curs) == Some(s)
    ensures next == chain[i + 1] && StateAt(next) == Some(t)
  {
    var children := m.ChildAUMs(Digest(curs));
    ghost var want := chain[i + 1];
    assert want.prev == Some(Digest(curs)) && want in children;
    ChildrenReady(env, m.Stored(), curs, children);
    forall c | c in children && Digest(c) in path ensures c == want {
      OnlySuccessor(chain, i, c);
    }
    var r := AdvanceAlong(s, children, path, want);
    StepState(env, want);
    next, t := r.value.0, r.value.1;
  }

  // chain leads from curs down to top through stored updates.
  ghost predicate WalkedBack(S: set<AUM>, curs: AUM, top: AUM, chain: seq<AUM>) {
    chain != [] && chain[0] == curs && Last(chain) == top && Linked(chain) && forall a :: a in chain ==> a in S
  }

  lemma WalkBackOne(S: set<AUM>, curs: AUM, top: AUM, chain: seq<AUM>, a: AUM)
    requires WalkedBack(S, curs, top, chain) && curs.prev == Some(Digest(a)) && a in S
    ensures WalkedBack(S, a, top, [a] + chain)
    ensures Digests([a] + chain) == {Digest(a)} + Digests(chain)
  {
  }

  // computeStateAt: walk back to a checkpoint, then replay forward.  On an
  // authority's storage it gives the replayed state exactly when the nearest
  // checkpoint is fewer than maxIter updates back.
  method ComputeStateAt(env: Env, m: Mem, maxIter: nat, want: AUMHash) returns (r: Result<State, Failure>)
    requires Stocked(env, m)
    ensures r == Err(NotExist) <==> !IsStored(m.Stored(), want)
    ensures IsStored(m.Stored(), want) ==> (r.Ok? <==> CheckpointDistance(want.aum) < maxIter)
    ensures r.Ok? ==> StateAt(want.aum) == Some(r.value)
  {
    var top := m.AUM(want);
    if top.None? {
      return Err(NotExist);
    }
    var curs := top.value;
    var path: set<AUMHash> := {Digest(curs)};
    ghost var chain := [curs];
    var i := 0;
    while curs.kind != AUMCheckpoint && i <= maxIter
      invariant WalkedBack(m.Stored(), curs, top.value, chain) && path == Digests(chain) && |chain| == i + 1
      invariant CheckpointDistance(top.value) == i + CheckpointDistance(curs)
      decreases curs
    {
      assert Grounded(env, m.Stored(), curs);
      var parent := m.AUM(curs.prev.value);
      WalkBackOne(m.Stored(), curs, top.value, chain, parent.value);
      chain := [parent.value] + chain;
      curs := parent.value;
      path := path + {Digest(curs)};
      i := i + 1;
    }
    if i > maxIter {
      return Err(IterationLimit);
    }
    PlantedGood(env, m.Stored(), curs);
    var start := CloneForUpdate(curs.state.value, curs);
    r := FollowPath(env, m, maxIter, start, path, want, chain);
  }

  // ---- Finding the chain in force ----

  datatype Candidate = Candidate(oldest: AUM, head: AUM, throughActive: bool)

  datatype Authority = Authority(head: AUM, oldest: AUM, state: State)

  // The authority stands at the head of the chain in force.
  ghost predicate InForce(env: Env, S: set<AUM>, a: Authority) {
    StateAt(a.head) == Some(a.state) && exists ch :: Active(env, S, a.oldest, ch) && Last(ch) == a.head
  }

  // Which updates are stored determines the authority: authorities with the
  // same updates and oldest ancestor agree on head and state.
  lemma InForceUnique(env: Env, S: set<AUM>, a: Authority, b: Authority)
    requires InForce(env, S, a) && InForce(env, S, b) && a.oldest == b.oldest
    ensures a == b
  {
    var ch :| Active(env, S, a.oldest, ch) && Last(ch) == a.head;
    var ch' :| Active(env, S, b.oldest, ch') && Last(ch') == b.head;
    ActiveUnique(env, S, a.oldest, ch, ch');
  }

  lemma LeafExists(S: set<AUM>) returns (a: AUM)
    requires S != {}
    ensures a in S && Children(S, a) == {}
  {
    a := DeepestExists(S);
    if c :| c in Children(S, a) { ChildDepth(c, a); }
  }

  lemma RootParentUnknown(S: set<AUM>, root: AUM)
    requires Closed(S, root)
    ensures root.prev.Some? ==> !IsStored(S, root.prev.value)
  {
    if root.prev.Some? && IsStored(S, root.prev.value) {
      DeeperThanRoot(S, root, root.prev.value.aum);
    }
  }

  // A candidate after walking back n steps from its head, or to the oldest
  // update stored: it knows whether the hint was on the way.
  ghost predicate WalkedFrom(S: set<AUM>, last: Option<AUMHash>, c: Candidate, n: nat) {
    && c.head in S && c.oldest in S && UpTo(c.oldest, c.head) && OldestOf(S, c.oldest) == OldestOf(S, c.head)
    && Height(S, c.oldest) == (if n <= Height(S, c.head) then Height(S, c.head) - n else 0)
    && (c.throughActive <==> Met(last, c.oldest, c.head))
  }

  ghost predicate AllWalked(S: set<AUM>, last: Option<AUMHash>, heads: seq<AUM>, cs: seq<Candidate>, n: nat) {
    && |cs| == |heads|
    && forall i :: 0 <= i < |cs| ==> cs[i].head == heads[i] && WalkedFrom(S, last, cs[i], n)
  }

  // The chains of a storage: one for every update without children, in the
  // order of their digests.  Each starts at the oldest update behind it and
  // says whether the hint lies between, the head itself aside.
  ghost predicate AllChains(env: Env, S: set<AUM>, last: Option<AUMHash>, cs: seq<Candidate>) {
    && (forall c :: c in cs ==> c.oldest == OldestOf(S, c.head) && (c.throughActive <==> Met(last, c.oldest, c.head)))
    && (forall a :: (exists c :: c in cs && c.head == a) <==> a in S && Children(S, a) == {})
    && (forall i, j :: 0 <= i < j < |cs| ==> env.num(Digest(cs[i].head)) < env.num(Digest(cs[j].head)))
  }

  // One candidate moved one step back, if its parent is stored.
  method StepBack(m: Mem, lastKnownOldest: Option<AUMHash>, c: Candidate, ghost n: nat) returns (d: Candidate, moved: bool)
    requires m.Valid() && WalkedFrom(m.Stored(), lastKnownOldest, c, n)
    ensures WalkedFrom(m.Stored(), lastKnownOldest, d, n + 1) && d.head == c.head
    ensures moved <==> Height(m.Stored(), c.head) > n
  {
    d, moved := c, false;
    if c.oldest.prev.Some? {
      var parent := m.AUM(c.oldest.prev.value);
      if parent.Some? {
        assert ParentOf(c.oldest) == Some(parent.value) && ParentStored(m.Stored(), c.oldest);
        MetOneMore(lastKnownOldest, parent.value, c.oldest, c.head);
        d := Candidate(parent.value, c.head, c.throughActive || lastKnownOldest == Some(Digest(parent.value)));
        moved := true;
      }
    }
  }

  // Some head lies more than n updates above its oldest one.
  ghost predicate SomeHigher(S: set<AUM>, heads: seq<AUM>, n: nat) { exists i :: 0 <= i < |heads| && Height(S, heads[i]) > n }

  lemma OneMoreWalked(S: set<AUM>, last: Option<AUMHash>, heads: seq<AUM>, cs: seq<Candidate>, h: AUM, c: Candidate, n: nat)
    requires AllWalked(S, last, heads, cs, n) && c.head == h && WalkedFrom(S, last, c, n)
    ensures AllWalked(S, last, heads + [h], cs + [c], n)
  {
  }

  lemma OneMoreHigher(S: set<AUM>, heads: seq<AUM>, h: AUM, n: nat)
    ensures SomeHigher(S, heads + [h], n) <==> SomeHigher(S, heads, n) || Height(S, h) > n
  {
    assert (heads + [h])[|heads|] == h;
    if SomeHigher(S, heads, n) {
      var i :| 0 <= i < |heads| && Height(S, heads[i]) > n;
      assert (heads + [h])[i] == heads[i];
    }
  }

  lemma WalkStarts(S: set<AUM>, last: Option<AUMHash>, h: AUM)
    requires h in S
    ensures WalkedFrom(S, last, Candidate(h, h, false), 0)
  {
    if Met(last, h, h) {
      UpToDepth(h, last.value.aum);
      UpToDepth(last.value.aum, h);
    }
  }

  // One round over all candidates.
  method StepAllBack(m: Mem, lastKnownOldest: Option<AUMHash>, cs: seq<Candidate>, ghost heads: seq<AUM>, ghost n: nat)
    returns (ds: seq<Candidate>, moved: bool)
    requires m.Valid() && AllWalked(m.Stored(), lastKnownOldest, heads, cs, n)
    ensures AllWalked(m.Stored(), lastKnownOldest, heads, ds, n + 1)
    ensures moved <==> SomeHigher(m.Stored(), heads, n)
  {
    ds, moved := [], false;
    for j := 0 to |cs|
      invariant AllWalked(m.Stored(), lastKnownOldest, heads[..j], ds, n + 1)
      invariant moved <==> SomeHigher(m.Stored(), heads[..j], n)
    {
      var d, stepped := StepBack(m, lastKnownOldest, cs[j], n);
      OneMoreWalked(m.Stored(), lastKnownOldest, heads[..j], ds, heads[j], d, n + 1);
      OneMoreHigher(m.Stored(), heads[..j], heads[j], n);
      TakeMore(heads, j);
      moved := moved || stepped;
      ds := ds + [d];
    }
    assert heads[..|cs|] == heads;
  }

  // The heads by digest.
  method SortHeads(env: Env, heads: seq<AUM>) returns (out: seq<AUM>)
    requires NoCollisions(env, Elems(heads)) && DistinctValues(heads)
    ensures forall a :: a in out <==> a in heads
    ensures ByDigest(env, out)
  {
    out := [];
    for i := 0 to |heads|
      invariant forall a :: a in out <==> a in heads[..i]
      invariant ByDigest(env, out)
    {
      assert heads[..i + 1] == heads[..i] + [heads[i]];
      assert heads[i] !in heads[..i];
      assert forall a :: a in out ==> a in Elems(heads);
      assert heads[i] in Elems(heads);
      out := InsertHead(env, out, heads[i]);
    }
    assert heads[..|heads|] == heads;
  }

  ghost predicate ByDigest(env: Env, s: seq<AUM>) {
    s == [] || (ByDigest(env, s[1..]) && forall b :: b in s[1..] ==> env.num(Digest(s[0])) < env.num(Digest(b)))
  }

  lemma {:induction false} ByDigestAt(env: Env, s: seq<AUM>, i: nat, j: nat)
    requires ByDigest(env, s) && i < j < |s|
    ensures env.num(Digest(s[i])) < env.num(Digest(s[j]))
  {
    if i > 0 { ByDigestAt(env, s[1..], i - 1, j - 1); } else { assert s[1..][j - 1] == s[j]; }
  }

  function InsertHead(env: Env, s: seq<AUM>, a: AUM): (out: seq<AUM>)
    requires ByDigest(env, s) && forall b :: b in s ==> env.num(Digest(b)) != env.num(Digest(a))
    ensures ByDigest(env, out) && forall b :: b in out <==> b in s || b == a
  {
    if s == [] || env.num(Digest(a)) < env.num(Digest(s[0])) then
      assert ([a] + s)[1..] == s;
      [a] + s
    else
      var rest := InsertHead(env, s[1..], a);
      assert ([s[0]] + rest)[1..] == rest;
      [s[0]] + rest
  }

  // The candidates the walk starts from.
  method StartCandidates(m: Mem, lastKnownOldest: Option<AUMHash>, heads: seq<AUM>) returns (cs: seq<Candidate>)
    requires forall h :: h in heads ==> h in m.Stored()
    ensures AllWalked(m.Stored(), lastKnownOldest, heads, cs, 0)
  {
    cs := seq(|heads|, i requires 0 <= i < |heads| => Candidate(heads[i], heads[i], false));
    forall i | 0 <= i < |cs| ensures WalkedFrom(m.Stored(), lastKnownOldest, cs[i], 0) {
      assert heads[i] in heads;
      WalkStarts(m.Stored(), lastKnownOldest, heads[i]);
    }
  }

  // Rounds until no candidate moves.
  method WalkAllBack(m: Mem, lastKnownOldest: Option<AUMHash>, heads: seq<AUM>, maxIter: nat)
    returns (r: Result<seq<Candidate>, Failure>, ghost n: nat)
    requires m.Valid() && forall h :: h in heads ==> h in m.Stored()
    ensures r.Err? ==> maxIter == 0 || SomeHigher(m.Stored(), heads, maxIter - 1)
    ensures r.Ok? ==> 0 < n <= maxIter && !SomeHigher(m.Stored(), heads, n - 1)
    ensures r.Ok? ==> AllWalked(m.Stored(), lastKnownOldest, heads, r.value, n)
  {
    var cs := StartCandidates(m, lastKnownOldest, heads);
    var i := 0;
    var iterAgain := true;
    while iterAgain
      invariant 0 <= i <= maxIter && (!iterAgain ==> i > 0)
      invariant AllWalked(m.Stored(), lastKnownOldest, heads, cs, i)
      invariant i > 0 ==> (iterAgain <==> SomeHigher(m.Stored(), heads, i - 1))
      decreases iterAgain, maxIter - i
    {
      if i >= maxIter {
        return Err(IterationLimit), 0;
      }
      cs, iterAgain := StepAllBack(m, lastKnownOldest, cs, heads, i);
      i := i + 1;
    }
    r, n := Ok(cs), i;
  }

  // computeChainCandidates: walk every head back as far as storage goes.
  method ComputeChainCandidates(env: Env, m: Mem, lastKnownOldest: Option<AUMHash>, maxIter: nat)
    returns (r: Result<seq<Candidate>, Failure>)
    requires m.Valid() && NoCollisions(env, m.Stored())
    ensures r.Ok? <==> maxIter > 0 && Low(m.Stored(), maxIter)
    ensures r.Ok? ==> AllChains(env, m.Stored(), lastKnownOldest, r.value)
  {
    var found := m.Heads();
    var heads := SortHeads(env, found);
    ghost var n;
    r, n := WalkAllBack(m, lastKnownOldest, heads, maxIter);
    if r.Err? {
      if maxIter > 0 { HeadsAreHighest(m.Stored(), heads, maxIter); }
    } else {
      HeadsAreHighest(m.Stored(), heads, n);
      ChainsDone(env, m.Stored(), lastKnownOldest, heads, r.value, n);
    }
  }

  lemma HeadsAreHighest(S: set<AUM>, heads: seq<AUM>, n: nat)
    requires n > 0 && forall a :: a in heads <==> a in S && Children(S, a) == {}
    ensures Low(S, n) <==> !SomeHigher(S, heads, n - 1)
  {
    if Low(S, n) {
      forall i | 0 <= i < |heads| ensures Height(S, heads[i]) < n { assert heads[i] in heads; }
    }
    if !SomeHigher(S, heads, n - 1) {
      forall a | a in S ensures Height(S, a) < n {
        var deepest := DeepestExists(S);
        var h := LeafUnder(S, a, Depth(deepest));
        var i :| 0 <= i < |heads| && heads[i] == h;
        OldestIsRoot(S, a);
        OldestIsRoot(S, h);
        UpToDepth(a, h);
      }
    }
  }

  lemma ChainsDone(env: Env, S: set<AUM>, last: Option<AUMHash>, heads: seq<AUM>, cs: seq<Candidate>, n: nat)
    requires AllWalked(S, last, heads, cs, n) && Low(S, n) && ByDigest(env, heads)
    requires forall a :: a in heads <==> a in S && Children(S, a) == {}
    ensures AllChains(env, S, last, cs)
  {
    forall i, j | 0 <= i < j < |cs| ensures env.num(Digest(cs[i].head)) < env.num(Digest(cs[j].head)) {
      ByDigestAt(env, heads, i, j);
    }
    forall a ensures (exists c :: c in cs && c.head == a) <==> a in heads {
      if a in heads {
        var i :| 0 <= i < |heads| && heads[i] == a;
        assert cs[i] in cs && cs[i].head == a;
      }
    }
  }

  ghost function Oldests(chains: seq<Candidate>): set<AUMHash> { set c | c in chains :: Digest(c.oldest) }

  // The last chain listed with this oldest update ran through the one active
  // before: later chains overwrite earlier ones.
  ghost predicate LastThrough(chains: seq<Candidate>, h: AUMHash) {
    exists i :: 0 <= i < |chains| && Digest(chains[i].oldest) == h && chains[i].throughActive
                && forall j :: i < j < |chains| ==> Digest(chains[j].oldest) != h
  }

  // computeActiveAncestor: the only ancestor, or else one that was active before.
  method ComputeActiveAncestor(chains: seq<Candidate>) returns (r: Result<AUMHash, Failure>)
    ensures r.Ok? ==> r.value in Oldests(chains) && (|Oldests(chains)| == 1 || LastThrough(chains, r.value))
    ensures r.Err? <==> |Oldests(chains)| != 1 && forall h :: !LastThrough(chains, h)
  {
    var ancestors: map<AUMHash, bool> := map[];
    for i := 0 to |chains|
      invariant ancestors.Keys == Oldests(chains[..i])
      invariant forall h :: h in ancestors && ancestors[h] <==> LastThrough(chains[..i], h)
    {
      LastThroughGrows(chains[..i], chains[i]);
      assert chains[..i + 1] == chains[..i] + [chains[i]];
      ancestors := ancestors[Digest(chains[i].oldest) := chains[i].throughActive];
    }
    assert chains[..|chains|] == chains;
    assert |ancestors| == |ancestors.Keys|;
    if |ancestors| == 1 {
      var k :| k in ancestors;
      return Ok(k);
    }
    if k :| k in ancestors && ancestors[k] {
      return Ok(k);
    }
    r := Err(MultipleChains);
  }

  lemma LastThroughGrows(cs: seq<Candidate>, c: Candidate)
    ensures forall h :: LastThrough(cs + [c], h) <==> if h == Digest(c.oldest) then c.throughActive else LastThrough(cs, h)
  {
    var ds := cs + [c];
    forall h
      ensures LastThrough(ds, h) <==> if h == Digest(c.oldest) then c.throughActive else LastThrough(cs, h)
    {
      assert ds[|cs|] == c;
      if h != Digest(c.oldest) && LastThrough(cs, h) {
        var i :| 0 <= i < |cs| && Digest(cs[i].oldest) == h && cs[i].throughActive
                 && forall j :: i < j < |cs| ==> Digest(cs[j].oldest) != h;
        assert ds[i] == cs[i];
      }
      if h != Digest(c.oldest) && LastThrough(ds, h) {
        var i :| 0 <= i < |ds| && Digest(ds[i].oldest) == h && ds[i].throughActive
                 && forall j :: i < j < |ds| ==> Digest(ds[j].oldest) != h;
        assert cs[i] == ds[i];
        assert forall j :: i < j < |cs| ==> cs[j] == ds[j];
      }
    }
  }

  // ---- The candidates' oldest updates are those of storage ----

  lemma OldestsAreRoots(env: Env, S: set<AUM>, last: Option<AUMHash>, cs: seq<Candidate>)
    requires AllChains(env, S, last, cs)
    ensures forall h :: h in Oldests(cs) <==> IsStored(Roots(S), h)
    ensures |Oldests(cs)| == |Roots(S)|
  {
    forall h ensures h in Oldests(cs) <==> IsStored(Roots(S), h) {
      if h in Oldests(cs) {
        var c :| c in cs && Digest(c.oldest) == h;
        assert c.head in S;
        OldestIsRoot(S, c.head);
      }
      if IsStored(Roots(S), h) {
        var deepest := DeepestExists(S);
        var leaf := LeafUnder(S, h.aum, Depth(deepest));
        var c :| c in cs && c.head == leaf;
      }
    }
    SameSize(Oldests(cs), Roots(S));
  }

  lemma {:induction false} SameSize(hs: set<AUMHash>, S: set<AUM>)
    requires forall h :: h in hs <==> IsStored(S, h)
    ensures |hs| == |S|
  {
    if S == {} {
      assert hs == {};
    } else {
      var a :| a in S;
      SameSize(hs - {Digest(a)}, S - {a});
      assert Digest(a) in hs;
    }
  }

  // The flag that survives for an oldest update is that of its last leaf.
  lemma LastThroughIff(env: Env, S: set<AUM>, last: Option<AUMHash>, cs: seq<Candidate>, x: AUM)
    requires AllChains(env, S, last, cs)
    ensures LastThrough(cs, Digest(x)) <==> Remembered(env, S, last, x)
  {
    if LastThrough(cs, Digest(x)) {
      var i :| 0 <= i < |cs| && Digest(cs[i].oldest) == Digest(x) && cs[i].throughActive
               && forall j :: i < j < |cs| ==> Digest(cs[j].oldest) != Digest(x);
      assert cs[i] in cs && cs[i].head in S;
      forall g | LeafBelow(S, x, g) ensures env.num(Digest(g)) <= env.num(Digest(cs[i].head)) {
        var k := IndexOfHead(env, S, last, cs, g);
      }
      assert LastLeaf(env, S, x, cs[i].head);
    }
    if Remembered(env, S, last, x) {
      var h :| LastLeaf(env, S, x, h) && Met(last, x, h);
      var i := IndexOfHead(env, S, last, cs, h);
      forall j | i < j < |cs| ensures Digest(cs[j].oldest) != Digest(x) {
        assert cs[j] in cs && cs[j].head in S;
      }
    }
  }

  lemma IndexOfHead(env: Env, S: set<AUM>, last: Option<AUMHash>, cs: seq<Candidate>, h: AUM) returns (i: nat)
    requires AllChains(env, S, last, cs) && h in S && Children(S, h) == {}
    ensures i < |cs| && cs[i].head == h && cs[i] in cs
  {
    var c :| c in cs && c.head == h;
    i :| 0 <= i < |cs| && cs[i] == c;
  }

  lemma TooLongPath(env: Env, S: set<AUM>, root: AUM, path: seq<AUM>, n: nat)
    requires root in S && PrimaryPath(env, S, path) && path[0] == root && |path| == n + 1
    ensures !Low(S, n)
  {
    PathLinked(env, S, path);
    PathHeight(S, path, n);
    assert path[n] in S;
  }

  lemma {:induction false} PathHeight(S: set<AUM>, path: seq<AUM>, i: nat)
    requires Linked(path) && (forall j :: 0 <= j < |path| ==> path[j] in S) && i < |path|
    ensures Height(S, path[i]) >= i
  {
    if i > 0 {
      PathHeight(S, path, i - 1);
      assert path[i - 1 + 1].prev == Some(Digest(path[i - 1]));
    }
  }

  // The oldest updates the chain in force may start at: the only one, or else
  // the one remembered.
  ghost predicate Eligible(env: Env, S: set<AUM>, last: Option<AUMHash>, x: AUM) {
    x in Roots(S) && (|Roots(S)| == 1 || Remembered(env, S, last, x))
  }

  // computeActiveChain finds the chain in force below the eligible oldest
  // update, and fails exactly when there is none or some stored chain reaches
  // the iteration limit.
  method ComputeActiveChain(env: Env, m: Mem, lastKnownOldest: Option<AUMHash>, maxIter: nat) returns (r: Result<Authority, Failure>)
    requires Stocked(env, m)
    ensures r.Ok? <==> maxIter > 0 && Low(m.Stored(), maxIter) && exists x :: Eligible(env, m.Stored(), lastKnownOldest, x)
    ensures r.Ok? ==> InForce(env, m.Stored(), r.value) && Eligible(env, m.Stored(), lastKnownOldest, r.value.oldest)
  {
    var chains := ComputeChainCandidates(env, m, lastKnownOldest, maxIter);
    if chains.Err? {
      return Err(chains.error);
    }
    if |chains.value| == 0 {
      NoChains(env, m.Stored(), lastKnownOldest, chains.value);
      return Err(NoChain);
    }
    var oldest := ComputeActiveAncestor(chains.value);
    AncestorEligible(env, m.Stored(), lastKnownOldest, chains.value, oldest);
    if oldest.Err? {
      return Err(oldest.error);
    }
    r := ChainFrom(env, m, maxIter, oldest.value);
  }

  lemma NoChains(env: Env, S: set<AUM>, last: Option<AUMHash>, cs: seq<Candidate>)
    requires AllChains(env, S, last, cs) && cs == []
    ensures S == {}
  {
    if S != {} {
      var a := LeafExists(S);
      var i := IndexOfHead(env, S, last, cs, a);
    }
  }

  // What computeActiveAncestor answers, in terms of storage.
  lemma AncestorEligible(env: Env, S: set<AUM>, last: Option<AUMHash>, cs: seq<Candidate>, r: Result<AUMHash, Failure>)
    requires AllChains(env, S, last, cs) && cs != []
    requires r.Ok? ==> r.value in Oldests(cs) && (|Oldests(cs)| == 1 || LastThrough(cs, r.value))
    requires r.Err? <==> |Oldests(cs)| != 1 && forall h :: !LastThrough(cs, h)
    ensures r.Ok? ==> r.value.Digest? && Eligible(env, S, last, r.value.aum)
    ensures r.Err? ==> forall x :: !Eligible(env, S, last, x)
  {
    OldestsAreRoots(env, S, last, cs);
    if r.Ok? {
      LastThroughIff(env, S, last, cs, r.value.aum);
    } else {
      forall x ensures !Eligible(env, S, last, x) { LastThroughIff(env, S, last, cs, x); }
    }
  }

  // From the oldest update forward to the head.
  method ChainFrom(env: Env, m: Mem, maxIter: nat, oldest: AUMHash) returns (r: Result<Authority, Failure>)
    requires Stocked(env, m) && IsStored(Roots(m.Stored()), oldest) && maxIter > 0 && Low(m.Stored(), maxIter)
    ensures r.Ok? && InForce(env, m.Stored(), r.value) && Digest(r.value.oldest) == oldest
  {
    assert Grounded(env, m.Stored(), oldest.aum);
    PlantedGood(env, m.Stored(), oldest.aum);
    var ancestor := m.AUM(oldest);
    var bottom := ComputeStateAt(env, m, maxIter, oldest);
    var top, visited, path := FastForward(env, m, maxIter, bottom.value, None);
    if top.Err? {
      TooLongPath(env, m.Stored(), oldest.aum, path, maxIter);
    }
    assert Active(env, m.Stored(), oldest.aum, path);
    r := Ok(Authority(top.value.0, ancestor.value, top.value.1));
  }

  method Open(env: Env, m: Mem) returns (r: Result<Authority, Failure>)
    requires Stocked(env, m)
    ensures r.Ok? <==> Low(m.Stored(), MaxScanIterations) && exists x :: Eligible(env, m.Stored(), m.lastActiveAncestor, x)
    ensures r.Ok? ==> InForce(env, m.Stored(), r.value) && Eligible(env, m.Stored(), m.lastActiveAncestor, r.value.oldest)
  {
    r := ComputeActiveChain(env, m, m.lastActiveAncestor, MaxScanIterations);
  }

  // On an authority's own storage the hint does not matter.
  lemma ReadyStocked(env: Env, m: Mem, root: AUM, last: Option<AUMHash>)
    requires Ready(env, m, root)
    ensures Stocked(env, m)
    ensures forall x :: Eligible(env, m.Stored(), last, x) <==> x == root
  {
    RootedPlanted(env, m.Stored(), root);
    forall x | Eligible(env, m.Stored(), last, x) ensures x == root { assert x in Roots(m.Stored()); }
  }

  lemma RootedLow(env: Env, S: set<AUM>, root: AUM, n: nat)
    requires Rooted(env, S, root)
    ensures Low(S, n) <==> Shallow(S, root, n)
  {
    RootedPlanted(env, S, root);
    forall a | a in S ensures Height(S, a) == Depth(a) - Depth(root) {
      OldestIsRoot(S, a);
      assert OldestOf(S, a) in Roots(S);
    }
  }

  lemma {:induction false} CheckpointNear(env: Env, S: set<AUM>, root: AUM, a: AUM)
    requires Rooted(env, S, root) && a in S
    ensures CheckpointDistance(a) <= Depth(a) - Depth(root)
    decreases a
  {
    DeeperThanRoot(S, root, a);
    if a != root {
      CheckpointNear(env, S, root, ParentOf(a).value);
      ChildDepth(a, ParentOf(a).value);
    }
  }

  // Bootstrap: storage must be empty and the update a checkpoint signed by
  // keys of its own state.
  method Bootstrap(env: Env, m: Mem, bootstrap: AUM, now: int) returns (r: Result<Authority, Failure>)
    requires m.Valid()
    modifies m
    ensures m.Valid()
    ensures r.Ok? <==> old(m.Stored()) == {} && BootstrapOk(env, bootstrap)
    ensures r.Ok? ==> m.Stored() == {bootstrap} && m.lastActiveAncestor == Some(Digest(bootstrap))
    ensures r.Ok? ==> Ready(env, m, bootstrap) && InForce(env, m.Stored(), r.value)
    ensures r.Ok? ==> r.value.oldest == bootstrap && r.value.head == bootstrap && m.commitTimes == map[Digest(bootstrap) := now]
    ensures r.Err? ==> m.Stored() == old(m.Stored()) && m.lastActiveAncestor == old(m.lastActiveAncestor)
  {
    var heads := m.Heads();
    if m.Stored() != {} { ghost var leaf := LeafExists(m.Stored()); assert leaf in heads; }
    if |heads| != 0 {
      assert heads[0] in m.Stored();
      return Err(NotEmpty);
    }
    if !BootstrapOk(env, bootstrap) {
      return Err(BadBootstrap);
    }
    NothingTimed(m);
    m.CommitVerifiedAUMs([bootstrap], now);
    m.SetLastActiveAncestor(Digest(bootstrap));
    assert m.Stored() == {bootstrap};
    AloneReady(env, bootstrap);
    ReadyStocked(env, m, bootstrap, m.lastActiveAncestor);
    RootedLow(env, m.Stored(), bootstrap, MaxScanIterations);
    assert Eligible(env, m.Stored(), m.lastActiveAncestor, bootstrap);
    r := Open(env, m);
    AloneInForce(env, bootstrap, r.value);
  }

  lemma NothingTimed(m: Mem)
    requires m.Valid() && m.Stored() == {}
    ensures m.commitTimes == map[]
    ensures forall b: AUM, now: int :: Stamped(m.commitTimes, [b], now) == map[Digest(b) := now]
  {
    assert forall h :: h in m.aums ==> m.aums[h] in m.Stored();
    assert m.commitTimes.Keys == {};
    forall b: AUM, now: int ensures Stamped(m.commitTimes, [b], now) == map[Digest(b) := now] { assert [b][..0] == []; }
  }

  predicate BootstrapOk(env: Env, b: AUM) {
    b.kind == AUMCheckpoint && b.state.Some? && AumVerify(env, b, b.state.value, true)
  }

  lemma AloneReady(env: Env, b: AUM)
    requires BootstrapOk(env, b)
    ensures Rooted(env, {b}, b) && NoCollisions(env, {b}) && Shallow({b}, b, MaxScanIterations)
  {
  }

  lemma AloneInForce(env: Env, b: AUM, a: Authority)
    requires InForce(env, {b}, a) && a.oldest == b
    ensures a.head == b
  {
    var ch :| Active(env, {b}, b, ch) && Last(ch) == a.head;
    PathLinked(env, {b}, ch);
  }

  // ---- Taking in updates ----

  // An update InformIdempotent can take: known, or verified against the state
  // at its parent, which is stored or came earlier in the list.
  ghost predicate Acceptable(env: Env, S: set<AUM>, us: seq<AUM>, i: nat)
    requires i < |us|
  {
    || us[i] in S
    || (VerifiedStep(env, us[i]) && ParentOf(us[i]).value in S + Elems(us[..i]))
  }

  ghost predicate AllAcceptable(env: Env, S: set<AUM>, us: seq<AUM>, n: nat)
    requires n <= |us|
  {
    forall i :: 0 <= i < n ==> Acceptable(env, S, us, i)
  }

  // The states computed so far, for updates of T.
  ghost predicate StatesOk(T: set<AUM>, stateAt: map<AUMHash, State>) {
    forall h :: h in stateAt ==> IsStored(T, h) && StateAt(h.aum) == Some(stateAt[h])
  }

  lemma RootedMore(env: Env, T: set<AUM>, root: AUM, u: AUM)
    requires Rooted(env, T, root) && VerifiedStep(env, u) && ParentOf(u).value in T
    ensures Rooted(env, T + {u}, root)
  {
  }

  // The checks on one new update.  T is what is stored plus what was accepted
  // before; every accepted update has its state in stateAt.
  method CheckUpdate(env: Env, m: Mem, stateAt: map<AUMHash, State>, u: AUM, ghost root: AUM, ghost T: set<AUM>)
    returns (r: Result<map<AUMHash, State>, Failure>)
    requires Ready(env, m, root) && m.Stored() <= T && StatesOk(T, stateAt)
    requires forall a :: a in T ==> a in m.Stored() || Digest(a) in stateAt
    ensures r.Ok? ==> VerifiedStep(env, u) && ParentOf(u).value in T
    ensures r.Ok? ==> StatesOk(T + {u}, r.value) && Digest(u) in r.value && stateAt.Keys <= r.value.Keys
    ensures r.Err? && VerifiedStep(env, u) && ParentOf(u).value in T ==> !Shallow(m.Stored(), root, MaxScanIterations)
  {
    if u.prev.None? {
      return Err(BadUpdate);
    }
    var parent := u.prev.value;
    var states := stateAt;
    if parent !in states {
      ReadyStocked(env, m, root, None);
      var s := ComputeStateAt(env, m, MaxScanIterations, parent);
      if s.Err? {
        if IsStored(m.Stored(), parent) { CheckpointNear(env, m.Stored(), root, parent.aum); }
        return Err(s.error);
      }
      states := states[parent := s.value];
    }
    if !AumVerify(env, u, states[parent], false) {
      return Err(BadUpdate);
    }
    var next := ApplyVerifiedAUM(states[parent], u);
    if next.None? {
      return Err(BadUpdate);
    }
    StepState(env, u);
    r := Ok(states[Digest(u) := next.value]);
  }

  // What the loop over the updates has established after n of them.
  datatype Progress = Progress(stateAt: map<AUMHash, State>, toCommit: seq<AUM>, prevHash: AUMHash, isHeadChain: bool)

  ghost predicate ProgressOk(env: Env, S: set<AUM>, root: AUM, ch: seq<AUM>, updates: seq<AUM>, n: nat, p: Progress)
    requires n <= |updates| && ch != []
  {
    && Committable(env, S, root, updates, n, p.toCommit)
    && StatesHeld(S, p.toCommit, p.stateAt)
    && (p.isHeadChain ==> ExtendsHead(ch, updates[..n], p.toCommit, p.prevHash) && p.prevHash in p.stateAt)
  }

  // The first n updates are acceptable, and storing the new ones among them is
  // sound.
  ghost predicate Committable(env: Env, S: set<AUM>, root: AUM, updates: seq<AUM>, n: nat, toCommit: seq<AUM>)
    requires n <= |updates|
  {
    && S + Elems(toCommit) == S + Elems(updates[..n]) && Rooted(env, S + Elems(toCommit), root)
    && AllAcceptable(env, S, updates, n) && (forall u :: u in toCommit ==> u !in S)
  }

  ghost predicate StatesHeld(S: set<AUM>, toCommit: seq<AUM>, stateAt: map<AUMHash, State>) {
    StatesOk(S + Elems(toCommit), stateAt) && forall b :: b in toCommit ==> Digest(b) in stateAt
  }

  // All updates so far are new and extend the head one by one.
  ghost predicate ExtendsHead(ch: seq<AUM>, us: seq<AUM>, toCommit: seq<AUM>, prevHash: AUMHash)
    requires ch != []
  {
    toCommit == us && Linked(ch + toCommit) && prevHash == Digest(Last(ch + toCommit))
  }

  lemma CommittableMore(env: Env, S: set<AUM>, root: AUM, updates: seq<AUM>, n: nat, toCommit: seq<AUM>, u: AUM)
    requires n < |updates| && u == updates[n] && Committable(env, S, root, updates, n, toCommit)
    requires VerifiedStep(env, u) && ParentOf(u).value in S + Elems(toCommit) && u !in S
    ensures Committable(env, S, root, updates, n + 1, toCommit + [u])
    ensures S + Elems(toCommit + [u]) == S + Elems(toCommit) + {u}
  {
    assert updates[..n + 1] == updates[..n] + [u];
    RootedMore(env, S + Elems(toCommit), root, u);
    assert S + Elems(toCommit + [u]) == S + Elems(toCommit) + {u};
    assert Acceptable(env, S, updates, n);
  }

  lemma ExtendsHeadMore(ch: seq<AUM>, us: seq<AUM>, toCommit: seq<AUM>, prevHash: AUMHash, u: AUM)
    requires ch != [] && ExtendsHead(ch, us, toCommit, prevHash) && u.prev == Some(prevHash)
    ensures ExtendsHead(ch, us + [u], toCommit + [u], Digest(u))
  {
    assert ch + (toCommit + [u]) == (ch + toCommit) + [u];
  }

  lemma ProgressStart(env: Env, S: set<AUM>, root: AUM, ch: seq<AUM>, updates: seq<AUM>, p: Progress)
    requires Rooted(env, S, root) && Active(env, S, root, ch)
    requires StateAt(Last(ch)).Some? && p.stateAt == map[Digest(Last(ch)) := StateAt(Last(ch)).value]
    requires p.toCommit == [] && p.prevHash == Digest(Last(ch))
    ensures ProgressOk(env, S, root, ch, updates, 0, p)
  {
    PathLinked(env, S, ch);
    assert ch + [] == ch && S + Elems([]) == S && updates[..0] == [];
    assert Last(ch) in S;
  }

  lemma ProgressKnown(env: Env, S: set<AUM>, root: AUM, ch: seq<AUM>, updates: seq<AUM>, n: nat, p: Progress)
    requires n < |updates| && ch != [] && ProgressOk(env, S, root, ch, updates, n, p) && updates[n] in S
    ensures ProgressOk(env, S, root, ch, updates, n + 1, p.(isHeadChain := false))
  {
    assert updates[..n + 1] == updates[..n] + [updates[n]];
  }

  lemma ProgressNew(env: Env, S: set<AUM>, root: AUM, ch: seq<AUM>, updates: seq<AUM>, n: nat, p: Progress, q: Progress)
    requires n < |updates| && ch != [] && ProgressOk(env, S, root, ch, updates, n, p)
    requires var u := updates[n]; var T := S + Elems(p.toCommit);
             && VerifiedStep(env, u) && ParentOf(u).value in T && u !in S
             && StatesOk(T + {u}, q.stateAt) && Digest(u) in q.stateAt && p.stateAt.Keys <= q.stateAt.Keys
             && q.toCommit == p.toCommit + [u] && q.prevHash == Digest(u)
             && q.isHeadChain == (p.isHeadChain && u.prev.value == p.prevHash)
    ensures ProgressOk(env, S, root, ch, updates, n + 1, q)
  {
    var u := updates[n];
    assert updates[..n + 1] == updates[..n] + [u];
    CommittableMore(env, S, root, updates, n, p.toCommit, u);
    if q.isHeadChain {
      ExtendsHeadMore(ch, updates[..n], p.toCommit, p.prevHash, u);
    }
  }

  // The loop: every update checked, nothing stored yet.
  method CheckUpdates(env: Env, m: Mem, a: Authority, updates: seq<AUM>, ghost ch: seq<AUM>)
    returns (r: Result<Progress, Failure>)
    requires Ready(env, m, a.oldest) && Active(env, m.Stored(), a.oldest, ch) && Last(ch) == a.head
    requires StateAt(a.head) == Some(a.state)
    ensures r.Ok? ==> ProgressOk(env, m.Stored(), a.oldest, ch, updates, |updates|, r.value)
    ensures r.Err? && AllAcceptable(env, m.Stored(), updates, |updates|) ==> !Shallow(m.Stored(), a.oldest, MaxScanIterations)
  {
    var p := Progress(map[Digest(a.head) := a.state], [], Digest(a.head), true);
    ProgressStart(env, m.Stored(), a.oldest, ch, updates, p);
    for i := 0 to |updates|
      invariant ProgressOk(env, m.Stored(), a.oldest, ch, updates, i, p)
    {
      var u := updates[i];
      var known := m.AUM(Digest(u));
      if known.Some? {
        ProgressKnown(env, m.Stored(), a.oldest, ch, updates, i, p);
        p := p.(isHeadChain := false);
      } else {
        assert AllAcceptable(env, m.Stored(), updates, |updates|) ==> Acceptable(env, m.Stored(), updates, i);
        var checked := CheckUpdate(env, m, p.stateAt, u, a.oldest, m.Stored() + Elems(p.toCommit));
        if checked.Err? {
          return Err(checked.error);
        }
        var q := Progress(checked.value, p.toCommit + [u], Digest(u), p.isHeadChain && u.prev.value == p.prevHash);
        ProgressNew(env, m.Stored(), a.oldest, ch, updates, i, p, q);
        p := q;
      }
    }
    r := Ok(p);
  }

  // InformIdempotent.  Either way to the answer, the shortcut for updates that
  // extend the head and the full recomputation, leads to the chain in force
  // in the enlarged storage.
  method InformIdempotent(env: Env, m: Mem, a: Authority, updates: seq<AUM>, now: int) returns (r: Result<Authority, Failure>)
    requires Ready(env, m, a.oldest) && InForce(env, m.Stored(), a)
    requires NoCollisions(env, m.Stored() + Elems(updates))
    modifies m
    ensures m.Valid() && m.lastActiveAncestor == old(m.lastActiveAncestor) && NewlyTimed(old(m.commitTimes), m.commitTimes, now)
    ensures r.Ok? ==> m.Stored() == old(m.Stored()) + Elems(updates)
    ensures Ready(env, m, a.oldest)
    ensures r.Ok? ==> InForce(env, m.Stored(), r.value) && r.value.oldest == a.oldest
    ensures r.Err? ==> || m.Stored() == old(m.Stored())
                       || (m.Stored() == old(m.Stored()) + Elems(updates) && !Shallow(m.Stored(), a.oldest, MaxScanIterations))
    ensures Shallow(old(m.Stored()) + Elems(updates), a.oldest, MaxScanIterations) ==>
              (r.Ok? <==> updates != [] && AllAcceptable(env, old(m.Stored()), updates, |updates|))
  {
    if |updates| == 0 {
      return Err(EmptyUpdate);
    }
    ghost var S := m.Stored();
    ghost var ch :| Active(env, S, a.oldest, ch) && Last(ch) == a.head;
    var p := CheckUpdates(env, m, a, updates, ch);
    if p.Err? {
      return Err(p.error);
    }
    assert updates[..|updates|] == updates;
    NewOnesUntimed(m, p.value.toCommit);
    StampedNew(m.commitTimes, p.value.toCommit, now);
    m.CommitVerifiedAUMs(p.value.toCommit, now);
    if p.value.isHeadChain {
      HeadChainInForce(env, S, a.oldest, ch, updates, p.value);
      return Ok(Authority(updates[|updates| - 1], a.oldest, p.value.stateAt[p.value.prevHash]));
    }
    r := Recompute(env, m, a.oldest);
  }

  lemma NewOnesUntimed(m: Mem, us: seq<AUM>)
    requires m.Valid() && forall u :: u in us ==> u !in m.Stored()
    ensures forall u :: u in us ==> Digest(u) !in m.commitTimes
  {
    forall u | u in us ensures Digest(u) !in m.commitTimes { m.StoredIff(Digest(u)); }
  }

  method Recompute(env: Env, m: Mem, oldest: AUM) returns (r: Result<Authority, Failure>)
    requires Ready(env, m, oldest)
    ensures r.Ok? <==> Shallow(m.Stored(), oldest, MaxScanIterations)
    ensures r.Ok? ==> InForce(env, m.Stored(), r.value) && r.value.oldest == oldest
  {
    ReadyStocked(env, m, oldest, Some(Digest(oldest)));
    RootedLow(env, m.Stored(), oldest, MaxScanIterations);
    r := ComputeActiveChain(env, m, Some(Digest(oldest)), MaxScanIterations);
    assert Eligible(env, m.Stored(), Some(Digest(oldest)), oldest);
  }

  // The shortcut's answer is what recomputing would give.
  lemma HeadChainInForce(env: Env, S: set<AUM>, root: AUM, ch: seq<AUM>, updates: seq<AUM>, p: Progress)
    requires Rooted(env, S, root) && Active(env, S, root, ch) && updates != []
    requires ProgressOk(env, S, root, ch, updates, |updates|, p) && p.isHeadChain
    ensures InForce(env, S + Elems(updates), Authority(Last(updates), root, p.stateAt[p.prevHash]))
  {
    assert updates[..|updates|] == updates;
    var all := ch + updates;
    PathLinked(env, S, ch);
    forall i | 0 <= i < |all| ensures StateAt(all[i]).Some? {
      assert all[i] in S + Elems(updates);
      RootedGood(env, S + Elems(updates), root, all[i]);
    }
    ExtendActive(env, S, root, ch, updates);
    assert Last(all) == Last(updates);
  }
}
