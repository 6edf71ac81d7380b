// Concrete authorities on which a promise of the source does not hold: each is
// the witness to a condition proved elsewhere for all inputs.
module TkaExamples {
  import opened Common
  import opened TkaTypes
  import opened TkaState
  import opened TkaChain
  import opened TkaAncestry
  import opened TkaForest
  import opened TkaStore
  import opened TkaAuthority
  import opened TkaSync
  import opened TkaCompact

  // ---- Keys, states and updates to build them from ----

  function Zeros(n: nat): (r: bytes)
    ensures |r| == n
  {
    seq(n, i => 0)
  }

  function Pub(n: nat): (r: bytes)
    requires n < 65536
    ensures |r| == 32 && r[0] == n / 256 && r[1] == n % 256
  {
    [n / 256, n % 256] + Zeros(30)
  }

  lemma PubDistinct(i: nat, j: nat)
    requires i < 65536 && j < 65536 && Pub(i) == Pub(j)
    ensures i == j
  {
    assert Pub(i)[0] == Pub(j)[0] && Pub(i)[1] == Pub(j)[1];
  }

  function KeyNo(n: nat): Key
    requires n < 65536
  {
    Key(Key25519, 1, Pub(n), [])
  }

  function Keys(n: nat): (r: seq<Key>)
    requires n < 65536
    ensures |r| == n && forall i :: 0 <= i < n ==> r[i] == KeyNo(i)
  {
    seq(n, i requires 0 <= i < n => KeyNo(i))
  }

  function Trust(n: nat, id: nat): State
    requires n < 65536
  {
    State(None, [Zeros(32)], Keys(n), id, 0)
  }

  lemma TrustOk(n: nat, id: nat)
    requires 0 < n <= MaxKeys
    ensures CheckpointOk(Trust(n, id))
  {
    forall i, j | 0 <= i < n && 0 <= j < n && i != j ensures Keys(n)[i].public != Keys(n)[j].public {
      if Pub(i) == Pub(j) { PubDistinct(i, j); }
    }
  }

  lemma NotAmong(n: nat, m: nat)
    requires n <= m < 65536
    ensures !GetKey(Keys(n), Pub(m)).Found?
  {
    forall i | 0 <= i < n ensures Pub(i) != Pub(m) {
      if Pub(i) == Pub(m) { PubDistinct(i, m); }
    }
  }

  function Mark(): Signature { Signature(Pub(0), Zeros(64)) }

  function Checkpoint(prev: Option<AUMHash>, s: State): AUM {
    AUM(AUMCheckpoint, prev, None, None, Some(s), None, None, [Mark()])
  }

  function NoOp(prev: AUM, tag: nat): AUM {
    AUM(AUMNoOp, Some(Digest(prev)), None, None, None, Some(tag), None, [Mark()])
  }

  function Add(prev: AUM, k: Key): AUM {
    AUM(AUMAddKey, Some(Digest(prev)), Some(k), None, None, None, None, [Mark()])
  }

  // A number for every digest, distinct wherever the examples need it.
  function Number(h: AUMHash): nat {
    match h
    case Digest(a) =>
      Depth(a) + 10 * (if a.votes.Some? then a.votes.value else 0) + 100 * (if a.state.Some? then a.state.value.id1 else 0)
    case Junk(n) => n
  }

  function Lab(): Env { Env(Number, (key, a, sig) => true) }

  // Everything signed by the first key of a state is verified there.
  lemma Marked(a: AUM, s: State, n: nat)
    requires 0 < n <= MaxKeys && s.keys == Keys(n) && AUMStaticOk(a) && a.signatures == [Mark()] && a.kind != AUMRemoveKey
    ensures AumVerify(Lab(), a, s, true)
    ensures CheckParent(a, s) ==> AumVerify(Lab(), a, s, false)
  {
    assert IDOf(s.keys[0]) == Some(Pub(0));
    assert SignatureOk(Lab(), a, s, Mark());
  }

  lemma GenesisOk(n: nat, id: nat)
    requires 0 < n <= MaxKeys
    ensures BootstrapOk(Lab(), Checkpoint(None, Trust(n, id)))
  {
    TrustOk(n, id);
    Marked(Checkpoint(None, Trust(n, id)), Trust(n, id), n);
  }

  // A checkpoint of the same keys, or an update that does nothing, on an
  // update whose state has these keys.
  lemma StepOk(p: AUM, a: AUM, n: nat, id: nat)
    requires 0 < n <= MaxKeys && StateAt(p) == Some(Trust(n, id).(last := Some(Digest(p))))
    requires a == Checkpoint(Some(Digest(p)), Trust(n, id)) || a == NoOp(p, if a.votes.Some? then a.votes.value else 0)
    ensures VerifiedStep(Lab(), a) && StateAt(a) == Some(Trust(n, id).(last := Some(Digest(a))))
  {
    TrustOk(n, id);
    Marked(a, StateAt(p).value, n);
  }

  // ---- A state with more keys than a checkpoint may have ----

  function Full(): AUM { Checkpoint(None, Trust(MaxKeys, 0)) }

  // On a genesis of 512 keys, adding one more is verified and applies, and the
  // state it gives cannot be checkpointed.
  lemma KeyLimitBroken()
    ensures BootstrapOk(Lab(), Full()) && |StateAt(Full()).value.keys| == MaxKeys
    ensures var a := Add(Full(), KeyNo(MaxKeys));
            VerifiedStep(Lab(), a) && !CheckpointOk(StateAt(a).value.(last := None))
  {
    var s, a := StateAt(Full()).value, Add(Full(), KeyNo(MaxKeys));
    GenesisOk(MaxKeys, 0);
    Marked(a, s, MaxKeys);
    NotAmong(MaxKeys, MaxKeys);
    StepState(Lab(), a);
  }

  // ---- A node too far behind ----

  function Start(): AUM { Checkpoint(None, Trust(1, 0)) }

  function Second(): AUM { Checkpoint(Some(Digest(Start())), Trust(1, 0)) }

  function Third(): AUM { Checkpoint(Some(Digest(Second())), Trust(1, 0)) }

  function Fourth(): AUM { NoOp(Third(), 0) }

  function Line(): seq<AUM> { [Start(), Second(), Third(), Fourth()] }

  // A line of verified updates from a genesis.
  ghost predicate GoodLine(env: Env, line: seq<AUM>) {
    && 0 < |line| < MaxSyncIter && Linked(line) && BootstrapOk(env, line[0]) && NoCollisions(env, Elems(line))
    && (forall i {:trigger VerifiedStep(env, line[i])} :: 0 < i < |line| ==> VerifiedStep(env, line[i]))
  }

  lemma LineOk()
    ensures GoodLine(Lab(), Line())
  {
    GenesisOk(1, 0);
    StepOk(Start(), Second(), 1, 0);
    StepOk(Second(), Third(), 1, 0);
    StepOk(Third(), Fourth(), 1, 0);
    assert Linked(Line());
    assert Plain(Start()) && Plain(Second()) && Plain(Third()) && Plain(Fourth());
    LineDistinct(Line());
  }

  // An update numbered by its depth.
  ghost predicate Plain(a: AUM) {
    (a.votes.Some? ==> a.votes.value == 0) && (a.state.Some? ==> a.state.value.id1 == 0)
  }

  lemma PlainNumber(a: AUM)
    requires Plain(a)
    ensures Lab().num(Digest(a)) == Depth(a)
  {
  }

  lemma LineDistinct(line: seq<AUM>)
    requires Linked(line) && forall a :: a in line ==> Plain(a)
    ensures NoCollisions(Lab(), Elems(line))
  {
    forall a, b | a in Elems(line) && b in Elems(line) && Lab().num(Digest(a)) == Lab().num(Digest(b)) ensures a == b {
      PlainNumber(a);
      PlainNumber(b);
      var i :| 0 <= i < |line| && line[i] == a;
      var j :| 0 <= j < |line| && line[j] == b;
      LinkedDepth(line, i);
      LinkedDepth(line, j);
    }
  }

  // What is stored of a line of which n updates were learned.
  ghost predicate LineStored(env: Env, S: set<AUM>, root: AUM, ch: seq<AUM>) {
    Rooted(env, S, root) && Active(env, S, root, ch)
  }

  lemma {:induction false} LineRooted(env: Env, line: seq<AUM>, n: nat)
    requires GoodLine(env, line) && 0 < n <= |line|
    ensures LineStored(env, Elems(line[..n]), line[0], line[..n])
  {
    if n == 1 {
      assert line[..1] == [line[0]];
      AloneReady(env, line[0]);
    } else {
      LineRooted(env, line, n - 1);
      LineMore(env, line, n - 1);
    }
  }

  lemma LineSmall(env: Env, line: seq<AUM>, n: nat)
    requires GoodLine(env, line) && 0 < n <= |line|
    ensures NoCollisions(env, Elems(line[..n])) && Shallow(Elems(line[..n]), line[0], MaxSyncIter)
  {
    forall a | a in Elems(line[..n]) ensures a in Elems(line) && Depth(a) - Depth(line[0]) < MaxSyncIter {
      var i :| 0 <= i < n && line[i] == a;
      LinkedDepth(line, i);
    }
  }

  lemma LineMore(env: Env, line: seq<AUM>, n: nat)
    requires GoodLine(env, line) && 0 < n < |line| && LineStored(env, Elems(line[..n]), line[0], line[..n])
    ensures LineStored(env, Elems(line[..n + 1]), line[0], line[..n + 1])
  {
    var S, u, ch := Elems(line[..n]), line[n], line[..n];
    TakeMore(line, n);
    assert line[n - 1 + 1].prev == Some(Digest(line[n - 1])) && line[n - 1] in ch;
    assert VerifiedStep(env, u);
    RootedMore(env, S, line[0], u);
    assert S + {u} == Elems(ch + [u]) == S + Elems([u]);
    forall i: nat | i < |ch + [u]| ensures StateAt((ch + [u])[i]).Some? {
      assert (ch + [u])[i] in ch + [u];
      RootedGood(env, S + {u}, line[0], (ch + [u])[i]);
    }
    ExtendActive(env, S, line[0], ch, [u]);
  }

  lemma StandsOnLine(env: Env, m: Mem, a: Authority, line: seq<AUM>, n: nat)
    requires GoodLine(env, line) && 0 < n <= |line|
    requires m.Valid() && m.Stored() == Elems(line[..n]) && InForce(env, m.Stored(), a) && a.oldest == line[0]
    ensures Standing(env, m, a, line[..n])
  {
    LineRooted(env, line, n);
    LineSmall(env, line, n);
    var ch :| Active(env, m.Stored(), a.oldest, ch) && Last(ch) == a.head;
    ActiveUnique(env, m.Stored(), line[0], ch, line[..n]);
  }

  // The updates from the n-th to before the k-th can be learned.
  lemma LineAcceptable(env: Env, line: seq<AUM>, n: nat, k: nat)
    requires GoodLine(env, line) && 0 < n < k <= |line|
    ensures AllAcceptable(env, Elems(line[..n]), line[n..k], k - n)
    ensures Elems(line[..n]) + Elems(line[n..k]) == Elems(line[..k])
  {
    var S, us := Elems(line[..n]), line[n..k];
    forall i: nat | i < |us| ensures Acceptable(env, S, us, i) {
      var p := line[n + i - 1];
      assert line[n + i - 1 + 1].prev == Some(Digest(p)) && us[i] == line[n + i];
      assert VerifiedStep(env, line[n + i]);
      assert if i == 0 then p == line[..n][n - 1] else p == us[..i][i - 1];
    }
    assert line[..k] == line[..n] + us;
  }

  method Learn(env: Env, m: Mem, a: Authority, line: seq<AUM>, n: nat, k: nat, now: int) returns (b: Authority)
    requires GoodLine(env, line) && 0 < n < k <= |line| && Standing(env, m, a, line[..n]) && a.oldest == line[0]
    requires m.Stored() == Elems(line[..n])
    modifies m
    ensures Standing(env, m, b, line[..k]) && b.oldest == line[0] && m.Stored() == Elems(line[..k])
    ensures NewlyTimed(old(m.commitTimes), m.commitTimes, now)
  {
    LineAcceptable(env, line, n, k);
    LineSmall(env, line, k);
    var r := InformIdempotent(env, m, a, line[n..k], now);
    b := r.value;
    StandsOnLine(env, m, b, line, k);
  }

  // A fresh authority that learned the first n updates of a line, the genesis
  // at time t0 and the others at t1.
  method Begin(env: Env, line: seq<AUM>, n: nat, t0: int, t1: int) returns (m: Mem, a: Authority)
    requires GoodLine(env, line) && 1 < n <= |line|
    ensures fresh(m) && Standing(env, m, a, line[..n]) && a.oldest == line[0] && m.Stored() == Elems(line[..n])
    ensures forall h :: h in m.commitTimes ==> m.commitTimes[h] == if h == Digest(line[0]) then t0 else t1
  {
    m := new Mem();
    var r := Bootstrap(env, m, line[0], t0);
    assert line[..1] == [line[0]];
    StandsOnLine(env, m, r.value, line, 1);
    a := Learn(env, m, r.value, line, 1, n, t1);
  }

  // A node that compacted to the last two of three updates, and a control
  // plane that has learned a fourth: the offer of control lists its genesis
  // only, and the node finds nothing it knows.
  method BehindTooFar() returns (r: Result<(Authority, Authority), Failure>)
    ensures r.Err?
  {
    LineOk();
    r := BehindOnLine(Lab(), Line());
  }

  method BehindOnLine(env: Env, line: seq<AUM>) returns (r: Result<(Authority, Authority), Failure>)
    requires GoodLine(env, line) && |line| == 4 && line[1].kind == AUMCheckpoint
    ensures r.Err?
  {
    var mn, node := NodeSide(env, line);
    var mc, control := ControlSide(env, line);
    LineSmall(env, line, 4);
    assert line[..4] == line;
    PairOnLine(env, mn, node, mc, control, line);
    BehindTooFarIff(line[1..3], line, 1, 1);
    r := ExchangeFails(env, mn, node, mc, control, line[1..3], line);
  }

  method ExchangeFails(env: Env, mn: Mem, node: Authority, mc: Mem, control: Authority, ghost cn: seq<AUM>, ghost cc: seq<AUM>)
    returns (r: Result<(Authority, Authority), Failure>)
    requires Pair(env, mn, node, mc, control, cn, cc, 1) && OutOfTouch(cc, cn)
    modifies mn, mc
    ensures r.Err?
  {
    r := Exchange(env, mn, node, mc, control, 0, cn, cc, 1);
  }

  // The two sides of the example.
  ghost predicate Sides(env: Env, mn: Mem, node: Authority, mc: Mem, control: Authority, line: seq<AUM>)
    requires |line| == 4
    reads mn, mc
  {
    && mn != mc && Standing(env, mn, node, line[1..3]) && mn.Stored() <= Elems(line)
    && Standing(env, mc, control, line) && mc.Stored() == Elems(line) && control.oldest == line[0]
  }

  method NodeSide(env: Env, line: seq<AUM>) returns (m: Mem, a: Authority)
    requires GoodLine(env, line) && |line| == 4 && line[1].kind == AUMCheckpoint
    ensures fresh(m) && Standing(env, m, a, line[1..3]) && m.Stored() <= Elems(line)
  {
    m, a := Begin(env, line, 3, 0, 0);
    a := KeepTwo(env, m, a, line[..3]);
    assert line[..3][1..] == line[1..3];
  }

  method ControlSide(env: Env, line: seq<AUM>) returns (m: Mem, a: Authority)
    requires GoodLine(env, line) && |line| == 4
    ensures fresh(m) && Standing(env, m, a, line) && m.Stored() == Elems(line) && a.oldest == line[0]
  {
    m, a := Begin(env, line, 4, 0, 0);
    assert line[..4] == line;
  }

  lemma PairOnLine(env: Env, mn: Mem, node: Authority, mc: Mem, control: Authority, line: seq<AUM>)
    requires |line| == 4 && NoCollisions(env, Elems(line)) && Shallow(Elems(line), line[0], MaxSyncIter)
    ensures Sides(env, mn, node, mc, control, line) ==> Pair(env, mn, node, mc, control, line[1..3], line, 1)
  {
    if Sides(env, mn, node, mc, control, line) {
      assert mn.Stored() + mc.Stored() == Elems(line);
      assert node.oldest == line[1..3][0] == line[1];
    }
  }

  method KeepTwo(env: Env, m: Mem, a: Authority, ghost ch: seq<AUM>) returns (b: Authority)
    requires |ch| == 3 && ch[1].kind == AUMCheckpoint && Standing(env, m, a, ch) && m.Stored() == Elems(ch)
    requires forall h :: h in m.commitTimes ==> m.commitTimes[h] == 0
    modifies m
    ensures Standing(env, m, b, ch[1..]) && m.Stored() <= old(m.Stored())
  {
    StandingChain(env, m, a, ch);
    b := CompactOld(env, m, a, ch, YoungIn(m, 2 - 1));
  }

  // Compaction when nothing is young, and the authority afterwards.
  method CompactOld(env: Env, m: Mem, a: Authority, ghost ch: seq<AUM>, ghost young: set<AUMHash>) returns (b: Authority)
    requires Standing(env, m, a, ch) && young == YoungIn(m, 2 - 1) && young == {}
    requires |ch| == 3 && Linked(ch) && ch[1].kind == AUMCheckpoint && m.Stored() == Elems(ch)
    modifies m
    ensures Standing(env, m, b, ch[1..]) && m.Stored() <= old(m.Stored())
  {
    ghost var S := m.Stored();
    NoneYoung(ch, young);
    var r, k, p, c := Compact(env, m, a, 1, 1, 2, ch, young);
    ToSecond(S, m.Stored(), ch, young, c, p, k);
    b := a.(oldest := r.value.aum);
  }

  lemma NoneYoung(ch: seq<AUM>, young: set<AUMHash>)
    requires |ch| == 3 && ch[1].kind == AUMCheckpoint && forall h :: h !in young
    ensures young == {} && CutIndex(ch, young, 1, 1) && CanCompact(ch, young, 1)
  {
    assert CutIndex(ch, young, 1, 1);
  }

  lemma ToSecond(S: set<AUM>, R: set<AUM>, ch: seq<AUM>, young: set<AUMHash>, c: nat, p: nat, k: nat)
    requires |ch| == 3 && Linked(ch) && S == Elems(ch) && ch[1].kind == AUMCheckpoint && young == {}
    ensures CompactedTo(S, R, ch, young, 1, c, p, k) ==> k == 1 && R <= S
  {
    if CompactedTo(S, R, ch, young, 1, c, p, k) {
      assert CutIndex(ch, young, 1, 1);
      CutUnique(ch, young, 1, 1, c);
      var base := Base(S, ch, young, 1);
      forall b | b in base ensures b == ch[1] || (UpTo(ch[1], b) && b != ch[1]) {
        var y :| StartsAt(S, young + Digests(ch[1..]), y, b);
        assert y == ch[1] || y == ch[2];
        ChainUpTo(ch, 1, 2);
        UpToTrans(ch[1], y, b);
      }
      assert AllBelow(ch, 1, base, 1);
    }
  }

  // ---- A clock that went back ----

  // The genesis was committed at time 100, then the clock was set back and the
  // next two updates were committed at time 0.  Compaction at time 120 with
  // minAge 50 fails: it would cut at the second update, but the genesis is young.
  method ClockWentBack() returns (r: Result<AUMHash, Failure>)
    ensures r.Err?
  {
    LineOk();
    var m, a := Begin(Lab(), Line(), 3, 100, 0);
    r := CompactYoungRoot(Lab(), m, a, Line()[..3]);
  }

  method CompactYoungRoot(env: Env, m: Mem, a: Authority, ghost ch: seq<AUM>) returns (r: Result<AUMHash, Failure>)
    requires |ch| == 3 && ch[1].kind == AUMCheckpoint && Standing(env, m, a, ch)
    requires forall h :: h in m.commitTimes ==> m.commitTimes[h] == if h == Digest(ch[0]) then 100 else 0
    modifies m
    ensures r.Err?
  {
    StandingChain(env, m, a, ch);
    ghost var young := YoungIn(m, 120 - 50);
    m.StoredIff(Digest(ch[0]));
    YoungRootStuck(ch, young);
    ghost var k, p, c;
    r, k, p, c := Compact(env, m, a, 1, 50, 120, ch, young);
  }

  lemma YoungRootStuck(ch: seq<AUM>, young: set<AUMHash>)
    requires |ch| == 3 && Linked(ch) && ch[1].kind == AUMCheckpoint && young == {Digest(ch[0])}
    ensures !CanCompact(ch, young, 1)
  {
    LinkedDepth(ch, 1);
    assert CutIndex(ch, young, 1, 1);
    forall c | CutIndex(ch, young, 1, c) ensures c == 1 { CutUnique(ch, young, 1, 1, c); }
  }

  // ---- Storage with two oldest updates ----

  // A fork below r, one branch through x, and an unrelated y.
  ghost predicate Forked(r: AUM, x: AUM, left: AUM, right: AUM, y: AUM) {
    && r.prev.None? && y.prev.None? && r != y && x != right
    && x.prev == Some(Digest(r)) && left.prev == Some(Digest(x)) && right.prev == Some(Digest(r))
  }

  lemma ForkRoots(r: AUM, x: AUM, left: AUM, right: AUM, y: AUM)
    requires Forked(r, x, left, right, y)
    ensures Roots({r, x, left, right, y}) == {r, y} && |Roots({r, x, left, right, y})| == 2
  {
    var S := {r, x, left, right, y};
    assert forall a :: a in Roots(S) <==> a == r || a == y;
    assert Roots(S) == {r, y};
  }

  // The hint is stored and in use, and is still of no help when the other
  // branch has the larger digest.
  lemma ForkForgotten(env: Env, r: AUM, x: AUM, left: AUM, right: AUM, y: AUM)
    requires Forked(r, x, left, right, y) && env.num(Digest(left)) < env.num(Digest(right))
    ensures forall z :: !Eligible(env, {r, x, left, right, y}, Some(Digest(x)), z)
  {
    var S := {r, x, left, right, y};
    ForkRoots(r, x, left, right, y);
    ChildDepth(x, r);
    ChildDepth(left, x);
    ChildDepth(right, r);
    assert Children(S, right) == {};
    assert OldestOf(S, r) == r && OldestOf(S, right) == r && OldestOf(S, x) == r;
    assert LeafBelow(S, r, right);
    forall z ensures !Remembered(env, S, Some(Digest(x)), z) {
      RememberedIff(env, S, x, z);
      forall h | LastLeaf(env, S, r, h) && UpTo(x, h) && x != h ensures false {
        UpToDepth(x, h);
      }
    }
  }

  // Storage filled with these updates, remembering last.
  method Fill(updates: seq<AUM>, last: AUM) returns (m: Mem)
    ensures fresh(m) && m.Valid() && m.Stored() == Elems(updates) && m.lastActiveAncestor == Some(Digest(last))
  {
    m := new Mem();
    m.CommitVerifiedAUMs(updates, 0);
    m.SetLastActiveAncestor(Digest(last));
  }

  function Side(): AUM { NoOp(Start(), 1) }

  function Middle(): AUM { NoOp(Start(), 0) }

  function Tip(): AUM { NoOp(Middle(), 0) }

  function Other(): AUM { Checkpoint(None, Trust(1, 1)) }

  lemma ForkPlanted(env: Env, r: AUM, x: AUM, left: AUM, right: AUM, y: AUM)
    requires Forked(r, x, left, right, y) && BootstrapOk(env, r) && BootstrapOk(env, y)
    requires VerifiedStep(env, x) && VerifiedStep(env, left) && VerifiedStep(env, right)
    ensures Planted(env, {r, x, left, right, y})
  {
  }

  lemma ForkOk()
    ensures Forked(Start(), Middle(), Tip(), Side(), Other())
    ensures Planted(Lab(), {Start(), Middle(), Tip(), Side(), Other()})
  {
    GenesisOk(1, 0);
    GenesisOk(1, 1);
    StepOk(Start(), Middle(), 1, 0);
    StepOk(Start(), Side(), 1, 0);
    StepOk(Middle(), Tip(), 1, 0);
    ForkPlanted(Lab(), Start(), Middle(), Tip(), Side(), Other());
  }

  lemma ForkNumbers()
    ensures NoCollisions(Lab(), {Start(), Middle(), Tip(), Side(), Other()}) && Lab().num(Digest(Tip())) < Lab().num(Digest(Side()))
  {
    assert Lab().num(Digest(Start())) == 0 && Lab().num(Digest(Middle())) == 1 && Lab().num(Digest(Tip())) == 2;
    assert Lab().num(Digest(Side())) == 11 && Lab().num(Digest(Other())) == 100;
    FiveApart(Lab(), Start(), Middle(), Tip(), Side(), Other());
  }

  lemma FiveApart(env: Env, a: AUM, b: AUM, c: AUM, d: AUM, e: AUM)
    requires env.num(Digest(a)) < env.num(Digest(b)) < env.num(Digest(c)) < env.num(Digest(d)) < env.num(Digest(e))
    ensures NoCollisions(env, {a, b, c, d, e})
  {
  }

  // Two branches below the remembered tree, one of them through the update
  // remembered: an authority was active there, and Open does not find it.
  method ForgottenFork() returns (r: Result<Authority, Failure>)
    ensures r.Err?
  {
    ForkOk();
    ForkNumbers();
    var m := Fill([Start(), Middle(), Tip(), Side(), Other()], Middle());
    assert m.Stored() == {Start(), Middle(), Tip(), Side(), Other()};
    ForkForgotten(Lab(), Start(), Middle(), Tip(), Side(), Other());
    r := Open(Lab(), m);
  }

  // A remembered update on which nothing was built yet, beside an unrelated
  // one: Open does not find it either.
  method ForgottenGenesis() returns (r: Result<Authority, Failure>)
    ensures r.Err?
  {
    GenesisOk(1, 0);
    GenesisOk(1, 1);
    var m := Fill([Start(), Other()], Start());
    assert m.Stored() == {Start(), Other()};
    TwoAlone(Lab(), Start(), Other());
    assert Lab().num(Digest(Other())) == 100;
    r := Open(Lab(), m);
  }

  lemma TwoAlone(env: Env, x: AUM, y: AUM)
    requires BootstrapOk(env, x) && BootstrapOk(env, y) && x.prev.None? && y.prev.None? && x != y
    ensures Planted(env, {x, y}) && forall z :: !Eligible(env, {x, y}, Some(Digest(x)), z)
  {
    var S := {x, y};
    assert Roots(S) == {x, y} && |Roots(S)| == 2;
    RememberedRoot(env, S, x);
    forall z ensures !Remembered(env, S, Some(Digest(x)), z) {
      if Remembered(env, S, Some(Digest(x)), z) { RememberedIs(env, S, Some(Digest(x)), z); }
    }
  }
}
