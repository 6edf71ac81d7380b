// Stored updates that need not share one oldest update: what storage holds
// before an authority has settled on a chain (tka/tka.go).
module TkaForest {
  import opened Common
  import opened TkaTypes
  import opened TkaState
  import opened TkaChain
  import opened TkaAncestry

  ghost predicate ParentStored(S: set<AUM>, a: AUM) { ParentOf(a).Some? && ParentOf(a).value in S }

  // Where walking back from a ends.
  ghost function OldestOf(S: set<AUM>, a: AUM): AUM
    decreases a
  {
    if ParentStored(S, a) then OldestOf(S, ParentOf(a).value) else a
  }

  ghost function Roots(S: set<AUM>): set<AUM> { set a | a in S && !ParentStored(S, a) }

  // How far back walking back goes.
  ghost function Height(S: set<AUM>, a: AUM): nat
    decreases a
  {
    if ParentStored(S, a) then 1 + Height(S, ParentOf(a).value) else 0
  }

  // Every stored chain is shorter than n.
  ghost predicate Low(S: set<AUM>, n: nat) { forall a :: a in S ==> Height(S, a) < n }

  // An update was verified against the one stored before it, or is a checkpoint.
  ghost predicate Grounded(env: Env, S: set<AUM>, a: AUM) {
    if ParentStored(S, a) then VerifiedStep(env, a) else a.kind == AUMCheckpoint && AUMStaticOk(a)
  }

  ghost predicate Planted(env: Env, S: set<AUM>) {
    forall a {:trigger Grounded(env, S, a)} :: a in S ==> Grounded(env, S, a)
  }

  lemma {:induction false} OldestIsRoot(S: set<AUM>, a: AUM)
    requires a in S
    ensures OldestOf(S, a) in Roots(S) && UpTo(OldestOf(S, a), a) && Depth(a) == Depth(OldestOf(S, a)) + Height(S, a)
    decreases a
  {
    if ParentStored(S, a) {
      OldestIsRoot(S, ParentOf(a).value);
      ChildDepth(a, ParentOf(a).value);
    }
  }

  lemma {:induction false} PlantedGood(env: Env, S: set<AUM>, a: AUM)
    requires Planted(env, S) && a in S
    ensures StateAt(a).Some? && Good(StateAt(a).value)
    ensures StateAt(a).value.last == Some(Digest(a)) && AUMStaticOk(a)
    decreases a
  {
    assert Grounded(env, S, a);
    if ParentStored(S, a) {
      var p := ParentOf(a).value;
      PlantedGood(env, S, p);
      StepState(env, a);
      ApplyKeepsGood(env, StateAt(p).value, a);
    }
  }

  // An authority's own storage is the case of one oldest update.
  lemma RootedPlanted(env: Env, S: set<AUM>, root: AUM)
    requires Rooted(env, S, root)
    ensures Planted(env, S) && Roots(S) == {root}
  {
    assert !ParentStored(S, root) by {
      if ParentStored(S, root) { DeeperThanRoot(S, root, ParentOf(root).value); ChildDepth(root, ParentOf(root).value); }
    }
    forall a | a in S ensures Grounded(env, S, a) && (ParentStored(S, a) <==> a != root) {
      if a != root { assert VerifiedStep(env, a); }
    }
  }

  // ... and there is no other: storage whose updates were all verified, with
  // one oldest update, is what an authority rooted there can work on.
  lemma {:induction false} PlantedRooted(env: Env, S: set<AUM>, root: AUM)
    requires Planted(env, S) && Roots(S) == {root}
    ensures Rooted(env, S, root)
  {
    forall a | a in S ensures Grounded(env, S, a) && (ParentStored(S, a) <==> a != root) {
      assert ParentStored(S, a) <==> a !in Roots(S);
    }
    assert Grounded(env, S, root);
    forall a | a in S && a != root ensures VerifiedStep(env, a) { assert Grounded(env, S, a); }
  }

  // ---- Which oldest update a remembered one leads to ----

  // Walking back from head to oldest meets x on the way, head itself aside.
  ghost predicate Met(last: Option<AUMHash>, oldest: AUM, head: AUM) {
    last.Some? && last.value.Digest? && UpTo(oldest, last.value.aum) && UpTo(last.value.aum, head) && last.value.aum != head
  }

  lemma MetOneMore(last: Option<AUMHash>, p: AUM, oldest: AUM, head: AUM)
    requires ParentOf(oldest) == Some(p) && UpTo(oldest, head)
    ensures Met(last, p, head) <==> Met(last, oldest, head) || last == Some(Digest(p))
    ensures UpTo(p, head)
  {
    assert UpTo(p, oldest);
    UpToTrans(p, oldest, head);
    ChildDepth(oldest, p);
    UpToDepth(oldest, head);
    if Met(last, oldest, head) { UpToTrans(p, oldest, last.value.aum); }
    if Met(last, p, head) && last != Some(Digest(p)) {
      var x := last.value.aum;
      UpToDepth(p, x);
      UpToLinear(oldest, x, head);
    }
  }

  ghost predicate LeafBelow(S: set<AUM>, x: AUM, h: AUM) { h in S && Children(S, h) == {} && OldestOf(S, h) == x }

  // h is the leaf with the largest digest among those below x.
  ghost predicate LastLeaf(env: Env, S: set<AUM>, x: AUM, h: AUM) {
    LeafBelow(S, x, h) && forall g :: LeafBelow(S, x, g) ==> env.num(Digest(g)) <= env.num(Digest(h))
  }

  // x is remembered: the last listed of the chains from x runs through it.
  ghost predicate Remembered(env: Env, S: set<AUM>, last: Option<AUMHash>, x: AUM) {
    exists h :: LastLeaf(env, S, x, h) && Met(last, x, h)
  }

  // What lies between a stored update and its oldest one is stored, and leads there.
  lemma {:induction false} SameOldest(S: set<AUM>, x: AUM, a: AUM)
    requires a in S && UpTo(OldestOf(S, a), x) && UpTo(x, a)
    ensures x in S && OldestOf(S, x) == OldestOf(S, a)
    decreases a
  {
    if x != a {
      UpToDepth(x, ParentOf(a).value);
      ChildDepth(a, ParentOf(a).value);
      UpToDepth(OldestOf(S, a), x);
      assert ParentStored(S, a);
      SameOldest(S, x, ParentOf(a).value);
    }
  }

  // At most one oldest update is remembered, that of the hint.
  lemma RememberedIs(env: Env, S: set<AUM>, last: Option<AUMHash>, x: AUM)
    requires Remembered(env, S, last, x)
    ensures last.Some? && last.value.Digest? && last.value.aum in S && x == OldestOf(S, last.value.aum) && x in Roots(S)
  {
    var h :| LastLeaf(env, S, x, h) && Met(last, x, h);
    SameOldest(S, last.value.aum, h);
    OldestIsRoot(S, h);
  }

  lemma {:induction false} LeafUnder(S: set<AUM>, a: AUM, n: nat) returns (h: AUM)
    requires a in S && forall b :: b in S ==> Depth(b) <= Depth(a) + n
    ensures LeafBelow(S, OldestOf(S, a), h) && UpTo(a, h)
    decreases n
  {
    h := a;
    if c :| c in Children(S, a) {
      ChildDepth(c, a);
      assert ParentStored(S, c);
      h := LeafUnder(S, c, n - 1);
      assert UpTo(a, c);
      UpToTrans(a, c, h);
    }
  }

  lemma {:induction false} LargestDigest(env: Env, L: set<AUM>) returns (h: AUM)
    requires L != {}
    ensures h in L && forall g :: g in L ==> env.num(Digest(g)) <= env.num(Digest(h))
    decreases |L|
  {
    h :| h in L;
    if L != {h} {
      var g := LargestDigest(env, L - {h});
      if env.num(Digest(g)) > env.num(Digest(h)) { h := g; }
    }
  }

  lemma LastLeafExists(env: Env, S: set<AUM>, a: AUM) returns (h: AUM)
    requires a in S
    ensures LastLeaf(env, S, OldestOf(S, a), h)
  {
    var deepest := DeepestExists(S);
    var g := LeafUnder(S, a, Depth(deepest));
    var L := set b | b in S && LeafBelow(S, OldestOf(S, a), b);
    assert g in L;
    h := LargestDigest(env, L);
  }

  lemma {:induction false} DeepestExists(S: set<AUM>) returns (a: AUM)
    requires S != {}
    ensures a in S && forall b :: b in S ==> Depth(b) <= Depth(a)
    decreases |S|
  {
    a :| a in S;
    if S != {a} {
      var b := DeepestExists(S - {a});
      if Depth(b) > Depth(a) { a := b; }
    }
  }

  // The hint works exactly when it is stored and the last listed chain of its
  // tree runs through it and on.
  lemma RememberedIff(env: Env, S: set<AUM>, a: AUM, x: AUM)
    ensures Remembered(env, S, Some(Digest(a)), x) <==>
              && a in S && x == OldestOf(S, a)
              && exists h :: LastLeaf(env, S, x, h) && UpTo(a, h) && a != h
  {
    if Remembered(env, S, Some(Digest(a)), x) {
      RememberedIs(env, S, Some(Digest(a)), x);
      var h :| LastLeaf(env, S, x, h) && Met(Some(Digest(a)), x, h);
    }
    if a in S && x == OldestOf(S, a) {
      OldestIsRoot(S, a);
      assert forall h :: LastLeaf(env, S, x, h) && UpTo(a, h) && a != h ==> Met(Some(Digest(a)), x, h);
    }
  }

  // A remembered oldest update is found again exactly when something was
  // built on it.
  lemma RememberedRoot(env: Env, S: set<AUM>, x: AUM)
    requires x in Roots(S)
    ensures Remembered(env, S, Some(Digest(x)), x) <==> Children(S, x) != {}
  {
    assert OldestOf(S, x) == x;
    var h := LastLeafExists(env, S, x);
    OldestIsRoot(S, h);
    if Children(S, x) != {} {
      assert h != x;
      assert Met(Some(Digest(x)), x, h);
    } else if Remembered(env, S, Some(Digest(x)), x) {
      var g :| LastLeaf(env, S, x, g) && Met(Some(Digest(x)), x, g);
      ChildToward(S, x, g);
    }
  }

  lemma {:induction false} ChildToward(S: set<AUM>, x: AUM, a: AUM)
    requires a in S && OldestOf(S, a) == x && a != x
    ensures Children(S, x) != {}
    decreases a
  {
    var p := ParentOf(a).value;
    if p == x { assert a in Children(S, x); } else { ChildToward(S, x, p); }
  }
}
