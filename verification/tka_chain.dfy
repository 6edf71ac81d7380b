// Which of several update chains is in force: fork resolution over a set of
// stored updates, and why authorities that exchange their chains agree
// (tka/tka.go).
module TkaChain {
  import opened Common
  import opened TkaTypes
  import opened TkaState

  // ---- Stored updates as a tree ----

  ghost function Children(S: set<AUM>, a: AUM): set<AUM> {
    set b | b in S && b.prev == Some(Digest(a))
  }

  lemma ChildrenUnion(S: set<AUM>, T: set<AUM>, a: AUM)
    ensures Children(S + T, a) == Children(S, a) + Children(T, a)
  {
  }

  function Depth(a: AUM): nat
    decreases a
  {
    if a.prev.Some? && a.prev.value.Digest? then 1 + Depth(a.prev.value.aum) else 0
  }

  // Everything stored descends from root through stored updates.
  ghost predicate Closed(S: set<AUM>, root: AUM) {
    && root in S
    && forall a {:trigger ParentOf(a)} :: a in S && a != root ==> ParentOf(a).Some? && ParentOf(a).value in S
  }

  // An update that was verified against, and applies to, the state before it.
  ghost predicate VerifiedStep(env: Env, a: AUM) {
    && ParentOf(a).Some?
    && var before := StateAt(ParentOf(a).value);
       before.Some? && AumVerify(env, a, before.value, false) && Apply(before.value, a).Some?
  }

  // The storage of an authority: a tree of verified updates below a
  // checkpoint.
  ghost predicate Rooted(env: Env, S: set<AUM>, root: AUM) {
    && Closed(S, root)
    && root.kind == AUMCheckpoint && AUMStaticOk(root)
    && forall a {:trigger VerifiedStep(env, a)} :: a in S && a != root ==> VerifiedStep(env, a)
  }

  // No two stored updates share a 32-byte digest.
  ghost predicate NoCollisions(env: Env, S: set<AUM>) {
    forall a, b {:trigger env.num(Digest(a)), env.num(Digest(b))} ::
      a in S && b in S && env.num(Digest(a)) == env.num(Digest(b)) ==> a == b
  }

  lemma {:induction false} DeeperThanRoot(S: set<AUM>, root: AUM, a: AUM)
    requires Closed(S, root) && a in S
    ensures Depth(a) >= Depth(root) && (Depth(a) == Depth(root) ==> a == root)
    decreases a
  {
    if a != root { DeeperThanRoot(S, root, ParentOf(a).value); }
  }

  // The state at a verified update is what applying it to its parent's state gives.
  lemma StepState(env: Env, a: AUM)
    requires VerifiedStep(env, a)
    ensures StateAt(a) == Apply(StateAt(ParentOf(a).value).value, a)
  {
  }

  // Every stored update has a good state, and keeps the authority's identity.
  lemma {:induction false} RootedGood(env: Env, S: set<AUM>, root: AUM, a: AUM)
    requires Rooted(env, S, root) && a in S
    ensures StateAt(a).Some? && Good(StateAt(a).value)
    ensures StateAt(a).value.last == Some(Digest(a)) && AUMStaticOk(a)
    ensures StateAt(a).value.id1 == root.state.value.id1 && StateAt(a).value.id2 == root.state.value.id2
    decreases a
  {
    if a != root {
      var p := ParentOf(a).value;
      RootedGood(env, S, root, p);
      assert VerifiedStep(env, a);
      StepState(env, a);
      ApplyKeepsGood(env, StateAt(p).value, a);
      ApplyKeepsIDs(StateAt(p).value, a);
    }
  }

  // ---- Fork resolution ----

  // The comparator of pickNextAUM: does a go before b?  More votes first,
  // then a key removal, then the lower digest.
  predicate Before(env: Env, s: State, a: AUM, b: AUM) {
    var wa, wb := WeightOf(s, a), WeightOf(s, b);
    if wa != wb then wa > wb
    else if a.kind != b.kind && (a.kind == AUMRemoveKey || b.kind == AUMRemoveKey) then a.kind == AUMRemoveKey
    else env.num(Digest(a)) < env.num(Digest(b))
  }

  // The comparator is a strict total order on updates with distinct digests.
  lemma BeforeIsTotalOrder(env: Env, s: State, a: AUM, b: AUM, c: AUM)
    ensures !(Before(env, s, a, b) && Before(env, s, b, a))
    ensures Before(env, s, a, b) && Before(env, s, b, c) ==> Before(env, s, a, c)
    ensures env.num(Digest(a)) != env.num(Digest(b)) ==> Before(env, s, a, b) || Before(env, s, b, a)
  {
  }

  // b is the child of a that the fork resolution rules choose.
  ghost predicate IsNext(env: Env, S: set<AUM>, a: AUM, b: AUM) {
    && StateAt(a).Some?
    && b in Children(S, a)
    && forall c :: c in Children(S, a) && c != b ==> Before(env, StateAt(a).value, b, c)
  }

  lemma NextUnique(env: Env, S: set<AUM>, a: AUM, b: AUM, c: AUM)
    requires IsNext(env, S, a, b) && IsNext(env, S, a, c)
    ensures b == c
  {
    if b != c { BeforeIsTotalOrder(env, StateAt(a).value, b, c, b); }
  }

  ghost predicate PrimaryPath(env: Env, S: set<AUM>, ch: seq<AUM>) {
    ch != [] && forall i :: 0 <= i < |ch| - 1 ==> IsNext(env, S, ch[i], ch[i + 1])
  }

  // ch is the chain in force: from root, always to the chosen child, to a leaf.
  ghost predicate Active(env: Env, S: set<AUM>, root: AUM, ch: seq<AUM>) {
    PrimaryPath(env, S, ch) && ch[0] == root && Children(S, Last(ch)) == {}
  }

  ghost predicate Linked(ch: seq<AUM>) {
    forall i :: 0 <= i < |ch| - 1 ==> ch[i + 1].prev == Some(Digest(ch[i]))
  }

  ghost function Elems(ch: seq<AUM>): set<AUM> { set a | a in ch }

  lemma {:induction false} LinkedDepth(ch: seq<AUM>, i: nat)
    requires Linked(ch) && i < |ch|
    ensures Depth(ch[i]) == Depth(ch[0]) + i
  {
    if i > 0 { LinkedDepth(ch, i - 1); assert ch[i - 1 + 1].prev == Some(Digest(ch[i - 1])); }
  }

  // Where two linked chains from one root meet, they met all along.
  lemma {:induction false} LinkedMeet(cs: seq<AUM>, ct: seq<AUM>, i: nat, j: nat)
    requires Linked(cs) && Linked(ct) && cs != [] && ct != [] && cs[0] == ct[0]
    requires i < |cs| && j < |ct| && cs[i] == ct[j]
    ensures i == j && cs[..i + 1] == ct[..j + 1]
  {
    LinkedDepth(cs, i);
    LinkedDepth(ct, j);
    if i > 0 {
      assert cs[i - 1 + 1].prev == Some(Digest(cs[i - 1])) && ct[j - 1 + 1].prev == Some(Digest(ct[j - 1]));
      LinkedMeet(cs, ct, i - 1, j - 1);
      assert cs[..i + 1] == cs[..i] + [cs[i]] && ct[..j + 1] == ct[..j] + [ct[j]];
    }
  }

  lemma PathLinked(env: Env, S: set<AUM>, ch: seq<AUM>)
    requires PrimaryPath(env, S, ch)
    ensures Linked(ch)
    ensures forall i :: 1 <= i < |ch| ==> ch[i] in S
  {
    forall i | 1 <= i < |ch| ensures ch[i] in S { assert IsNext(env, S, ch[i - 1], ch[i - 1 + 1]); }
  }

  // The chain in force is determined by the set of stored updates.
  lemma ActiveUnique(env: Env, S: set<AUM>, root: AUM, ch: seq<AUM>, ch': seq<AUM>)
    requires Active(env, S, root, ch) && Active(env, S, root, ch')
    ensures ch == ch'
  {
    NoPathBeyondLeaf(env, S, root, ch, ch');
    NoPathBeyondLeaf(env, S, root, ch', ch);
    PathsAgree(env, S, ch, ch', |ch| - 1);
    assert ch[..|ch|] == ch && ch'[..|ch|] == ch';
  }

  lemma NoPathBeyondLeaf(env: Env, S: set<AUM>, root: AUM, ch: seq<AUM>, ch': seq<AUM>)
    requires Active(env, S, root, ch) && PrimaryPath(env, S, ch') && ch'[0] == root
    ensures |ch'| <= |ch|
  {
    if |ch| < |ch'| {
      assert IsNext(env, S, ch'[|ch| - 1], ch'[|ch| - 1 + 1]);
      PathsAgree(env, S, ch, ch', |ch| - 1);
    }
  }

  lemma {:induction false} PathsAgree(env: Env, S: set<AUM>, ch: seq<AUM>, ch': seq<AUM>, n: nat)
    requires PrimaryPath(env, S, ch) && PrimaryPath(env, S, ch') && ch[0] == ch'[0]
    requires n < |ch| && n < |ch'|
    ensures ch[n] == ch'[n] && ch[..n + 1] == ch'[..n + 1]
  {
    if n > 0 {
      PathsAgree(env, S, ch, ch', n - 1);
      NextUnique(env, S, ch[n - 1], ch[n - 1 + 1], ch'[n - 1 + 1]);
      assert ch[..n + 1] == ch[..n] + [ch[n]] && ch'[..n + 1] == ch'[..n] + [ch'[n]];
    }
  }

  // ---- Agreement after an exchange ----

  // cs and ct share their first k updates and then cs wins: ct stops there,
  // or its next update loses to that of cs.
  ghost predicate WinsFrom(env: Env, cs: seq<AUM>, ct: seq<AUM>, k: nat) {
    && 1 <= k <= |cs| && k <= |ct| && cs[..k] == ct[..k]
    && (k == |ct| ||
        (k < |cs| && StateAt(cs[k - 1]).Some? && cs[k] != ct[k] && Before(env, StateAt(cs[k - 1]).value, cs[k], ct[k])))
  }

  // The child an added chain contributes below an update of the winning chain.
  lemma AddedBelowWinner(env: Env, cs: seq<AUM>, ct: seq<AUM>, k: nat, i: nat, c: AUM)
    requires Linked(cs) && Linked(ct) && WinsFrom(env, cs, ct, k) && i < |cs|
    requires c in ct && c != ct[0] && c.prev == Some(Digest(cs[i]))
    ensures i + 1 < |cs| && i + 1 < |ct| && c == ct[i + 1]
    ensures i + 1 < k ==> c == cs[i + 1]
    ensures i + 1 >= k ==> i + 1 == k
  {
    var j :| 0 <= j < |ct| && ct[j] == c;
    assert ct[j - 1 + 1].prev == Some(Digest(ct[j - 1]));
    assert cs[0] == cs[..k][0] == ct[..k][0];
    assert i + 1 < k ==> cs[..k][i + 1] == ct[..k][i + 1];
    assert i >= k ==> cs[..i + 1][k] == cs[k];
    assert j > k ==> ct[..j][k] == ct[k];
    LinkedMeet(cs, ct, i, j - 1);
  }

  // Adding the losing chain changes nothing for the winner.
  lemma WinnerStays(env: Env, S: set<AUM>, root: AUM, cs: seq<AUM>, ct: seq<AUM>, k: nat)
    requires root in S && Active(env, S, root, cs) && Linked(ct) && WinsFrom(env, cs, ct, k)
    ensures Active(env, S + Elems(ct), root, cs)
  {
    PathLinked(env, S, cs);
    assert ct[0] == ct[..k][0] == cs[..k][0] == root;
    var U := S + Elems(ct);
    forall i | 0 <= i < |cs| - 1 ensures IsNext(env, U, cs[i], cs[i + 1]) {
      assert IsNext(env, S, cs[i], cs[i + 1]);
      forall c | c in Children(U, cs[i]) && c != cs[i + 1] ensures Before(env, StateAt(cs[i]).value, cs[i + 1], c) {
        if c !in S {
          AddedBelowWinner(env, cs, ct, k, i, c);
        } else {
          assert c in Children(S, cs[i]);
        }
      }
    }
    ChildrenUnion(S, Elems(ct), Last(cs));
    forall c | c in Children(U, Last(cs)) ensures false {
      AddedBelowWinner(env, cs, ct, k, |cs| - 1, c);
    }
  }

  // root lies in a tree of updates rooted at base.
  ghost predicate Below(T: set<AUM>, base: AUM, root: AUM) {
    Closed(T, base) && Depth(base) <= Depth(root)
  }

  // Below the point where it loses, the other side knows nothing of the winning chain.
  lemma {:induction false} LoserKnowsNothing(env: Env, T: set<AUM>, base: AUM, root: AUM, cs: seq<AUM>, ct: seq<AUM>, k: nat, i: nat)
    requires Below(T, base, root) && Active(env, T, root, ct) && Linked(cs) && WinsFrom(env, cs, ct, k)
    requires k <= i < |cs|
    ensures cs[i] !in T
    decreases i
  {
    assert cs[0] == cs[..k][0] == ct[..k][0] == root;
    LinkedDepth(cs, i);
    assert cs[i - 1 + 1].prev == Some(Digest(cs[i - 1]));
    if cs[i] in T {
      assert cs[i] != base && ParentOf(cs[i]) == Some(cs[i - 1]);
      if i > k {
        LoserKnowsNothing(env, T, base, root, cs, ct, k, i - 1);
      } else {
        assert cs[k - 1] == cs[..k][k - 1] == ct[..k][k - 1] == ct[k - 1];
        assert cs[k] in Children(T, ct[k - 1]);
        if k < |ct| {
          assert IsNext(env, T, ct[k - 1], ct[k - 1 + 1]);
          BeforeIsTotalOrder(env, StateAt(ct[k - 1]).value, cs[k], ct[k], cs[k]);
        }
      }
    }
  }

  lemma NothingBelowUnknown(T: set<AUM>, root: AUM, a: AUM)
    requires Closed(T, root) && a !in T && Depth(a) >= Depth(root)
    ensures Children(T, a) == {}
  {
    ChildDepth(root, a);
    assert forall c :: c in Children(T, a) ==> ParentOf(c) == Some(a);
  }

  lemma ChildDepth(c: AUM, a: AUM)
    ensures c.prev == Some(Digest(a)) ==> Depth(c) == 1 + Depth(a)
  {
  }

  // Adding the winning chain makes it the one in force on the other side.
  lemma WinnerTakesOver(env: Env, T: set<AUM>, base: AUM, root: AUM, cs: seq<AUM>, ct: seq<AUM>, k: nat)
    requires Below(T, base, root) && Active(env, T, root, ct) && Linked(cs) && WinsFrom(env, cs, ct, k)
    requires forall i :: 0 <= i < |cs| ==> StateAt(cs[i]).Some?
    ensures Active(env, T + Elems(cs), root, cs)
  {
    assert cs[0] == cs[..k][0] == ct[..k][0] == root;
    var U := T + Elems(cs);
    forall i | 0 <= i < |cs| - 1 ensures IsNext(env, U, cs[i], cs[i + 1]) {
      assert cs[i + 1].prev == Some(Digest(cs[i])) && cs[i + 1] in Elems(cs);
      forall c | c in Children(U, cs[i]) && c != cs[i + 1] ensures Before(env, StateAt(cs[i]).value, cs[i + 1], c) {
        WinnerBeatsKnown(env, T, base, root, cs, ct, k, i, c);
      }
    }
    WinnerIsLeaf(env, T, base, root, cs, ct, k);
  }

  lemma WinnerIsLeaf(env: Env, T: set<AUM>, base: AUM, root: AUM, cs: seq<AUM>, ct: seq<AUM>, k: nat)
    requires Below(T, base, root) && Active(env, T, root, ct) && Linked(cs) && WinsFrom(env, cs, ct, k)
    ensures Children(T + Elems(cs), Last(cs)) == {}
  {
    assert cs[0] == cs[..k][0] == ct[..k][0] == root;
    if k < |cs| {
      LoserKnowsNothing(env, T, base, root, cs, ct, k, |cs| - 1);
      LinkedDepth(cs, |cs| - 1);
      NothingBelowUnknown(T, base, Last(cs));
    } else {
      assert cs == cs[..k] && ct[..k] == ct;
    }
    ChildrenUnion(T, Elems(cs), Last(cs));
    forall c | c in Children(T + Elems(cs), Last(cs)) ensures false {
      OnlySuccessor(cs, |cs| - 1, c);
    }
  }

  lemma OnlySuccessor(cs: seq<AUM>, i: nat, c: AUM)
    requires Linked(cs) && i < |cs| && c in cs && c.prev == Some(Digest(cs[i]))
    ensures i + 1 < |cs| && c == cs[i + 1]
  {
    var j :| 0 <= j < |cs| && cs[j] == c;
    LinkedDepth(cs, i);
    LinkedDepth(cs, j);
    ChildDepth(c, cs[i]);
  }

  lemma WinnerBeatsKnown(env: Env, T: set<AUM>, base: AUM, root: AUM, cs: seq<AUM>, ct: seq<AUM>, k: nat, i: nat, c: AUM)
    requires Below(T, base, root) && Active(env, T, root, ct) && Linked(cs) && WinsFrom(env, cs, ct, k)
    requires i + 1 < |cs| && StateAt(cs[i]).Some? && c in Children(T + Elems(cs), cs[i]) && c != cs[i + 1]
    ensures Before(env, StateAt(cs[i]).value, cs[i + 1], c)
  {
    assert cs[0] == cs[..k][0] == ct[..k][0] == root;
    if c !in T {
      OnlySuccessor(cs, i, c);
    } else {
      assert c in Children(T, cs[i]);
      if i >= k {
        LoserKnowsNothing(env, T, base, root, cs, ct, k, i);
        LinkedDepth(cs, i);
        NothingBelowUnknown(T, base, cs[i]);
      } else {
        assert cs[i] == cs[..k][i] == ct[..k][i] == ct[i];
        assert i + 1 < k ==> cs[..k][i + 1] == ct[..k][i + 1];
        if i + 1 < |ct| {
          assert IsNext(env, T, ct[i], ct[i + 1]);
          BeforeIsTotalOrder(env, StateAt(cs[i]).value, cs[i + 1], ct[i + 1], c);
        }
      }
    }
  }

  // Of two chains in force below one root, one wins.
  lemma SomeoneWins(env: Env, S: set<AUM>, T: set<AUM>, root: AUM, cs: seq<AUM>, ct: seq<AUM>) returns (k: nat)
    requires NoCollisions(env, S + T) && Active(env, S, root, cs) && Active(env, T, root, ct)
    requires root in S
    ensures WinsFrom(env, cs, ct, k) || WinsFrom(env, ct, cs, k)
  {
    k := 1;
    while k < |cs| && k < |ct| && cs[k] == ct[k]
      invariant 1 <= k <= |cs| && k <= |ct| && cs[..k] == ct[..k]
      decreases |cs| - k
    {
      assert cs[..k + 1] == cs[..k] + [cs[k]] && ct[..k + 1] == ct[..k] + [ct[k]];
      k := k + 1;
    }
    if k < |cs| && k < |ct| {
      PathLinked(env, S, cs);
      PathLinked(env, T, ct);
      assert cs[k - 1] == cs[..k][k - 1] == ct[..k][k - 1] == ct[k - 1];
      assert IsNext(env, S, cs[k - 1], cs[k - 1 + 1]);
      BeforeIsTotalOrder(env, StateAt(cs[k - 1]).value, cs[k], ct[k], cs[k]);
    }
  }

  lemma SuffixActive(env: Env, T: set<AUM>, root: AUM, ct: seq<AUM>, q: nat)
    requires Active(env, T, root, ct) && q < |ct|
    ensures Active(env, T, ct[q], ct[q..]) && Last(ct[q..]) == Last(ct)
  {
    var s := ct[q..];
    forall i | 0 <= i < |s| - 1 ensures IsNext(env, T, s[i], s[i + 1]) {
      assert IsNext(env, T, ct[q + i], ct[q + i + 1]);
    }
  }

  // What is added below ct[q] leaves the chain down to ct[q] as it is.
  lemma PrefixStays(env: Env, T: set<AUM>, root: AUM, ct: seq<AUM>, q: nat, cs: seq<AUM>, ch: seq<AUM>)
    requires Active(env, T, root, ct) && q < |ct| && root in T
    requires Linked(cs) && cs != [] && cs[0] == ct[q]
    requires Active(env, T + Elems(cs), ct[q], ch)
    ensures Active(env, T + Elems(cs), root, ct[..q] + ch)
  {
    PathLinked(env, T, ct);
    var U, all := T + Elems(cs), ct[..q] + ch;
    forall i | 0 <= i < |all| - 1 ensures IsNext(env, U, all[i], all[i + 1]) {
      if i < q {
        assert all[i] == ct[i] && all[i + 1] == ct[i + 1] && IsNext(env, T, ct[i], ct[i + 1]);
        forall c | c in Children(U, ct[i]) ensures c in Children(T, ct[i]) {
          if c !in T { AddedIsDeeper(ct, q, cs, i, c); }
        }
      } else {
        assert all[i] == ch[i - q] && all[i + 1] == ch[i - q + 1];
      }
    }
  }

  lemma AddedIsDeeper(ct: seq<AUM>, q: nat, cs: seq<AUM>, i: nat, c: AUM)
    requires Linked(ct) && Linked(cs) && cs != [] && q < |ct| && cs[0] == ct[q] && i < q && c in cs
    ensures c.prev == Some(Digest(ct[i])) ==> c == cs[0]
  {
    var j :| 0 <= j < |cs| && cs[j] == c;
    LinkedDepth(cs, j);
    LinkedDepth(ct, q);
    LinkedDepth(ct, i);
    ChildDepth(c, ct[i]);
  }

  // Two authorities send each other the chain they have in force.  One may
  // have forgotten its history before rs (by compaction, say) as long as rs
  // is on the other's chain.  Afterwards both have the same head, whatever
  // side branches either of them stores: the head of the chain that wins at
  // the first fork.
  lemma ExchangeConverges(env: Env, S: set<AUM>, T: set<AUM>, rs: AUM, rt: AUM, cs: seq<AUM>, ct: seq<AUM>, q: nat)
    requires Rooted(env, S, rs) && Rooted(env, T, rt) && NoCollisions(env, S + T)
    requires Active(env, S, rs, cs) && Active(env, T, rt, ct) && q < |ct| && ct[q] == rs
    ensures var S', T' := S + Elems(ct[q..]), T + Elems(cs);
            || (Active(env, S', rs, cs) && Active(env, T', rt, ct[..q] + cs))
            || (Active(env, S', rs, ct[q..]) && Active(env, T', rt, ct))
  {
    var tail := ct[q..];
    SuffixActive(env, T, rt, ct, q);
    PathLinked(env, S, cs);
    PathLinked(env, T, ct);
    PathLinked(env, T, tail);
    LinkedDepth(ct, q);
    assert ct[..q] + tail == ct;
    forall i | 0 <= i < |cs| ensures StateAt(cs[i]).Some? { RootedGood(env, S, rs, cs[i]); }
    forall i | 0 <= i < |tail| ensures StateAt(tail[i]).Some? { RootedGood(env, T, rt, ct[q + i]); }
    var k := SomeoneWins(env, S, T, rs, cs, tail);
    if WinsFrom(env, cs, tail, k) {
      WinnerStays(env, S, rs, cs, tail, k);
      WinnerTakesOver(env, T, rt, rs, cs, tail, k);
      PrefixStays(env, T, rt, ct, q, cs, cs);
    } else {
      WinnerStays(env, T, rs, tail, cs, k);
      WinnerTakesOver(env, S, rs, rs, tail, cs, k);
      PrefixStays(env, T, rt, ct, q, cs, tail);
    }
  }

  // Extending the head by a chain of new updates extends the chain in force:
  // what makes the head-chain shortcut of InformIdempotent right.
  lemma ExtendActive(env: Env, S: set<AUM>, root: AUM, ch: seq<AUM>, us: seq<AUM>)
    requires Closed(S, root) && Active(env, S, root, ch) && Linked(ch + us)
    requires forall i :: 0 <= i < |ch + us| ==> StateAt((ch + us)[i]).Some?
    ensures Active(env, S + Elems(us), root, ch + us)
  {
    PathLinked(env, S, ch);
    var all := ch + us;
    assert all[..|ch|] == ch == ch[..|ch|];
    assert WinsFrom(env, all, ch, |ch|);
    WinnerTakesOver(env, S, root, root, all, ch, |ch|);
    AddKnown(S, ch, us);
  }

  lemma AddKnown(S: set<AUM>, ch: seq<AUM>, us: seq<AUM>)
    requires forall i :: 0 <= i < |ch| ==> ch[i] in S
    ensures S + Elems(ch + us) == S + Elems(us)
  {
    assert forall a :: a in ch + us <==> a in ch || a in us;
  }
}
