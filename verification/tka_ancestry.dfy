// Ancestry between updates, the vocabulary in which compaction is specified.
module TkaAncestry {
  import opened Common
  import opened TkaTypes
  import opened TkaState
  import opened TkaChain

  // x is b or one of its ancestors.
  ghost predicate UpTo(x: AUM, b: AUM)
    decreases b
  {
    x == b || (ParentOf(b).Some? && UpTo(x, ParentOf(b).value))
  }

  lemma {:induction false} UpToTrans(x: AUM, y: AUM, b: AUM)
    requires UpTo(x, y) && UpTo(y, b)
    ensures UpTo(x, b)
    decreases b
  {
    if y != b {
      UpToTrans(x, y, ParentOf(b).value);
    }
  }

  lemma {:induction false} UpToDepth(x: AUM, b: AUM)
    requires UpTo(x, b)
    ensures Depth(x) <= Depth(b) && (Depth(x) == Depth(b) ==> x == b)
    decreases b
  {
    if x != b {
      UpToDepth(x, ParentOf(b).value);
    }
  }

  // The ancestors of an update are ordered by depth.
  lemma {:induction false} UpToLinear(x: AUM, y: AUM, b: AUM)
    requires UpTo(x, b) && UpTo(y, b) && Depth(x) <= Depth(y)
    ensures UpTo(x, y)
    decreases b
  {
    if y != b && x != b {
      UpToLinear(x, y, ParentOf(b).value);
    } else if y != b {
      UpToDepth(y, b);
    }
  }

  lemma {:induction false} ChainUpTo(ch: seq<AUM>, i: nat, j: nat)
    requires Linked(ch) && i <= j < |ch|
    ensures UpTo(ch[i], ch[j])
    decreases j
  {
    if i < j {
      ChainUpTo(ch, i, j - 1);
      assert ch[j - 1 + 1].prev == Some(Digest(ch[j - 1]));
    }
  }

  // An ancestor of a chain's update that is as deep as one of its updates is it.
  lemma OnChainAt(ch: seq<AUM>, x: AUM, i: nat, j: nat)
    requires Linked(ch) && j <= i < |ch| && UpTo(x, ch[i]) && Depth(x) == Depth(ch[j])
    ensures x == ch[j]
  {
    ChainUpTo(ch, j, i);
    UpToLinear(x, ch[j], ch[i]);
    UpToDepth(x, ch[j]);
  }

  // What is above a stored update and not above the root is stored.
  lemma {:induction false} PathStored(S: set<AUM>, root: AUM, x: AUM, b: AUM)
    requires Closed(S, root) && b in S && UpTo(x, b) && Depth(x) >= Depth(root)
    ensures x in S
    decreases b
  {
    if x != b {
      UpToDepth(x, ParentOf(b).value);
      assert b != root;
      PathStored(S, root, x, ParentOf(b).value);
    }
  }

  // ---- What must stay ----

  // start and all its stored descendants.
  ghost predicate StartsAt(S: set<AUM>, start: set<AUMHash>, y: AUM, a: AUM) { y in S && Digest(y) in start && UpTo(y, a) }

  ghost predicate Descends(S: set<AUM>, start: set<AUMHash>, a: AUM) { exists y :: StartsAt(S, start, y, a) }

  ghost function BaseOf(S: set<AUM>, start: set<AUMHash>): set<AUM> { set a | a in S && Descends(S, start, a) }

  // Everything to stay, except ch[c] itself, lies strictly below ch[i].
  ghost predicate AllBelow(ch: seq<AUM>, c: nat, base: set<AUM>, i: nat)
    requires i <= c < |ch|
  {
    forall b :: b in base ==> b == ch[c] || (UpTo(ch[i], b) && b != ch[i])
  }

  ghost predicate BelowSome(base: set<AUM>, x: AUM) { exists b :: b in base && UpTo(x, b) }

  // Nothing lies above the root.
  lemma RootNotBelow(ch: seq<AUM>, c: nat, base: set<AUM>, i: nat)
    requires Linked(ch) && i <= c < |ch| && c > 0 && ch[0] in base
    ensures !AllBelow(ch, c, base, i)
  {
    LinkedDepth(ch, c);
    LinkedDepth(ch, i);
    if AllBelow(ch, c, base, i) {
      UpToDepth(ch[i], ch[0]);
    }
  }
}
