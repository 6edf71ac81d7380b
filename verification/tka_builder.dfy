// Building updates to an authority (tka/builder.go).
module TkaBuilder {
  import opened Common
  import opened TkaTypes
  import opened TkaState
  import opened TkaChain
  import opened TkaStore
  import opened TkaAuthority

  const CheckpointEvery := 50

  // What applying a list of updates in turn gives; None when one fails.
  function Replay(s: State, us: seq<AUM>): Option<State> {
    if us == [] then Some(s)
    else match Replay(s, us[..|us| - 1])
      case None => None
      case Some(t) => Apply(t, Last(us))
  }

  // us are chained by hash, beginning at head.
  ghost predicate ChainedFrom(head: AUMHash, us: seq<AUM>) {
    Linked(us) && (us != [] ==> us[0].prev == Some(head))
  }

  // A signer gives signatures for an update without its signatures, or fails.
  type Signer = AUM -> Option<seq<Signature>>

  type Meta = seq<(string, string)>

  // The updates before parent and signatures are filled in.
  function AddKeyUpdate(key: Key): AUM { AUM(AUMAddKey, None, Some(key), None, None, None, None, []) }

  function RemoveKeyUpdate(keyID: KeyID): AUM { AUM(AUMRemoveKey, None, None, Some(keyID), None, None, None, []) }

  function UpdateKeyUpdate(keyID: KeyID, votes: Option<nat>, meta: Option<Meta>): AUM {
    AUM(AUMUpdateKey, None, None, Some(keyID), None, votes, meta, [])
  }

  function CheckpointUpdate(s: State): AUM { AUM(AUMCheckpoint, None, None, None, Some(s.(last := None)), None, None, []) }

  // out was built from base and head on, reaching state s at parent.
  ghost predicate Built(base: State, head: AUMHash, out: seq<AUM>, s: State, parent: AUMHash) {
    && Replay(base, out) == Some(s)
    && ChainedFrom(head, out)
    && parent == (if out == [] then head else Digest(Last(out)))
    && s.last == Some(parent)
    && forall i :: 0 <= i < |out| ==> AUMStaticOk(out[i])
  }

  lemma BuiltMore(base: State, head: AUMHash, out: seq<AUM>, s: State, parent: AUMHash, u: AUM)
    requires Built(base, head, out, s, parent) && u.prev == Some(parent) && AUMStaticOk(u) && Apply(s, u).Some?
    ensures Built(base, head, out + [u], Apply(s, u).value, Digest(u))
  {
    ReplayMore(base, out, s, u);
    ChainedMore(head, out, u);
    ApplyNamesLast(s, u);
  }

  lemma ReplayMore(base: State, out: seq<AUM>, s: State, u: AUM)
    requires Replay(base, out) == Some(s)
    ensures Replay(base, out + [u]) == Apply(s, u)
  {
    assert (out + [u])[..|out|] == out;
  }

  lemma ChainedMore(head: AUMHash, out: seq<AUM>, u: AUM)
    requires ChainedFrom(head, out) && u.prev == Some(if out == [] then head else Digest(Last(out)))
    ensures ChainedFrom(head, out + [u])
  {
  }

  lemma ApplyNamesLast(s: State, u: AUM)
    requires Apply(s, u).Some?
    ensures Apply(s, u).value.last == Some(Digest(u))
  {
  }

  class UpdateBuilder {
    var state: State
    var parent: AUMHash
    var out: seq<AUM>
    const signer: Option<Signer>
    // The state and head of the authority the builder was made for.
    ghost const base: State
    ghost const head: AUMHash

    ghost predicate Valid()
      reads this
    {
      Built(base, head, out, state, parent)
    }

    constructor (a: Authority, signer: Option<Signer>)
      requires a.state.last == Some(Digest(a.head))
      ensures Valid() && out == [] && base == a.state && head == Digest(a.head) && this.signer == signer
    {
      this.signer := signer;
      state, parent, out := a.state, a.state.last.value, [];
      base, head := a.state, a.state.last.value;
    }

    // The update as it is appended: parent filled in and signed.
    function Completed(update: AUM): Option<AUM>
      reads this
    {
      var u := update.(prev := Some(parent));
      if signer.None? then Some(u)
      else
        var sigs := signer.value(u.(signatures := []));
        if sigs.None? then None else Some(u.(signatures := u.signatures + sigs.value))
    }

    // The completed update is well-formed and applies.
    predicate Buildable(update: AUM)
      reads this
    {
      var u := Completed(update);
      u.Some? && AUMStaticOk(u.value) && Apply(state, u.value).Some?
    }

    method MkUpdate(update: AUM) returns (ok: bool)
      requires Valid()
      modifies this
      ensures Valid()
      ensures ok <==> old(Buildable(update))
      ensures ok ==> out == old(out) + [old(Completed(update)).value]
      ensures !ok ==> out == old(out) && state == old(state) && parent == old(parent)
    {
      var u := Completed(update);
      if u.None? || !AUMStaticOk(u.value) {
        return false;
      }
      var next := ApplyVerifiedAUM(state, u.value);
      if next.None? {
        return false;
      }
      BuiltMore(base, head, out, state, parent, u.value);
      state := next.value;
      parent := Digest(u.value);
      out := out + [u.value];
      return true;
    }

    // AddKey: not for a key without ID, one already trusted, or beyond the limit.
    method AddKey(key: Key) returns (ok: bool)
      requires Valid()
      modifies this
      ensures Valid()
      ensures ok <==> old(IDOf(key).Some? && !GetKey(state.keys, IDOf(key).value).Found? && |state.keys| < MaxKeys && Buildable(AddKeyUpdate(key)))
      ensures ok ==> state.keys == old(state.keys) + [key] && old(out) < out && |out| == |old(out)| + 1
      ensures ok ==> |state.keys| <= MaxKeys && !GetKey(old(state.keys), key.public).Found?
      ensures !ok ==> out == old(out) && state == old(state)
    {
      if IDOf(key).None? {
        return false;
      }
      if GetKey(state.keys, IDOf(key).value).Found? {
        return false;
      }
      if |state.keys| >= MaxKeys {
        return false;
      }
      ghost var before := out;
      ok := MkUpdate(AddKeyUpdate(key));
      if ok { LastApplied(base, before, out, state); }
    }

    method RemoveKey(keyID: KeyID) returns (ok: bool)
      requires Valid()
      modifies this
      ensures Valid()
      ensures ok <==> old(GetKey(state.keys, keyID).Found? && Buildable(RemoveKeyUpdate(keyID)))
      ensures ok ==> DropKey(old(state.keys), keyID) == Some(state.keys) && old(out) < out && |out| == |old(out)| + 1
      ensures !ok ==> out == old(out) && state == old(state)
    {
      if !GetKey(state.keys, keyID).Found? {
        return false;
      }
      ghost var before := out;
      ok := MkUpdate(RemoveKeyUpdate(keyID));
      if ok { LastApplied(base, before, out, state); }
    }

    method SetKeyVote(keyID: KeyID, votes: nat) returns (ok: bool)
      requires Valid()
      modifies this
      ensures Valid()
      ensures ok <==> old(GetKey(state.keys, keyID).Found? && Buildable(UpdateKeyUpdate(keyID, Some(votes), None)))
      ensures ok ==> GetKey(old(state.keys), keyID).Found? && old(out) < out && |out| == |old(out)| + 1
      ensures ok ==> ReplaceKey(old(state.keys), keyID, GetKey(old(state.keys), keyID).key.(votes := votes)) == Some(state.keys)
      ensures !ok ==> out == old(out) && state == old(state)
    {
      if !GetKey(state.keys, keyID).Found? {
        return false;
      }
      ghost var before := out;
      ok := MkUpdate(UpdateKeyUpdate(keyID, Some(votes), None));
      if ok { LastApplied(base, before, out, state); }
    }

    // SetKeyMeta; None stands for a nil map.
    method SetKeyMeta(keyID: KeyID, meta: Option<Meta>) returns (ok: bool)
      requires Valid()
      modifies this
      ensures Valid()
      ensures ok <==> old(GetKey(state.keys, keyID).Found? && Buildable(UpdateKeyUpdate(keyID, None, meta)))
      ensures ok ==> GetKey(old(state.keys), keyID).Found? && meta.Some? && old(out) < out && |out| == |old(out)| + 1
      ensures ok ==> ReplaceKey(old(state.keys), keyID, GetKey(old(state.keys), keyID).key.(meta := meta.value)) == Some(state.keys)
      ensures !ok ==> out == old(out) && state == old(state)
    {
      if !GetKey(state.keys, keyID).Found? {
        return false;
      }
      ghost var before := out;
      ok := MkUpdate(UpdateKeyUpdate(keyID, None, meta));
      if ok { LastApplied(base, before, out, state); }
    }

    predicate CanCheckpoint(a: Authority)
      reads this
    {
      var s := Replay(a.state, out);
      s.Some? && Buildable(CheckpointUpdate(s.value))
    }

    // generateCheckpoint, for the authority as it is now.
    method GenerateCheckpoint(a: Authority) returns (ok: bool)
      requires Valid()
      modifies this
      ensures Valid()
      ensures !ok ==> out == old(out) && state == old(state) && parent == old(parent)
      ensures ok <==> old(CanCheckpoint(a))
      ensures ok ==> old(out) < out && |out| == |old(out)| + 1 && Last(out).kind == AUMCheckpoint
      ensures ok && a.state == base ==>
                Last(out).state == Some(old(state).(last := None)) && state == old(state).(last := Some(parent))
    {
      var s := ReplayLoop(a.state, out);
      if s.None? {
        return false;
      }
      ghost var before, was := out, state;
      var update := CheckpointUpdate(s.value);
      ok := MkUpdate(update);
      if ok { CheckpointApplied(base, before, out, was, state, s.value); }
    }

    // Finalize: add a checkpoint unless one, the genesis or the end of what is
    // stored lies within the interval, and refuse if the head has moved.
    method Finalize(env: Env, m: Mem, a: Authority) returns (r: Option<seq<AUM>>)
      requires Valid() && m.Valid()
      modifies this
      ensures Valid()
      ensures old(out) <= out && |out| <= |old(out)| + 1
      ensures r.None? <==>
                || (!RecentStop(m.Stored(), Digest(a.head), CheckpointEvery - |old(out)|) && !old(CanCheckpoint(a)))
                || (out != [] && head != Digest(a.head))
      ensures r.Some? ==> r.value == out
      ensures r.Some? && RecentStop(m.Stored(), Digest(a.head), CheckpointEvery - |old(out)|) ==> out == old(out)
      ensures r.Some? && !RecentStop(m.Stored(), Digest(a.head), CheckpointEvery - |old(out)|) ==>
                |out| == |old(out)| + 1 && Last(out).kind == AUMCheckpoint
      ensures r.Some? && |out| == |old(out)| + 1 && a.state == base ==>
                Last(out).state == Some(old(state).(last := None)) && state == old(state).(last := Some(parent))
    {
      var need := NeedsCheckpoint(m, Digest(a.head), CheckpointEvery - |out|);
      if need {
        var ok := GenerateCheckpoint(a);
        if !ok {
          return None;
        }
      }
      if |out| > 0 && out[0].prev != Some(Digest(a.head)) {
        return None;
      }
      r := Some(out);
    }
  }

  // What a checkpoint of s leaves behind.
  lemma CheckpointApplied(base: State, before: seq<AUM>, out: seq<AUM>, was: State, state: State, s: State)
    requires |out| == |before| + 1 && before < out && Replay(base, before) == Some(was) && Replay(base, out) == Some(state)
    requires Last(out).kind == AUMCheckpoint && Last(out).state == Some(s.(last := None))
    ensures state == s.(last := Some(Digest(Last(out))))
  {
    LastApplied(base, before, out, state);
  }

  // Replaying updates one after the other.
  method ReplayLoop(s0: State, us: seq<AUM>) returns (r: Option<State>)
    ensures r == Replay(s0, us)
  {
    var s := s0;
    for i := 0 to |us|
      invariant Replay(s0, us[..i]) == Some(s)
    {
      assert us[..i + 1][..i] == us[..i];
      var next := ApplyVerifiedAUM(s, us[i]);
      if next.None? {
        ReplayFails(s0, us, i + 1);
        return None;
      }
      s := next.value;
    }
    assert us[..|us|] == us;
    r := Some(s);
  }

  lemma {:induction false} ReplayFails(s: State, us: seq<AUM>, i: nat)
    requires i <= |us| && Replay(s, us[..i]).None?
    ensures Replay(s, us).None?
    decreases |us|
  {
    if i < |us| {
      assert us[..|us| - 1][..i] == us[..i];
      ReplayFails(s, us[..|us| - 1], i);
    } else {
      assert us[..i] == us;
    }
  }

  // The loop of Finalize: walk back up to n updates in search of a reason not
  // to add a checkpoint.
  method NeedsCheckpoint(m: Mem, head: AUMHash, n: int) returns (need: bool)
    requires m.Valid()
    ensures need <==> !RecentStop(m.Stored(), head, n)
  {
    var cursor := head;
    var i := 0;
    while i < n
      invariant 0 <= i && (i <= n || i == 0)
      invariant HashBack(head, i) == Some(cursor)
      invariant forall j: nat :: j < i ==> !StopsAt(m.Stored(), head, j)
    {
      var aum := m.AUM(cursor);
      if aum.None? || aum.value.kind == AUMCheckpoint || aum.value.prev.None? {
        assert StopsAt(m.Stored(), head, i);
        return false;
      }
      cursor := aum.value.prev.value;
      i := i + 1;
    }
    need := true;
  }

  // The hash i updates back from h.
  ghost function HashBack(h: AUMHash, i: nat): Option<AUMHash> {
    if i == 0 then Some(h)
    else match HashBack(h, i - 1)
      case Some(Digest(a)) => a.prev
      case _ => None
  }

  // The walk back ends i updates before h: not stored, a checkpoint, or the genesis.
  ghost predicate StopsAt(S: set<AUM>, h: AUMHash, i: nat) {
    var b := HashBack(h, i);
    b.Some? && (!IsStored(S, b.value) || b.value.aum.kind == AUMCheckpoint || b.value.aum.prev.None?)
  }

  ghost predicate RecentStop(S: set<AUM>, h: AUMHash, n: int) {
    exists i: nat :: i < n && StopsAt(S, h, i)
  }

  lemma LastApplied(base: State, before: seq<AUM>, out: seq<AUM>, s: State)
    requires |out| == |before| + 1 && before < out && Replay(base, out) == Some(s)
    ensures Replay(base, before).Some? && Apply(Replay(base, before).value, Last(out)) == Some(s)
  {
    assert out[..|out| - 1] == before;
  }

  // Adding a key and removing it again leaves the trusted keys as they were.
  lemma {:induction false} AddThenRemove(keys: seq<Key>, k: Key)
    requires k.kind == Key25519 && GetKey(keys, k.public) == NoSuchKey
    ensures DropKey(keys + [k], k.public) == Some(keys)
  {
    if keys == [] {
      assert ([k])[1..] == [];
    } else {
      assert keys[0] in keys;
      AddThenRemove(keys[1..], k);
      assert (keys + [k])[1..] == keys[1..] + [k] && [keys[0]] + keys[1..] == keys;
    }
  }

  // What a builder replays is the state at each update it made.
  lemma {:induction false} ReplayIsStateAt(a: Authority, us: seq<AUM>, s: State)
    requires StateAt(a.head) == Some(a.state) && ChainedFrom(Digest(a.head), us) && Replay(a.state, us) == Some(s)
    ensures us != [] ==> StateAt(Last(us)) == Some(s)
    ensures forall i :: 0 <= i < |us| ==> StateAt(us[i]).Some?
    decreases |us|
  {
    if us != [] {
      var front := us[..|us| - 1];
      assert Linked(front);
      ReplayIsStateAt(a, front, Replay(a.state, front).value);
      assert forall i :: 0 <= i < |us| - 1 ==> us[i] == front[i];
      if front != [] {
        assert us[|us| - 2 + 1].prev == Some(Digest(us[|us| - 2])) && Last(front) == us[|us| - 2];
      }
      assert Apply(Replay(a.state, front).value, Last(us)) == Some(s);
    }
  }

  // A builder's updates, once the authority that made them takes them in, put
  // it exactly in the builder's state: they extend the chain in force.
  lemma BuiltTakesEffect(env: Env, S: set<AUM>, a: Authority, us: seq<AUM>, s: State)
    requires Rooted(env, S, a.oldest) && InForce(env, S, a) && us != []
    requires ChainedFrom(Digest(a.head), us) && Replay(a.state, us) == Some(s)
    ensures InForce(env, S + Elems(us), Authority(Last(us), a.oldest, s))
  {
    ReplayIsStateAt(a, us, s);
    var ch :| Active(env, S, a.oldest, ch) && Last(ch) == a.head;
    PathLinked(env, S, ch);
    var all := ch + us;
    forall i | 0 <= i < |all| ensures StateAt(all[i]).Some? {
      if i < |ch| { RootedGood(env, S, a.oldest, ch[i]); }
    }
    forall i | 0 <= i < |all| - 1 ensures all[i + 1].prev == Some(Digest(all[i])) {
      if i >= |ch| { assert us[i - |ch| + 1].prev == Some(Digest(us[i - |ch|])); }
    }
    ExtendActive(env, S, a.oldest, ch, us);
  }

  // What aumVerify asks of an update beyond its form and place: signatures,
  // all by keys trusted before it, and that a key remains.
  predicate Vouched(env: Env, before: State, u: AUM) {
    && u.signatures != []
    && (forall i :: 0 <= i < |u.signatures| ==> SignatureOk(env, u, before, u.signatures[i]))
    && !(u.kind == AUMRemoveKey && |before.keys| == 1 && IDOf(before.keys[0]) == Some(NamedID(u)))
  }

  lemma {:induction false} ReplayPrefix(s: State, us: seq<AUM>, i: nat)
    requires Replay(s, us).Some? && i <= |us|
    ensures Replay(s, us[..i]).Some?
    decreases |us|
  {
    if i == |us| {
      assert us[..i] == us;
    } else {
      ReplayPrefix(s, us[..|us| - 1], i);
      assert us[..|us| - 1][..i] == us[..i];
    }
  }

  // The state a builder replayed before its i-th update is that at the parent.
  lemma StateBefore(a: Authority, us: seq<AUM>, i: nat)
    requires StateAt(a.head) == Some(a.state) && a.state.last == Some(Digest(a.head))
    requires ChainedFrom(Digest(a.head), us) && Replay(a.state, us).Some? && i < |us|
    ensures Replay(a.state, us[..i]).Some? && ParentOf(us[i]) == Some(if i == 0 then a.head else us[i - 1])
    ensures StateAt(ParentOf(us[i]).value) == Replay(a.state, us[..i])
    ensures Apply(Replay(a.state, us[..i]).value, us[i]).Some?
  {
    ReplayApplies(a.state, us, i);
    if i > 0 {
      assert us[i - 1 + 1].prev == Some(Digest(us[i - 1])) && Last(us[..i]) == us[i - 1];
      ChainedPrefix(Digest(a.head), us, i);
      ReplayIsStateAt(a, us[..i], Replay(a.state, us[..i]).value);
    }
  }

  lemma ReplayApplies(s: State, us: seq<AUM>, i: nat)
    requires Replay(s, us).Some? && i < |us|
    ensures Replay(s, us[..i]).Some? && Apply(Replay(s, us[..i]).value, us[i]).Some?
  {
    ReplayPrefix(s, us, i);
    ReplayPrefix(s, us, i + 1);
    TakeMore(us, i);
    ReplayMore(s, us[..i], Replay(s, us[..i]).value, us[i]);
  }

  lemma ChainedPrefix(head: AUMHash, us: seq<AUM>, i: nat)
    requires ChainedFrom(head, us) && i <= |us|
    ensures ChainedFrom(head, us[..i])
  {
  }

  // What extends the head is not stored yet.
  lemma {:induction false} ExtensionUnknown(env: Env, S: set<AUM>, a: Authority, us: seq<AUM>, i: nat)
    requires Rooted(env, S, a.oldest) && InForce(env, S, a) && ChainedFrom(Digest(a.head), us) && i < |us|
    ensures us[i] !in S && Depth(us[i]) > Depth(a.head)
  {
    var p := if i == 0 then a.head else us[i - 1];
    assert us[i].prev == Some(Digest(p)) by { if i > 0 { assert us[i - 1 + 1].prev == Some(Digest(us[i - 1])); } }
    ChildDepth(us[i], p);
    HeadIsLeaf(env, S, a);
    if i > 0 { ExtensionUnknown(env, S, a, us, i - 1); }
    assert us[i] != a.oldest && ParentOf(us[i]) == Some(p);
    assert i == 0 ==> (us[i] in S <==> us[i] in Children(S, a.head));
  }

  lemma HeadIsLeaf(env: Env, S: set<AUM>, a: Authority)
    requires Rooted(env, S, a.oldest) && InForce(env, S, a)
    ensures a.head in S && Children(S, a.head) == {} && Depth(a.oldest) <= Depth(a.head)
    ensures StateAt(a.head) == Some(a.state) && a.state.last == Some(Digest(a.head))
  {
    var ch :| Active(env, S, a.oldest, ch) && Last(ch) == a.head;
    PathLinked(env, S, ch);
    RootedGood(env, S, a.oldest, a.head);
    DeeperThanRoot(S, a.oldest, a.head);
  }

  // Which of a builder's updates the authority takes in again: those it finds
  // vouched for.  A builder checks neither signatures nor that a key remains.
  lemma BuiltAcceptedIff(env: Env, S: set<AUM>, a: Authority, us: seq<AUM>)
    requires Rooted(env, S, a.oldest) && InForce(env, S, a)
    requires ChainedFrom(Digest(a.head), us) && Replay(a.state, us).Some? && forall u :: u in us ==> AUMStaticOk(u)
    ensures forall i :: 0 <= i < |us| ==> Replay(a.state, us[..i]).Some?
    ensures AllAcceptable(env, S, us, |us|) <==> forall i :: 0 <= i < |us| ==> Vouched(env, Replay(a.state, us[..i]).value, us[i])
  {
    HeadIsLeaf(env, S, a);
    forall i: nat | i < |us|
      ensures Replay(a.state, us[..i]).Some?
      ensures Acceptable(env, S, us, i) <==> Vouched(env, Replay(a.state, us[..i]).value, us[i])
    {
      StateBefore(a, us, i);
      ExtensionUnknown(env, S, a, us, i);
      VouchedIff(env, Replay(a.state, us[..i]).value, us[i]);
      assert i > 0 ==> us[..i][i - 1] == us[i - 1];
    }
  }

  lemma VouchedIff(env: Env, before: State, u: AUM)
    requires ParentOf(u).Some? && StateAt(ParentOf(u).value) == Some(before) && Apply(before, u).Some? && AUMStaticOk(u)
    ensures VerifiedStep(env, u) <==> Vouched(env, before, u)
  {
    StateAtLast(ParentOf(u).value);
  }
}
