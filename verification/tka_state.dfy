// Authority state and how update messages change it (tka/state.go,
// tka/aum.go, tka/key.go and the verification in tka/tka.go).
module TkaState {
  import opened Common
  import opened TkaTypes

  // ---- Static validation ----

  function MetaBytes(m: seq<(string, string)>): nat {
    if m == [] then 0 else |m[0].0| + |m[0].1| + MetaBytes(m[1..])
  }

  predicate KeyStaticOk(k: Key) {
    0 < k.votes <= MaxVotes && MetaBytes(k.meta) <= MaxMetaBytes && k.kind == Key25519
  }

  predicate DistinctValues<T(==)>(s: seq<T>) {
    forall i, j :: 0 <= i < |s| && 0 <= j < |s| && i != j ==> s[i] != s[j]
  }

  predicate DistinctIDs(keys: seq<Key>) {
    forall i, j :: 0 <= i < |keys| && 0 <= j < |keys| && i != j ==> keys[i].public != keys[j].public
  }

  predicate DisablementOk(ds: seq<bytes>) {
    && 0 < |ds| <= MaxDisablementValues
    && (forall i :: 0 <= i < |ds| ==> |ds[i]| == DisablementLength)
    && DistinctValues(ds)
  }

  predicate CheckpointOk(s: State) {
    && s.last.None?
    && DisablementOk(s.disablement)
    && 0 < |s.keys| <= MaxKeys
    && (forall i :: 0 <= i < |s.keys| ==> KeyStaticOk(s.keys[i]))
    && DistinctIDs(s.keys)
  }

  predicate AUMStaticOk(a: AUM) {
    && (a.key.Some? ==> KeyStaticOk(a.key.value))
    && (forall i :: 0 <= i < |a.signatures| ==> |a.signatures[i].keyID| == 32 && |a.signatures[i].sig| == 64)
    && (a.state.Some? ==> CheckpointOk(a.state.value))
    && match a.kind
       case AUMAddKey => a.key.Some? && a.keyID.None? && a.state.None? && a.votes.None? && a.meta.None?
       case AUMRemoveKey => (a.keyID.Some? && a.keyID.value != []) && a.key.None? && a.state.None? && a.votes.None? && a.meta.None?
       case AUMUpdateKey => (a.keyID.Some? && a.keyID.value != []) && (a.meta.Some? || a.votes.Some?) && a.key.None? && a.state.None?
       case AUMCheckpoint => a.state.Some? && a.keyID.None? && a.key.None? && a.votes.None? && a.meta.None?
       case _ => true
  }

  // ---- Applying an update ----

  // The key ID an AUM names; an absent one is the empty slice.
  function NamedID(a: AUM): KeyID { if a.keyID.Some? then a.keyID.value else [] }

  function CloneForUpdate(s: State, a: AUM): State { s.(last := Some(Digest(a))) }

  predicate ParentMatches(s: State, a: AUM) { s.last.None? || s.last == a.prev }

  // Every key with this ID replaced by k; None when a key has no ID.
  function ReplaceKey(keys: seq<Key>, id: KeyID, k: Key): Option<seq<Key>> {
    if keys == [] then Some([])
    else match (IDOf(keys[0]), ReplaceKey(keys[1..], id, k))
      case (Some(i), Some(rest)) => Some([if i == id then k else keys[0]] + rest)
      case _ => None
  }

  // The first key with this ID dropped; None when there is none.
  function DropKey(keys: seq<Key>, id: KeyID): Option<seq<Key>> {
    if keys == [] then None
    else match IDOf(keys[0])
      case None => None
      case Some(i) =>
        if i == id then Some(keys[1..])
        else match DropKey(keys[1..], id)
          case None => None
          case Some(rest) => Some([keys[0]] + rest)
  }

  function UpdatedKey(k: Key, a: AUM): Key {
    var k1 := if a.votes.Some? then k.(votes := a.votes.value) else k;
    if a.meta.Some? then k1.(meta := a.meta.value) else k1
  }

  // State.applyVerifiedAUM; None is an error.
  function Apply(s: State, a: AUM): Option<State> {
    if !ParentMatches(s, a) then None
    else match a.kind
      case AUMCheckpoint =>
        if a.state.None? || a.state.value.id1 != s.id1 || a.state.value.id2 != s.id2 then None
        else Some(CloneForUpdate(a.state.value, a))
      case AUMAddKey =>
        if a.key.None? || IDOf(a.key.value).None? then None
        else if GetKey(s.keys, IDOf(a.key.value).value).Found? then None
        else Some(CloneForUpdate(s, a).(keys := s.keys + [a.key.value]))
      case AUMUpdateKey =>
        var g := GetKey(s.keys, NamedID(a));
        if !g.Found? || !KeyStaticOk(UpdatedKey(g.key, a)) then None
        else
          var keys := ReplaceKey(s.keys, NamedID(a), UpdatedKey(g.key, a));
          if keys.None? then None else Some(CloneForUpdate(s, a).(keys := keys.value))
      case AUMRemoveKey =>
        var keys := DropKey(s.keys, NamedID(a));
        if keys.None? then None else Some(CloneForUpdate(s, a).(keys := keys.value))
      case _ => Some(CloneForUpdate(s, a))
  }

  // State.applyVerifiedAUM with its loops over the keys.
  method ApplyVerifiedAUM(s: State, a: AUM) returns (r: Option<State>)
    ensures r == Apply(s, a)
  {
    if !ParentMatches(s, a) {
      return None;
    }
    if a.kind == AUMUpdateKey {
      var g := GetKey(s.keys, NamedID(a));
      if !g.Found? || !KeyStaticOk(UpdatedKey(g.key, a)) {
        return None;
      }
      var keys := ReplaceKeyLoop(s.keys, NamedID(a), UpdatedKey(g.key, a));
      return if keys.None? then None else Some(CloneForUpdate(s, a).(keys := keys.value));
    }
    if a.kind == AUMRemoveKey {
      var keys := DropKeyLoop(s.keys, NamedID(a));
      return if keys.None? then None else Some(CloneForUpdate(s, a).(keys := keys.value));
    }
    r := Apply(s, a);
  }

  function After(done: seq<Key>, rest: Option<seq<Key>>): Option<seq<Key>> {
    if rest.Some? then Some(done + rest.value) else None
  }

  lemma AfterNothing(rest: Option<seq<Key>>)
    ensures After([], rest) == rest
  {
    if rest.Some? { assert [] + rest.value == rest.value; }
  }

  method ReplaceKeyLoop(keys: seq<Key>, id: KeyID, k: Key) returns (r: Option<seq<Key>>)
    ensures r == ReplaceKey(keys, id, k)
  {
    var out: seq<Key> := [];
    assert keys[0..] == keys;
    AfterNothing(ReplaceKey(keys, id, k));
    for i := 0 to |keys|
      invariant ReplaceKey(keys, id, k) == After(out, ReplaceKey(keys[i..], id, k))
    {
      assert keys[i..][1..] == keys[i + 1..];
      if IDOf(keys[i]).None? {
        return None;
      }
      var x := if IDOf(keys[i]).value == id then k else keys[i];
      assert forall rest: seq<Key> :: out + ([x] + rest) == (out + [x]) + rest;
      out := out + [x];
    }
    assert out + [] == out;
    r := Some(out);
  }

  method DropKeyLoop(keys: seq<Key>, id: KeyID) returns (r: Option<seq<Key>>)
    ensures r == DropKey(keys, id)
  {
    assert keys[0..] == keys && keys[..0] == [];
    AfterNothing(DropKey(keys, id));
    for i := 0 to |keys|
      invariant DropKey(keys, id) == After(keys[..i], DropKey(keys[i..], id))
    {
      assert keys[i..][1..] == keys[i + 1..];
      if IDOf(keys[i]).None? {
        return None;
      }
      if IDOf(keys[i]).value == id {
        return Some(keys[..i] + keys[i + 1..]);
      }
      assert forall rest: seq<Key> :: keys[..i] + ([keys[i]] + rest) == keys[..i + 1] + rest;
    }
    r := None;
  }

  // checkParent, for updates that are not a genesis.
  predicate CheckParent(a: AUM, s: State) { a.prev.Some? && s.last == a.prev }

  predicate SignatureOk(env: Env, a: AUM, s: State, sig: Signature) {
    var g := GetKey(s.keys, sig.keyID);
    && g.Found?
    && g.key.kind == Key25519
    && |g.key.public| == 32
    && env.verify(g.key.public, a.(signatures := []), sig.sig)
  }

  // aumVerify: well-formed, rightly placed, signed by trusted keys only.
  predicate AumVerify(env: Env, a: AUM, s: State, genesis: bool) {
    && AUMStaticOk(a)
    && (!genesis ==> CheckParent(a, s))
    && a.signatures != []
    && (forall i :: 0 <= i < |a.signatures| ==> SignatureOk(env, a, s, a.signatures[i]))
    && !(a.kind == AUMRemoveKey && |s.keys| == 1 && IDOf(s.keys[0]) == Some(NamedID(a)))
  }

  // ---- What every verified update keeps ----

  // A state an authority can be in: some key is trusted, all keys are valid
  // and distinct, and the lock can be disabled.
  ghost predicate Good(s: State) {
    s.keys != [] && GoodKeys(s.keys) && DisablementOk(s.disablement)
  }

  ghost predicate GoodKeys(keys: seq<Key>) {
    (forall i :: 0 <= i < |keys| ==> KeyStaticOk(keys[i])) && DistinctIDs(keys)
  }

  lemma {:induction false} ReplaceKeyShape(keys: seq<Key>, id: KeyID, k: Key)
    requires forall i :: 0 <= i < |keys| ==> keys[i].kind == Key25519
    ensures ReplaceKey(keys, id, k).Some?
    ensures var r := ReplaceKey(keys, id, k).value;
            |r| == |keys| && forall i :: 0 <= i < |keys| ==> r[i] == if keys[i].public == id then k else keys[i]
  {
    if keys != [] { ReplaceKeyShape(keys[1..], id, k); }
  }

  lemma {:induction false} DropKeyShape(keys: seq<Key>, id: KeyID) returns (j: nat)
    requires DropKey(keys, id).Some?
    ensures j < |keys| && keys[j].kind == Key25519 && keys[j].public == id
    ensures DropKey(keys, id) == Some(keys[..j] + keys[j + 1..])
  {
    if keys[0].public == id {
      j := 0;
      assert keys[..0] + keys[1..] == keys[1..];
    } else {
      var i := DropKeyShape(keys[1..], id);
      j := i + 1;
      WithoutOne(keys, i);
    }
  }

  lemma WithoutOne(keys: seq<Key>, i: nat)
    requires i + 1 < |keys|
    ensures [keys[0]] + (keys[1..][..i] + keys[1..][i + 1..]) == keys[..i + 1] + keys[i + 2..]
  {
  }

  lemma AddKeepsGood(keys: seq<Key>, k: Key)
    requires GoodKeys(keys) && KeyStaticOk(k) && !GetKey(keys, k.public).Found?
    ensures GoodKeys(keys + [k])
  {
    forall i | 0 <= i < |keys| ensures keys[i].public != k.public {
      assert keys[i] in keys && IDOf(keys[i]) != Some(k.public);
    }
  }

  lemma ReplaceKeepsGood(keys: seq<Key>, id: KeyID, k: Key)
    requires GoodKeys(keys) && KeyStaticOk(k) && k.public == id
    ensures ReplaceKey(keys, id, k).Some?
    ensures GoodKeys(ReplaceKey(keys, id, k).value) && |ReplaceKey(keys, id, k).value| == |keys|
  {
    ReplaceKeyShape(keys, id, k);
  }

  lemma DropKeepsGood(keys: seq<Key>, id: KeyID)
    requires GoodKeys(keys) && DropKey(keys, id).Some?
    ensures GoodKeys(DropKey(keys, id).value) && |DropKey(keys, id).value| == |keys| - 1
    ensures |keys| == 1 ==> IDOf(keys[0]) == Some(id)
  {
    var j := DropKeyShape(keys, id);
  }

  // A verified update that applies keeps the state good: in particular the
  // last trusted key is never removed and no key is ever trusted twice.
  lemma ApplyKeepsGood(env: Env, s: State, a: AUM)
    requires Good(s) && AumVerify(env, a, s, false) && Apply(s, a).Some?
    ensures Good(Apply(s, a).value) && Apply(s, a).value.last == Some(Digest(a))
  {
    match a.kind {
      case AUMAddKey => AddKeepsGood(s.keys, a.key.value);
      case AUMUpdateKey => ReplaceKeepsGood(s.keys, NamedID(a), UpdatedKey(GetKey(s.keys, NamedID(a)).key, a));
      case AUMRemoveKey => DropKeepsGood(s.keys, NamedID(a));
      case AUMCheckpoint =>
      case _ =>
    }
  }

  // The identifiers fixed at creation survive every update.
  lemma ApplyKeepsIDs(s: State, a: AUM)
    requires Apply(s, a).Some?
    ensures Apply(s, a).value.id1 == s.id1 && Apply(s, a).value.id2 == s.id2
  {
  }

  // The limit of 512 keys is the one property of a checkpointed state that
  // applying an update can break, and exactly one kind of update does.
  lemma KeyLimitKeptIff(env: Env, s: State, a: AUM)
    requires Good(s) && |s.keys| <= MaxKeys && AumVerify(env, a, s, false) && Apply(s, a).Some?
    ensures CheckpointOk(Apply(s, a).value.(last := None)) <==> !(a.kind == AUMAddKey && |s.keys| == MaxKeys)
  {
    ApplyKeepsGood(env, s, a);
    match a.kind {
      case AUMUpdateKey => ReplaceKeepsGood(s.keys, NamedID(a), UpdatedKey(GetKey(s.keys, NamedID(a)).key, a));
      case AUMRemoveKey => DropKeepsGood(s.keys, NamedID(a));
      case _ =>
    }
  }

  // ---- Signature weight ----

  function SigIDs(sigs: seq<Signature>): set<KeyID> { set s | s in sigs :: s.keyID }

  // The votes of the trusted keys among ids, each counted once.
  function VotesOf(keys: seq<Key>, ids: set<KeyID>): nat {
    if keys == [] then 0
    else if keys[0].public in ids then keys[0].votes + VotesOf(keys[1..], ids - {keys[0].public})
    else VotesOf(keys[1..], ids)
  }

  function WeightOf(s: State, a: AUM): nat { VotesOf(s.keys, SigIDs(a.signatures)) }

  lemma {:induction false} VotesOfOneMore(keys: seq<Key>, ids: set<KeyID>, id: KeyID)
    requires (forall i :: 0 <= i < |keys| ==> keys[i].kind == Key25519) && id !in ids
    ensures VotesOf(keys, ids + {id}) ==
            VotesOf(keys, ids) + if GetKey(keys, id).Found? then GetKey(keys, id).key.votes else 0
  {
    if keys != [] {
      var first := keys[0].public;
      if first == id {
        assert (ids + {id}) - {id} == ids;
      } else if first in ids {
        assert (ids + {id}) - {first} == (ids - {first}) + {id};
        VotesOfOneMore(keys[1..], ids - {first}, id);
      } else {
        VotesOfOneMore(keys[1..], ids, id);
      }
    }
  }

  // AUM.Weight.  Signatures by unknown keys and repeated signatures add
  // nothing, so only the set of signing keys matters.  The caller must have
  // verified the signatures: an ID of another length, or a key without an ID,
  // panics.
  method Weight(a: AUM, s: State) returns (weight: nat)
    requires forall i :: 0 <= i < |a.signatures| ==> |a.signatures[i].keyID| == 32
    requires forall i :: 0 <= i < |s.keys| ==> s.keys[i].kind == Key25519
    ensures weight == WeightOf(s, a)
  {
    weight := 0;
    var seen: set<KeyID> := {};
    ghost var met: set<KeyID> := {};
    NoVotes(s.keys);
    for n := 0 to |a.signatures|
      invariant met == SigIDs(a.signatures[..n])
      invariant seen <= met && forall id :: id in met && id !in seen ==> GetKey(s.keys, id) == NoSuchKey
      invariant weight == VotesOf(s.keys, met)
    {
      var sig := a.signatures[n];
      assert a.signatures[..n + 1] == a.signatures[..n] + [sig];
      ghost var next := met + {sig.keyID};
      if sig.keyID !in met { VotesOfOneMore(s.keys, met, sig.keyID); } else { assert next == met; }
      met := next;
      var g := GetKey(s.keys, sig.keyID);
      if g == NoSuchKey {
        continue;
      }
      if sig.keyID in seen {
        continue;
      }
      weight := weight + g.key.votes;
      seen := seen + {sig.keyID};
    }
    assert a.signatures[..|a.signatures|] == a.signatures;
  }

  lemma {:induction false} NoVotes(keys: seq<Key>)
    ensures VotesOf(keys, {}) == 0
  {
    if keys != [] { NoVotes(keys[1..]); }
  }

  // The largest weight in a state within the key limit.
  lemma {:induction false} VotesOfBound(keys: seq<Key>, ids: set<KeyID>)
    requires forall i :: 0 <= i < |keys| ==> KeyStaticOk(keys[i])
    ensures VotesOf(keys, ids) <= |keys| * MaxVotes
  {
    if keys != [] {
      VotesOfBound(keys[1..], if keys[0].public in ids then ids - {keys[0].public} else ids);
    }
  }

  // Weight depends on the set of known signing keys alone: reordering or
  // repeating signatures, or adding ones by unknown keys, leaves it as it is.
  lemma {:induction false} VotesOfKnown(keys: seq<Key>, ids: set<KeyID>, more: set<KeyID>)
    requires forall i :: 0 <= i < |keys| ==> (keys[i].public in ids <==> keys[i].public in more)
    ensures VotesOf(keys, ids) == VotesOf(keys, more)
  {
    if keys != [] {
      var first := keys[0].public;
      if first in ids {
        VotesOfKnown(keys[1..], ids - {first}, more - {first});
      } else {
        VotesOfKnown(keys[1..], ids, more);
      }
    }
  }

  lemma WeightBySet(s: State, a: AUM, b: AUM)
    requires forall k :: k in s.keys ==> (k.public in SigIDs(a.signatures) <==> k.public in SigIDs(b.signatures))
    ensures WeightOf(s, a) == WeightOf(s, b)
  {
    VotesOfKnown(s.keys, SigIDs(a.signatures), SigIDs(b.signatures));
  }

  // ---- The state at an update ----

  // The update a hash refers to, when it is one.
  function ParentOf(a: AUM): Option<AUM> {
    if a.prev.Some? && a.prev.value.Digest? then Some(a.prev.value.aum) else None
  }

  // Replaying an update's own history from the nearest checkpoint, or from
  // the genesis.
  function StateAt(a: AUM): Option<State>
    decreases a
  {
    if a.kind == AUMCheckpoint then
      if a.state.Some? then Some(CloneForUpdate(a.state.value, a)) else None
    else if a.prev.None? then
      if a.kind == AUMNoOp || a.kind == AUMAddKey then Apply(EmptyState, a) else None
    else if a.prev.value.Digest? then
      var before := StateAt(a.prev.value.aum);
      if before.Some? then Apply(before.value, a) else None
    else None
  }

  lemma StateAtLast(a: AUM)
    ensures StateAt(a).Some? ==> StateAt(a).value.last == Some(Digest(a))
  {
  }
}
