// In-memory storage of authority updates (tka/tailchonk.go, type Mem).
module TkaStore {
  import opened Common
  import opened TkaTypes
  import opened TkaState
  import opened TkaChain

  function Entries(index: map<AUMHash, seq<AUMHash>>, p: AUMHash): seq<AUMHash> {
    if p in index then index[p] else []
  }

  // The index lists exactly the stored updates below each hash.
  ghost predicate IndexOk(aums: map<AUMHash, AUM>, index: map<AUMHash, seq<AUMHash>>) {
    forall p, h :: h in Entries(index, p) <==> h in aums && aums[h].prev == Some(p)
  }

  // The index after one stored update is purged.
  function IndexWithout(index: map<AUMHash, seq<AUMHash>>, p: AUMHash, h: AUMHash): map<AUMHash, seq<AUMHash>> {
    var left := Without(Entries(index, p), h);
    if |left| == 0 then index - {p} else index[p := left]
  }

  lemma IndexWithoutOk(aums: map<AUMHash, AUM>, index: map<AUMHash, seq<AUMHash>>, h: AUMHash)
    requires IndexOk(aums, index)
    ensures h !in aums || aums[h].prev.None? ==> IndexOk(aums - {h}, index)
    ensures h in aums && aums[h].prev.Some? ==> IndexOk(aums - {h}, IndexWithout(index, aums[h].prev.value, h))
  {
    if h in aums && aums[h].prev.Some? {
      var p0 := aums[h].prev.value;
      var index' := IndexWithout(index, p0, h);
      forall p, g ensures g in Entries(index', p) <==> g in aums - {h} && (aums - {h})[g].prev == Some(p) {
        assert g in Entries(index, p) <==> g in aums && aums[g].prev == Some(p);
        if p == p0 {
          assert Entries(index', p) == Without(Entries(index, p0), h);
        } else {
          assert Entries(index', p) == Entries(index, p);
        }
      }
    } else {
      forall p, g ensures g in Entries(index, p) <==> g in aums - {h} && (aums - {h})[g].prev == Some(p) {
        assert g in Entries(index, p) <==> g in aums && aums[g].prev == Some(p);
      }
    }
  }

  // The index after one update is stored.
  ghost function IndexWith(index: map<AUMHash, seq<AUMHash>>, p: AUMHash, h: AUMHash): map<AUMHash, seq<AUMHash>> {
    if h in Entries(index, p) then index else index[p := Entries(index, p) + [h]]
  }

  lemma IndexWithOk(aums: map<AUMHash, AUM>, index: map<AUMHash, seq<AUMHash>>, a: AUM)
    requires IndexOk(aums, index) && (Digest(a) in aums ==> aums[Digest(a)] == a)
    ensures a.prev.None? ==> IndexOk(aums[Digest(a) := a], index)
    ensures a.prev.Some? ==> IndexOk(aums[Digest(a) := a], IndexWith(index, a.prev.value, Digest(a)))
  {
    var index' := if a.prev.Some? then IndexWith(index, a.prev.value, Digest(a)) else index;
    var aums' := aums[Digest(a) := a];
    forall p, g ensures g in Entries(index', p) <==> g in aums' && aums'[g].prev == Some(p) {
      assert g in Entries(index, p) <==> g in aums && aums[g].prev == Some(p);
    }
  }

  // Commit times after storing updates: each of them now, known or not.
  ghost function Stamped(times: map<AUMHash, int>, updates: seq<AUM>, now: int): map<AUMHash, int> {
    if updates == [] then times else Stamped(times, updates[..|updates| - 1], now)[Digest(Last(updates)) := now]
  }

  lemma StampedMore(times: map<AUMHash, int>, updates: seq<AUM>, u: AUM, now: int)
    ensures Stamped(times, updates + [u], now) == Stamped(times, updates, now)[Digest(u) := now]
  {
    assert (updates + [u])[..|updates|] == updates;
  }

  // A stored update is as young as its latest commit.
  lemma {:induction false} StampedAt(times: map<AUMHash, int>, updates: seq<AUM>, now: int, h: AUMHash)
    ensures h in Stamped(times, updates, now) <==> h in times || (h.Digest? && h.aum in updates)
    ensures h.Digest? && h.aum in updates ==> Stamped(times, updates, now)[h] == now
    ensures !(h.Digest? && h.aum in updates) && h in times ==> Stamped(times, updates, now)[h] == times[h]
  {
    if updates != [] {
      StampedAt(times, updates[..|updates| - 1], now, h);
      assert updates == updates[..|updates| - 1] + [Last(updates)];
    }
  }

  // Times after storing updates that were not known: only theirs are now.
  ghost predicate NewlyTimed(before: map<AUMHash, int>, after: map<AUMHash, int>, now: int) {
    forall h :: h in after ==> after[h] == if h in before then before[h] else now
  }

  lemma StampedNew(times: map<AUMHash, int>, updates: seq<AUM>, now: int)
    requires forall u :: u in updates ==> Digest(u) !in times
    ensures NewlyTimed(times, Stamped(times, updates, now), now)
  {
    forall h | h in Stamped(times, updates, now)
      ensures Stamped(times, updates, now)[h] == if h in times then times[h] else now
    {
      StampedAt(times, updates, now, h);
    }
  }

  // Times after deleting updates.
  ghost predicate TimesLeft(before: map<AUMHash, int>, after: map<AUMHash, int>) {
    forall h :: h in after ==> h in before && after[h] == before[h]
  }

  class Mem {
    var aums: map<AUMHash, AUM>
    var commitTimes: map<AUMHash, int>
    // The hashes of the stored updates whose parent is the key.
    var parentIndex: map<AUMHash, seq<AUMHash>>
    var lastActiveAncestor: Option<AUMHash>

    ghost function Stored(): (s: set<AUM>)
      reads this
    {
      Values(aums)
    }

    function Indexed(p: AUMHash): seq<AUMHash>
      reads this
    {
      Entries(parentIndex, p)
    }

    ghost predicate Valid()
      reads this
    {
      && (forall h :: h in aums ==> h == Digest(aums[h]))
      && commitTimes.Keys == aums.Keys
      && IndexOk(aums, parentIndex)
    }

    constructor ()
      ensures Valid() && Stored() == {} && lastActiveAncestor == None
    {
      aums, commitTimes, parentIndex, lastActiveAncestor := map[], map[], map[], None;
    }

    // A hash is stored exactly when the update it digests is.
    lemma StoredIff(h: AUMHash)
      requires Valid()
      ensures h in aums <==> h.Digest? && h.aum in Stored()
      ensures h in aums ==> aums[h] == h.aum
    {
      if h.Digest? && h.aum in Stored() {
        var g :| g in aums && aums[g] == h.aum;
      }
    }

    method AUM(hash: AUMHash) returns (r: Option<AUM>)
      requires Valid()
      ensures r.Some? <==> hash.Digest? && hash.aum in Stored()
      ensures r.Some? ==> r.value == hash.aum
    {
      StoredIff(hash);
      r := if hash in aums then Some(aums[hash]) else None;
    }

    // All stored updates with this parent, in the order of the index.
    method ChildAUMs(p: AUMHash) returns (out: seq<AUM>)
      requires Valid()
      ensures forall a :: a in out <==> a in Stored() && a.prev == Some(p)
    {
      out := [];
      var entries := Indexed(p);
      for i := 0 to |entries|
        invariant forall a :: a in out <==> Digest(a) in entries[..i]
      {
        assert entries[i] in entries;
        assert entries[..i + 1] == entries[..i] + [entries[i]];
        out := out + [aums[entries[i]]];
      }
      assert entries[..|entries|] == entries;
      forall a ensures a in out <==> a in Stored() && a.prev == Some(p) {
        StoredIff(Digest(a));
      }
    }

    // The updates without children, in whatever order the map is walked.
    method Heads() returns (out: seq<AUM>)
      requires Valid()
      ensures forall a :: a in out <==> a in Stored() && Children(Stored(), a) == {}
      ensures DistinctValues(out)
    {
      out := [];
      var rest := aums.Keys;
      while rest != {}
        invariant rest <= aums.Keys
        invariant forall a :: a in out <==> Digest(a) in aums.Keys - rest && Children(Stored(), a) == {}
        invariant DistinctValues(out)
        decreases rest
      {
        var h :| h in rest;
        rest := rest - {h};
        ChildlessIff(aums[h]);
        if |Indexed(Digest(aums[h]))| == 0 {
          out := out + [aums[h]];
        }
      }
      forall a ensures a in out <==> a in Stored() && Children(Stored(), a) == {} {
        StoredIff(Digest(a));
      }
    }

    lemma ChildlessIff(a: AUM)
      requires Valid()
      ensures Indexed(Digest(a)) == [] <==> Children(Stored(), a) == {}
    {
      if Indexed(Digest(a)) != [] {
        var h := Indexed(Digest(a))[0];
        assert h in Indexed(Digest(a));
        assert aums[h] in Children(Stored(), a);
      }
      if Children(Stored(), a) != {} {
        var c :| c in Children(Stored(), a);
        StoredIff(Digest(c));
        assert Digest(c) in Indexed(Digest(a));
      }
    }

    method CommitVerifiedAUMs(updates: seq<AUM>, now: int)
      requires Valid()
      modifies this
      ensures Valid() && Stored() == old(Stored()) + Elems(updates)
      ensures commitTimes == Stamped(old(commitTimes), updates, now)
      ensures lastActiveAncestor == old(lastActiveAncestor)
    {
      for i := 0 to |updates|
        invariant Valid() && Stored() == old(Stored()) + Elems(updates[..i])
        invariant commitTimes == Stamped(old(commitTimes), updates[..i], now)
        invariant lastActiveAncestor == old(lastActiveAncestor)
      {
        assert updates[..i + 1] == updates[..i] + [updates[i]];
        StampedMore(old(commitTimes), updates[..i], updates[i], now);
        CommitOne(updates[i], now);
      }
      assert updates[..|updates|] == updates;
    }

    // The body of the commit loop.
    method CommitOne(aum: AUM, now: int)
      requires Valid()
      modifies this
      ensures Valid() && Stored() == old(Stored()) + {aum} && commitTimes == old(commitTimes)[Digest(aum) := now]
      ensures lastActiveAncestor == old(lastActiveAncestor)
    {
      ghost var before := aums;
      var hash := Digest(aum);
      aums := aums[hash := aum];
      commitTimes := commitTimes[hash := now];
      IndexWithOk(before, parentIndex, aum);
      if aum.prev.Some? {
        var p := aum.prev.value;
        if hash !in Indexed(p) {
          parentIndex := parentIndex[p := Indexed(p) + [hash]];
        }
      }
      ValuesAfterPut(before, hash, aum);
    }

    method SetLastActiveAncestor(hash: AUMHash)
      modifies this`lastActiveAncestor
      ensures lastActiveAncestor == Some(hash)
    {
      lastActiveAncestor := Some(hash);
    }

    method PurgeAUMs(hashes: seq<AUMHash>)
      requires Valid()
      modifies this`aums, this`commitTimes, this`parentIndex
      ensures Valid() && Stored() == set a | a in old(Stored()) && Digest(a) !in hashes
      ensures commitTimes == map h | h in old(commitTimes) && h !in hashes :: old(commitTimes)[h]
    {
      for i := 0 to |hashes|
        invariant Valid() && Stored() == set a | a in old(Stored()) && Digest(a) !in hashes[..i]
        invariant commitTimes == map h | h in old(commitTimes) && h !in hashes[..i] :: old(commitTimes)[h]
      {
        assert hashes[..i + 1] == hashes[..i] + [hashes[i]];
        PurgeOne(hashes[i]);
      }
      assert hashes[..|hashes|] == hashes;
    }

    // The body of the purge loop: the purged update leaves its parent's list
    // of children, its own list stays.
    method PurgeOne(h: AUMHash)
      requires Valid()
      modifies this`aums, this`commitTimes, this`parentIndex
      ensures Valid() && Stored() == (set a | a in old(Stored()) && Digest(a) != h) && commitTimes == old(commitTimes) - {h}
    {
      ghost var before := aums;
      IndexWithoutOk(aums, parentIndex, h);
      if h in aums {
        var aum := aums[h];
        if aum.prev.Some? {
          parentIndex := IndexWithout(parentIndex, aum.prev.value, h);
        }
      }
      aums := aums - {h};
      commitTimes := commitTimes - {h};
      ValuesAfterDelete(before, h);
    }
  }

  ghost function Values(m: map<AUMHash, AUM>): set<AUM> { set h | h in m :: m[h] }

  lemma ValuesAfterPut(m: map<AUMHash, AUM>, h: AUMHash, a: AUM)
    requires h in m ==> m[h] == a
    ensures Values(m[h := a]) == Values(m) + {a}
  {
    var m' := m[h := a];
    assert m'[h] == a;
    forall b | b in Values(m) ensures b in Values(m') {
      var g :| g in m && m[g] == b;
      assert m'[g] == b;
    }
  }

  lemma ValuesAfterDelete(m: map<AUMHash, AUM>, h: AUMHash)
    requires forall g :: g in m ==> g == Digest(m[g])
    ensures Values(m - {h}) == set a | a in Values(m) && Digest(a) != h
  {
    var m' := m - {h};
    forall a | a in Values(m) && Digest(a) != h ensures a in Values(m') {
      var g :| g in m && m[g] == a;
      assert m'[g] == a;
    }
    forall a | a in Values(m') ensures a in Values(m) && Digest(a) != h {
      var g :| g in m' && m'[g] == a;
      assert m[g] == a;
    }
  }

  function Without(hs: seq<AUMHash>, h: AUMHash): (r: seq<AUMHash>)
    ensures forall x :: x in r <==> x in hs && x != h
  {
    if hs == [] then [] else (if hs[0] == h then [] else [hs[0]]) + Without(hs[1..], h)
  }
}
