// Whole runs of one authority: bootstrapped, informed of updates and compacted
// in any order (tka/tka.go, tka/tailchonk.go).
module TkaLifetime {
  import opened Common
  import opened TkaTypes
  import opened TkaState
  import opened TkaChain
  import opened TkaAncestry
  import opened TkaForest
  import opened TkaStore
  import opened TkaAuthority
  import opened TkaSync
  import opened TkaCompact

  // ---- Commit times ----

  ghost function TimeOf(times: map<AUMHash, int>, a: AUM): int { if Digest(a) in times then times[Digest(a)] else 0 }

  // The updates with a commit time are those of S.
  ghost predicate TimesOf(S: set<AUM>, times: map<AUMHash, int>) {
    forall h {:trigger h in times} :: h in times <==> IsStored(S, h)
  }

  // No update was committed after t, or before the one it was made on.
  ghost predicate InOrder(S: set<AUM>, times: map<AUMHash, int>, t: int) {
    && (forall a {:trigger TimeOf(times, a)} :: a in S ==> TimeOf(times, a) <= t)
    && (forall a {:trigger ParentStored(S, a)} ::
          a in S && ParentStored(S, a) ==> TimeOf(times, ParentOf(a).value) <= TimeOf(times, a))
  }

  // What comes later on a chain was committed no earlier.
  lemma {:induction false} ChainInOrder(S: set<AUM>, times: map<AUMHash, int>, t: int, ch: seq<AUM>, i: nat, j: nat)
    requires InOrder(S, times, t) && Linked(ch) && i <= j < |ch| && forall n :: 0 <= n < |ch| ==> ch[n] in S
    ensures TimeOf(times, ch[i]) <= TimeOf(times, ch[j])
    decreases j
  {
    if i < j {
      ChainInOrder(S, times, t, ch, i, j - 1);
      assert ch[j - 1 + 1].prev == Some(Digest(ch[j - 1]));
      assert ParentOf(ch[j]) == Some(ch[j - 1]) && ParentStored(S, ch[j]);
    }
  }

  // Storing verified updates now keeps the order of an authority's storage.
  lemma StillInOrder(env: Env, S: set<AUM>, T: set<AUM>, root: AUM, before: map<AUMHash, int>, after: map<AUMHash, int>, t: int, now: int)
    requires Rooted(env, S, root) && Rooted(env, T, root) && S <= T && InOrder(S, before, t) && t <= now
    requires NewlyTimed(before, after, now)
    requires TimesOf(S, before) && TimesOf(T, after)
    ensures InOrder(T, after, now)
  {
    RootParentUnknown(T, root);
    forall a | a in T ensures TimeOf(after, a) == if a in S then TimeOf(before, a) else now {
      assert Digest(a) in after;
      assert Digest(a) in before <==> a in S;
    }
    forall a | a in T && ParentStored(T, a) ensures TimeOf(after, ParentOf(a).value) <= TimeOf(after, a) {
      if a in S {
        assert a != root && ParentStored(S, a);
      } else {
        assert TimeOf(after, ParentOf(a).value) <= now && TimeOf(after, a) == now;
      }
    }
  }

  // So does deleting some.
  lemma LeftInOrder(S: set<AUM>, R: set<AUM>, before: map<AUMHash, int>, after: map<AUMHash, int>, t: int, now: int)
    requires InOrder(S, before, t) && R <= S && TimesLeft(before, after) && t <= now
    requires TimesOf(R, after)
    ensures InOrder(R, after, now)
  {
    forall a | a in R ensures TimeOf(after, a) == TimeOf(before, a) <= t { assert Digest(a) in after; }
    forall a | a in R && ParentStored(R, a) ensures TimeOf(after, ParentOf(a).value) <= TimeOf(after, a) {
      assert ParentStored(S, a);
    }
  }

  // ---- When compaction succeeds ----

  // Among updates committed in order, compaction fails exactly when the chain
  // is longer than minChain, what came before it was forgotten, and even its
  // oldest update is still young.
  lemma CompactsInOrder(S: set<AUM>, times: map<AUMHash, int>, t: int, ch: seq<AUM>, young: set<AUMHash>, minTime: int, minChain: nat)
    requires InOrder(S, times, t) && Linked(ch) && ch != [] && (forall n :: 0 <= n < |ch| ==> ch[n] in S)
    requires ch[0].kind == AUMCheckpoint && minChain > 0 && TimesOf(S, times)
    requires forall h :: h in young <==> h in times && times[h] > minTime
    ensures CanCompact(ch, young, minChain) <==> |ch| <= minChain || ch[0].prev.None? || Digest(ch[0]) !in young
    ensures CanCompact(ch, young, minChain) <==> exists c :: CutIndex(ch, young, minChain, c)
  {
    forall c | CutIndex(ch, young, minChain, c) && c > 0 ensures Digest(ch[0]) !in young {
      ChainInOrder(S, times, t, ch, 0, c);
      assert ch[c - 1 + 1].prev == Some(Digest(ch[c - 1]));
    }
    if |ch| <= minChain {
      assert CutIndex(ch, young, minChain, 0);
    } else if Compactable(young, ch[0]) {
      var c := LastCompactable(ch, young, |ch| - minChain);
      assert CutIndex(ch, young, minChain, c);
    } else {
      forall c | CutIndex(ch, young, minChain, c) ensures c > 0 {}
    }
  }

  lemma {:induction false} LastCompactable(ch: seq<AUM>, young: set<AUMHash>, n: nat) returns (c: nat)
    requires 0 < n <= |ch| && Compactable(young, ch[0])
    ensures c < n && Compactable(young, ch[c]) && forall i :: c < i < n ==> !Compactable(young, ch[i])
  {
    if n == 1 || Compactable(young, ch[n - 1]) {
      c := n - 1;
    } else {
      c := LastCompactable(ch, young, n - 1);
    }
  }

  // ---- Runs ----

  datatype Event = Learn(updates: seq<AUM>, now: int) | Tidy(now: int)

  // The clock does not go back.
  ghost predicate Onward(t: int, events: seq<Event>) {
    && (forall i :: 0 <= i < |events| ==> t <= events[i].now)
    && (forall i, j :: 0 <= i < j < |events| ==> events[i].now <= events[j].now)
  }

  // An authority at rest: on the chain in force below its oldest update, in
  // storage committed in order.
  ghost predicate Settled(env: Env, m: Mem, a: Authority, t: int)
    reads m
  {
    Ready(env, m, a.oldest) && InForce(env, m.Stored(), a) && InOrder(m.Stored(), m.commitTimes, t)
  }

  // Nothing was forgotten yet, or the oldest update left is past minAge.
  ghost predicate Aged(m: Mem, oldest: AUM, t: int, minAge: nat)
    reads m
  {
    oldest.prev.None? || TimeOf(m.commitTimes, oldest) <= t - minAge
  }

  lemma ValidTimes(m: Mem)
    requires m.Valid()
    ensures TimesOf(m.Stored(), m.commitTimes)
  {
    forall h ensures h in m.commitTimes <==> IsStored(m.Stored(), h) { m.StoredIff(h); }
  }

  method LearnStep(env: Env, m: Mem, a: Authority, updates: seq<AUM>, now: int, ghost t: int, ghost minAge: nat)
    returns (b: Authority, stopped: bool)
    requires Settled(env, m, a, t) && t <= now && NoCollisions(env, m.Stored() + Elems(updates))
    modifies m
    ensures Ready(env, m, a.oldest) && old(m.Stored()) <= m.Stored() <= old(m.Stored()) + Elems(updates)
    ensures b.oldest == a.oldest && (old(Aged(m, a.oldest, t, minAge)) ==> Aged(m, b.oldest, now, minAge))
    ensures if stopped then !Shallow(m.Stored(), a.oldest, MaxScanIterations) else Settled(env, m, b, now)
  {
    ghost var S, times := m.Stored(), m.commitTimes;
    var before := m.aums.Keys;
    ValidTimes(m);
    var r := InformIdempotent(env, m, a, updates, now);
    ValidTimes(m);
    StillInOrder(env, S, m.Stored(), a.oldest, times, m.commitTimes, t, now);
    assert Digest(a.oldest) in m.commitTimes && Digest(a.oldest) in times;
    SameKeys(m, before, S);
    if r.Ok? {
      return r.value, false;
    }
    b, stopped := a, m.aums.Keys != before;
  }

  lemma SameKeys(m: Mem, before: set<AUMHash>, S: set<AUM>)
    requires m.Valid() && (forall h :: h in before <==> IsStored(S, h))
    ensures m.aums.Keys == before <==> m.Stored() == S
  {
    forall h ensures h in m.aums <==> IsStored(m.Stored(), h) { m.StoredIff(h); }
    if m.aums.Keys == before {
      forall a ensures a in m.Stored() <==> a in S { assert IsStored(S, Digest(a)) <==> Digest(a) in before; }
    }
  }

  // Authority.Compact.
  method TidyStep(env: Env, m: Mem, a: Authority, minChain: nat, minAge: nat, now: int, ghost t: int)
    returns (b: Authority, ok: bool)
    requires Settled(env, m, a, t) && t <= now
    modifies m
    ensures Settled(env, m, b, now) && b.head == a.head && b.state == a.state && m.Stored() <= old(m.Stored())
    ensures ok && old(Aged(m, a.oldest, t, minAge)) ==> Aged(m, b.oldest, now, minAge)
    ensures minChain > 0 && minAge > 0 && old(Aged(m, a.oldest, t, minAge)) ==> ok
    ensures !ok ==> b == a && m.Stored() == old(m.Stored())
  {
    ghost var S, times, young := m.Stored(), m.commitTimes, YoungIn(m, now - minAge);
    ghost var ch :| Active(env, S, a.oldest, ch) && Last(ch) == a.head;
    ghost var aged := Aged(m, a.oldest, t, minAge);
    TidyPossible(env, m, a, ch, minChain, minAge, now, t);
    var r, k, p, c := Compact(env, m, a, minChain, minAge, now, ch, young);
    if r.Err? {
      TidiedInOrder(m, S, times, t, now);
      StandingRests(env, m, a, ch);
      return a, false;
    }
    var oldest := m.AUM(r.value);
    b, ok := a.(oldest := oldest.value), true;
    TidiedInOrder(m, S, times, t, now);
    StandingRests(env, m, b, ch[k..]);
    if aged {
      NewOldestAged(S, times, t, ch, young, now, minAge, minChain, c, k);
      assert Digest(b.oldest) in m.commitTimes;
    }
  }

  lemma StandingRests(env: Env, m: Mem, a: Authority, ch: seq<AUM>)
    requires Standing(env, m, a, ch)
    ensures Ready(env, m, a.oldest) && InForce(env, m.Stored(), a)
  {
  }

  // An authority whose oldest update has aged can be compacted.
  lemma TidyPossible(env: Env, m: Mem, a: Authority, ch: seq<AUM>, minChain: nat, minAge: nat, now: int, t: int)
    requires Standing(env, m, a, ch) && InOrder(m.Stored(), m.commitTimes, t) && t <= now
    ensures TimesOf(m.Stored(), m.commitTimes) && Linked(ch) && ch[0] == a.oldest && forall n :: 0 <= n < |ch| ==> ch[n] in m.Stored()
    ensures minChain > 0 && Aged(m, a.oldest, t, minAge) ==> CanCompact(ch, YoungIn(m, now - minAge), minChain)
  {
    ValidTimes(m);
    StandingChain(env, m, a, ch);
    if minChain > 0 {
      CompactsInOrder(m.Stored(), m.commitTimes, t, ch, YoungIn(m, now - minAge), now - minAge, minChain);
    }
  }

  lemma TidiedInOrder(m: Mem, S: set<AUM>, times: map<AUMHash, int>, t: int, now: int)
    requires m.Valid() && InOrder(S, times, t) && m.Stored() <= S && TimesLeft(times, m.commitTimes) && t <= now
    ensures InOrder(m.Stored(), m.commitTimes, now)
  {
    ValidTimes(m);
    LeftInOrder(S, m.Stored(), times, m.commitTimes, t, now);
  }

  lemma NewOldestAged(S: set<AUM>, times: map<AUMHash, int>, t: int, ch: seq<AUM>, young: set<AUMHash>, now: int, minAge: nat,
                      minChain: nat, c: nat, k: nat)
    requires InOrder(S, times, t) && TimesOf(S, times) && Linked(ch) && ch != [] && t <= now
    requires forall n :: 0 <= n < |ch| ==> ch[n] in S
    requires forall h :: h in young <==> h in times && times[h] > now - minAge
    requires CutIndex(ch, young, minChain, c) && k <= c
    requires ch[0].prev.None? || TimeOf(times, ch[0]) <= t - minAge
    ensures ch[k].prev.None? || TimeOf(times, ch[k]) <= now - minAge
  {
    if k > 0 {
      ChainInOrder(S, times, t, ch, k, c);
      assert ch[c - 1 + 1].prev == Some(Digest(ch[c - 1]));
      assert Digest(ch[c]) in times;
    }
  }

  ghost function Given(e: Event): set<AUM> { if e.Learn? then Elems(e.updates) else {} }

  method Step(env: Env, m: Mem, a: Authority, e: Event, minChain: nat, minAge: nat, ghost t: int)
    returns (b: Authority, ok: bool, stopped: bool)
    requires Settled(env, m, a, t) && t <= e.now && NoCollisions(env, m.Stored() + Given(e))
    modifies m
    ensures Ready(env, m, b.oldest) && m.Stored() <= old(m.Stored()) + Given(e)
    ensures if stopped then !Shallow(m.Stored(), b.oldest, MaxScanIterations) else Settled(env, m, b, e.now)
    ensures minChain > 0 && minAge > 0 && old(Aged(m, a.oldest, t, minAge)) ==> ok && Aged(m, b.oldest, e.now, minAge)
  {
    match e {
      case Learn(updates, now) =>
        b, stopped := LearnStep(env, m, a, updates, now, t, minAge);
        ok := true;
      case Tidy(now) =>
        b, ok := TidyStep(env, m, a, minChain, minAge, now, t);
        stopped := false;
    }
  }

  ghost function Seen(b: AUM, events: seq<Event>): set<AUM> {
    if events == [] then {b} else Seen(b, events[..|events| - 1]) + Given(Last(events))
  }

  lemma {:induction false} SeenAll(b: AUM, events: seq<Event>, i: nat)
    requires i < |events|
    ensures Given(events[i]) <= Seen(b, events) && b in Seen(b, events)
  {
    if |events| == 1 {
      assert events[..0] == [];
    } else if i == |events| - 1 {
      SeenAll(b, events[..|events| - 1], 0);
    } else {
      SeenAll(b, events[..|events| - 1], i);
    }
  }

  // What holds throughout a run, at time t.
  ghost predicate Running(env: Env, m: Mem, a: Authority, t: int, seen: set<AUM>)
    reads m
  {
    Settled(env, m, a, t) && m.Stored() <= seen
  }

  // The events of a run from the i-th on.
  method Continue(env: Env, m: Mem, a: Authority, events: seq<Event>, minChain: nat, minAge: nat, ghost start: int, ghost seen: set<AUM>)
    returns (b: Authority, done: nat, failed: nat)
    requires Running(env, m, a, start, seen) && Onward(start, events) && NoCollisions(env, seen)
    requires forall i :: 0 <= i < |events| ==> Given(events[i]) <= seen
    modifies m
    ensures done <= |events| && Ready(env, m, b.oldest)
    ensures if done < |events| then !Shallow(m.Stored(), b.oldest, MaxScanIterations)
            else Settled(env, m, b, if events == [] then start else Last(events).now)
    ensures minChain > 0 && minAge > 0 && old(Aged(m, a.oldest, start, minAge)) ==> failed == 0
  {
    b, done, failed := a, 0, 0;
    ghost var t := start;
    ghost var fit := minChain > 0 && minAge > 0 && Aged(m, a.oldest, start, minAge);
    while done < |events|
      invariant done <= |events| && t == (if done == 0 then start else events[done - 1].now)
      invariant Running(env, m, b, t, seen)
      invariant fit ==> failed == 0 && Aged(m, b.oldest, t, minAge)
    {
      NoCollisionsWithin(env, m.Stored(), Given(events[done]), seen);
      var ok, stopped;
      b, ok, stopped := Step(env, m, b, events[done], minChain, minAge, t);
      failed := if ok then failed else failed + 1;
      if stopped {
        return;
      }
      t := events[done].now;
      done := done + 1;
    }
  }

  lemma NoCollisionsWithin(env: Env, S: set<AUM>, T: set<AUM>, seen: set<AUM>)
    requires S <= seen && T <= seen && NoCollisions(env, seen)
    ensures NoCollisions(env, S + T)
  {
  }

  // A whole run, from bootstrap on.  It ends early only if a stored chain
  // reaches the iteration limit.  Throughout, storage is one tree below the
  // authority's oldest update, committed in order, and the authority stands on
  // the chain in force.  When the run began at a genesis update, no compaction
  // fails.
  method Live(env: Env, m: Mem, genesis: AUM, start: int, events: seq<Event>, minChain: nat, minAge: nat)
    returns (a: Option<Authority>, done: nat, failed: nat)
    requires m.Valid() && m.Stored() == {} && Onward(start, events) && NoCollisions(env, Seen(genesis, events))
    modifies m
    ensures a.Some? <==> BootstrapOk(env, genesis)
    ensures done <= |events| && (a.Some? ==> Ready(env, m, a.value.oldest))
    ensures a.Some? && done == |events| ==> Settled(env, m, a.value, if events == [] then start else Last(events).now)
    ensures a.Some? && done < |events| ==> !Shallow(m.Stored(), a.value.oldest, MaxScanIterations)
    ensures minChain > 0 && minAge > 0 && genesis.prev.None? ==> failed == 0
  {
    var r := Bootstrap(env, m, genesis, start);
    if r.Err? {
      return None, 0, 0;
    }
    ghost var seen := Seen(genesis, events);
    forall i | 0 <= i < |events| ensures Given(events[i]) <= seen && genesis in seen { SeenAll(genesis, events, i); }
    BootstrapSettled(env, m, r.value, genesis, start);
    var b;
    b, done, failed := Continue(env, m, r.value, events, minChain, minAge, start, seen);
    a := Some(b);
  }

  lemma BootstrapSettled(env: Env, m: Mem, a: Authority, genesis: AUM, start: int)
    requires Ready(env, m, genesis) && InForce(env, m.Stored(), a) && a.oldest == genesis && m.Stored() == {genesis}
    requires m.commitTimes == map[Digest(genesis) := start]
    ensures Settled(env, m, a, start)
  {
    RootParentUnknown({genesis}, genesis);
  }
}
