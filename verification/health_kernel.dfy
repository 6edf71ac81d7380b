// Which broken warnables are shown (health/state.go): a broken warnable is
// suppressed by a direct dependency that is itself shown.
module HealthKernel {
  // A warnable, by identity.
  type Warnable = nat
  type Deps = Warnable -> seq<Warnable>

  ghost predicate Acyclic(deps: Deps, rank: Warnable -> nat) {
    forall w, d {:trigger d in deps(w)} :: d in deps(w) ==> rank(d) < rank(w)
  }

  // Not effectively healthy.
  ghost predicate Shown(deps: Deps, rank: Warnable -> nat, broken: set<Warnable>, w: Warnable)
    requires Acyclic(deps, rank)
    decreases rank(w)
  {
    w in broken && forall d | d in deps(w) :: !Shown(deps, rank, broken, d)
  }

  ghost function ShownSet(deps: Deps, rank: Warnable -> nat, broken: set<Warnable>): set<Warnable>
    requires Acyclic(deps, rank)
  {
    set w | w in broken && Shown(deps, rank, broken, w)
  }

  // isEffectivelyHealthyLocked: recursion over the dependencies, stopping at
  // the first one that is not effectively healthy.
  method IsEffectivelyHealthy(deps: Deps, ghost rank: Warnable -> nat, broken: set<Warnable>, w: Warnable) returns (healthy: bool)
    requires Acyclic(deps, rank)
    ensures healthy <==> !Shown(deps, rank, broken, w)
    decreases rank(w)
  {
    if w !in broken {
      return true;
    }
    for i := 0 to |deps(w)|
      invariant forall k :: 0 <= k < i ==> !Shown(deps, rank, broken, deps(w)[k])
    {
      var d := deps(w)[i];
      assert d in deps(w);
      var ok := IsEffectivelyHealthy(deps, rank, broken, d);
      if !ok {
        return true;
      }
    }
    return false;
  }

  // ---- The shown set is the kernel of the broken subgraph ----

  // No member depends on another, and everything broken outside depends
  // directly on a member.
  ghost predicate Kernel(deps: Deps, broken: set<Warnable>, kernel: set<Warnable>) {
    && kernel <= broken
    && (forall w, d | w in kernel && d in deps(w) :: d !in kernel)
    && (forall w | w in broken && w !in kernel :: exists d :: d in deps(w) && d in kernel)
  }

  lemma {:induction false} InKernelIff(deps: Deps, rank: Warnable -> nat, broken: set<Warnable>, kernel: set<Warnable>, w: Warnable)
    requires Acyclic(deps, rank) && Kernel(deps, broken, kernel)
    ensures w in kernel <==> Shown(deps, rank, broken, w)
    decreases rank(w)
  {
    forall d | d in deps(w)
      ensures d in kernel <==> Shown(deps, rank, broken, d)
    {
      InKernelIff(deps, rank, broken, kernel, d);
    }
  }

  // The shown set is a kernel, and the only one.
  lemma ShownIsTheKernel(deps: Deps, rank: Warnable -> nat, broken: set<Warnable>, kernel: set<Warnable>)
    requires Acyclic(deps, rank)
    ensures Kernel(deps, broken, kernel) <==> kernel == ShownSet(deps, rank, broken)
  {
    if Kernel(deps, broken, kernel) {
      forall w
        ensures w in kernel <==> w in ShownSet(deps, rank, broken)
      {
        InKernelIff(deps, rank, broken, kernel, w);
      }
    }
    var shown := ShownSet(deps, rank, broken);
    forall w | w in broken && w !in shown
      ensures exists d :: d in deps(w) && d in shown
    {
      var d :| d in deps(w) && Shown(deps, rank, broken, d);
      assert d in shown;
    }
  }

  lemma LowestOf(s: set<Warnable>, rank: Warnable -> nat) returns (low: Warnable)
    requires s != {}
    ensures low in s && forall x | x in s :: rank(low) <= rank(x)
    decreases s
  {
    low :| low in s;
    if y :| y in s && rank(y) < rank(low) {
      var lower := set x | x in s && rank(x) < rank(low);
      assert y in lower && low !in lower;
      low := LowestOf(lower, rank);
    }
  }

  // Suppression never hides everything.
  lemma SomethingShown(deps: Deps, rank: Warnable -> nat, broken: set<Warnable>)
    requires Acyclic(deps, rank) && broken != {}
    ensures ShownSet(deps, rank, broken) != {}
  {
    var low := LowestOf(broken, rank);
    assert Shown(deps, rank, broken, low);
    assert low in ShownSet(deps, rank, broken);
  }

  // ---- Root causes ----

  ghost predicate Root(deps: Deps, broken: set<Warnable>, w: Warnable) {
    w in broken && forall d | d in deps(w) :: d !in broken
  }

  ghost predicate OnlyRoots(deps: Deps, rank: Warnable -> nat, broken: set<Warnable>)
    requires Acyclic(deps, rank)
  {
    forall w :: Shown(deps, rank, broken, w) <==> Root(deps, broken, w)
  }

  // Dependencies are listed transitively.
  ghost predicate Closed(deps: Deps) {
    forall w, d, e {:trigger d in deps(w), e in deps(d)} :: d in deps(w) && e in deps(d) ==> e in deps(w)
  }

  lemma ClosedShowsRoots(deps: Deps, rank: Warnable -> nat, broken: set<Warnable>)
    requires Acyclic(deps, rank) && Closed(deps)
    ensures OnlyRoots(deps, rank, broken)
  {
    forall w
      ensures Shown(deps, rank, broken, w) <==> Root(deps, broken, w)
    {
      if w in broken && !Root(deps, broken, w) {
        var x :| x in deps(w) && x in broken;
        var below := set d | d in broken && d in deps(w);
        assert x in below;
        var low := LowestOf(below, rank);
        assert Shown(deps, rank, broken, low);
      }
    }
  }

  // A chain w, d, e in which w does not list e shows w although d is broken.
  lemma ChainShowsNonRoot(deps: Deps, rank: Warnable -> nat, w: Warnable, d: Warnable, e: Warnable)
    requires Acyclic(deps, rank)
    requires d in deps(w) && e in deps(d) && e !in deps(w)
    ensures Shown(deps, rank, {w, d, e}, w) && !Root(deps, {w, d, e}, w)
    ensures !OnlyRoots(deps, rank, {w, d, e})
  {
    var broken := {w, d, e};
    assert Shown(deps, rank, broken, e);
    assert !Shown(deps, rank, broken, d);
    assert Shown(deps, rank, broken, w);
  }

  // The documented reading, that a broken dependency always silences its
  // dependents and only root causes are shown, holds for every broken set
  // exactly when the dependencies are listed transitively.
  lemma OnlyRootsIff(deps: Deps, rank: Warnable -> nat)
    requires Acyclic(deps, rank)
    ensures (forall broken :: OnlyRoots(deps, rank, broken)) <==> Closed(deps)
  {
    if Closed(deps) {
      forall broken
        ensures OnlyRoots(deps, rank, broken)
      {
        ClosedShowsRoots(deps, rank, broken);
      }
    } else {
      var w, d, e :| d in deps(w) && e in deps(d) && e !in deps(w);
      ChainShowsNonRoot(deps, rank, w, d, e);
    }
  }

  // ---- The package's own warnables that have or are dependencies ----

  const NetworkStatus: Warnable := 0
  const IPNState: Warnable := 1
  const LoginState: Warnable := 2
  const NotInMapPoll: Warnable := 3
  const NoDERPHome: Warnable := 4
  const NoDERPConnection: Warnable := 5
  const DERPTimeout: Warnable := 6
  const DERPRegionError: Warnable := 7
  const NoUDP4Bind: Warnable := 8
  const MapResponseTimeout: Warnable := 9
  const TLSConnectionFailed: Warnable := 10

  function BuiltinDeps(w: Warnable): seq<Warnable> {
    if w == LoginState then [IPNState]
    else if w == NotInMapPoll || w == NoUDP4Bind || w == MapResponseTimeout then [NetworkStatus, IPNState]
    else if w == NoDERPHome || w == DERPRegionError || w == TLSConnectionFailed then [NetworkStatus]
    else if w == NoDERPConnection then [NetworkStatus, NoDERPHome]
    else if w == DERPTimeout then [NetworkStatus, NoDERPConnection, NoDERPHome]
    else []
  }

  // They are listed transitively, so for them only root causes are shown.
  lemma BuiltinShowsRoots(broken: set<Warnable>)
    ensures Acyclic(BuiltinDeps, w => w)
    ensures OnlyRoots(BuiltinDeps, w => w, broken)
  {
    assert Acyclic(BuiltinDeps, w => w);
    assert Closed(BuiltinDeps);
    ClosedShowsRoots(BuiltinDeps, w => w, broken);
  }
}
