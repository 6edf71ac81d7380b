// The health tracker's timed publication (health/health.go): warnables break
// and heal, reports wait out TimeToVisible on a timer, and watchers receive
// changes.  Time is a number; each operation happens at one instant.
module HealthTracker {
  import opened Common
  import opened HealthKernel

  type Args = map<string, string>

  datatype WarningState = WarningState(brokenSince: int, args: Args)

  datatype Change =
    | BecameUnhealthy(w: Warnable, state: WarningState)
    | BecameHealthy(w: Warnable)

  datatype Published = Published(at: int, change: Change)

  // An armed visibility timer: what it will publish, and when at the earliest.
  datatype Timer = Timer(due: int, change: Change)

  datatype Tracking = Tracking(
    now: int,
    warnables: seq<Warnable>,
    broken: map<Warnable, WarningState>,
    pending: map<Warnable, nat>,
    armed: map<nat, Timer>,
    nextTimer: nat,
    log: seq<Published>)

  const Start := Tracking(0, [], map[], map[], map[], 0, [])

  type TTV = Warnable -> int

  // IsVisible of a warnable that is broken.
  predicate Visible(ttv: TTV, w: Warnable, ws: WarningState, now: int) {
    ttv(w) == 0 || now - ws.brokenSince >= ttv(w)
  }

  // ---- The operations on values ----

  function Publish(s: Tracking, c: Change): Tracking { s.(log := s.log + [Published(s.now, c)]) }

  function Arm(s: Tracking, w: Warnable, t: Timer): Tracking {
    s.(armed := s.armed[s.nextTimer := t], pending := s.pending[w := s.nextTimer], nextTimer := s.nextTimer + 1)
  }

  function NewState(s: Tracking, w: Warnable, args: Args): WarningState {
    WarningState(if w in s.broken then s.broken[w].brokenSince else s.now, args)
  }

  function Record(s: Tracking, w: Warnable, ws: WarningState): Tracking {
    s.(broken := s.broken[w := ws], warnables := if w in s.broken then s.warnables else s.warnables + [w])
  }

  function SetUnhealthySpec(ttv: TTV, s: Tracking, w: Warnable, args: Args): Tracking {
    var ws := NewState(s, w, args);
    var r := Record(s, w, ws);
    if w in s.broken && s.broken[w] == ws then r
    else if Visible(ttv, w, ws, s.now) then Publish(r, BecameUnhealthy(w, ws))
    else Arm(r, w, Timer(ws.brokenSince + ttv(w), BecameUnhealthy(w, ws)))
  }

  function StopPending(s: Tracking, w: Warnable): Tracking {
    if w in s.pending then s.(armed := s.armed - {s.pending[w]}, pending := s.pending - {w}) else s
  }

  function SetHealthySpec(ttv: TTV, s: Tracking, w: Warnable): Tracking {
    if w !in s.broken then s
    else
      var r := StopPending(s.(broken := s.broken - {w}), w);
      if Visible(ttv, w, s.broken[w], s.now) then Publish(r, BecameHealthy(w)) else r
  }

  function FireSpec(s: Tracking, id: nat): Tracking
    requires id in s.armed
  {
    var w := s.armed[id].change.w;
    var r := s.(armed := s.armed - {id});
    if w in s.broken then Publish(r, s.armed[id].change).(pending := s.pending - {w}) else r
  }

  // ---- The tracker ----

  class Tracker {
    const ttv: TTV
    const deps: Deps
    var now: int
    var warnables: seq<Warnable>
    var warnableVal: map<Warnable, WarningState>
    var pendingVisibleTimers: map<Warnable, nat>
    var armed: map<nat, Timer>
    var nextTimer: nat
    var published: seq<Published>

    function View(): Tracking
      reads this
    {
      Tracking(now, warnables, warnableVal, pendingVisibleTimers, armed, nextTimer, published)
    }

    constructor (ttv: TTV, deps: Deps)
      ensures View() == Start && this.ttv == ttv && this.deps == deps
    {
      this.ttv, this.deps := ttv, deps;
      now, warnables, warnableVal, pendingVisibleTimers, armed, nextTimer, published := 0, [], map[], map[], map[], 0, [];
    }

    method SetUnhealthyLocked(w: Warnable, args: Args)
      modifies this
      ensures View() == SetUnhealthySpec(ttv, old(View()), w, args)
    {
      var brokenSince := now;
      if w in warnableVal {
        brokenSince := warnableVal[w].brokenSince;
      }
      if w !in warnableVal {
        warnables := warnables + [w];
      }
      var ws := WarningState(brokenSince, args);
      var same := w in warnableVal && warnableVal[w] == ws;
      warnableVal := warnableVal[w := ws];
      if !same {
        var change := BecameUnhealthy(w, ws);
        if Visible(ttv, w, ws, now) {
          published := published + [Published(now, change)];
        } else {
          var visibleIn := ttv(w) - (now - brokenSince);
          armed := armed[nextTimer := Timer(now + visibleIn, change)];
          pendingVisibleTimers := pendingVisibleTimers[w := nextTimer];
          nextTimer := nextTimer + 1;
        }
      }
    }

    method SetHealthyLocked(w: Warnable)
      modifies this
      ensures View() == SetHealthySpec(ttv, old(View()), w)
    {
      if w !in warnableVal {
        return;
      }
      var ws := warnableVal[w];
      warnableVal := warnableVal - {w};
      if w in pendingVisibleTimers {
        armed := armed - {pendingVisibleTimers[w]};
        pendingVisibleTimers := pendingVisibleTimers - {w};
      }
      if Visible(ttv, w, ws, now) {
        published := published + [Published(now, BecameHealthy(w))];
      }
    }

    // The function an armed timer runs.
    method TimerFired(id: nat)
      requires id in armed
      modifies this
      ensures View() == FireSpec(old(View()), id)
    {
      var change := armed[id].change;
      armed := armed - {id};
      if change.w in warnableVal {
        published := published + [Published(now, change)];
        pendingVisibleTimers := pendingVisibleTimers - {change.w};
      }
    }

    // The warnables of CurrentState: broken, visible, and not suppressed.
    method CurrentState(ghost rank: Warnable -> nat) returns (warnings: map<Warnable, WarningState>)
      requires Acyclic(deps, rank)
      ensures forall w :: w in warnings <==>
                w in warnableVal && Visible(ttv, w, warnableVal[w], now) && w in ShownSet(deps, rank, warnableVal.Keys)
      ensures forall w | w in warnings :: warnings[w] == warnableVal[w]
      ensures warnings != map[] <==>
                exists w :: w in ShownSet(deps, rank, warnableVal.Keys) && Visible(ttv, w, warnableVal[w], now)
    {
      warnings := map[];
      var todo := warnableVal.Keys;
      while todo != {}
        invariant todo <= warnableVal.Keys
        invariant forall w :: w in warnings <==>
                    w in warnableVal && w !in todo && Visible(ttv, w, warnableVal[w], now) && Shown(deps, rank, warnableVal.Keys, w)
        invariant forall w | w in warnings :: warnings[w] == warnableVal[w]
      {
        var w :| w in todo;
        todo := todo - {w};
        if !Visible(ttv, w, warnableVal[w], now) {
          continue;
        }
        var healthy := IsEffectivelyHealthy(deps, rank, warnableVal.Keys, w);
        if healthy {
          continue;
        }
        warnings := warnings[w := warnableVal[w]];
      }
    }
  }

  // ---- Runs ----

  datatype Input =
    | SetUnhealthy(w: Warnable, args: Args)
    | SetHealthy(w: Warnable)
    | Fire(id: nat)
    | Tick(d: nat)

  // Only an armed timer fires, and never early.
  predicate Enabled(s: Tracking, i: Input) {
    i.Fire? ==> i.id in s.armed && s.armed[i.id].due <= s.now
  }

  function Step(ttv: TTV, s: Tracking, i: Input): Tracking {
    match i
    case SetUnhealthy(w, args) => SetUnhealthySpec(ttv, s, w, args)
    case SetHealthy(w) => SetHealthySpec(ttv, s, w)
    case Fire(id) => if Enabled(s, i) then FireSpec(s, id) else s
    case Tick(d) => s.(now := s.now + d)
  }

  function After(ttv: TTV, run: seq<Input>): Tracking {
    if run == [] then Start else Step(ttv, After(ttv, run[..|run| - 1]), Last(run))
  }

  // ---- What watchers know ----

  // The picture a watcher builds from the changes alone.
  function Picture(log: seq<Published>): map<Warnable, WarningState> {
    if log == [] then map[]
    else
      var p := Picture(log[..|log| - 1]);
      match Last(log).change
      case BecameUnhealthy(w, ws) => p[w := ws]
      case BecameHealthy(w) => p - {w}
  }

  // Nothing is reported before it is visible, and no recovery is reported of
  // something not reported as broken.
  ghost predicate GoodLog(ttv: TTV, log: seq<Published>) {
    forall k :: 0 <= k < |log| ==>
      match log[k].change
      case BecameUnhealthy(w, ws) => Visible(ttv, w, ws, log[k].at)
      case BecameHealthy(w) => w in Picture(log[..k])
  }

  // One warnable: a pending timer belongs to a broken warnable and will report
  // it as it is now; without one, a broken warnable is visible and known.
  ghost predicate SoundAt(ttv: TTV, s: Tracking, known: map<Warnable, WarningState>, w: Warnable) {
    && (w in s.pending ==>
          && w in s.broken && ttv(w) != 0 && s.pending[w] in s.armed
          && s.armed[s.pending[w]] == Timer(s.broken[w].brokenSince + ttv(w), BecameUnhealthy(w, s.broken[w])))
    && (w in s.broken && w !in s.pending ==> Visible(ttv, w, s.broken[w], s.now))
    && (w in known <==> w in s.broken && w !in s.pending)
    && (w in known ==> known[w] == s.broken[w])
  }

  // Every armed timer is the pending one of its warnable.
  ghost predicate ArmedOk(s: Tracking) {
    forall id | id in s.armed ::
      id < s.nextTimer && s.armed[id].change.w in s.pending && s.pending[s.armed[id].change.w] == id
  }

  // What every calm run keeps.
  ghost predicate Sound(ttv: TTV, s: Tracking) {
    GoodLog(ttv, s.log) && ArmedOk(s) && forall w :: SoundAt(ttv, s, Picture(s.log), w)
  }

  // Inputs that break it: new arguments for a warnable whose timer is pending,
  // or healing one whose timer is overdue.
  predicate Rash(ttv: TTV, s: Tracking, i: Input) {
    match i
    case SetUnhealthy(w, args) => w in s.pending && w in s.broken && s.broken[w].args != args
    case SetHealthy(w) => w in s.pending && w in s.broken && Visible(ttv, w, s.broken[w], s.now)
    case _ => false
  }

  // ---- Every step ----

  lemma LogGrows(ttv: TTV, log: seq<Published>, p: Published)
    requires GoodLog(ttv, log)
    ensures p.change.BecameUnhealthy? ==> Picture(log + [p]) == Picture(log)[p.change.w := p.change.state]
    ensures p.change.BecameHealthy? ==> Picture(log + [p]) == Picture(log) - {p.change.w}
    ensures GoodLog(ttv, log + [p]) <==>
            if p.change.BecameUnhealthy? then Visible(ttv, p.change.w, p.change.state, p.at) else p.change.w in Picture(log)
  {
    var log' := log + [p];
    assert log'[..|log|] == log && log'[|log|] == p;
    forall k | 0 <= k < |log|
      ensures log'[..k] == log[..k] && log'[k] == log[k]
    {
    }
    if GoodLog(ttv, log') {
      assert log'[|log|] == p;
    }
  }

  // A step that leaves a warnable's own entries alone keeps what holds of it.
  lemma ElsewhereKept(ttv: TTV, s: Tracking, s': Tracking, known: map<Warnable, WarningState>, known': map<Warnable, WarningState>, w: Warnable)
    requires SoundAt(ttv, s, known, w) && s.now == s'.now
    requires (w in s.broken <==> w in s'.broken) && (w in s.broken ==> s.broken[w] == s'.broken[w])
    requires (w in s.pending <==> w in s'.pending) && (w in s.pending ==> s.pending[w] == s'.pending[w])
    requires w in s.pending ==> s.pending[w] in s'.armed && s'.armed[s.pending[w]] == s.armed[s.pending[w]]
    requires (w in known <==> w in known') && (w in known ==> known[w] == known'[w])
    ensures SoundAt(ttv, s', known', w)
  {
  }

  // A report that is visible at once.
  lemma ReportKeeps(ttv: TTV, s: Tracking, w: Warnable, args: Args)
    requires Sound(ttv, s) && w !in s.pending && Visible(ttv, w, NewState(s, w, args), s.now)
    ensures Sound(ttv, Publish(Record(s, w, NewState(s, w, args)), BecameUnhealthy(w, NewState(s, w, args))))
  {
    var ws := NewState(s, w, args);
    var s' := Publish(Record(s, w, ws), BecameUnhealthy(w, ws));
    LogGrows(ttv, s.log, Published(s.now, BecameUnhealthy(w, ws)));
    forall x
      ensures SoundAt(ttv, s', Picture(s'.log), x)
    {
      assert SoundAt(ttv, s, Picture(s.log), x);
      if x != w {
        ElsewhereKept(ttv, s, s', Picture(s.log), Picture(s'.log), x);
      }
    }
  }

  // A spell that begins hidden.
  lemma ArmKeeps(ttv: TTV, s: Tracking, w: Warnable, args: Args)
    requires Sound(ttv, s) && w !in s.broken && !Visible(ttv, w, NewState(s, w, args), s.now)
    ensures Sound(ttv, SetUnhealthySpec(ttv, s, w, args))
  {
    var s' := SetUnhealthySpec(ttv, s, w, args);
    assert SoundAt(ttv, s, Picture(s.log), w);
    forall x
      ensures SoundAt(ttv, s', Picture(s'.log), x)
    {
      assert SoundAt(ttv, s, Picture(s.log), x);
      if x != w {
        ElsewhereKept(ttv, s, s', Picture(s.log), Picture(s'.log), x);
      }
    }
  }

  lemma UnhealthyKeeps(ttv: TTV, s: Tracking, w: Warnable, args: Args)
    requires Sound(ttv, s) && !Rash(ttv, s, SetUnhealthy(w, args))
    ensures Sound(ttv, SetUnhealthySpec(ttv, s, w, args))
  {
    assert SoundAt(ttv, s, Picture(s.log), w);
    if w in s.broken && s.broken[w].args == args {
      assert SetUnhealthySpec(ttv, s, w, args) == s;
    } else if Visible(ttv, w, NewState(s, w, args), s.now) {
      ReportKeeps(ttv, s, w, args);
    } else {
      ArmKeeps(ttv, s, w, args);
    }
  }

  lemma RashUnhealthyBreaks(ttv: TTV, s: Tracking, w: Warnable, args: Args)
    requires Sound(ttv, s) && Rash(ttv, s, SetUnhealthy(w, args))
    ensures !Sound(ttv, SetUnhealthySpec(ttv, s, w, args))
  {
    var ws := NewState(s, w, args);
    var s' := SetUnhealthySpec(ttv, s, w, args);
    assert SoundAt(ttv, s, Picture(s.log), w);
    if Visible(ttv, w, ws, s.now) {
      LogGrows(ttv, s.log, Published(s.now, BecameUnhealthy(w, ws)));
      assert !SoundAt(ttv, s', Picture(s'.log), w);
    } else {
      assert s.pending[w] in s'.armed && s'.pending[w] == s.nextTimer;
    }
  }

  // Healing a warnable that was never reported: its timer is stopped.
  lemma HealHidden(ttv: TTV, s: Tracking, w: Warnable)
    requires Sound(ttv, s) && w in s.broken && w in s.pending
    ensures Sound(ttv, StopPending(s.(broken := s.broken - {w}), w))
  {
    var s' := StopPending(s.(broken := s.broken - {w}), w);
    assert SoundAt(ttv, s, Picture(s.log), w);
    forall x
      ensures SoundAt(ttv, s', Picture(s.log), x)
    {
      assert SoundAt(ttv, s, Picture(s.log), x);
      if x != w {
        ElsewhereKept(ttv, s, s', Picture(s.log), Picture(s.log), x);
      }
    }
  }

  // Healing one that was reported.
  lemma HealShown(ttv: TTV, s: Tracking, w: Warnable)
    requires Sound(ttv, s) && w in s.broken && w !in s.pending
    ensures Sound(ttv, Publish(s.(broken := s.broken - {w}), BecameHealthy(w)))
  {
    var s' := Publish(s.(broken := s.broken - {w}), BecameHealthy(w));
    assert SoundAt(ttv, s, Picture(s.log), w);
    LogGrows(ttv, s.log, Published(s.now, BecameHealthy(w)));
    forall x
      ensures SoundAt(ttv, s', Picture(s.log) - {w}, x)
    {
      assert SoundAt(ttv, s, Picture(s.log), x);
      if x != w {
        ElsewhereKept(ttv, s, s', Picture(s.log), Picture(s.log) - {w}, x);
      }
    }
  }

  lemma HealthyKeeps(ttv: TTV, s: Tracking, w: Warnable)
    requires Sound(ttv, s) && w in s.broken && !Rash(ttv, s, SetHealthy(w))
    ensures Sound(ttv, SetHealthySpec(ttv, s, w))
  {
    assert SoundAt(ttv, s, Picture(s.log), w);
    if w in s.pending {
      HealHidden(ttv, s, w);
    } else {
      HealShown(ttv, s, w);
    }
  }

  lemma RashHealthyBreaks(ttv: TTV, s: Tracking, w: Warnable)
    requires Sound(ttv, s) && Rash(ttv, s, SetHealthy(w))
    ensures !Sound(ttv, SetHealthySpec(ttv, s, w))
  {
    assert SoundAt(ttv, s, Picture(s.log), w);
    LogGrows(ttv, s.log, Published(s.now, BecameHealthy(w)));
  }

  lemma FireKeeps(ttv: TTV, s: Tracking, id: nat)
    requires Sound(ttv, s) && Enabled(s, Fire(id))
    ensures Sound(ttv, FireSpec(s, id))
  {
    var w, s' := s.armed[id].change.w, FireSpec(s, id);
    assert SoundAt(ttv, s, Picture(s.log), w);
    LogGrows(ttv, s.log, Published(s.now, s.armed[id].change));
    forall x
      ensures SoundAt(ttv, s', Picture(s'.log), x)
    {
      assert SoundAt(ttv, s, Picture(s.log), x);
      if x != w {
        ElsewhereKept(ttv, s, s', Picture(s.log), Picture(s'.log), x);
      }
    }
  }

  lemma TickKeeps(ttv: TTV, s: Tracking, d: nat)
    requires Sound(ttv, s)
    ensures Sound(ttv, s.(now := s.now + d))
  {
    var s' := s.(now := s.now + d);
    forall x
      ensures SoundAt(ttv, s', Picture(s'.log), x)
    {
      assert SoundAt(ttv, s, Picture(s.log), x);
    }
  }

  // Exactly the rash inputs break it.
  lemma StepKeepsIff(ttv: TTV, s: Tracking, i: Input)
    requires Sound(ttv, s)
    ensures Sound(ttv, Step(ttv, s, i)) <==> !Rash(ttv, s, i)
  {
    match i {
      case SetUnhealthy(w, args) =>
        if Rash(ttv, s, i) { RashUnhealthyBreaks(ttv, s, w, args); } else { UnhealthyKeeps(ttv, s, w, args); }
      case SetHealthy(w) =>
        if Rash(ttv, s, i) { RashHealthyBreaks(ttv, s, w); } else if w in s.broken { HealthyKeeps(ttv, s, w); }
      case Fire(id) =>
        if Enabled(s, i) { FireKeeps(ttv, s, id); }
      case Tick(d) => TickKeeps(ttv, s, d);
    }
  }

  // ---- Every run ----

  ghost predicate CalmAt(ttv: TTV, run: seq<Input>, k: nat)
    requires k < |run|
  {
    !Rash(ttv, After(ttv, run[..k]), run[k])
  }

  ghost predicate Calm(ttv: TTV, run: seq<Input>) { forall k :: 0 <= k < |run| ==> CalmAt(ttv, run, k) }

  lemma AfterPrefix(ttv: TTV, run: seq<Input>, k: nat)
    requires k < |run|
    ensures After(ttv, run[..k + 1]) == Step(ttv, After(ttv, run[..k]), run[k])
  {
    assert run[..k + 1][..k] == run[..k];
  }

  lemma {:induction false} CalmRunSound(ttv: TTV, run: seq<Input>, k: nat)
    requires k <= |run|
    requires forall j :: 0 <= j < k ==> CalmAt(ttv, run, j)
    ensures Sound(ttv, After(ttv, run[..k]))
    decreases k
  {
    if k == 0 {
      forall w
        ensures SoundAt(ttv, Start, Picture(Start.log), w)
      {
      }
      assert After(ttv, run[..0]) == Start;
    } else {
      CalmRunSound(ttv, run, k - 1);
      AfterPrefix(ttv, run, k - 1);
      assert CalmAt(ttv, run, k - 1);
      StepKeepsIff(ttv, After(ttv, run[..k - 1]), run[k - 1]);
    }
  }

  // Reporting a warnable with other arguments before it is visible is enough.
  lemma ChangedWhileHidden(ttv: TTV, w: Warnable, args: Args, args': Args)
    requires ttv(w) > 0 && args != args'
    ensures !Sound(ttv, After(ttv, [SetUnhealthy(w, args), SetUnhealthy(w, args')]))
  {
    var run := [SetUnhealthy(w, args), SetUnhealthy(w, args')];
    var s := After(ttv, run[..1]);
    AfterPrefix(ttv, run, 0);
    AfterPrefix(ttv, run, 1);
    assert run[..0] == [] && run[..2] == run;
    assert s == Step(ttv, Start, run[0]);
    assert w in s.pending && w in s.broken && s.broken[w].args == args;
    forall k | 0 <= k < 1 ensures CalmAt(ttv, run, k) {}
    CalmRunSound(ttv, run, 1);
    StepKeepsIff(ttv, s, run[1]);
  }

  // A run is sound all along exactly when it is calm.
  lemma SoundRunIff(ttv: TTV, run: seq<Input>)
    ensures (forall k :: 0 <= k <= |run| ==> Sound(ttv, After(ttv, run[..k]))) <==> Calm(ttv, run)
  {
    if Calm(ttv, run) {
      forall k | 0 <= k <= |run|
        ensures Sound(ttv, After(ttv, run[..k]))
      {
        CalmRunSound(ttv, run, k);
      }
    }
    if forall k :: 0 <= k <= |run| ==> Sound(ttv, After(ttv, run[..k])) {
      forall k | 0 <= k < |run|
        ensures CalmAt(ttv, run, k)
      {
        AfterPrefix(ttv, run, k);
        StepKeepsIff(ttv, After(ttv, run[..k]), run[k]);
      }
    }
  }

  ghost predicate NoneOverdue(s: Tracking) { forall id | id in s.armed :: s.now < s.armed[id].due }

  // Nobody heals while a timer is overdue, and arguments do not change while
  // one is pending.
  ghost predicate PromptAt(ttv: TTV, run: seq<Input>, k: nat)
    requires k < |run|
  {
    if run[k].SetHealthy? then NoneOverdue(After(ttv, run[..k])) else CalmAt(ttv, run, k)
  }

  lemma HealingOnTime(ttv: TTV, s: Tracking, w: Warnable)
    requires Sound(ttv, s) && NoneOverdue(s)
    ensures !Rash(ttv, s, SetHealthy(w))
  {
    assert SoundAt(ttv, s, Picture(s.log), w);
  }

  lemma {:induction false} PromptPrefixCalm(ttv: TTV, run: seq<Input>, n: nat)
    requires n <= |run|
    requires forall k :: 0 <= k < |run| ==> PromptAt(ttv, run, k)
    ensures forall k :: 0 <= k < n ==> CalmAt(ttv, run, k)
    decreases n
  {
    if n > 0 {
      PromptPrefixCalm(ttv, run, n - 1);
      assert PromptAt(ttv, run, n - 1);
      if run[n - 1].SetHealthy? {
        CalmRunSound(ttv, run, n - 1);
        HealingOnTime(ttv, After(ttv, run[..n - 1]), run[n - 1].w);
      }
      assert CalmAt(ttv, run, n - 1);
    }
  }

  // When timers fire as soon as they are due, and arguments do not change while
  // a timer is pending, the run is calm.
  lemma PromptIsCalm(ttv: TTV, run: seq<Input>)
    requires forall k :: 0 <= k < |run| ==> PromptAt(ttv, run, k)
    ensures Calm(ttv, run)
  {
    PromptPrefixCalm(ttv, run, |run|);
  }

  // What watchers know is the visible part of what is broken, with its current
  // arguments, whenever no timer is overdue.
  lemma WatchersKnow(ttv: TTV, run: seq<Input>)
    requires Calm(ttv, run) && NoneOverdue(After(ttv, run))
    ensures var s := After(ttv, run);
            Picture(s.log) == map w | w in s.broken && Visible(ttv, w, s.broken[w], s.now) :: s.broken[w]
  {
    CalmRunSound(ttv, run, |run|);
    assert run[..|run|] == run;
    var s := After(ttv, run);
    forall w
      ensures w in Picture(s.log) <==> w in s.broken && Visible(ttv, w, s.broken[w], s.now)
      ensures w in Picture(s.log) ==> Picture(s.log)[w] == s.broken[w]
    {
      assert SoundAt(ttv, s, Picture(s.log), w);
    }
  }

  // ---- Spells ----

  function Clock(run: seq<Input>): int {
    if run == [] then 0 else Clock(run[..|run| - 1]) + (if Last(run).Tick? then Last(run).d else 0)
  }

  // Input k begins the spell w is in at the end of the run.
  ghost predicate Began(run: seq<Input>, w: Warnable, k: nat) {
    && k < |run| && run[k].SetUnhealthy? && run[k].w == w
    && (forall j :: k < j < |run| ==> run[j] != SetHealthy(w))
    && (forall j {:trigger Superseded(run, w, j, k)} :: 0 <= j < k ==> Superseded(run, w, j, k))
  }

  // Input j does not break w, or a heal between j and k ends what it began.
  ghost predicate Superseded(run: seq<Input>, w: Warnable, j: int, k: int) {
    0 <= j < k <= |run| && run[j].SetUnhealthy? && run[j].w == w ==> exists m :: j < m < k && run[m] == SetHealthy(w)
  }

  lemma {:induction false} ClockIsNow(ttv: TTV, run: seq<Input>)
    ensures After(ttv, run).now == Clock(run)
  {
    if run != [] {
      ClockIsNow(ttv, run[..|run| - 1]);
    }
  }

  // One input more.
  lemma BeganExtends(run: seq<Input>, i: Input, w: Warnable, k: nat)
    requires Began(run, w, k) && i != SetHealthy(w)
    ensures Began(run + [i], w, k)
  {
    var run' := run + [i];
    forall j | 0 <= j < k
      ensures Superseded(run', w, j, k)
    {
      assert Superseded(run, w, j, k) && run[j] == run'[j];
      if run[j].SetUnhealthy? && run[j].w == w {
        var m :| j < m < k && run[m] == SetHealthy(w);
        assert run'[m] == SetHealthy(w);
      }
    }
  }

  lemma BeganShrinks(run: seq<Input>, i: Input, w: Warnable, k: nat)
    requires Began(run + [i], w, k) && k < |run|
    ensures Began(run, w, k) && i != SetHealthy(w)
  {
    var run' := run + [i];
    assert run'[|run|] == i;
    forall j | k < j < |run|
      ensures run[j] != SetHealthy(w)
    {
      assert run'[j] == run[j];
    }
    forall j | 0 <= j < k
      ensures Superseded(run, w, j, k)
    {
      assert Superseded(run', w, j, k) && run[j] == run'[j];
      if run[j].SetUnhealthy? && run[j].w == w {
        var m :| j < m < k && run'[m] == SetHealthy(w);
        assert run[m] == SetHealthy(w);
      }
    }
  }

  lemma StepKeepsSince(ttv: TTV, s: Tracking, i: Input, w: Warnable)
    requires w in s.broken && i != SetHealthy(w)
    ensures w in Step(ttv, s, i).broken && Step(ttv, s, i).broken[w].brokenSince == s.broken[w].brokenSince
  {
  }

  lemma StepBreaksOnly(ttv: TTV, s: Tracking, i: Input, w: Warnable)
    requires w !in s.broken
    ensures w in Step(ttv, s, i).broken <==> i.SetUnhealthy? && i.w == w
    ensures w in Step(ttv, s, i).broken ==> Step(ttv, s, i).broken[w].brokenSince == s.now
  {
  }

  lemma {:induction false} HealedSince(ttv: TTV, run: seq<Input>, w: Warnable, j: nat)
    requires j < |run| && run[j].SetUnhealthy? && run[j].w == w && w !in After(ttv, run).broken
    ensures exists m :: j < m < |run| && run[m] == SetHealthy(w)
  {
    var n := |run| - 1;
    assert run[..n + 1] == run;
    AfterPrefix(ttv, run, n);
    if run[n] == SetHealthy(w) {
    } else {
      HealedSince(ttv, run[..n], w, j);
      var m :| j < m < n && run[..n][m] == SetHealthy(w);
      assert run[m] == SetHealthy(w);
    }
  }

  // BrokenSince is the start of the current spell, read off the inputs alone.
  lemma {:induction false} BrokenBegan(ttv: TTV, run: seq<Input>, w: Warnable) returns (k: nat)
    requires w in After(ttv, run).broken
    ensures Began(run, w, k) && After(ttv, run).broken[w].brokenSince == Clock(run[..k])
    decreases |run|
  {
    var n := |run| - 1;
    var p, i := run[..n], run[n];
    assert run == p + [i];
    var s := After(ttv, p);
    if w in s.broken {
      k := BrokenBegan(ttv, p, w);
      assert i != SetHealthy(w);
      StepKeepsSince(ttv, s, i, w);
      BeganExtends(p, i, w, k);
      assert run[..k] == p[..k];
    } else {
      StepBreaksOnly(ttv, s, i, w);
      ClockIsNow(ttv, p);
      k := n;
      forall j | 0 <= j < k
        ensures Superseded(run, w, j, k)
      {
        assert p[j] == run[j];
        if run[j].SetUnhealthy? && run[j].w == w {
          HealedSince(ttv, p, w, j);
          var m :| j < m < |p| && p[m] == SetHealthy(w);
          assert run[m] == SetHealthy(w);
        }
      }
    }
  }

  lemma BeganUnique(run: seq<Input>, w: Warnable, k: nat, k': nat)
    requires Began(run, w, k) && Began(run, w, k')
    ensures k == k'
  {
    assert k < k' ==> Superseded(run, w, k, k');
    assert k' < k ==> Superseded(run, w, k', k);
  }

  lemma {:induction false} BeganBroken(ttv: TTV, run: seq<Input>, w: Warnable, k: nat)
    requires Began(run, w, k)
    ensures w in After(ttv, run).broken && After(ttv, run).broken[w].brokenSince == Clock(run[..k])
    decreases |run|
  {
    var n := |run| - 1;
    var p, i := run[..n], run[n];
    assert run == p + [i];
    if k < n {
      BeganShrinks(p, i, w, k);
      BeganBroken(ttv, p, w, k);
      StepKeepsSince(ttv, After(ttv, p), i, w);
    }
    var k' := BrokenBegan(ttv, run, w);
    BeganUnique(run, w, k, k');
  }

  // ---- Short spells ----

  // The changes published about one warnable.
  function About(log: seq<Published>, w: Warnable): seq<Published> {
    if log == [] then []
    else About(log[..|log| - 1], w) + (if Last(log).change.w == w then [Last(log)] else [])
  }

  lemma AboutGrows(log: seq<Published>, p: Published, w: Warnable)
    ensures About(log + [p], w) == About(log, w) + (if p.change.w == w then [p] else [])
  {
    assert (log + [p])[..|log|] == log;
  }

  // A hidden warnable is not spoken of, not even when it heals.
  lemma HiddenStepSilent(ttv: TTV, s: Tracking, i: Input, w: Warnable)
    requires Sound(ttv, s) && !Rash(ttv, s, i)
    requires w in s.broken && !Visible(ttv, w, s.broken[w], s.now)
    ensures About(Step(ttv, s, i).log, w) == About(s.log, w)
  {
    assert SoundAt(ttv, s, Picture(s.log), w);
    var s' := Step(ttv, s, i);
    match i {
      case SetUnhealthy(x, args) =>
        if s'.log != s.log { AboutGrows(s.log, Published(s.now, BecameUnhealthy(x, NewState(s, x, args))), w); }
      case SetHealthy(x) =>
        if s'.log != s.log { AboutGrows(s.log, Published(s.now, BecameHealthy(x)), w); }
      case Fire(id) =>
        if Enabled(s, i) {
          assert SoundAt(ttv, s, Picture(s.log), s.armed[id].change.w);
          AboutGrows(s.log, Published(s.now, s.armed[id].change), w);
        }
      case Tick(d) =>
    }
  }

  lemma CalmPrefix(ttv: TTV, run: seq<Input>, n: nat)
    requires Calm(ttv, run) && n <= |run|
    ensures Calm(ttv, run[..n])
  {
    forall k | 0 <= k < n
      ensures CalmAt(ttv, run[..n], k)
    {
      assert CalmAt(ttv, run, k) && run[..n][..k] == run[..k];
    }
  }

  lemma NotYetBegan(p: seq<Input>, i: Input, w: Warnable, k: nat)
    requires Began(p + [i], w, |p|)
    ensures !Began(p, w, k)
  {
    var run := p + [i];
    assert k < |p| ==> run[k] == p[k] && Superseded(run, w, k, |p|);
    assert forall m :: 0 <= m < |p| ==> run[m] == p[m];
  }

  lemma FreshSpell(ttv: TTV, p: seq<Input>, i: Input, w: Warnable)
    requires Began(p + [i], w, |p|)
    ensures w !in After(ttv, p).broken
  {
    forall k
      ensures !Began(p, w, k)
    {
      NotYetBegan(p, i, w, k);
    }
    if w in After(ttv, p).broken {
      var k := BrokenBegan(ttv, p, w);
      assert false;
    }
  }

  lemma {:induction false} HiddenRunSilent(ttv: TTV, run: seq<Input>, w: Warnable, k: nat)
    requires Calm(ttv, run) && Began(run, w, k)
    requires ttv(w) != 0 && Clock(run) - Clock(run[..k]) < ttv(w)
    ensures About(After(ttv, run).log, w) == About(After(ttv, run[..k]).log, w)
    decreases |run|
  {
    var n := |run| - 1;
    var p, i := run[..n], run[n];
    var s := After(ttv, p);
    assert run == p + [i];
    ClockIsNow(ttv, p);
    if k < n {
      assert CalmAt(ttv, run, n);
      CalmRunSound(ttv, run, n);
      BeganShrinks(p, i, w, k);
      CalmPrefix(ttv, run, n);
      assert p[..k] == run[..k];
      HiddenRunSilent(ttv, p, w, k);
      BeganBroken(ttv, p, w, k);
      HiddenStepSilent(ttv, s, i, w);
    } else {
      FreshSpell(ttv, p, i, w);
      assert After(ttv, run).log == s.log;
    }
  }

  // A spell shorter than TimeToVisible publishes nothing, and neither does the
  // heal that ends it.
  lemma ShortSpellSilent(ttv: TTV, run: seq<Input>, w: Warnable, k: nat)
    requires Calm(ttv, run) && Began(run, w, k)
    requires ttv(w) != 0 && Clock(run) - Clock(run[..k]) < ttv(w)
    ensures About(After(ttv, run).log, w) == About(After(ttv, run[..k]).log, w)
    ensures About(After(ttv, run + [SetHealthy(w)]).log, w) == About(After(ttv, run[..k]).log, w)
  {
    HiddenRunSilent(ttv, run, w, k);
    assert run[..|run|] == run;
    CalmRunSound(ttv, run, |run|);
    BeganBroken(ttv, run, w, k);
    ClockIsNow(ttv, run);
    HiddenStepSilent(ttv, After(ttv, run), SetHealthy(w), w);
    AfterPrefix(ttv, run + [SetHealthy(w)], |run|);
    assert (run + [SetHealthy(w)])[..|run|] == run && (run + [SetHealthy(w)])[..|run| + 1] == run + [SetHealthy(w)];
  }

  // ---- Without calm ----

  function Relapse(ttv: TTV, s: Tracking, w: Warnable, args: Args, wait: nat): Tracking {
    var changed := SetUnhealthySpec(ttv, s, w, args);
    var again := SetUnhealthySpec(ttv, SetHealthySpec(ttv, changed, w), w, args);
    again.(now := s.now + wait)
  }

  // Changing the arguments of a hidden warnable leaves its first timer armed
  // and unowned.  From every such state, a heal and a fresh break let that timer
  // report the old spell while the new one is still hidden.
  lemma UnownedTimerReportsOldSpell(ttv: TTV, s: Tracking, w: Warnable, args: Args, wait: nat)
    requires Sound(ttv, s) && w in s.pending && w in s.broken && s.broken[w].args != args
    requires s.broken[w].brokenSince < s.now && wait == s.broken[w].brokenSince + ttv(w) - s.now > 0
    ensures var late := Relapse(ttv, s, w, args, wait);
            && late.log == s.log && Enabled(late, Fire(s.pending[w]))
            && w in late.broken && late.broken[w].brokenSince == s.now && !Visible(ttv, w, late.broken[w], late.now)
            && FireSpec(late, s.pending[w]).log == s.log + [Published(late.now, BecameUnhealthy(w, s.broken[w]))]
  {
    assert SoundAt(ttv, s, Picture(s.log), w);
    var id := s.pending[w];
    var changed := SetUnhealthySpec(ttv, s, w, args);
    assert changed.armed[id] == s.armed[id] && changed.pending[w] == s.nextTimer && changed.log == s.log;
    var healed := SetHealthySpec(ttv, changed, w);
    assert healed.log == s.log && id in healed.armed && healed.armed[id] == s.armed[id];
    var again := SetUnhealthySpec(ttv, healed, w, args);
    assert again.log == s.log && id in again.armed && again.armed[id] == s.armed[id];
  }
}
