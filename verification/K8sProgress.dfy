/** Failure-free K8s runs.  In all of them the persisted stack is a prefix of the sorted unit ids.
    Those with one successful resume never get stuck before every unit is idle again, every
    effective step lowers a measure, and they end with partition 0. */
module K8sProgress {
  import opened Options
  import opened Upgrade
  import opened K8sRun

  predicate Resumes(w: World, e: Event) {
    && e.ResumeAction?
    && e.unit == w.leader
    && w.cluster.stack != []
    && |w.cluster.stack| == Size(w) - 1
  }

  // ---- The stack ----

  // No unit fails: the versions are supported and every partition patch of a unit works.
  predicate FailureFree(e: Event) {
    match e
    case UpgradeCharmHook(_, supported) => supported
    case PebbleReadyHook(_, _, patched) => patched
    case _ => true
  }

  predicate Sound(c: Cluster) {
    && (forall k | 0 <= k < |c.states| :: c.states[k] != Failed && c.states[k] != Recovery)
    && c.stack <= AllUnits(|c.states|)
  }

  // A unit that has not completed is on the stack and does not say it completed.
  ghost predicate Accounted(w: World) {
    WellFormed(w.cluster) && AllAccounted(w.cluster.stack, w.cluster.states, w.done)
  }

  ghost predicate AllAccounted(stack: seq<nat>, states: seq<State>, done: set<nat>) {
    forall k | 0 <= k < |states| && k !in done :: k in stack && states[k] != Completed
  }

  ghost predicate Healthy(w: World) {
    Inv(w) && (w.refreshed ==> Sound(w.cluster) && Accounted(w))
  }

  lemma {:induction false} TrimStaysAccounted(stack: seq<nat>, states: seq<State>, done: set<nat>)
    requires Known(stack, |states|) && AllAccounted(stack, states, done)
    ensures AllAccounted(Trim(stack, states), states, done)
  {
    var left := Trim(stack, states);
    TrimCut(stack, states);
    forall k | 0 <= k < |states| && k !in done ensures k in left {
      var i :| 0 <= i < |stack| && stack[i] == k;
      assert i < |left| && left[i] == k;
    }
  }

  lemma {:induction false} NeverFailed(w: World)
    requires Healthy(w)
    ensures ClusterState(w.cluster.states) != Some(Failed)
  {
    assert forall k | 0 <= k < Size(w) :: w.cluster.states[k] != Failed;
    var s := ClusterState(w.cluster.states);
    assert s.Some? ==> s.value in w.cluster.states;
  }

  // What the upgrade-changed handler does to a healthy world.
  lemma {:induction false} ChangedStaysHealthy(w: World, u: nat)
    requires Healthy(w) && w.refreshed && u < Size(w)
    ensures Healthy(w.(cluster := Changed(K8s, w.cluster, u, u == w.leader, None).cluster))
  {
    ChangedKeepsInv(w, u);
    ChangedStaysSound(w.cluster, u, u == w.leader);
    ChangedStaysAccounted(w.cluster, u, u == w.leader, w.done);
  }

  lemma {:induction false} ChangedStaysAccounted(c: Cluster, u: nat, leader: bool, done: set<nat>)
    requires WellFormed(c) && u < |c.states| && AllAccounted(c.stack, c.states, done)
    requires forall k | 0 <= k < |c.states| :: c.states[k] != Ready
    ensures var c' := Changed(K8s, c, u, leader, None).cluster;
            AllAccounted(c'.stack, c'.states, done)
  {
    ChangedEffect(c, u, leader);
    TrimStaysAccounted(c.stack, c.states, done);
  }

  lemma {:induction false} ChangedStaysSound(c: Cluster, u: nat, leader: bool)
    requires WellFormed(c) && Sound(c) && u < |c.states|
    requires forall k | 0 <= k < |c.states| :: c.states[k] != Ready
    ensures Sound(Changed(K8s, c, u, leader, None).cluster)
  {
    ChangedEffect(c, u, leader);
    TrimCut(c.stack, c.states);
    var left := Trim(c.stack, c.states);
    assert left <= c.stack;
    assert left <= AllUnits(|c.states|);
    assert [] <= AllUnits(|c.states|);
  }

  lemma {:induction false} CompletionStaysHealthy(w: World, u: nat)
    requires Healthy(w) && w.refreshed && Settled(w, u) && u in w.replaced
    ensures Healthy(w.(cluster := w.cluster.(states := w.cluster.states[u := Completed]), done := w.done + {u}))
  {
    CompletionKeepsInv(w, u);
  }

  lemma {:induction false} PebbleReadyStaysHealthy(w: World, u: nat, healthy: bool)
    requires Healthy(w) && w.refreshed && Allowed(w, PebbleReadyHook(u, healthy, true))
    ensures Healthy(Next(w, PebbleReadyHook(u, healthy, true)))
  {
    StepKeepsInv(w, PebbleReadyHook(u, healthy, true));
    if WillComplete(w.cluster, u, healthy) {
      assert u in w.replaced;
      CompletionEffect(w, u, true);
      CompletionStaysHealthy(w, u);
      var mid := w.(cluster := w.cluster.(states := w.cluster.states[u := Completed]), done := w.done + {u});
      ChangedStaysHealthy(mid, u);
    }
  }

  lemma {:induction false} StepStaysHealthy(w: World, e: Event)
    requires Healthy(w) && Allowed(w, e) && FailureFree(e)
    ensures Healthy(Next(w, e))
  {
    StepKeepsInv(w, e);
    NeverFailed(w);
    if w.refreshed {
      match e
      case PreCheckAction(u, healthy, patched, order) =>
        PreCheckEffect(w.cluster, u, u == w.leader, healthy, patched, order);
      case PebbleReadyHook(u, healthy, _) => PebbleReadyStaysHealthy(w, u, healthy);
      case UpgradeChangedHook(u) => ChangedStaysHealthy(w, u);
      case _ =>
    } else {
      BeforeTheRefresh(w, e);
    }
  }

  lemma {:induction false} BeforeTheRefresh(w: World, e: Event)
    requires Healthy(w) && !w.refreshed && Allowed(w, e) && Inv(Next(w, e))
    ensures Healthy(Next(w, e))
  {
    var w' := Next(w, e);
    if e.JujuRefresh? {
      assert w'.cluster == w.cluster;
      FullStackFits(w.done, Size(w));
    }
  }

  lemma {:induction false} RunStaysHealthy(w: World, events: seq<Event>, last: World)
    requires Healthy(w) && Run(w, events, last)
    requires forall i | 0 <= i < |events| :: FailureFree(events[i])
    ensures Healthy(last)
    decreases |events|
  {
    if events != [] {
      StepStaysHealthy(w, events[0]);
      RunStaysHealthy(Next(w, events[0]), events[1..], last);
    }
  }

  /** The stack invariant: at every point of a run in which no unit fails, with leader changes,
      repeated pre-checks and any number of resumes, the persisted stack is a prefix of the sorted
      unit ids, and every unit that is not on it has completed. */
  lemma {:induction false} StackStaysSorted(w: World, events: seq<Event>, last: World)
    requires Initial(w) && Run(w, events, last)
    requires forall i | 0 <= i < |events| :: FailureFree(events[i])
    ensures last.refreshed ==>
              && last.cluster.stack <= AllUnits(Size(last))
              && forall k: nat | k < Size(last) && k !in last.cluster.stack :: k in last.done
  {
    RunStaysHealthy(w, events, last);
  }

  // ---- Two upgrade-changed calls in one process ----

  // What a second call of the leader leaves that starts from the cache of the first.
  function AfterTwoCalls(w: World): Cluster
    requires WellFormed(w.cluster) && w.leader < Size(w)
  {
    var one := Changed(K8s, w.cluster, w.leader, true, None);
    Changed(K8s, one.cluster, w.leader, true, one.cache).cluster
  }

  lemma {:induction false} TwoCallsEffect(w: World)
    requires WellFormed(w.cluster) && w.leader < Size(w) && ClusterState(w.cluster.states) != Some(Failed)
    requires forall k | 0 <= k < Size(w) :: w.cluster.states[k] != Ready
    requires Trim(w.cluster.stack, w.cluster.states) != []
    ensures var c := w.cluster;
            var left := Trim(c.stack, c.states);
            var c' := AfterTwoCalls(w);
            && (c'.stack == left
                || (Rest(left) != [] && c.states[Top(Rest(left))] == Completed && c'.stack == Trim(Rest(left), c.states)))
            && c' == c.(stack := c'.stack, states := c'.states)
            && c'.states in {c.states, BackToIdle(c.states, w.leader)}
  {
    SecondCallLosesTopIff(K8s, w.cluster, w.leader);
    TrimCut(w.cluster.stack, w.cluster.states);
  }

  lemma {:induction false} TwoCallsEmptyEffect(w: World)
    requires Healthy(w) && w.refreshed && w.leader < Size(w)
    requires Trim(w.cluster.stack, w.cluster.states) == []
    ensures var c := w.cluster;
            var once := BackToIdle(c.states, w.leader);
            AfterTwoCalls(w) == c.(stack := [], states := BackToIdle(once, w.leader))
  {
    NeverFailed(w);
    var once := BackToIdle(w.cluster.states, w.leader);
    assert forall k | 0 <= k < Size(w) :: once[k] != Failed;
    var s := ClusterState(once);
    assert s.Some? ==> s.value in once;
  }

  lemma {:induction false} EmptiedStaysHealthy(w: World)
    requires Healthy(w) && w.refreshed && w.leader < Size(w)
    requires Trim(w.cluster.stack, w.cluster.states) == []
    ensures Healthy(w.(cluster := AfterTwoCalls(w)))
  {
    TwoCallsEmptyEffect(w);
    var c := w.cluster;
    var once := BackToIdle(c.states, w.leader);
    TrimmedKeepsInv(w);
    TrimStaysAccounted(c.stack, c.states, w.done);
    SettledStaysHealthy(w.(cluster := c.(stack := [])));
    SettledStaysHealthy(w.(cluster := c.(stack := [], states := once)));
  }

  lemma {:induction false} SettledStaysHealthy(w: World)
    requires Healthy(w) && w.refreshed && w.leader < Size(w)
    ensures Healthy(w.(cluster := w.cluster.(states := BackToIdle(w.cluster.states, w.leader))))
  {
    SettlingKeepsInv(w, w.leader);
  }

  // The leader may drop a unit that completed, and then trim.
  lemma {:induction false} DropFits(w: World, left: seq<nat>)
    requires Healthy(w) && w.refreshed && |left| > 1 && left <= w.cluster.stack
    requires Covers(left, w.done, Size(w)) && AllAccounted(left, w.cluster.states, w.done)
    requires Top(left) in w.done
    ensures var stack := Trim(Rest(left), w.cluster.states);
            && Known(stack, Size(w)) && NoDuplicates(stack) && stack <= left
            && Covers(stack, w.done, Size(w)) && AllAccounted(stack, w.cluster.states, w.done)
  {
    var states := w.cluster.states;
    assert left == Rest(left) + [Top(left)];
    PopFits(left, w.done, Size(w));
    assert AllAccounted(Rest(left), states, w.done);
    TrimFits(Rest(left), states, w.done);
    TrimStaysAccounted(Rest(left), states, w.done);
    TrimCut(Rest(left), states);
  }

  // What is left of the stack after two calls.
  lemma {:induction false} StackAfterTwoCallsFits(w: World)
    requires Healthy(w) && w.refreshed && w.leader < Size(w)
    requires Trim(w.cluster.stack, w.cluster.states) != []
    ensures var stack := AfterTwoCalls(w).stack;
            && Known(stack, Size(w)) && NoDuplicates(stack) && stack <= w.cluster.stack
            && Covers(stack, w.done, Size(w)) && AllAccounted(stack, w.cluster.states, w.done)
  {
    var c := w.cluster;
    var left := Trim(c.stack, c.states);
    NeverFailed(w);
    TrimFits(c.stack, c.states, w.done);
    TrimStaysAccounted(c.stack, c.states, w.done);
    TwoCallsEffect(w);
    TrimCut(c.stack, c.states);
    if Rest(left) != [] && c.states[Top(Rest(left))] == Completed {
      NeighbourIsDone(w, left);
      DropFits(w, left);
    }
  }

  /** In a run in which no unit fails, a second call in the same process does no harm: the unit it
      drops from the stack has completed, and the run goes on without a failure. */
  lemma {:induction false} SecondCallStaysHealthy(w: World)
    requires Healthy(w) && w.refreshed && w.leader < Size(w)
    ensures Healthy(w.(cluster := AfterTwoCalls(w)))
  {
    if Trim(w.cluster.stack, w.cluster.states) == [] {
      EmptiedStaysHealthy(w);
    } else {
      NeverFailed(w);
      TwoCallsEffect(w);
      StackAfterTwoCallsFits(w);
      StackAndStatesFit(w, AfterTwoCalls(w));
    }
  }

  // The unit above a completed one on a sorted stack has completed too.
  lemma {:induction false} NeighbourIsDone(w: World, left: seq<nat>)
    requires Healthy(w) && w.refreshed && left <= w.cluster.stack && |left| > 1
    requires w.cluster.states[Top(Rest(left))] == Completed
    ensures Top(left) in w.done
  {
    var all := AllUnits(Size(w));
    var i := |left| - 1;
    assert left[i] == all[i] && left[i - 1] == all[i - 1];
    assert i - 1 in w.done && i - 1 in w.replaced;
  }

  lemma {:induction false} StackAndStatesFit(w: World, c': Cluster)
    requires Healthy(w) && w.refreshed && w.leader < Size(w)
    requires c' == w.cluster.(stack := c'.stack, states := c'.states)
    requires c'.states in {w.cluster.states, BackToIdle(w.cluster.states, w.leader)}
    requires Known(c'.stack, Size(w)) && NoDuplicates(c'.stack) && c'.stack <= w.cluster.stack
    requires Covers(c'.stack, w.done, Size(w)) && AllAccounted(c'.stack, w.cluster.states, w.done)
    ensures Healthy(w.(cluster := c'))
  {
    var dropped := w.(cluster := w.cluster.(stack := c'.stack));
    StackKeepsInv(w, c'.stack);
    SettledStaysHealthy(dropped);
  }

  // ---- Progress ----

  // Failure-free steps of a refresh that is under way; the operator resumes only once, and the lead
  // may change at any time.
  predicate Smooth(w: World, resumed: bool, e: Event) {
    && WellFormed(w.cluster)
    && Allowed(w, e)
    && match e
       case ResumeAction(_, patched) => patched && !resumed
       case ReplacePod(_) => true
       case UpgradeCharmHook(_, supported) => supported
       case PebbleReadyHook(_, healthy, patched) => healthy && patched
       case UpgradeChangedHook(_) => true
       case ElectLeader(_) => true
       case _ => false
  }

  // A step that changes more than the lead.
  predicate Effective(w: World, resumed: bool, e: Event) {
    Smooth(w, resumed, e) && !e.ElectLeader? && Next(w, e) != w
  }

  // The world right after a successful pre-check and the refresh.
  ghost predicate Started(w: World) {
    && Size(w) > 0 && w.leader < Size(w) && w.refreshed
    && w.cluster.stack == AllUnits(Size(w))
    && w.cluster.partition == Size(w) - 1
    && (forall k | 0 <= k < Size(w) :: w.cluster.states[k] == Idle)
    && w.replaced == w.notified == w.done == {}
  }

  ghost predicate AllIdle(w: World) {
    && w.cluster.stack == []
    && (forall k | 0 <= k < Size(w) :: w.cluster.states[k] == Idle)
  }

  /** The shape of every reachable world: the m lowest units have not completed, only the highest
      of them may be at work, and the stack lists the lowest units in order. */
  ghost predicate Shape(w: World, resumed: bool, m: nat) {
    var n, q := Size(w), |w.cluster.stack|;
    && 0 < n && w.leader < n && m <= q <= n && w.refreshed
    && w.cluster.stack == AllUnits(q)
    && (forall k: nat :: k in w.done <==> m <= k < n)
    && w.done <= w.notified <= w.replaced
    && (forall k | k in w.replaced :: k in w.done || (k == m - 1 && w.cluster.partition <= k))
    && (forall k | 0 <= k < n :: w.cluster.states[k] == StateIn(w, m, k) || (q == 0 && w.cluster.states[k] == Idle))
    && w.cluster.partition == (if !resumed then n - 1 else if m == 0 then 0 else m - 1)
    && (resumed ==> m < n && q < n)
    && (!resumed ==> n - 1 <= m)
  }

  function StateIn(w: World, m: nat, k: nat): State {
    if k >= m then Completed else if k in w.notified then Upgrading else Idle
  }

  // How many of the first n units are not in the set.
  function Outside(s: set<nat>, n: nat): nat {
    if n == 0 then 0 else Outside(s, n - 1) + if n - 1 in s then 0 else 1
  }

  function CompletedCount(states: seq<State>): nat {
    if states == [] then 0
    else CompletedCount(states[..|states| - 1]) + if states[|states| - 1] == Completed then 1 else 0
  }

  function Measure(w: World, resumed: bool): nat {
    Outside(w.replaced, Size(w)) + Outside(w.notified, Size(w)) + 2 * Outside(w.done, Size(w))
    + CompletedCount(w.cluster.states) + |w.cluster.stack| + if resumed then 0 else 1
  }

  lemma {:induction false} OutsideAdd(s: set<nat>, k: nat, n: nat)
    requires k !in s
    ensures Outside(s + {k}, n) == Outside(s, n) - if k < n then 1 else 0
  {
    if n > 0 {
      OutsideAdd(s, k, n - 1);
    }
  }

  lemma {:induction false} CompletedCountUpdate(states: seq<State>, k: nat, s: State)
    requires k < |states|
    ensures CompletedCount(states[k := s]) ==
              CompletedCount(states) + (if s == Completed then 1 else 0) - (if states[k] == Completed then 1 else 0)
  {
    var n := |states| - 1;
    assert states[k := s][..n] == if k < n then states[..n][k := s] else states[..n];
    if k < n {
      CompletedCountUpdate(states[..n], k, s);
    }
  }

  lemma {:induction false} TrimAllUnits(q: nat, m: nat, states: seq<State>)
    requires m <= q <= |states|
    requires forall k | m <= k < q :: states[k] == Completed
    requires m > 0 ==> states[m - 1] != Completed
    ensures Trim(AllUnits(q), states) == AllUnits(m)
  {
    if m < q {
      assert Rest(AllUnits(q)) == AllUnits(q - 1);
      TrimAllUnits(q - 1, m, states);
    }
  }

  lemma NotFailed(states: seq<State>)
    requires states != [] && forall k | 0 <= k < |states| :: states[k] in {Idle, Upgrading, Completed}
    ensures ClusterState(states).Some? && ClusterState(states).value in {Idle, Upgrading, Completed}
    ensures (forall k | 0 <= k < |states| :: states[k] != Upgrading) ==> ClusterState(states) in {Some(Idle), Some(Completed)}
  {
  }

  lemma {:induction false} HealthyInShape(w: World, resumed: bool, m: nat)
    requires Shape(w, resumed, m)
    ensures ClusterState(w.cluster.states) != Some(Failed)
    ensures m == 0 ==> ClusterState(w.cluster.states) in {Some(Idle), Some(Completed)}
    ensures Trim(w.cluster.stack, w.cluster.states) == AllUnits(m)
  {
    var c := w.cluster;
    NotFailed(c.states);
    TrimAllUnits(|c.stack|, m, c.states);
    assert m == 0 ==> forall k | 0 <= k < |c.states| :: c.states[k] != Upgrading;
  }

  // What the upgrade-changed handler does to a world of the given shape.
  lemma {:induction false} ChangedInShape(w: World, resumed: bool, m: nat, u: nat)
    requires Shape(w, resumed, m) && u < Size(w)
    ensures var c := w.cluster;
            var left := if u == w.leader then AllUnits(m) else c.stack;
            Changed(K8s, c, u, u == w.leader, None).cluster ==
              if left != [] then c.(stack := left)
              else c.(stack := [], states := if c.states[u] == Completed then c.states[u := Idle] else c.states)
  {
    HealthyInShape(w, resumed, m);
    ChangedEffect(w.cluster, u, u == w.leader);
    assert |AllUnits(m)| == m;
  }

  lemma {:induction false} TrimmedKeepsShape(w: World, resumed: bool, m: nat)
    requires Shape(w, resumed, m)
    ensures var w' := w.(cluster := w.cluster.(stack := AllUnits(m)));
            Shape(w', resumed, m) && (w' == w || Measure(w', resumed) < Measure(w, resumed))
  {
    if m == |w.cluster.stack| {
      assert AllUnits(m) == w.cluster.stack;
    }
  }

  lemma {:induction false} SettlingKeepsShape(w: World, resumed: bool, u: nat)
    requires Shape(w, resumed, 0) && u < Size(w) && w.cluster.stack == [] && w.cluster.states[u] == Completed
    ensures var w' := w.(cluster := w.cluster.(states := w.cluster.states[u := Idle]));
            Shape(w', resumed, 0) && Measure(w', resumed) < Measure(w, resumed)
  {
    CompletedCountUpdate(w.cluster.states, u, Idle);
  }

  lemma {:induction false} ChangedKeepsShape(w: World, resumed: bool, m: nat, u: nat)
    requires Shape(w, resumed, m) && u < Size(w)
    ensures var w' := w.(cluster := Changed(K8s, w.cluster, u, u == w.leader, None).cluster);
            Shape(w', resumed, m) && (w' == w || Measure(w', resumed) < Measure(w, resumed))
  {
    ChangedInShape(w, resumed, m, u);
    TrimmedKeepsShape(w, resumed, m);
    var mid := if u == w.leader then w.(cluster := w.cluster.(stack := AllUnits(m))) else w;
    if mid.cluster.stack == [] && w.cluster.states[u] == Completed {
      SettlingKeepsShape(mid, resumed, u);
    }
  }

  lemma {:induction false} ResumeKeepsShape(w: World, resumed: bool, m: nat, e: Event)
    requires Shape(w, resumed, m) && Smooth(w, resumed, e) && e.ResumeAction?
    ensures Shape(Next(w, e), resumed || Resumes(w, e), m)
    ensures Next(w, e) == w || Measure(Next(w, e), resumed || Resumes(w, e)) < Measure(w, resumed)
  {
  }

  lemma {:induction false} ReplacementKeepsShape(w: World, resumed: bool, m: nat, u: nat)
    requires Shape(w, resumed, m) && Smooth(w, resumed, ReplacePod(u))
    ensures Shape(Next(w, ReplacePod(u)), resumed, m)
    ensures Measure(Next(w, ReplacePod(u)), resumed) < Measure(w, resumed)
  {
    assert u == m - 1;
    OutsideAdd(w.replaced, u, Size(w));
  }

  lemma {:induction false} CharmHookKeepsShape(w: World, resumed: bool, m: nat, u: nat)
    requires Shape(w, resumed, m) && Smooth(w, resumed, UpgradeCharmHook(u, true))
    ensures Shape(Next(w, UpgradeCharmHook(u, true)), resumed, m)
    ensures Measure(Next(w, UpgradeCharmHook(u, true)), resumed) < Measure(w, resumed)
  {
    assert u == m - 1;
    OutsideAdd(w.notified, u, Size(w));
    CompletedCountUpdate(w.cluster.states, u, Upgrading);
  }

  lemma {:induction false} CompletionKeepsShape(w: World, resumed: bool, m: nat, u: nat)
    requires Shape(w, resumed, m) && u < Size(w) && w.cluster.states[u] == Upgrading
    ensures u == m - 1 && u in w.notified && |w.cluster.stack| > 0
    ensures (u < Size(w) - 1 ==> resumed) && (u == Size(w) - 1 ==> !resumed)
    ensures var partition := if u == Size(w) - 1 || u == 0 then w.cluster.partition else u - 1;
            var w' := w.(cluster := Cluster(w.cluster.states[u := Completed], w.cluster.stack, partition), done := w.done + {u});
            Shape(w', resumed, u) && Measure(w', resumed) < Measure(w, resumed)
  {
    OutsideAdd(w.done, u, Size(w));
    CompletedCountUpdate(w.cluster.states, u, Completed);
  }

  lemma {:induction false} PebbleReadyKeepsShape(w: World, resumed: bool, m: nat, e: Event) returns (m': nat)
    requires Shape(w, resumed, m) && Smooth(w, resumed, e) && e.PebbleReadyHook?
    ensures Shape(Next(w, e), resumed, m')
    ensures Next(w, e) == w || Measure(Next(w, e), resumed) < Measure(w, resumed)
  {
    m' := m;
    var u := e.unit;
    if WillComplete(w.cluster, u, true) {
      m' := u;
      CompletionKeepsShape(w, resumed, m, u);
      var partition := if u == Size(w) - 1 || u == 0 then w.cluster.partition else u - 1;
      var c := w.cluster.(states := w.cluster.states[u := Completed]);
      var w' := w.(cluster := c.(partition := partition), done := w.done + {u});
      if u == w.leader {
        ChangedKeepsShape(w', resumed, u, u);
        ChangedIgnoresPartition(c, u, partition);
      }
    }
  }

  lemma ChangedIgnoresPartition(c: Cluster, u: nat, partition: nat)
    requires WellFormed(c) && u < |c.states|
    ensures Changed(K8s, c.(partition := partition), u, true, None).cluster ==
            Changed(K8s, c, u, true, None).cluster.(partition := partition)
  {
  }

  /** Every effective step lowers the measure and keeps the shape. */
  lemma {:induction false} StepLowersMeasure(w: World, resumed: bool, m: nat, e: Event) returns (m': nat)
    requires Shape(w, resumed, m) && Effective(w, resumed, e)
    ensures Shape(Next(w, e), resumed || Resumes(w, e), m')
    ensures Measure(Next(w, e), resumed || Resumes(w, e)) < Measure(w, resumed)
  {
    m' := m;
    match e
    case ResumeAction(_, _) => ResumeKeepsShape(w, resumed, m, e);
    case ReplacePod(u) => ReplacementKeepsShape(w, resumed, m, u);
    case UpgradeCharmHook(u, _) => CharmHookKeepsShape(w, resumed, m, u);
    case PebbleReadyHook(_, _, _) => m' := PebbleReadyKeepsShape(w, resumed, m, e);
    case UpgradeChangedHook(u) => ChangedKeepsShape(w, resumed, m, u);
  }

  // The step that takes a world of the given shape further.
  ghost function NextStep(w: World, m: nat): Event
    requires Shape(w, true, m) || Shape(w, false, m)
    requires !AllIdle(w)
  {
    if m == 0 then
      if w.cluster.stack != [] then UpgradeChangedHook(w.leader)
      else var u :| 0 <= u < Size(w) && w.cluster.states[u] != Idle; UpgradeChangedHook(u)
    else if m - 1 in w.notified then PebbleReadyHook(m - 1, true, true)
    else if m - 1 in w.replaced then UpgradeCharmHook(m - 1, true)
    else if w.cluster.partition <= m - 1 then ReplacePod(m - 1)
    else if |w.cluster.stack| == Size(w) then UpgradeChangedHook(w.leader)
    else ResumeAction(w.leader, true)
  }

  // With nobody left to upgrade, the leader empties the stack and the others settle.
  lemma {:induction false} ChangedIsEffective(w: World, resumed: bool, u: nat)
    requires Shape(w, resumed, 0) && u < Size(w)
    requires if w.cluster.stack != [] then u == w.leader else w.cluster.states[u] == Completed
    ensures Effective(w, resumed, UpgradeChangedHook(u))
  {
    assert Settled(w, u);
    ChangedInShape(w, resumed, 0, u);
    if w.cluster.stack != [] {
      assert |AllUnits(0)| < |w.cluster.stack|;
    }
  }

  // A leader whose last unit completed takes it off the full stack.
  lemma {:induction false} PopIsEffective(w: World, resumed: bool, m: nat)
    requires Shape(w, resumed, m) && m < |w.cluster.stack| && m - 1 !in w.replaced
    ensures Effective(w, resumed, UpgradeChangedHook(w.leader))
  {
    assert Settled(w, w.leader);
    ChangedInShape(w, resumed, m, w.leader);
    assert |AllUnits(m)| < |w.cluster.stack|;
  }

  /** As long as some unit is not idle or the stack is not empty, some step is effective. */
  lemma {:induction false} NeverStuck(w: World, resumed: bool, m: nat)
    requires Shape(w, resumed, m) && !AllIdle(w)
    ensures Effective(w, resumed, NextStep(w, m))
  {
    var e := NextStep(w, m);
    match e
    case UpgradeChangedHook(u) =>
      if m == 0 {
        ChangedIsEffective(w, resumed, u);
      } else {
        PopIsEffective(w, resumed, m);
      }
    case PebbleReadyHook(u, _, _) =>
      CompletionKeepsShape(w, resumed, m, u);
      assert u !in w.done && u in Next(w, e).done;
    case UpgradeCharmHook(u, _) => assert u !in w.notified && u in Next(w, e).notified;
    case ReplacePod(u) => assert u !in w.replaced && u in Next(w, e).replaced;
    case ResumeAction(u, _) => assert Settled(w, u);
  }

  // A run in which every step is effective, but for changes of the lead.
  ghost predicate SmoothRun(w: World, resumed: bool, events: seq<Event>, last: World, lastResumed: bool)
    decreases |events|
  {
    if events == [] then w == last && resumed == lastResumed
    else
      && (Effective(w, resumed, events[0]) || (events[0].ElectLeader? && Smooth(w, resumed, events[0])))
      && SmoothRun(Next(w, events[0]), resumed || Resumes(w, events[0]), events[1..], last, lastResumed)
  }

  function Elections(events: seq<Event>): (n: nat)
    ensures n <= |events|
  {
    if events == [] then 0 else (if events[0].ElectLeader? then 1 else 0) + Elections(events[1..])
  }

  lemma ElectionKeepsShape(w: World, resumed: bool, m: nat, u: nat)
    requires Shape(w, resumed, m) && Smooth(w, resumed, ElectLeader(u))
    ensures Shape(Next(w, ElectLeader(u)), resumed, m)
    ensures Measure(Next(w, ElectLeader(u)), resumed) == Measure(w, resumed)
  {
  }

  lemma {:induction false} SmoothRunKeepsShape(w: World, resumed: bool, m: nat, events: seq<Event>,
                                               last: World, lastResumed: bool) returns (m': nat)
    requires Shape(w, resumed, m) && SmoothRun(w, resumed, events, last, lastResumed)
    ensures Shape(last, lastResumed, m')
    ensures |events| - Elections(events) + Measure(last, lastResumed) <= Measure(w, resumed)
    decreases |events|
  {
    if events == [] {
      m' := m;
    } else {
      var e, rest := events[0], events[1..];
      if e.ElectLeader? {
        ElectionKeepsShape(w, resumed, m, e.unit);
        m' := SmoothRunKeepsShape(Next(w, e), resumed, m, rest, last, lastResumed);
      } else {
        var mid := StepLowersMeasure(w, resumed, m, e);
        m' := SmoothRunKeepsShape(Next(w, e), resumed || Resumes(w, e), mid, rest, last, lastResumed);
      }
    }
  }

  /** A successful pre-check by the leader and the refresh lead from all units idle to the start. */
  lemma {:induction false} CheckAndRefreshStart(w: World, order: seq<nat>)
    requires Initial(w) && w.leader < Size(w) && VisitsAll(order, Size(w))
    ensures var check := PreCheckAction(w.leader, true, true, order);
            && Run(w, [check, JujuRefresh], Next(Next(w, check), JujuRefresh))
            && Started(Next(Next(w, check), JujuRefresh))
  {
    var check := PreCheckAction(w.leader, true, true, order);
    var states := w.cluster.states;
    var s := ClusterState(states);
    assert s == Some(Idle) by {
      assert states[0] in states;
      assert s.Some? ==> s.value in states;
    }
    var checked := Next(w, check);
    assert checked.cluster == w.cluster.(partition := Size(w) - 1, stack := AllUnits(Size(w)));
    assert [check, JujuRefresh][1..] == [JujuRefresh] && [JujuRefresh][1..] == [];
    assert Run(checked, [JujuRefresh], Next(checked, JujuRefresh));
  }

  /** Upgrade progress: a run from the refresh, with any changes of the lead, has at most as many
      effective steps as the initial measure, and where no effective step is left every unit is idle
      and completed, the stack is empty and the partition is 0. */
  lemma {:induction false} UpgradeFinishes(w: World, events: seq<Event>, last: World, resumed: bool)
    requires Started(w) && SmoothRun(w, false, events, last, resumed)
    ensures |events| - Elections(events) <= Measure(w, false)
    ensures (forall e :: !Effective(last, resumed, e)) ==>
              && AllIdle(last) && last.cluster.partition == 0
              && forall k: nat | k < Size(last) :: k in last.done
  {
    assert Shape(w, false, Size(w));
    var m := SmoothRunKeepsShape(w, false, Size(w), events, last, resumed);
    if !AllIdle(last) {
      NeverStuck(last, resumed, m);
    }
  }
}
