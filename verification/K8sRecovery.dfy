/** Why only harmless restarts of recovering units may be allowed on K8s: runs that one other restart
    makes unsafe, either at once or only later. */
module K8sRecovery {
  import opened Options
  import opened Upgrade
  import opened K8sRun

  /** Looking one state ahead is not enough: the restart of a recovering unit leaves a safe next
      state exactly when the pod was replaced, or the hook does not get as far as lowering the
      partition. */
  lemma {:induction false} NextStateIsSafeIff(w: World, u: nat, healthy: bool, patched: bool)
    requires Inv(w) && Settled(w, u) && w.cluster.states[u] == Recovery
    ensures Safe(Next(w, PebbleReadyHook(u, healthy, patched))) <==> LowersNothing(w, u, healthy, patched)
  {
    InvIsSafe(w);
    if u in w.replaced || !healthy {
      ReplacedKeepsInv(w, u, healthy, patched);
      InvIsSafe(Next(w, PebbleReadyHook(u, healthy, patched)));
    } else {
      OldPodCompletes(w, u, patched);
    }
  }

  predicate LowersNothing(w: World, u: nat, healthy: bool, patched: bool) {
    u in w.replaced || !healthy || !patched || u == 0 || u == Size(w) - 1
  }

  /** Worlds and the allowed events between them.  Every world but perhaps the last is safe. */
  datatype Trace = Trace(worlds: seq<World>, events: seq<Event>)

  ghost predicate SafeRun(t: Trace, start: World) {
    && |t.worlds| == |t.events| + 1
    && t.worlds[0] == start
    && forall i: nat | i < |t.events| :: SafeStep(t.worlds[i], t.events[i], t.worlds[i + 1])
  }

  ghost predicate SafeStep(w: World, e: Event, w': World) {
    WellFormed(w.cluster) && Allowed(w, e) && Next(w, e) == w' && Safe(w)
  }

  function Last(t: Trace): World
    requires t.worlds != []
  {
    t.worlds[|t.worlds| - 1]
  }

  lemma {:induction false} Extend(t: Trace, start: World, e: Event, w': World) returns (t': Trace)
    requires SafeRun(t, start) && SafeStep(Last(t), e, w')
    ensures SafeRun(t', start) && Last(t') == w' && t'.events == t.events + [e]
  {
    t' := Trace(t.worlds + [w'], t.events + [e]);
    forall i: nat | i < |t'.events| ensures SafeStep(t'.worlds[i], t'.events[i], t'.worlds[i + 1]) {
      if i < |t.events| {
        assert SafeStep(t.worlds[i], t.events[i], t.worlds[i + 1]);
      }
    }
  }

  // ---- Three units, of which only unit 2 gets a new pod ----

  predicate Shows(w: World, leader: nat, zero: State, one: State, two: State) {
    && Size(w) == 3 && w.leader == leader && w.refreshed && w.cluster.partition == 2
    && w.cluster.states[0] == zero && w.cluster.states[1] == one && w.cluster.states[2] == two
    && w.replaced == w.notified == {2} && w.done <= {2}
    && Upgrading !in {zero, one, two} && Unset !in {zero, one, two} && Ready !in {zero, one, two}
  }

  predicate Stacked(stack: seq<nat>, x: nat, y: nat, z: nat) {
    |stack| == 3 && stack[0] == x && stack[1] == y && stack[2] == z
  }

  predicate StackedTwo(stack: seq<nat>, x: nat, y: nat) {
    |stack| == 2 && stack[0] == x && stack[1] == y
  }

  lemma {:induction false} Behind(states: seq<State>, i: nat)
    requires i < |states| && Unset !in states
    requires forall j | 0 <= j < |states| :: Ordinal(states[i]) <= Ordinal(states[j])
    ensures ClusterState(states) == Some(states[i])
  {
    var s := ClusterState(states);
    var j: nat :| j < |states| && states[j] == s.value;
  }

  lemma ShownIsSafe(w: World, u: nat, z: State, o: State, s: State)
    requires Shows(w, u, z, o, s)
    ensures Safe(w) && Unset !in w.cluster.states && Ready !in w.cluster.states
  {
    assert forall i | 0 <= i < 3 :: w.cluster.states[i] in {z, o, s};
  }

  lemma {:induction false} Elect(t: Trace, start: World, z: State, o: State, s: State, u: nat) returns (t': Trace)
    requires SafeRun(t, start) && Shows(Last(t), Last(t).leader, z, o, s) && WellFormed(Last(t).cluster) && u < 3
    ensures SafeRun(t', start) && Shows(Last(t'), u, z, o, s) && Last(t').cluster == Last(t).cluster
  {
    t' := Extend(t, start, ElectLeader(u), Last(t).(leader := u));
  }

  function Recovering(w: World, u: nat, order: seq<nat>): World
    requires u < Size(w) && w.cluster.stack != []
  {
    var stack := w.cluster.stack;
    w.(cluster := w.cluster.(states := w.cluster.states[u := Recovery],
                             stack := if |stack| == Size(w) then stack else Repaired(stack, order)))
  }

  lemma {:induction false} CheckStep(w: World, u: nat, z: State, o: State, s: State, failed: nat, order: seq<nat>)
    requires WellFormed(w.cluster) && w.cluster.stack != [] && Shows(w, u, z, o, s)
    requires u < 3 && failed < 3 && w.cluster.states[failed] == Failed && Recovery !in w.cluster.states
    requires VisitsAll(order, 3)
    ensures SafeStep(w, PreCheckAction(u, true, true, order), Recovering(w, u, order))
  {
    ShownIsSafe(w, u, z, o, s);
    CheckCluster(w.cluster, u, failed, order);
  }

  lemma {:induction false} CheckCluster(c: Cluster, u: nat, failed: nat, order: seq<nat>)
    requires WellFormed(c) && c.stack != [] && u < |c.states| && failed < |c.states|
    requires c.states[failed] == Failed && Recovery !in c.states && Unset !in c.states
    ensures PreCheck(K8s, c, u, true, None, true, true, order, []).cluster ==
            c.(states := c.states[u := Recovery], stack := if |c.stack| == |c.states| then c.stack else Repaired(c.stack, order))
  {
    Behind(c.states, failed);
  }

  // A pre-check by the leader of a failed cluster.
  lemma {:induction false} Check(t: Trace, start: World, u: nat, z: State, o: State, s: State, failed: nat,
                                 order: seq<nat>) returns (t': Trace)
    requires SafeRun(t, start) && WellFormed(Last(t).cluster) && Last(t).cluster.stack != []
    requires Shows(Last(t), u, z, o, s)
    requires u < 3 && failed < 3 && Last(t).cluster.states[failed] == Failed && Recovery !in Last(t).cluster.states
    requires VisitsAll(order, 3)
    ensures SafeRun(t', start) && Last(t') == Recovering(Last(t), u, order)
    ensures t'.events == t.events + [PreCheckAction(u, true, true, order)]
  {
    CheckStep(Last(t), u, z, o, s, failed, order);
    t' := Extend(t, start, PreCheckAction(u, true, true, order), Recovering(Last(t), u, order));
  }

  function Restarted(w: World, u: nat): World
    requires u < Size(w)
  {
    w.(cluster := w.cluster.(states := w.cluster.states[u := if u == 1 then Failed else Completed]),
       done := if u in w.replaced then w.done + {u} else w.done)
  }

  lemma {:induction false} RestartCluster(w: World, u: nat, failed: nat)
    requires WellFormed(w.cluster) && |w.cluster.states| == 3 && Unset !in w.cluster.states
    requires u < 3 && failed < 3 && failed != u && w.cluster.states[failed] == Failed
    requires forall k | 0 <= k < 3 && k != u :: w.cluster.states[k] != Recovery
    ensures AfterCompletion(w, u) == w.cluster.(states := w.cluster.states[u := Completed])
  {
    Behind(w.cluster.states[u := Completed], failed);
  }

  lemma {:induction false} RestartNext(w: World, u: nat, failed: nat, patched: bool)
    requires WellFormed(w.cluster) && |w.cluster.states| == 3 && Unset !in w.cluster.states && Settled(w, u)
    requires u < 3 && failed < 3 && failed != u && w.cluster.states[failed] == Failed
    requires w.cluster.states[u] == Recovery && (u == 1 ==> !patched)
    requires forall k | 0 <= k < 3 && k != u :: w.cluster.states[k] != Recovery
    ensures Next(w, PebbleReadyHook(u, true, patched)) == Restarted(w, u)
  {
    RestartCluster(w, u, failed);
    CompletionEffect(w, u, patched);
    assert w.cluster.states[u := Completed][u := Failed] == w.cluster.states[u := Failed];
  }

  // While another unit is failed, the leader leaves the stack alone.
  lemma {:induction false} RestartIsHarmless(w: World, u: nat, failed: nat, patched: bool)
    requires WellFormed(w.cluster) && |w.cluster.states| == 3 && Unset !in w.cluster.states
    requires u < 3 && failed < 3 && failed != u && w.cluster.states[failed] == Failed
    requires u == 1 ==> !patched && 1 in w.cluster.stack
    requires forall k | 0 <= k < 3 && k != u :: w.cluster.states[k] != Recovery
    ensures HarmlessRestart(w, u, true, patched)
  {
    Behind(w.cluster.states[u := Completed], failed);
  }

  lemma {:induction false} RestartStep(w: World, u: nat, z: State, o: State, s: State, failed: nat, patched: bool)
    requires WellFormed(w.cluster) && Shows(w, u, z, o, s)
    requires u < 3 && failed < 3 && failed != u && w.cluster.states[failed] == Failed
    requires w.cluster.states[u] == Recovery && (u == 1 ==> !patched && 1 in w.cluster.stack)
    requires forall k | 0 <= k < 3 && k != u :: w.cluster.states[k] != Recovery
    ensures SafeStep(w, PebbleReadyHook(u, true, patched), Restarted(w, u))
  {
    ShownIsSafe(w, u, z, o, s);
    RestartIsHarmless(w, u, failed, patched);
    RestartNext(w, u, failed, patched);
  }

  // A restart of a recovering leader while another unit is still failed.
  lemma {:induction false} Restart(t: Trace, start: World, u: nat, z: State, o: State, s: State, failed: nat,
                                   patched: bool) returns (t': Trace)
    requires SafeRun(t, start) && WellFormed(Last(t).cluster) && Shows(Last(t), u, z, o, s)
    requires u < 3 && failed < 3 && failed != u && Last(t).cluster.states[failed] == Failed
    requires Last(t).cluster.states[u] == Recovery && (u == 1 ==> !patched && 1 in Last(t).cluster.stack)
    requires forall k | 0 <= k < 3 && k != u :: Last(t).cluster.states[k] != Recovery
    ensures SafeRun(t', start) && Last(t') == Restarted(Last(t), u)
  {
    RestartStep(Last(t), u, z, o, s, failed, patched);
    t' := Extend(t, start, PebbleReadyHook(u, true, patched), Restarted(Last(t), u));
  }

  function Dropped(w: World): World
    requires Size(w) == 3 && w.cluster.stack != []
  {
    w.(cluster := w.cluster.(states := w.cluster.states[1 := Failed], stack := w.cluster.stack[..1]))
  }

  lemma {:induction false} DropsToOne(stack: seq<nat>, states: seq<State>)
    requires |states| == 3 && states[0] == Idle && states[1] == states[2] == Completed && Stacked(stack, 0, 1, 2)
    ensures Known(stack, 3) && Trim(stack, states) == stack[..1] && ClusterState(states) == Some(Idle)
  {
    Behind(states, 0);
    TrimIsMaximal(stack, states, 1);
  }

  // The leader, unit 1, drops itself and unit 2 from the stack before it fails.
  lemma {:induction false} DropStep(w: World)
    requires Shows(w, 1, Idle, Recovery, Completed) && Stacked(w.cluster.stack, 0, 1, 2)
    ensures var drop := PebbleReadyHook(1, true, false);
            && WellFormed(w.cluster) && Safe(w) && Possible(w, drop) && Next(w, drop) == Dropped(w)
            && LowersNothing(w, 1, true, false) && !HarmlessRestart(w, 1, true, false)
  {
    DropsToOne(w.cluster.stack, w.cluster.states[1 := Completed]);
    assert StackAfterCompletion(w, 1) == w.cluster.stack[..1];
    OldPodCompletes(w, 1, false);
  }

  lemma {:induction false} DropsOne(c: Cluster, u: nat)
    requires WellFormed(c) && |c.states| == |c.stack| == 3 && u < 3 && c.states[u] == Recovery
    requires Unset !in c.states && Ready !in c.states
    requires c.states[c.stack[2]] == Completed && c.states[c.stack[1]] != Completed
    ensures Changed(K8s, c, u, true, None).cluster == c.(stack := c.stack[..2])
  {
    Behind(c.states, u);
    OneFromTop(c.stack, c.states);
    assert forall k | 0 <= k < 3 :: c.states[k] in c.states;
    ChangedEffect(c, u, true);
  }

  lemma {:induction false} OneFromTop(stack: seq<nat>, states: seq<State>)
    requires |stack| == 3 && Known(stack, |states|)
    requires states[stack[2]] == Completed && states[stack[1]] != Completed
    ensures Trim(stack, states) == stack[..2]
  {
    TrimIsMaximal(stack, states, 2);
  }

  function WithoutTop(w: World): World
    requires w.cluster.stack != []
  {
    w.(cluster := w.cluster.(stack := Rest(w.cluster.stack)))
  }

  // A recovering leader drops the completed unit on top of the stack.
  lemma {:induction false} DropTop(t: Trace, start: World, u: nat, z: State, o: State, s: State) returns (t': Trace)
    requires SafeRun(t, start) && WellFormed(Last(t).cluster) && Shows(Last(t), u, z, o, s)
    requires u < 3 && Last(t).cluster.states[u] == Recovery
    requires |Last(t).cluster.stack| == 3
    requires Last(t).cluster.states[Last(t).cluster.stack[2]] == Completed
    requires Last(t).cluster.states[Last(t).cluster.stack[1]] != Completed
    ensures SafeRun(t', start) && Last(t') == WithoutTop(Last(t))
  {
    var w := Last(t);
    DropTopStep(w, u, z, o, s);
    t' := Extend(t, start, UpgradeChangedHook(u), WithoutTop(w));
  }

  lemma {:induction false} DropTopStep(w: World, u: nat, z: State, o: State, s: State)
    requires WellFormed(w.cluster) && Shows(w, u, z, o, s) && u < 3 && w.cluster.states[u] == Recovery
    requires |w.cluster.stack| == 3
    requires w.cluster.states[w.cluster.stack[2]] == Completed && w.cluster.states[w.cluster.stack[1]] != Completed
    ensures SafeStep(w, UpgradeChangedHook(u), WithoutTop(w))
  {
    ShownIsSafe(w, u, z, o, s);
    DropsOne(w.cluster, u);
  }

  // ---- The run ----

  lemma OrderForOne(stack: seq<nat>) returns (order: seq<nat>)
    requires |stack| == 1 && stack[0] == 0
    ensures VisitsAll(order, 3) && Stacked(Repaired(stack, order), 1, 2, 0)
  {
    order := seq(3, i => if i == 2 then 0 else i + 1);
    assert order[0] == 1 && order[1] == 2 && order[2] == 0;
    RepairKeepsTheOldStack(stack, order);
    assert Missing(order[1..][1..], stack) == [];
    assert Missing(order[1..], stack) == [2];
    assert Missing(order, stack) == [1] + [2];
  }

  lemma OrderForTwo(stack: seq<nat>) returns (order: seq<nat>)
    requires StackedTwo(stack, 1, 2)
    ensures VisitsAll(order, 3) && Stacked(Repaired(stack, order), 1, 0, 2)
  {
    order := AllUnits(3);
    assert order[0] == 0 && order[1] == 1 && order[2] == 2;
    RepairKeepsTheOldStack(stack, order);
    assert Missing(order[1..][1..], stack) == [];
    assert Missing(order[1..], stack) == [];
    assert Missing(order, stack) == [0];
  }

  lemma {:induction false} CheckFromOne(t: Trace, start: World) returns (t': Trace)
    requires SafeRun(t, start) && Shows(Last(t), 0, Idle, Failed, Completed)
    requires |Last(t).cluster.stack| == 1 && Last(t).cluster.stack[0] == 0
    ensures SafeRun(t', start) && Shows(Last(t'), 0, Recovery, Failed, Completed)
    ensures Stacked(Last(t').cluster.stack, 1, 2, 0)
  {
    var order := OrderForOne(Last(t).cluster.stack);
    t' := Check(t, start, 0, Idle, Failed, Completed, 1, order);
  }

  lemma {:induction false} CheckFromTwo(t: Trace, start: World) returns (t': Trace)
    requires SafeRun(t, start) && Shows(Last(t), 0, Completed, Failed, Completed)
    requires StackedTwo(Last(t).cluster.stack, 1, 2)
    ensures SafeRun(t', start) && Shows(Last(t'), 0, Recovery, Failed, Completed)
    ensures Stacked(Last(t').cluster.stack, 1, 0, 2)
  {
    var order := OrderForTwo(Last(t).cluster.stack);
    t' := Check(t, start, 0, Completed, Failed, Completed, 1, order);
  }

  lemma {:induction false} StartUp(start: World, order: seq<nat>) returns (t: Trace)
    requires Initial(start) && Size(start) == 3 && start.leader == 1 && Stacked(order, 0, 1, 2)
    ensures SafeRun(t, start)
    ensures Shows(Last(t), 1, Idle, Idle, Failed) && Last(t).cluster.stack == AllUnits(3)
  {
    t := Trace([start], []);
    var checked := start.(cluster := start.cluster.(partition := 2, stack := AllUnits(3)));
    FirstCheck(start, order);
    t := Extend(t, start, PreCheckAction(1, true, true, order), checked);
    var refreshed := checked.(refreshed := true);
    t := Extend(t, start, JujuRefresh, refreshed);
    var replaced := refreshed.(replaced := {2});
    t := Extend(t, start, ReplacePod(2), replaced);
    FailingHook(replaced);
    t := Extend(t, start, UpgradeCharmHook(2, false), FailedTwo(replaced));
  }

  lemma {:induction false} FirstCheck(w: World, order: seq<nat>)
    requires Initial(w) && Size(w) == 3 && w.leader == 1 && Stacked(order, 0, 1, 2)
    ensures SafeStep(w, PreCheckAction(1, true, true, order),
                      w.(cluster := w.cluster.(partition := 2, stack := AllUnits(3))))
  {
    Behind(w.cluster.states, 0);
  }

  function FailedTwo(w: World): World
    requires Size(w) == 3
  {
    w.(cluster := w.cluster.(states := w.cluster.states[2 := Failed]), notified := {2})
  }

  lemma {:induction false} FailingHook(w: World)
    requires Size(w) == 3 && w.refreshed && w.cluster.partition == 2 && w.cluster.stack == AllUnits(3)
    requires forall k | 0 <= k < 3 :: w.cluster.states[k] == Idle
    requires w.replaced == {2} && w.notified == w.done == {}
    ensures SafeStep(w, UpgradeCharmHook(2, false), FailedTwo(w))
  {
  }

  // Unit 1 restarts in vain, then unit 2 completes.
  lemma {:induction false} FirstRecovery(t: Trace, start: World, order: seq<nat>) returns (t': Trace)
    requires SafeRun(t, start) && Shows(Last(t), 1, Idle, Idle, Failed)
    requires Stacked(Last(t).cluster.stack, 0, 1, 2) && Stacked(order, 0, 1, 2)
    ensures SafeRun(t', start) && Shows(Last(t'), 2, Idle, Failed, Completed)
    ensures Stacked(Last(t').cluster.stack, 0, 1, 2)
  {
    t' := Check(t, start, 1, Idle, Idle, Failed, 2, order);
    t' := Restart(t', start, 1, Idle, Recovery, Failed, 2, false);
    t' := Elect(t', start, Idle, Failed, Failed, 2);
    t' := Check(t', start, 2, Idle, Failed, Failed, 1, order);
    t' := Restart(t', start, 2, Idle, Failed, Recovery, 1, true);
  }

  // Unit 1 recovers once more.
  lemma {:induction false} SecondRecovery(t: Trace, start: World, order: seq<nat>) returns (t': Trace)
    requires SafeRun(t, start) && Shows(Last(t), 2, Idle, Failed, Completed)
    requires Stacked(Last(t).cluster.stack, 0, 1, 2) && Stacked(order, 0, 1, 2)
    ensures SafeRun(t', start) && Shows(Last(t'), 1, Idle, Recovery, Completed)
    ensures Stacked(Last(t').cluster.stack, 0, 1, 2)
  {
    t' := Elect(t, start, Idle, Failed, Completed, 1);
    t' := Check(t', start, 1, Idle, Failed, Completed, 1, order);
  }

  // Unit 0 says it completed.
  lemma {:induction false} ThirdRecovery(t: Trace, start: World) returns (t': Trace)
    requires SafeRun(t, start) && Shows(Last(t), 1, Idle, Failed, Completed)
    requires |Last(t).cluster.stack| == 1 && Last(t).cluster.stack[0] == 0
    ensures SafeRun(t', start) && Shows(Last(t'), 0, Completed, Failed, Completed)
    ensures Stacked(Last(t').cluster.stack, 1, 2, 0)
  {
    t' := Elect(t, start, Idle, Failed, Completed, 0);
    t' := CheckFromOne(t', start);
    t' := Restart(t', start, 0, Recovery, Failed, Completed, 1, true);
  }

  // It loses its place on the stack and gets it back above unit 1.
  lemma {:induction false} FourthRecovery(t: Trace, start: World, order: seq<nat>) returns (t': Trace)
    requires SafeRun(t, start) && Shows(Last(t), 0, Completed, Failed, Completed)
    requires Stacked(Last(t).cluster.stack, 1, 2, 0) && Stacked(order, 0, 1, 2)
    ensures SafeRun(t', start) && Shows(Last(t'), 0, Recovery, Failed, Completed)
    ensures StackedTwo(Last(t').cluster.stack, 1, 0)
  {
    t' := Elect(t, start, Completed, Failed, Completed, 2);
    t' := Check(t', start, 2, Completed, Failed, Completed, 1, order);
    t' := DropTop(t', start, 2, Completed, Failed, Recovery);
    t' := Restart(t', start, 2, Completed, Failed, Recovery, 1, true);
    t' := Elect(t', start, Completed, Failed, Completed, 0);
    t' := CheckFromTwo(t', start);
    t' := DropTop(t', start, 0, Recovery, Failed, Completed);
  }

  /** From three idle units, an allowed run, one restart that lowers nothing and another allowed run
      may end unsafe, with every world before safe: unit 1 loses its place on the stack, and a resume
      moves the partition below it although it never got a new pod. */
  lemma {:induction false} LostPlaceEndsUnsafe(start: World) returns (before: Trace, after: Trace)
    requires Initial(start) && Size(start) == 3 && start.leader == 1
    ensures SafeRun(before, start)
    ensures var w, lost := Last(before), PebbleReadyHook(1, true, false);
            && WellFormed(w.cluster) && Safe(w) && Possible(w, lost)
            && LowersNothing(w, 1, true, false) && !HarmlessRestart(w, 1, true, false)
            && SafeRun(after, Next(w, lost))
    ensures !Safe(Last(after)) && Last(after).cluster.partition == 0 && 1 !in Last(after).replaced
  {
    var order := AllUnits(3);
    before := StartUp(start, order);
    before := FirstRecovery(before, start, order);
    before := SecondRecovery(before, start, order);
    var w := Last(before);
    DropStep(w);
    after := AfterTheDrop(Dropped(w), order);
  }

  lemma {:induction false} AfterTheDrop(start: World, order: seq<nat>) returns (t: Trace)
    requires Shows(start, 1, Idle, Failed, Completed) && Stacked(order, 0, 1, 2)
    requires |start.cluster.stack| == 1 && start.cluster.stack[0] == 0
    ensures SafeRun(t, start) && !Safe(Last(t)) && Last(t).cluster.partition == 0 && 1 !in Last(t).replaced
  {
    t := Trace([start], []);
    t := ThirdRecovery(t, start);
    t := FourthRecovery(t, start, order);
    var w := Last(t);
    t := Extend(t, start, ResumeAction(0, true), w.(cluster := w.cluster.(partition := 0)));
    assert 1 !in Last(t).done;
  }

  lemma {:induction false} TraceIsRun(t: Trace, start: World, i: nat)
    requires SafeRun(t, start) && i <= |t.events|
    ensures Run(t.worlds[i], t.events[i..], Last(t))
    decreases |t.events| - i
  {
    if i < |t.events| {
      assert SafeStep(t.worlds[i], t.events[i], t.worlds[i + 1]);
      assert t.events[i..][1..] == t.events[i + 1..];
      TraceIsRun(t, start, i + 1);
    }
  }

  /** The shorter run: only allowed events lead to a world in which the restart of unit 1 lowers the
      partition below itself at once. */
  lemma {:induction false} OneRestartIsEnough(start: World) returns (events: seq<Event>, w: World)
    requires Initial(start) && Size(start) == 3 && start.leader == 1
    ensures Run(start, events, w)
    ensures WellFormed(w.cluster) && Possible(w, PebbleReadyHook(1, true, true))
    ensures !Safe(Next(w, PebbleReadyHook(1, true, true)))
  {
    var order := AllUnits(3);
    var t := StartUp(start, order);
    t := Check(t, start, 1, Idle, Idle, Failed, 2, order);
    TraceIsRun(t, start, 0);
    assert t.events[0..] == t.events;
    events, w := t.events, Last(t);
    LowersTooFar(w);
  }

  lemma {:induction false} LowersTooFar(w: World)
    requires WellFormed(w.cluster) && Shows(w, 1, Idle, Recovery, Failed)
    ensures Possible(w, PebbleReadyHook(1, true, true)) && !Safe(Next(w, PebbleReadyHook(1, true, true)))
  {
    ShownIsSafe(w, 1, Idle, Recovery, Failed);
    OldPodCompletes(w, 1, true);
    assert 1 !in Next(w, PebbleReadyHook(1, true, true)).done;
  }
}
