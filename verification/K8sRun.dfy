/** Whole runs of one refresh on K8s: operators, Juju and the StatefulSet controller act in any
    order, hooks fail and are retried, and every unit runs the handlers of `Upgrade`. */
module K8sRun {
  import opened Options
  import opened Upgrade

  /** The shared data together with what only the environment knows: which pods run the new
      revision, which of those got their upgrade-charm hook, and which completed on it. */
  datatype World = World(cluster: Cluster, leader: nat, refreshed: bool,
                         replaced: set<nat>, notified: set<nat>, done: set<nat>)

  datatype Event =
    | ElectLeader(unit: nat)
    | PreCheckAction(unit: nat, healthy: bool, patched: bool, order: seq<nat>)
    | ResumeAction(unit: nat, patched: bool)
    | JujuRefresh
    | ReplacePod(unit: nat)
    | UpgradeCharmHook(unit: nat, supported: bool)
    | PebbleReadyHook(unit: nat, healthy: bool, patched: bool)
    | UpgradeChangedHook(unit: nat)

  function Size(w: World): nat {
    |w.cluster.states|
  }

  // A replaced pod runs its upgrade-charm hook before anything else.
  predicate Settled(w: World, unit: nat) {
    unit < Size(w) && (unit in w.replaced ==> unit in w.notified)
  }

  // What the leader leaves of the stack when a unit says, rightly or not, that it completed.
  function StackAfterCompletion(w: World, u: nat): (r: seq<nat>)
    requires WellFormed(w.cluster) && u < Size(w)
  {
    var states := w.cluster.states[u := Completed];
    if u == w.leader && ClusterState(states) != Some(Failed) then Trim(w.cluster.stack, states) else w.cluster.stack
  }

  /** A restart of a recovering unit that does no harm: its pod was replaced, or its checks fail, or
      it is the first or the last ordinal, which leave the partition alone, or its partition patch
      fails, so that it fails again, and it is still on the stack then or the stack is empty. */
  predicate HarmlessRestart(w: World, u: nat, healthy: bool, patched: bool)
    requires WellFormed(w.cluster) && u < Size(w)
  {
    || u in w.replaced
    || !healthy
    || !(0 < u < Size(w) - 1)
    || (!patched && (u in StackAfterCompletion(w, u) || StackAfterCompletion(w, u) == []))
  }

  /** What the environment may do.  The operator refreshes once, after a pre-upgrade-check that
      succeeded; the StatefulSet replaces a pod once, and only at or above the partition; and the
      restart of a unit in recovery is harmless. */
  predicate Allowed(w: World, e: Event)
    requires WellFormed(w.cluster)
  {
    match e
    case ElectLeader(u) => u < Size(w)
    case PreCheckAction(u, _, _, order) => Settled(w, u) && VisitsAll(order, Size(w))
    case ResumeAction(u, _) => Settled(w, u)
    case JujuRefresh => !w.refreshed && w.cluster.stack == AllUnits(Size(w)) && w.cluster.partition == Size(w) - 1
    case ReplacePod(u) => w.refreshed && w.cluster.partition <= u < Size(w) && u !in w.replaced
    case UpgradeCharmHook(u, _) => u < Size(w) && u in w.replaced && u !in w.notified
    case PebbleReadyHook(u, healthy, patched) =>
      Settled(w, u) && (w.cluster.states[u] == Recovery ==> HarmlessRestart(w, u, healthy, patched))
    case UpgradeChangedHook(u) => Settled(w, u)
  }

  predicate Possible(w: World, e: Event)
    requires WellFormed(w.cluster)
  {
    if e.PebbleReadyHook? then Settled(w, e.unit) else Allowed(w, e)
  }

  // Every hook starts in a process of its own, hence with an empty cache.
  function Next(w: World, e: Event): (w': World)
    requires WellFormed(w.cluster) && Possible(w, e)
    ensures Size(w') == Size(w)
  {
    match e
    case ElectLeader(u) => w.(leader := u)
    case PreCheckAction(u, healthy, patched, order) =>
      w.(cluster := PreCheck(K8s, w.cluster, u, u == w.leader, None, healthy, patched, order, []).cluster)
    case ResumeAction(u, patched) => w.(cluster := Resume(w.cluster, u == w.leader, None, patched).cluster)
    case JujuRefresh => w.(refreshed := true)
    case ReplacePod(u) => w.(replaced := w.replaced + {u})
    case UpgradeCharmHook(u, supported) =>
      w.(cluster := CharmUpgraded(K8s, w.cluster, u, u == w.leader, None, supported).cluster,
         notified := w.notified + {u})
    case PebbleReadyHook(u, healthy, patched) =>
      w.(cluster := PebbleReady(w.cluster, u, u == w.leader, None, healthy, patched).cluster,
         done := if WillComplete(w.cluster, u, healthy) && u in w.replaced then w.done + {u} else w.done)
    case UpgradeChangedHook(u) => w.(cluster := Changed(K8s, w.cluster, u, u == w.leader, None).cluster)
  }

  predicate Initial(w: World) {
    && Size(w) > 0
    && (forall k | 0 <= k < Size(w) :: w.cluster.states[k] == Idle)
    && WellFormed(w.cluster)
    && !w.refreshed
    && w.replaced == w.notified == w.done == {}
  }

  predicate InFlight(w: World, k: nat) {
    k in w.replaced && k !in w.done
  }

  /** Only pods above which everything completed may be replaced next, at most one replaced pod
      has not completed, and at most one unit says it is upgrading. */
  ghost predicate Safe(w: World) {
    w.refreshed ==>
      && (forall k | w.cluster.partition < k < Size(w) :: k in w.done)
      && (forall j, k | InFlight(w, j) && InFlight(w, k) :: j == k)
      && (forall j, k | 0 <= j < Size(w) && 0 <= k < Size(w)
            && w.cluster.states[j] == Upgrading && w.cluster.states[k] == Upgrading :: j == k)
  }

  // An unfinished unit lies closer to the top than every lower unit on the stack.
  ghost predicate HigherFirst(stack: seq<nat>, done: set<nat>, n: nat) {
    forall i, k | 0 <= i < |stack| && stack[i] < k < n && k !in done :: k in stack[i + 1..]
  }

  ghost predicate AllAbove(u: nat, done: set<nat>, n: nat) {
    forall j | u < j < n :: j in done
  }

  ghost predicate Bounds(w: World) {
    && w.done <= w.notified <= w.replaced
    && (forall k | k in w.replaced :: k < Size(w) && AllAbove(k, w.done, Size(w)))
    && AllAbove(w.cluster.partition, w.done, Size(w))
  }

  // Only unit 0 may say it completed without having done so; nobody fails before the highest
  // ordinal got its upgrade-charm hook.
  predicate StateFits(s: State, k: nat, last: nat, notified: set<nat>, done: set<nat>) {
    match s
    case Unset => false
    case Ready => false
    case Idle => true
    case Upgrading => k in notified && k !in done
    case Completed => k in done || k == 0
    case _ => last in notified
  }

  ghost predicate StatesFit(w: World) {
    forall k | 0 <= k < Size(w) :: StateFits(w.cluster.states[k], k, Size(w) - 1, w.notified, w.done)
  }

  // Every unfinished unit is on the stack, closer to the top than the lower units; unit 0 may leave
  // it early if it is the only one.  An empty stack stays empty until a fresh pre-check.
  ghost predicate Covers(stack: seq<nat>, done: set<nat>, n: nat) {
    && HigherFirst(stack, done, n)
    && (stack == [] || forall k | 0 <= k < n && k !in done :: k in stack || (k == 0 && AllAbove(0, done, n)))
  }

  ghost predicate StackFits(w: World) {
    && WellFormed(w.cluster)
    && NoDuplicates(w.cluster.stack)
    && Covers(w.cluster.stack, w.done, Size(w))
  }

  ghost predicate Inv(w: World) {
    && Size(w) > 0
    && if w.refreshed then Bounds(w) && StatesFit(w) && StackFits(w) else Initial(w)
  }

  lemma InvIsSafe(w: World)
    requires Inv(w)
    ensures Safe(w)
  {
  }

  // A full stack has every unit on it, higher units closer to the top.
  lemma FullStackFits(done: set<nat>, n: nat)
    ensures Covers(AllUnits(n), done, n)
    ensures forall k | 0 <= k < n :: k in AllUnits(n)
  {
    var s := AllUnits(n);
    forall i, k | 0 <= i < |s| && s[i] < k < n && k !in done
      ensures k in s[i + 1..]
    {
      assert s[i + 1..][k - i - 1] == k;
    }
    forall k | 0 <= k < n ensures k in s {
      assert s[k] == k;
    }
  }

  lemma {:induction false} AboveTheTopIsDone(stack: seq<nat>, done: set<nat>, n: nat)
    requires stack != [] && Covers(stack, done, n)
    ensures AllAbove(Top(stack), done, n)
  {
    var i := |stack| - 1;
    assert stack[i + 1..] == [];
    assert forall k | Top(stack) < k < n && k !in done :: k in stack[i + 1..];
  }

  lemma {:induction false} PopFits(stack: seq<nat>, done: set<nat>, n: nat)
    requires stack != [] && (Top(stack) in done || Top(stack) == 0) && Covers(stack, done, n)
    ensures Covers(Rest(stack), done, n)
  {
    var rest := Rest(stack);
    AboveTheTopIsDone(stack, done, n);
    forall i, k | 0 <= i < |rest| && rest[i] < k < n && k !in done
      ensures k in rest[i + 1..]
    {
      assert stack[i] == rest[i] && k in stack[i + 1..];
      assert stack[i + 1..] == rest[i + 1..] + [Top(stack)];
    }
    forall k | 0 <= k < n && k !in done ensures k in rest || (k == 0 && AllAbove(0, done, n)) {
      assert stack == rest + [Top(stack)];
    }
  }

  // Popping completed units leaves no gap, if all that were popped but unit 0 really completed.
  lemma {:induction false} TrimFits(stack: seq<nat>, states: seq<State>, done: set<nat>)
    requires Known(stack, |states|) && NoDuplicates(stack)
    requires Trim(stack, states) == []
             || forall k | 0 < k < |states| && states[k] == Completed && k !in done :: k in Trim(stack, states)
    requires Covers(stack, done, |states|)
    ensures Covers(Trim(stack, states), done, |states|) && NoDuplicates(Trim(stack, states))
  {
    if Trim(stack, states) != [] && states[Top(stack)] == Completed {
      var top, rest := Top(stack), Rest(stack);
      TrimCut(rest, states);
      assert top !in rest && top !in Trim(rest, states);
      PopFits(stack, done, |states|);
      TrimFits(rest, states, done);
    }
  }

  lemma StackKeepsInv(w: World, stack: seq<nat>)
    requires Inv(w) && w.refreshed
    requires Known(stack, Size(w)) && NoDuplicates(stack) && Covers(stack, w.done, Size(w))
    ensures Inv(w.(cluster := w.cluster.(stack := stack)))
  {
  }

  lemma StateKeepsInv(w: World, u: nat, s: State)
    requires Inv(w) && w.refreshed && u < Size(w) && StateFits(s, u, Size(w) - 1, w.notified, w.done)
    ensures Inv(w.(cluster := w.cluster.(states := w.cluster.states[u := s])))
  {
  }

  lemma TrimmedKeepsInv(w: World)
    requires Inv(w) && w.refreshed
    ensures Inv(w.(cluster := w.cluster.(stack := Trim(w.cluster.stack, w.cluster.states))))
  {
    TrimFits(w.cluster.stack, w.cluster.states, w.done);
    StackKeepsInv(w, Trim(w.cluster.stack, w.cluster.states));
  }

  lemma SettlingKeepsInv(w: World, u: nat)
    requires Inv(w) && w.refreshed && u < Size(w)
    ensures Inv(w.(cluster := w.cluster.(states := BackToIdle(w.cluster.states, u))))
  {
    StateKeepsInv(w, u, Idle);
  }

  // Without ready units, the handler only trims the stack and lets a completed unit settle.
  lemma {:induction false} ChangedEffect(c: Cluster, u: nat, leader: bool)
    requires WellFormed(c) && u < |c.states|
    requires forall k | 0 <= k < |c.states| :: c.states[k] != Ready
    ensures var left := if leader then Trim(c.stack, c.states) else c.stack;
            Changed(K8s, c, u, leader, None).cluster ==
              if ClusterState(c.states) == Some(Failed) then c
              else if left == [] then c.(stack := [], states := BackToIdle(c.states, u))
              else c.(stack := left)
  {
  }

  lemma {:induction false} ChangedKeepsInv(w: World, u: nat)
    requires Inv(w) && w.refreshed && u < Size(w)
    ensures Inv(w.(cluster := Changed(K8s, w.cluster, u, u == w.leader, None).cluster))
    ensures Changed(K8s, w.cluster, u, u == w.leader, None).cluster.partition == w.cluster.partition
  {
    ChangedEffect(w.cluster, u, u == w.leader);
    TrimmedKeepsInv(w);
    SettlingKeepsInv(w, u);
    SettlingKeepsInv(w.(cluster := w.cluster.(stack := Trim(w.cluster.stack, w.cluster.states))), u);
  }

  lemma {:induction false} RepairFits(stack: seq<nat>, order: seq<nat>, done: set<nat>, n: nat)
    requires stack != [] && Known(stack, n) && VisitsAll(order, n) && Covers(stack, done, n)
    requires forall j, k | j in done && j < k < n :: k in done
    ensures Known(Repaired(stack, order), n) && Covers(Repaired(stack, order), done, n)
  {
    RepairKeepsTheOldStack(stack, order);
    MissingAreHigh(stack, order, done, n);
    assert Rest(stack) + [Top(stack)] == stack;
    InsertionFits(Rest(stack), Missing(order, stack), Top(stack), done, n);
  }

  // The missing units have completed or, like unit 0, only completed units are above them.
  lemma {:induction false} MissingAreHigh(stack: seq<nat>, order: seq<nat>, done: set<nat>, n: nat)
    requires stack != [] && VisitsAll(order, n) && Covers(stack, done, n)
    requires forall j, k | j in done && j < k < n :: k in done
    ensures AreHigh(Missing(order, stack), done, n)
  {
    var added := Missing(order, stack);
    MissingContents(order, stack);
    forall i | 0 <= i < |added| ensures added[i] < n && AllAbove(added[i], done, n) {
      assert added[i] in added;
    }
  }

  ghost predicate AreHigh(units: seq<nat>, done: set<nat>, n: nat) {
    forall i | 0 <= i < |units| :: units[i] < n && AllAbove(units[i], done, n)
  }

  lemma {:induction false} InsertionFits(low: seq<nat>, added: seq<nat>, top: nat, done: set<nat>, n: nat)
    requires Known(low + [top], n) && Covers(low + [top], done, n) && AreHigh(added, done, n)
    ensures Known(low + added + [top], n) && Covers(low + added + [top], done, n)
  {
    HigherFirstWithAdded(low, added, top, done, n);
    assert (low + [top])[|low|] == top;
    assert forall i | 0 <= i < |low| :: (low + [top])[i] == low[i];
    assert forall k | k in low + [top] :: k in low + added + [top];
  }

  // Units above which everything completed may be put anywhere.
  lemma HigherFirstWithAdded(low: seq<nat>, added: seq<nat>, top: nat, done: set<nat>, n: nat)
    requires HigherFirst(low + [top], done, n) && AreHigh(added, done, n)
    ensures HigherFirst(low + added + [top], done, n)
  {
    var s, r := low + [top], low + added + [top];
    var above := s[|low| + 1..];
    assert s[|low|] == top && above == [];
    assert forall k | top < k < n && k !in done :: k in above;
    forall i, k | |low| <= i < |r| && r[i] < k < n
      ensures k in done
    {
      assert i < |low| + |added| ==> r[i] == added[i - |low|];
    }
    forall i, k | 0 <= i < |low| && r[i] < k < n && k !in done
      ensures k in r[i + 1..]
    {
      assert s[i] == low[i] == r[i];
      assert k in s[i + 1..];
      assert s[i + 1..] == low[i + 1..] + [top];
      assert r[i + 1..] == low[i + 1..] + added + [top];
    }
  }

  // A pre-check in a failed cluster repairs the stack and puts the leader in recovery.
  lemma RecoveryKeepsInv(w: World, u: nat, order: seq<nat>)
    requires Inv(w) && w.refreshed && u < Size(w) && VisitsAll(order, Size(w)) && Size(w) - 1 in w.notified
    ensures var stack := if w.cluster.stack == [] then [] else Repaired(w.cluster.stack, order);
            && Inv(w.(cluster := w.cluster.(states := w.cluster.states[u := Recovery])))
            && Inv(w.(cluster := w.cluster.(states := w.cluster.states[u := Recovery], stack := stack)))
  {
    StateKeepsInv(w, u, Recovery);
    var recovering := w.(cluster := w.cluster.(states := w.cluster.states[u := Recovery]));
    if w.cluster.stack != [] {
      RepairKeepsDistinct(w.cluster.stack, order);
      RepairFits(w.cluster.stack, order, w.done, Size(w));
      StackKeepsInv(recovering, Repaired(w.cluster.stack, order));
    }
  }

  lemma FreshCheckKeepsInv(w: World)
    requires Inv(w)
    ensures Inv(w.(cluster := w.cluster.(partition := Size(w) - 1, stack := AllUnits(Size(w)))))
  {
    FullStackFits(w.done, Size(w));
  }

  // The four things the pre-check may do to the shared data.
  lemma PreCheckEffect(c: Cluster, u: nat, leader: bool, healthy: bool, patched: bool, order: seq<nat>)
    requires WellFormed(c) && u < |c.states|
    ensures var recovering := c.(states := c.states[u := Recovery]);
            var c' := PreCheck(K8s, c, u, leader, None, healthy, patched, order, []).cluster;
            || c' == c
            || (ClusterState(c.states) == Some(Idle) && c' == c.(partition := |c.states| - 1, stack := AllUnits(|c.states|)))
            || (ClusterState(c.states) == Some(Failed)
                && (c' == recovering || (c.stack != [] && c' == recovering.(stack := Repaired(c.stack, order)))))
  {
  }

  lemma FailureWasNotified(w: World)
    requires Inv(w) && ClusterState(w.cluster.states) == Some(Failed)
    ensures w.refreshed && Size(w) - 1 in w.notified
  {
    assert Failed in w.cluster.states;
  }

  lemma {:induction false} PreCheckKeepsInv(w: World, e: Event)
    requires Inv(w) && Allowed(w, e) && e.PreCheckAction?
    ensures Inv(Next(w, e))
  {
    PreCheckEffect(w.cluster, e.unit, e.unit == w.leader, e.healthy, e.patched, e.order);
    if ClusterState(w.cluster.states) == Some(Failed) {
      FailureWasNotified(w);
      RecoveryKeepsInv(w, e.unit, e.order);
    } else {
      FreshCheckKeepsInv(w);
    }
  }

  lemma PartitionKeepsInv(w: World, partition: nat)
    requires Inv(w) && w.refreshed && AllAbove(partition, w.done, Size(w))
    ensures Inv(w.(cluster := w.cluster.(partition := partition)))
  {
  }

  lemma {:induction false} ResumeKeepsInv(w: World, e: Event)
    requires Inv(w) && Allowed(w, e) && e.ResumeAction?
    ensures Inv(Next(w, e))
  {
    if w.refreshed && w.cluster.stack != [] {
      AboveTheTopIsDone(w.cluster.stack, w.done, Size(w));
      PartitionKeepsInv(w, Top(w.cluster.stack));
    }
  }

  lemma DoneKeepsInv(w: World, u: nat)
    requires Inv(w) && w.refreshed && Settled(w, u) && u in w.replaced && w.cluster.states[u] != Upgrading
    ensures Inv(w.(done := w.done + {u}))
  {
  }

  lemma CompletionKeepsInv(w: World, u: nat)
    requires Inv(w) && w.refreshed && Settled(w, u) && u in w.replaced
    ensures Inv(w.(cluster := w.cluster.(states := w.cluster.states[u := Completed]), done := w.done + {u}))
  {
    StateKeepsInv(w, u, Idle);
    var mid := w.(cluster := w.cluster.(states := w.cluster.states[u := Idle]));
    DoneKeepsInv(mid, u);
    StateKeepsInv(mid.(done := w.done + {u}), u, Completed);
    assert mid.cluster.states[u := Completed] == w.cluster.states[u := Completed];
  }

  // A unit that says it completed: the leader updates the stack, and a middle unit goes on to
  // lower the partition or fails.
  function AfterCompletion(w: World, u: nat): Cluster
    requires WellFormed(w.cluster) && u < Size(w)
  {
    var c := w.cluster.(states := w.cluster.states[u := Completed]);
    if u == w.leader then Changed(K8s, c, u, true, None).cluster else c
  }

  function AfterFinish(w: World, u: nat, patched: bool): Cluster
    requires WellFormed(w.cluster) && u < Size(w)
  {
    var c := AfterCompletion(w, u);
    if !(0 < u < Size(w) - 1) then c
    else if patched then c.(partition := u - 1)
    else c.(states := c.states[u := Failed])
  }

  lemma CompletionEffect(w: World, u: nat, patched: bool)
    requires WellFormed(w.cluster) && Settled(w, u) && WillComplete(w.cluster, u, true)
    ensures Next(w, PebbleReadyHook(u, true, patched)) ==
              w.(cluster := AfterFinish(w, u, patched), done := if u in w.replaced then w.done + {u} else w.done)
  {
  }

  // What a unit that completed leaves before it lowers the partition or fails.
  lemma {:induction false} AfterCompletionKeepsInv(w: World, u: nat)
    requires Inv(w) && w.refreshed && Settled(w, u) && u in w.replaced
    ensures Inv(w.(cluster := AfterCompletion(w, u), done := w.done + {u}))
    ensures AllAbove(u, w.done, Size(w))
    ensures AfterCompletion(w, u).partition == w.cluster.partition
  {
    CompletionKeepsInv(w, u);
    var mid := w.(cluster := w.cluster.(states := w.cluster.states[u := Completed]), done := w.done + {u});
    ChangedKeepsInv(mid, u);
  }

  lemma {:induction false} MiddleFinishKeepsInv(w: World, c: Cluster, u: nat)
    requires Inv(w.(cluster := c)) && w.refreshed && Settled(w, u) && u in w.done && |c.states| == Size(w)
    requires 0 < u && AllAbove(u, w.done, Size(w))
    ensures Inv(w.(cluster := c.(partition := u - 1)))
    ensures u < Size(w) - 1 ==> Inv(w.(cluster := c.(states := c.states[u := Failed])))
  {
    PartitionKeepsInv(w.(cluster := c), u - 1);
    if u < Size(w) - 1 {
      StateKeepsInv(w.(cluster := c), u, Failed);
    }
  }

  lemma {:induction false} FinishKeepsInv(w: World, u: nat, patched: bool)
    requires Inv(w) && w.refreshed && Settled(w, u) && u in w.replaced
    ensures Inv(w.(cluster := AfterFinish(w, u, patched), done := w.done + {u}))
  {
    AfterCompletionKeepsInv(w, u);
    if 0 < u < Size(w) - 1 {
      MiddleFinishKeepsInv(w.(done := w.done + {u}), AfterCompletion(w, u), u);
    }
  }

  lemma {:induction false} ReplacedKeepsInv(w: World, u: nat, healthy: bool, patched: bool)
    requires Inv(w) && w.refreshed && Settled(w, u)
    requires WillComplete(w.cluster, u, healthy) ==> u in w.replaced
    ensures Inv(Next(w, PebbleReadyHook(u, healthy, patched)))
  {
    if WillComplete(w.cluster, u, healthy) {
      CompletionEffect(w, u, patched);
      FinishKeepsInv(w, u, patched);
    }
  }

  // What a healthy restart on the old pod leaves: nobody else's state changes, nothing is done.
  lemma {:induction false} OldPodCompletes(w: World, u: nat, patched: bool)
    requires WellFormed(w.cluster) && Settled(w, u) && w.cluster.states[u] == Recovery && u !in w.replaced
    requires forall k | 0 <= k < Size(w) :: w.cluster.states[k] != Ready
    ensures var w' := Next(w, PebbleReadyHook(u, true, patched));
            var c, c' := w.cluster, w'.cluster;
            var middle := 0 < u < Size(w) - 1;
            && w' == w.(cluster := c')
            && c'.stack == StackAfterCompletion(w, u)
            && c'.partition == (if patched && middle then u - 1 else c.partition)
            && (middle && !patched ==> c'.states == c.states[u := Failed])
            && ((middle && !patched) || c'.states == c.states[u := Completed]
                || (c'.stack == [] && c'.states == c.states[u := Idle]))
  {
    CompletionEffect(w, u, patched);
    OldPodCluster(w, u);
    var states := w.cluster.states;
    assert states[u := Completed][u := Failed] == states[u := Failed];
    assert states[u := Idle][u := Failed] == states[u := Failed];
  }

  lemma {:induction false} OldPodCluster(w: World, u: nat)
    requires WellFormed(w.cluster) && u < Size(w)
    requires forall k | 0 <= k < Size(w) :: w.cluster.states[k] != Ready
    ensures var c := AfterCompletion(w, u);
            && c.stack == StackAfterCompletion(w, u) && c.partition == w.cluster.partition
            && (c.states == w.cluster.states[u := Completed]
                || (c.stack == [] && c.states == w.cluster.states[u := Idle]))
  {
    var c := w.cluster.(states := w.cluster.states[u := Completed]);
    ChangedEffect(c, u, true);
    assert c.states[u := Idle] == w.cluster.states[u := Idle];
  }

  lemma {:induction false} LeftStackFits(w: World, u: nat)
    requires Inv(w) && w.refreshed && u < Size(w) 
    requires u == 0 || u in StackAfterCompletion(w, u) || StackAfterCompletion(w, u) == []
    ensures Covers(StackAfterCompletion(w, u), w.done, Size(w)) && NoDuplicates(StackAfterCompletion(w, u))
  {
    var states := w.cluster.states[u := Completed];
    if u == w.leader && ClusterState(states) != Some(Failed) {
      assert forall k | 0 <= k < |states| && k != u :: states[k] == w.cluster.states[k];
      TrimFits(w.cluster.stack, states, w.done);
    }
  }

  lemma {:induction false} RestartFits(w: World, u: nat, stack: seq<nat>, s: State)
    requires Inv(w) && w.refreshed && u < Size(w) && StateFits(s, u, Size(w) - 1, w.notified, w.done)
    requires Known(stack, Size(w)) && Covers(stack, w.done, Size(w)) && NoDuplicates(stack)
    ensures Inv(w.(cluster := w.cluster.(states := w.cluster.states[u := s], stack := stack)))
  {
    StackKeepsInv(w, stack);
    StateKeepsInv(w.(cluster := w.cluster.(stack := stack)), u, s);
  }

  /** The restart of a unit in recovery keeps the invariant of all runs if and only if it is
      harmless. */
  lemma {:induction false} RestartKeepsInvIff(w: World, u: nat, healthy: bool, patched: bool)
    requires Inv(w) && Settled(w, u) && w.cluster.states[u] == Recovery
    ensures Inv(Next(w, PebbleReadyHook(u, healthy, patched))) <==> HarmlessRestart(w, u, healthy, patched)
  {
    if u in w.replaced || !healthy {
      ReplacedKeepsInv(w, u, healthy, patched);
    } else if HarmlessRestart(w, u, healthy, patched) {
      HarmlessKeepsInv(w, u, patched);
    } else {
      HarmfulBreaksInv(w, u, patched);
    }
  }

  lemma {:induction false} HarmlessEffect(w: World, u: nat, patched: bool) returns (s: State)
    requires Inv(w) && Settled(w, u) && w.cluster.states[u] == Recovery && u !in w.replaced
    requires HarmlessRestart(w, u, true, patched)
    ensures StateFits(s, u, Size(w) - 1, w.notified, w.done)
    ensures Next(w, PebbleReadyHook(u, true, patched)) ==
              w.(cluster := w.cluster.(states := w.cluster.states[u := s], stack := StackAfterCompletion(w, u)))
  {
    OldPodCompletes(w, u, patched);
    s := Next(w, PebbleReadyHook(u, true, patched)).cluster.states[u];
    assert StateFits(w.cluster.states[u], u, Size(w) - 1, w.notified, w.done);
  }

  lemma {:induction false} HarmlessKeepsInv(w: World, u: nat, patched: bool)
    requires Inv(w) && Settled(w, u) && w.cluster.states[u] == Recovery && u !in w.replaced
    requires HarmlessRestart(w, u, true, patched)
    ensures Inv(Next(w, PebbleReadyHook(u, true, patched)))
  {
    var s := HarmlessEffect(w, u, patched);
    LeftStackFits(w, u);
    RestartFits(w, u, StackAfterCompletion(w, u), s);
  }

  lemma {:induction false} HarmfulBreaksInv(w: World, u: nat, patched: bool)
    requires Inv(w) && Settled(w, u) && w.cluster.states[u] == Recovery && u !in w.replaced
    requires !HarmlessRestart(w, u, true, patched)
    ensures !Inv(Next(w, PebbleReadyHook(u, true, patched)))
  {
    OldPodCompletes(w, u, patched);
    var w' := Next(w, PebbleReadyHook(u, true, patched));
    if patched {
      assert !Bounds(w');
    } else {
      assert !StackFits(w');
    }
  }

  lemma RefreshKeepsInv(w: World)
    requires Inv(w) && Allowed(w, JujuRefresh)
    ensures Inv(Next(w, JujuRefresh))
  {
    FullStackFits(w.done, Size(w));
  }

  lemma ReplacementKeepsInv(w: World, u: nat)
    requires Inv(w) && Allowed(w, ReplacePod(u))
    ensures Inv(Next(w, ReplacePod(u)))
  {
  }

  lemma NotificationKeepsInv(w: World, u: nat)
    requires Inv(w) && w.refreshed && u in w.replaced
    ensures Inv(w.(notified := w.notified + {u}))
  {
  }

  lemma {:induction false} CharmHookKeepsInv(w: World, u: nat, supported: bool)
    requires Inv(w) && Allowed(w, UpgradeCharmHook(u, supported))
    ensures Inv(Next(w, UpgradeCharmHook(u, supported)))
  {
    var told := w.(notified := w.notified + {u});
    assert w.refreshed && u !in w.done;
    NotificationKeepsInv(w, u);
    StateKeepsInv(told, u, Upgrading);
    StateKeepsInv(told, u, Failed);
  }

  lemma StepKeepsInv(w: World, e: Event)
    requires Inv(w) && Allowed(w, e)
    ensures Inv(Next(w, e))
  {
    match e
    case ElectLeader(_) =>
    case PreCheckAction(_, _, _, _) => PreCheckKeepsInv(w, e);
    case ResumeAction(_, _) => ResumeKeepsInv(w, e);
    case JujuRefresh => RefreshKeepsInv(w);
    case ReplacePod(u) => ReplacementKeepsInv(w, u);
    case UpgradeCharmHook(u, supported) => CharmHookKeepsInv(w, u, supported);
    case PebbleReadyHook(u, healthy, patched) =>
      if w.refreshed {
        if w.cluster.states[u] == Recovery {
          RestartKeepsInvIff(w, u, healthy, patched);
        } else {
          ReplacedKeepsInv(w, u, healthy, patched);
        }
      }
    case UpgradeChangedHook(u) =>
      if w.refreshed {
        ChangedKeepsInv(w, u);
      }
  }

  ghost predicate Run(w: World, events: seq<Event>, last: World)
    decreases |events|
  {
    if events == [] then w == last
    else WellFormed(w.cluster) && Allowed(w, events[0]) && Run(Next(w, events[0]), events[1..], last)
  }

  /** K8s upgrade safety over every run of one refresh, with failing units, repeated pre-checks
      and resumes, leader changes, and harmless restarts of recovering units. */
  lemma {:induction false} EveryRunIsSafe(w: World, events: seq<Event>, last: World)
    requires Initial(w) && Run(w, events, last)
    ensures Safe(last)
  {
    RunKeepsInv(w, events, last);
    InvIsSafe(last);
  }

  lemma {:induction false} RunKeepsInv(w: World, events: seq<Event>, last: World)
    requires Inv(w) && Run(w, events, last)
    ensures Inv(last)
    decreases |events|
  {
    if events != [] {
      StepKeepsInv(w, events[0]);
      RunKeepsInv(Next(w, events[0]), events[1..], last);
    }
  }

  /** Whether a unit whose pod was replaced got a pebble-ready hook in the run with checks that passed. */
  ghost predicate PassedChecks(w: World, events: seq<Event>, unit: nat)
    decreases |events|
  {
    && events != [] && WellFormed(w.cluster) && Possible(w, events[0])
    && (|| (exists patched :: events[0] == PebbleReadyHook(unit, true, patched) && unit in w.replaced && unit in w.notified)
        || PassedChecks(Next(w, events[0]), events[1..], unit))
  }

  lemma {:induction false} DoneHasPassed(w: World, events: seq<Event>, last: World, unit: nat)
    requires Inv(w) && Run(w, events, last) && unit !in w.done && unit in last.done
    ensures PassedChecks(w, events, unit)
    decreases |events|
  {
    var e := events[0];
    var w' := Next(w, e);
    StepKeepsInv(w, e);
    if unit in w'.done {
      assert e == PebbleReadyHook(unit, true, e.patched);
    } else {
      DoneHasPassed(w', events[1..], last, unit);
    }
  }

  /** At every point of a run, every unit above the partition has a new pod that got its
      upgrade-charm hook and then a pebble-ready hook whose checks passed. */
  lemma {:induction false} OnlyCheckedUnitsArePassed(w: World, events: seq<Event>, last: World, unit: nat)
    requires Initial(w) && Run(w, events, last)
    requires last.refreshed && last.cluster.partition < unit < Size(last)
    ensures PassedChecks(w, events, unit)
  {
    EveryRunIsSafe(w, events, last);
    DoneHasPassed(w, events, last, unit);
  }

  // A run with restarts of any kind.
  ghost predicate PossibleRun(w: World, events: seq<Event>, last: World)
    decreases |events|
  {
    if events == [] then w == last
    else WellFormed(w.cluster) && Possible(w, events[0]) && PossibleRun(Next(w, events[0]), events[1..], last)
  }

  lemma {:induction false} SmallRunsAreAllowed(w: World, events: seq<Event>, last: World)
    requires Size(w) <= 2 && PossibleRun(w, events, last)
    ensures Run(w, events, last)
    decreases |events|
  {
    if events != [] {
      SmallRunsAreAllowed(Next(w, events[0]), events[1..], last);
    }
  }

  /** With one or two units every run is safe, whatever recovering units do. */
  lemma {:induction false} SmallClustersAreSafe(w: World, events: seq<Event>, last: World)
    requires Initial(w) && Size(w) <= 2 && PossibleRun(w, events, last)
    ensures Safe(last)
  {
    SmallRunsAreAllowed(w, events, last);
    EveryRunIsSafe(w, events, last);
  }
}
