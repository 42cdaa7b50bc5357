/** Failure-free runs on the VM substrate: every version is supported, and units read the shared data
    late.  A unit may see any stack that was ever persisted and any state another unit was ever in. */
module VmRun {
  import opened Options
  import opened Upgrade

  /** `order` is the stack the pre-check built, `stacks` are all stacks persisted so far, and
      `shown` are all states each unit has been in. */
  datatype World = World(order: seq<nat>, states: seq<State>, shown: seq<set<State>>,
                         stacks: seq<seq<nat>>, notified: set<nat>)

  datatype Event =
    | CharmUpgradedHook(unit: nat, leader: bool, version: nat, seen: seq<State>)
    | UpgradeChangedHook(unit: nat, leader: bool, version: nat, seen: seq<State>)
    | CompletesUpgrade(unit: nat)

  function Size(w: World): nat {
    |w.states|
  }

  predicate Done(w: World, k: nat) {
    k < |w.shown| && Completed in w.shown[k]
  }

  // A unit knows its own state; of the others it may see an old one.
  predicate Sees(w: World, unit: nat, seen: seq<State>) {
    && |seen| == Size(w) == |w.shown|
    && unit < Size(w) && seen[unit] == w.states[unit]
    && forall k | 0 <= k < Size(w) :: seen[k] in w.shown[k]
  }

  predicate Allowed(w: World, e: Event) {
    match e
    case CharmUpgradedHook(u, _, version, seen) => Sees(w, u, seen) && version < |w.stacks| && u !in w.notified
    case UpgradeChangedHook(u, _, version, seen) => Sees(w, u, seen) && version < |w.stacks|
    case CompletesUpgrade(u) => u < Size(w) && w.states[u] == Upgrading
  }

  function WithState(w: World, u: nat, s: State): World
    requires u < Size(w) == |w.shown|
  {
    w.(states := w.states[u := s], shown := w.shown[u := w.shown[u] + {s}])
  }

  function Next(w: World, e: Event): (w': World)
    requires |w.shown| == Size(w) && Allowed(w, e)
    requires forall i | 0 <= i < |w.stacks| :: Known(w.stacks[i], Size(w))
  {
    match e
    case CharmUpgradedHook(u, leader, version, seen) =>
      var o := CharmUpgraded(VM, Cluster(seen, w.stacks[version], 0), u, leader, None, true).cluster;
      WithState(w, u, o.states[u]).(notified := w.notified + {u})
    case CompletesUpgrade(u) => WithState(w, u, Completed)
    case UpgradeChangedHook(u, leader, version, seen) =>
      var view := Cluster(seen, w.stacks[version], 0);
      var o := Changed(VM, view, u, leader, None).cluster;
      var w1 := WithState(w, u, o.states[u]);
      if o.stack == view.stack then w1 else w1.(stacks := w.stacks + [o.stack])
  }

  ghost predicate Initial(w: World) {
    && VisitsAll(w.order, Size(w))
    && w.stacks == [w.order]
    && w.notified == {}
    && |w.shown| == Size(w)
    && forall k | 0 <= k < Size(w) :: w.states[k] == Idle && w.shown[k] == {Idle}
  }

  ghost predicate DoneFrom(w: World, from: nat) {
    forall i | from <= i < |w.order| :: Done(w, w.order[i])
  }

  // A persisted stack is a lower part of the order, and everything above it has completed.
  ghost predicate StackFits(w: World, stack: seq<nat>) {
    stack <= w.order && DoneFrom(w, |stack|)
  }

  ghost predicate GrantedAt(w: World, k: nat, i: nat) {
    i < |w.order| && w.order[i] == k && DoneFrom(w, i + 1)
  }

  ghost predicate StateFits(w: World, k: nat)
    requires k < Size(w) == |w.shown|
  {
    && w.states[k] in w.shown[k] && w.states[k] != Recovery
    && (w.states[k] in {Ready, Upgrading} ==> k in w.notified && !Done(w, k))
    && (Done(w, k) ==> k in w.notified)
    && (w.states[k] == Upgrading ==> exists i: nat :: GrantedAt(w, k, i))
  }

  ghost predicate Inv(w: World) {
    && VisitsAll(w.order, Size(w))
    && |w.shown| == Size(w)
    && (forall i | 0 <= i < |w.stacks| :: StackFits(w, w.stacks[i]))
    && (forall k | 0 <= k < Size(w) :: StateFits(w, k))
  }

  lemma OneAtWork(w: World, j: nat, k: nat)
    requires Inv(w) && j < Size(w) && k < Size(w)
    requires w.states[j] == Upgrading && w.states[k] == Upgrading
    ensures j == k
  {
    assert StateFits(w, j) && StateFits(w, k);
    var a: nat :| GrantedAt(w, j, a);
    var b: nat :| GrantedAt(w, k, b);
    assert !Done(w, w.order[a]) && !Done(w, w.order[b]);
  }

  // What the handler can do to its own state and to the stack it read.
  lemma {:induction false} ChangedChoices(stack: seq<nat>, seen: seq<State>, u: nat, leader: bool)
    requires Known(stack, |seen|) && u < |seen|
    ensures var o := Changed(VM, Cluster(seen, stack, 0), u, leader, None).cluster;
            var left := Trim(stack, seen);
            && o.stack in {stack, left}
            && (|| o.states[u] == seen[u]
                || (o.states[u] == Idle && seen[u] == Completed)
                || (&& o.states[u] == Upgrading && seen[u] in {Ready, Upgrading}
                    && ((left != [] && u == Top(left)) || (stack != [] && u == Top(stack)))))
  {
  }

  lemma {:induction false} TrimmedFits(w: World, stack: seq<nat>, u: nat, seen: seq<State>)
    requires Inv(w) && Sees(w, u, seen) && StackFits(w, stack)
    ensures Known(stack, |seen|) && StackFits(w, Trim(stack, seen))
  {
    assert forall i | 0 <= i < |stack| :: stack[i] == w.order[i];
    TrimCut(stack, seen);
    var left := Trim(stack, seen);
    forall i | |left| <= i < |w.order| ensures Done(w, w.order[i]) {
      assert i < |stack| ==> seen[stack[i]] in w.shown[stack[i]];
    }
  }

  // What was established stays so when a unit's next state is recorded.
  lemma {:induction false} RecordingKeepsInv(w: World, u: nat, s: State, notified: set<nat>)
    requires Inv(w) && u < Size(w) && w.notified <= notified && s != Recovery
    requires s in {Ready, Upgrading} ==> u in notified && !Done(w, u)
    requires s == Completed ==> u in notified
    requires s == Upgrading ==> exists i: nat :: GrantedAt(w, u, i)
    ensures Inv(WithState(w, u, s).(notified := notified))
  {
    var w' := WithState(w, u, s).(notified := notified);
    assert forall k | Done(w, k) :: Done(w', k);
    forall i | 0 <= i < |w.stacks| ensures StackFits(w', w.stacks[i]) {
      assert StackFits(w, w.stacks[i]);
    }
    forall k | 0 <= k < Size(w) ensures StateFits(w', k) {
      assert StateFits(w, k);
      if w'.states[k] == Upgrading {
        var i: nat :| GrantedAt(w, k, i);
        assert GrantedAt(w', k, i);
      }
    }
  }

  lemma TopIsGranted(w: World, stack: seq<nat>)
    requires StackFits(w, stack) && stack != []
    ensures GrantedAt(w, Top(stack), |stack| - 1)
  {
  }

  lemma StacksKnown(w: World)
    requires Inv(w)
    ensures forall i | 0 <= i < |w.stacks| :: Known(w.stacks[i], Size(w))
  {
  }

  lemma {:induction false} StepKeepsInv(w: World, e: Event)
    requires Inv(w) && Allowed(w, e)
    ensures forall i | 0 <= i < |w.stacks| :: Known(w.stacks[i], Size(w))
    ensures Inv(Next(w, e))
  {
    StacksKnown(w);
    var u := e.unit;
    assert StateFits(w, u);
    match e
    case CharmUpgradedHook(_, leader, version, seen) =>
      var o := CharmUpgraded(VM, Cluster(seen, w.stacks[version], 0), u, leader, None, true).cluster;
      assert o.states[u] in {Ready, w.states[u]} && o.stack == w.stacks[version];
      RecordingKeepsInv(w, u, o.states[u], w.notified + {u});
    case CompletesUpgrade(_) => RecordingKeepsInv(w, u, Completed, w.notified);
    case UpgradeChangedHook(_, leader, version, seen) =>
      var stack := w.stacks[version];
      TrimmedFits(w, stack, u, seen);
      ChangedChoices(stack, seen, u, leader);
      if stack != [] {
        TopIsGranted(w, stack);
      }
      if Trim(stack, seen) != [] {
        TopIsGranted(w, Trim(stack, seen));
      }
      var o := Changed(VM, Cluster(seen, stack, 0), u, leader, None).cluster;
      RecordingKeepsInv(w, u, o.states[u], w.notified);
      StackStays(w, u, o.states[u], o.stack);
  }

  lemma {:induction false} StackStays(w: World, u: nat, s: State, stack: seq<nat>)
    requires Inv(w) && u < Size(w) && StackFits(w, stack) && Inv(WithState(w, u, s))
    ensures Inv(WithState(w, u, s).(stacks := w.stacks + [stack]))
  {
    var w1 := WithState(w, u, s);
    var w2 := w1.(stacks := w.stacks + [stack]);
    forall i | 0 <= i < |w2.stacks| ensures StackFits(w2, w2.stacks[i]) {
      assert StackFits(w, w2.stacks[i]);
    }
    forall k | 0 <= k < Size(w) ensures StateFits(w2, k) {
      assert StateFits(w1, k);
      if w2.states[k] == Upgrading {
        var i: nat :| GrantedAt(w1, k, i);
        assert GrantedAt(w2, k, i);
      }
    }
  }

  ghost predicate Run(w: World, events: seq<Event>, last: World)
    decreases |events|
  {
    if events == [] then w == last
    else
      && |w.shown| == Size(w) && Allowed(w, events[0])
      && (forall i | 0 <= i < |w.stacks| :: Known(w.stacks[i], Size(w)))
      && Run(Next(w, events[0]), events[1..], last)
  }

  lemma {:induction false} RunKeepsInv(w: World, events: seq<Event>, last: World)
    requires Inv(w) && Run(w, events, last)
    ensures Inv(last)
    decreases |events|
  {
    if events != [] {
      StepKeepsInv(w, events[0]);
      RunKeepsInv(Next(w, events[0]), events[1..], last);
    }
  }

  /** Mutual exclusion in spite of stale reads, even if several units believe they lead: at most
      one unit has been granted its upgrade and has not completed, and everything that was to
      upgrade before it has completed. */
  lemma {:induction false} OneUnitAtATime(w: World, events: seq<Event>, last: World, j: nat)
    requires Initial(w) && Run(w, events, last)
    requires j < Size(last) && last.states[j] == Upgrading
    ensures forall k | 0 <= k < Size(last) && last.states[k] == Upgrading :: k == j
    ensures forall a, b | 0 <= a < b < |last.order| && last.order[a] == j :: Done(last, last.order[b])
  {
    assert StackFits(w, w.order);
    RunKeepsInv(w, events, last);
    forall k | 0 <= k < Size(last) && last.states[k] == Upgrading ensures k == j {
      OneAtWork(last, j, k);
    }
    assert StateFits(last, j);
    var i: nat :| GrantedAt(last, j, i);
  }
}
