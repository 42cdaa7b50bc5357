/** The rolling-upgrade coordinator of the charm library, as functions on the data its handlers
    share: the units' states, the persisted stack, the StatefulSet partition, and the handler
    process's cached copy of the stack.  `UpgradeUnit` holds the handlers themselves. */
module Upgrade {
  import opened Options

  // The six states a unit may write to its databag, and the empty value it starts from.
  datatype State = Unset | Recovery | Failed | Idle | Ready | Upgrading | Completed

  datatype Substrate = VM | K8s

  // What the units share.  Unit ids are the StatefulSet ordinals 0 .. |states|-1; the top of
  // the stack is its last element.
  datatype Cluster = Cluster(states: seq<State>, stack: seq<nat>, partition: nat)

  // What one handler leaves behind: the shared data, the cached stack, and whether it emitted
  // upgrade-granted for its own unit.
  datatype Outcome = Outcome(cluster: Cluster, cache: Option<seq<nat>>, granted: bool)

  // Position in the library's list of states; a lower position is further behind.
  function Ordinal(s: State): nat
    requires s != Unset
  {
    match s
    case Recovery => 0
    case Failed => 1
    case Idle => 2
    case Ready => 3
    case Upgrading => 4
    case Completed => 5
  }

  ghost predicate IsFurthestBehind(s: State, states: seq<State>) {
    && s in states
    && s != Unset
    && forall t | t in states :: t != Unset && Ordinal(s) <= Ordinal(t)
  }

  /** The state of the unit that is furthest behind; none when there is no unit or some unit has
      not written a state yet. */
  function ClusterState(states: seq<State>): (r: Option<State>)
    ensures r.Some? ==> IsFurthestBehind(r.value, states)
    ensures r.None? <==> states == [] || Unset in states
  {
    if states == [] || states[0] == Unset then None
    else if |states| == 1 then
      assert states == [states[0]];
      Some(states[0])
    else
      assert states == [states[0]] + states[1..];
      match ClusterState(states[1..])
      case None => None
      case Some(s) => Some(if Ordinal(states[0]) <= Ordinal(s) then states[0] else s)
  }

  // Every id on the list belongs to one of n units.
  predicate Known(ids: seq<nat>, n: nat) {
    forall i | 0 <= i < |ids| :: ids[i] < n
  }

  predicate WellFormed(c: Cluster) {
    Known(c.stack, |c.states|)
  }

  // The lazily loaded stack: a cached list wins, and an empty databag value is not cached.
  function Loaded(cache: Option<seq<nat>>, persisted: seq<nat>): Option<seq<nat>> {
    if cache.Some? || persisted == [] then cache else Some(persisted)
  }

  function Items(cache: Option<seq<nat>>): seq<nat> {
    if cache.Some? then cache.value else []
  }

  function Top(stack: seq<nat>): nat
    requires stack != []
  {
    stack[|stack| - 1]
  }

  function Rest(stack: seq<nat>): seq<nat>
    requires stack != []
  {
    stack[..|stack| - 1]
  }

  // The stack without the completed units at its top.
  function Trim(stack: seq<nat>, states: seq<State>): (r: seq<nat>)
    requires Known(stack, |states|)
    ensures Known(r, |states|)
  {
    if stack != [] && states[Top(stack)] == Completed then Trim(Rest(stack), states) else stack
  }

  /** Trim removes exactly the maximal completed suffix: a cut of the stack is what is left if
      and only if everything above it has completed and its own top, if any, has not. */
  lemma {:induction false} TrimIsMaximal(stack: seq<nat>, states: seq<State>, cut: nat)
    requires Known(stack, |states|)
    requires cut <= |stack|
    ensures Trim(stack, states) == stack[..cut] <==>
              && (forall i | cut <= i < |stack| :: states[stack[i]] == Completed)
              && (cut == 0 || states[stack[cut - 1]] != Completed)
  {
    TrimCut(stack, states);
    var n := |Trim(stack, states)|;
    if cut < n {
      assert states[stack[n - 1]] != Completed;
    } else if cut > n {
      assert states[stack[cut - 1]] == Completed;
    }
  }

  lemma {:induction false} TrimCut(stack: seq<nat>, states: seq<State>)
    requires Known(stack, |states|)
    ensures var r := Trim(stack, states);
            && |r| <= |stack| && r == stack[..|r|]
            && (forall i | |r| <= i < |stack| :: states[stack[i]] == Completed)
            && (r == [] || states[Top(r)] != Completed)
  {
    if stack != [] && states[Top(stack)] == Completed {
      TrimCut(Rest(stack), states);
    }
  }

  // A completed unit goes back to idle once nobody is behind it but idle units.
  function BackToIdle(states: seq<State>, me: nat): seq<State>
    requires me < |states|
  {
    if states[me] == Completed && ClusterState(states) in {Some(Idle), Some(Completed)}
    then states[me := Idle]
    else states
  }

  // The unit on top may start when every unit is ready or further and no other is at work.
  predicate Grants(states: seq<State>, me: nat, top: nat)
    requires me < |states|
  {
    && me == top
    && states[me] in {Ready, Upgrading}
    && ClusterState(states) == Some(Ready)
    && forall k | 0 <= k < |states| && k != me :: states[k] != Upgrading
  }

  /** The upgrade-changed handler of unit `me`.  The leader drops the completed units from the
      top of the stack and persists what is left; any other unit only shortens its cache. */
  function Changed(sub: Substrate, c: Cluster, me: nat, leader: bool, cache: Option<seq<nat>>): (o: Outcome)
    requires WellFormed(c) && me < |c.states|
    requires Known(Items(cache), |c.states|)
    ensures |o.cluster.states| == |c.states| && WellFormed(o.cluster)
    ensures Known(Items(o.cache), |c.states|)
  {
    var behind := ClusterState(c.states);
    if behind == Some(Failed) || (sub == VM && behind == Some(Recovery)) then Outcome(c, cache, false)
    else
      var loaded := Loaded(cache, c.stack);
      var view := Items(loaded);
      if view == [] then Outcome(c.(states := BackToIdle(c.states, me)), loaded, false)
      else
        var left := if leader then Trim(view, c.states) else view;
        var persisted := if left != view then left else c.stack;
        if left == [] then
          Outcome(c.(stack := [], states := BackToIdle(c.states, me)), Some([]), false)
        else
          var granted := Grants(c.states, me, Top(left));
          Outcome(c.(stack := persisted, states := if granted then c.states[me := Upgrading] else c.states),
                  Some(Rest(left)), granted)
  }

  // The recursion of the handler: a leader that pops one completed unit carries on with the rest.
  lemma ChangedAfterPop(sub: Substrate, c: Cluster, me: nat, cache: Option<seq<nat>>)
    requires WellFormed(c) && me < |c.states| && Known(Items(cache), |c.states|)
    requires Items(Loaded(cache, c.stack)) != []
    requires c.states[Top(Items(Loaded(cache, c.stack)))] == Completed
    requires ClusterState(c.states) != Some(Failed) && !(sub == VM && ClusterState(c.states) == Some(Recovery))
    ensures var rest := Rest(Items(Loaded(cache, c.stack)));
            Changed(sub, c, me, true, cache) == Changed(sub, c.(stack := rest), me, true, Some(rest))
  {
    var view := Items(Loaded(cache, c.stack));
    var rest := Rest(view);
    assert Trim(view, c.states) == Trim(rest, c.states);
    TrimCut(rest, c.states);
  }

  function Failing(c: Cluster, me: nat, leader: bool, cache: Option<seq<nat>>): Outcome
    requires me < |c.states|
  {
    Outcome(c.(states := c.states[me := Failed]), if leader then None else cache, false)
  }

  // Python's insert(-1, x): just below the top.
  function InsertBelowTop(stack: seq<nat>, x: nat): seq<nat>
    requires stack != []
  {
    Rest(stack) + [x, Top(stack)]
  }

  function Repaired(stack: seq<nat>, order: seq<nat>): (r: seq<nat>)
    requires stack != []
    ensures r != []
    decreases |order|
  {
    if order == [] then stack
    else Repaired(if order[0] in stack then stack else InsertBelowTop(stack, order[0]), order[1..])
  }

  function Missing(order: seq<nat>, stack: seq<nat>): seq<nat> {
    if order == [] then []
    else (if order[0] in stack then [] else [order[0]]) + Missing(order[1..], stack)
  }

  predicate NoDuplicates(xs: seq<nat>) {
    forall i, j | 0 <= i < j < |xs| :: xs[i] != xs[j]
  }

  /** Whatever order the units are visited in, repair keeps the old stack in order with its old
      top on top, and puts the missing units directly below that top. */
  lemma {:induction false} RepairKeepsTheOldStack(stack: seq<nat>, order: seq<nat>)
    requires stack != [] && NoDuplicates(order)
    ensures Repaired(stack, order) == Rest(stack) + Missing(order, stack) + [Top(stack)]
    decreases |order|
  {
    if order == [] {
      assert stack == Rest(stack) + [] + [Top(stack)];
    } else if order[0] in stack {
      RepairKeepsTheOldStack(stack, order[1..]);
      assert Missing(order, stack) == Missing(order[1..], stack);
    } else {
      var x := order[0];
      RepairKeepsTheOldStack(InsertBelowTop(stack, x), order[1..]);
      MissingIgnores(order[1..], stack, InsertBelowTop(stack, x), x);
      InsertedBelowTop(stack, x, Missing(order[1..], stack));
    }
  }

  lemma InsertedBelowTop(stack: seq<nat>, x: nat, rest: seq<nat>)
    requires stack != []
    ensures Rest(InsertBelowTop(stack, x)) + rest + [Top(InsertBelowTop(stack, x))] ==
            Rest(stack) + ([x] + rest) + [Top(stack)]
    ensures forall k :: k in InsertBelowTop(stack, x) <==> k in stack || k == x
  {
    assert stack == Rest(stack) + [Top(stack)];
    assert Rest(InsertBelowTop(stack, x)) == Rest(stack) + [x];
  }

  lemma {:induction false} MissingIgnores(order: seq<nat>, stack: seq<nat>, next: seq<nat>, x: nat)
    requires x !in order
    requires forall k :: k in next <==> k in stack || k == x
    ensures Missing(order, next) == Missing(order, stack)
  {
    if order != [] {
      assert order[0] in order;
      assert forall k | k in order[1..] :: k in order;
      MissingIgnores(order[1..], stack, next, x);
    }
  }

  lemma {:induction false} MissingContents(order: seq<nat>, stack: seq<nat>)
    requires NoDuplicates(order)
    ensures forall k :: k in Missing(order, stack) <==> k in order && k !in stack
    ensures NoDuplicates(Missing(order, stack))
  {
    if order != [] {
      MissingContents(order[1..], stack);
      var rest := Missing(order[1..], stack);
      assert order == [order[0]] + order[1..];
      assert order[0] !in order[1..];
      assert order[0] !in rest;
    }
  }

  /** From a duplicate-free stack of known units, the repaired stack lists every unit once. */
  lemma RepairListsEveryUnitOnce(stack: seq<nat>, order: seq<nat>)
    requires stack != [] && NoDuplicates(stack) && NoDuplicates(order)
    requires forall k :: k in stack ==> k in order
    ensures multiset(Repaired(stack, order)) == multiset(order)
    ensures Top(Repaired(stack, order)) == Top(stack)
  {
    RepairKeepsTheOldStack(stack, order);
    MissingContents(order, stack);
    CountsAddUp(stack, Missing(order, stack), order);
    InsertionCount(stack, Missing(order, stack));
  }

  // Repair lists no unit twice.
  lemma {:induction false} RepairKeepsDistinct(stack: seq<nat>, order: seq<nat>)
    requires stack != [] && NoDuplicates(stack)
    ensures NoDuplicates(Repaired(stack, order))
    decreases |order|
  {
    if order != [] {
      if order[0] in stack {
        RepairKeepsDistinct(stack, order[1..]);
      } else {
        var next := InsertBelowTop(stack, order[0]);
        var low := |stack| - 1;
        assert forall i | 0 <= i < |next| :: next[i] == if i < low then stack[i] else if i == low then order[0] else stack[low];
        RepairKeepsDistinct(next, order[1..]);
      }
    }
  }

  /** The handler process of a deferred event goes on with the next hook, and the leader's second
      upgrade-changed call starts from a cache that has lost its top already.  It leaves the persisted
      stack as the first call left it unless the cluster has not failed and the unit below that top
      says it completed; then the unfinished top is lost from the stack. */
  lemma {:induction false} SecondCallLosesTopIff(sub: Substrate, c: Cluster, me: nat)
    requires WellFormed(c) && me < |c.states| && Trim(c.stack, c.states) != []
    requires ClusterState(c.states) != Some(Failed) && !(sub == VM && ClusterState(c.states) == Some(Recovery))
    ensures var left := Trim(c.stack, c.states);
            var one := Changed(sub, c, me, true, None);
            var two := Changed(sub, one.cluster, me, true, one.cache);
            && one.cluster.stack == left
            && (two.cluster.stack == left <==> Rest(left) == [] || c.states[Top(Rest(left))] != Completed)
            && (two.cluster.stack != left ==> two.cluster.stack == Trim(Rest(left), c.states))
  {
    var left := Trim(c.stack, c.states);
    var rest := Rest(left);
    TrimCut(c.stack, c.states);
    TrimCut(rest, c.states);
    LeaderCall(sub, c, me, None);
    var one := Changed(sub, c, me, true, None);
    if one.granted {
      GrantKeepsTrim(rest, c.states, me);
    }
    LeaderCall(sub, one.cluster, me, one.cache);
  }

  // What a leader's call does to the persisted and the cached stack.
  lemma {:induction false} LeaderCall(sub: Substrate, c: Cluster, me: nat, cache: Option<seq<nat>>)
    requires WellFormed(c) && me < |c.states| && Known(Items(cache), |c.states|)
    requires ClusterState(c.states) != Some(Failed) && !(sub == VM && ClusterState(c.states) == Some(Recovery))
    ensures var view := Items(Loaded(cache, c.stack));
            var left := Trim(view, c.states);
            var o := Changed(sub, c, me, true, cache);
            && o.cluster.stack == (if left != view then left else c.stack)
            && (left != [] ==> o.cache == Some(Rest(left)))
            && (left != [] ==> o.granted == Grants(c.states, me, Top(left)))
            && (left != [] ==> o.cluster.states == if o.granted then c.states[me := Upgrading] else c.states)
  {
    TrimCut(Items(Loaded(cache, c.stack)), c.states);
  }

  lemma {:induction false} GrantKeepsTrim(stack: seq<nat>, states: seq<State>, me: nat)
    requires Known(stack, |states|) && me < |states| && states[me] in {Ready, Upgrading}
    ensures Trim(stack, states[me := Upgrading]) == Trim(stack, states)
    ensures ClusterState(states) == Some(Ready) ==>
              ClusterState(states[me := Upgrading]) in {Some(Ready), Some(Upgrading), Some(Completed)}
  {
    if stack != [] && states[Top(stack)] == Completed {
      GrantKeepsTrim(Rest(stack), states, me);
    }
    var after := states[me := Upgrading];
    if ClusterState(states) == Some(Ready) {
      forall s | s in after ensures s in states || s == Upgrading {
      }
      assert ClusterState(after).Some?;
    }
  }

  lemma CountsAddUp(stack: seq<nat>, added: seq<nat>, order: seq<nat>)
    requires NoDuplicates(stack) && NoDuplicates(added) && NoDuplicates(order)
    requires forall k :: k in stack ==> k in order
    requires forall k :: k in added <==> k in order && k !in stack
    ensures multiset(stack) + multiset(added) == multiset(order)
  {
    NoDuplicatesCount(stack);
    NoDuplicatesCount(added);
    NoDuplicatesCount(order);
  }

  lemma InsertionCount(stack: seq<nat>, added: seq<nat>)
    requires stack != []
    ensures multiset(Rest(stack) + added + [Top(stack)]) == multiset(stack) + multiset(added)
  {
    assert stack == Rest(stack) + [Top(stack)];
  }

  lemma NoDuplicatesCount(xs: seq<nat>)
    requires NoDuplicates(xs)
    ensures forall k :: multiset(xs)[k] == if k in xs then 1 else 0
  {
    if xs != [] {
      NoDuplicatesCount(Rest(xs));
      assert xs == Rest(xs) + [Top(xs)];
      assert Top(xs) !in Rest(xs);
    }
  }

  function AllUnits(n: nat): seq<nat> {
    seq(n, i => i)
  }

  // An order in which a set of all units may be iterated.
  predicate VisitsAll(order: seq<nat>, n: nat) {
    && NoDuplicates(order)
    && Known(order, n)
    && forall k | 0 <= k < n :: k in order
  }

  /** The pre-upgrade-check action.  `healthy` and `patched` are the results of the cluster checks
      and, on K8s, of the partition patch; `built` is the stack that a VM charm builds. */
  function PreCheck(sub: Substrate, c: Cluster, me: nat, leader: bool, cache: Option<seq<nat>>,
                    healthy: bool, patched: bool, order: seq<nat>, built: seq<nat>): (o: Outcome)
    requires WellFormed(c) && me < |c.states|
    requires Known(Items(cache), |c.states|)
  {
    var n := |c.states|;
    if !leader then Outcome(c, cache, false)
    else if ClusterState(c.states) == Some(Failed) then
      var loaded := Loaded(cache, c.stack);
      var view := Items(loaded);
      var recovering := c.(states := c.states[me := Recovery]);
      if view != [] && |view| != n
      then Outcome(recovering.(stack := Repaired(view, order)), Some(Repaired(view, order)), false)
      else Outcome(recovering, loaded, false)
    else if ClusterState(c.states) != Some(Idle) || !healthy || (sub == K8s && !patched) then Outcome(c, cache, false)
    else if sub == K8s then Outcome(c.(partition := n - 1, stack := AllUnits(n)), Some(AllUnits(n)), false)
    else Outcome(c.(stack := built), Some(built), false)
  }

  /** The resume-upgrade action: only right after the first unit was popped from the stack. */
  function Resume(c: Cluster, leader: bool, cache: Option<seq<nat>>, patched: bool): (o: Outcome)
    requires c.states != []
  {
    var loaded := Loaded(cache, c.stack);
    var view := Items(loaded);
    if !leader then Outcome(c, cache, false)
    else if view == [] || |view| != |c.states| - 1 || !patched then Outcome(c, loaded, false)
    else Outcome(c.(partition := Top(view)), loaded, false)
  }

  // On VM the leader checks the versions, on K8s the highest ordinal.
  predicate ChecksVersions(sub: Substrate, me: nat, leader: bool, n: nat) {
    if sub == VM then leader else me == n - 1
  }

  /** The upgrade-charm hook.  A K8s unit that gets it is upgrading; a VM unit is ready, and a
      recovering VM leader on top of the stack starts its rollback at once. */
  function CharmUpgraded(sub: Substrate, c: Cluster, me: nat, leader: bool, cache: Option<seq<nat>>,
                         supported: bool): (o: Outcome)
    requires WellFormed(c) && me < |c.states|
    requires Known(Items(cache), |c.states|)
  {
    var loaded := Loaded(cache, c.stack);
    var view := Items(loaded);
    var ready := c.(states := c.states[me := Ready]);
    if view == [] then Outcome(c, loaded, false)
    else if ChecksVersions(sub, me, leader, |c.states|) && !supported then Failing(c, me, leader, loaded)
    else if sub == K8s then Outcome(c.(states := c.states[me := Upgrading]), loaded, false)
    else if leader && Top(view) == me && c.states[me] == Recovery then Changed(VM, ready, me, leader, loaded)
    else Outcome(ready, loaded, |c.states| == 1)
  }

  // What a completed K8s unit does next: the leader updates the stack, and every unit but the
  // first and the last to upgrade lowers the partition to the next ordinal.
  function Finished(c: Cluster, me: nat, leader: bool, cache: Option<seq<nat>>, patched: bool): (o: Outcome)
    requires WellFormed(c) && me < |c.states|
    requires Known(Items(cache), |c.states|)
  {
    var o := if leader then Changed(K8s, c, me, leader, cache) else Outcome(c, cache, false);
    if me == |c.states| - 1 || me == 0 then Outcome(o.cluster, o.cache, false)
    else if patched then Outcome(o.cluster.(partition := me - 1), o.cache, false)
    else Failing(o.cluster, me, leader, o.cache)
  }

  predicate WillComplete(c: Cluster, me: nat, healthy: bool)
    requires me < |c.states|
  {
    c.states[me] in {Upgrading, Recovery} && healthy
  }

  /** The pebble-ready hook: an upgrading or recovering unit whose checks pass has completed. */
  function PebbleReady(c: Cluster, me: nat, leader: bool, cache: Option<seq<nat>>,
                       healthy: bool, patched: bool): (o: Outcome)
    requires WellFormed(c) && me < |c.states|
    requires Known(Items(cache), |c.states|)
  {
    if WillComplete(c, me, healthy)
    then Finished(c.(states := c.states[me := Completed]), me, leader, if leader then None else cache, patched)
    else Outcome(c, cache, false)
  }

  // ---- What the handlers do, state by state ----

  predicate AllIn(states: seq<State>, some: set<State>) {
    forall k | 0 <= k < |states| :: states[k] in some
  }

  predicate Somewhere(states: seq<State>, s: State) {
    exists k :: 0 <= k < |states| && states[k] == s
  }

  // Which states make a cluster state.
  lemma {:induction false} ClusterStateIff(states: seq<State>)
    ensures ClusterState(states) == Some(Failed) <==> !Somewhere(states, Unset) && !Somewhere(states, Recovery) && Somewhere(states, Failed)
    ensures ClusterState(states) == Some(Recovery) <==> !Somewhere(states, Unset) && Somewhere(states, Recovery)
    ensures ClusterState(states) == Some(Idle) <==> AllIn(states, {Idle, Ready, Upgrading, Completed}) && Somewhere(states, Idle)
    ensures ClusterState(states) == Some(Ready) <==> AllIn(states, {Ready, Upgrading, Completed}) && Somewhere(states, Ready)
    ensures ClusterState(states) == Some(Completed) <==> states != [] && AllIn(states, {Completed})
  {
    var s := ClusterState(states);
    assert forall t :: t in states <==> Somewhere(states, t);
    forall k | 0 <= k < |states| ensures states[k] in states && (s.Some? ==> Ordinal(s.value) <= Ordinal(states[k])) {
    }
    if s.Some? {
      var k: nat :| k < |states| && states[k] == s.value;
    }
  }

  // What the handler of a new process finds of the stack.
  function Left(c: Cluster, leader: bool): seq<nat>
    requires WellFormed(c)
  {
    if leader then Trim(c.stack, c.states) else c.stack
  }

  /** A failed cluster, or a recovering one on VM, changes nothing; otherwise the leader leaves the
      trimmed stack, and only the unit's own state may change. */
  lemma {:induction false} ChangedIsLocal(sub: Substrate, c: Cluster, me: nat, leader: bool)
    requires WellFormed(c) && me < |c.states|
    ensures var o := Changed(sub, c, me, leader, None);
            var frozen := !Somewhere(c.states, Unset)
                          && if Somewhere(c.states, Recovery) then sub == VM else Somewhere(c.states, Failed);
            && (frozen ==> o == Outcome(c, None, false))
            && (!frozen ==> o.cluster.stack == Left(c, leader))
            && o.cluster.partition == c.partition
            && o.cluster.states == c.states[me := o.cluster.states[me]]
  {
    ClusterStateIff(c.states);
    assert c.states[me := c.states[me]] == c.states;
  }

  /** A follower writes no stack: it only takes the top off the copy that its own process holds. */
  lemma {:induction false} FollowerShortensItsCopy(sub: Substrate, c: Cluster, me: nat, cache: Option<seq<nat>>)
    requires WellFormed(c) && me < |c.states| && Known(Items(cache), |c.states|)
    ensures var o := Changed(sub, c, me, false, cache);
            var view := if cache.Some? then cache.value else c.stack;
            var frozen := !Somewhere(c.states, Unset)
                          && if Somewhere(c.states, Recovery) then sub == VM else Somewhere(c.states, Failed);
            && o.cluster.stack == c.stack
            && (frozen || (cache.None? && c.stack == []) ==> o.cache == cache)
            && (!frozen && view != [] ==> o.cache == Some(view[..|view| - 1]))
  {
    ClusterStateIff(c.states);
  }

  /** A unit is granted its upgrade exactly when it is on top of what is left of the stack, every
      unit is ready or further, some unit is only ready, and no other unit is upgrading. */
  lemma {:induction false} GrantedIff(sub: Substrate, c: Cluster, me: nat, leader: bool)
    requires WellFormed(c) && me < |c.states|
    ensures var o := Changed(sub, c, me, leader, None);
            var left := Left(c, leader);
            && (o.granted <==>
                  && left != [] && left[|left| - 1] == me && c.states[me] in {Ready, Upgrading}
                  && AllIn(c.states, {Ready, Upgrading, Completed}) && Somewhere(c.states, Ready)
                  && forall k | 0 <= k < |c.states| && k != me :: c.states[k] != Upgrading)
            && (o.granted ==> o.cluster.states[me] == Upgrading)
  {
    TrimCut(c.stack, c.states);
    var left := Left(c, leader);
    if left != [] {
      GrantsIff(c.states, me, Top(left));
    }
  }

  lemma {:induction false} GrantsIff(states: seq<State>, me: nat, top: nat)
    requires me < |states|
    ensures Grants(states, me, top) <==>
              && me == top && states[me] in {Ready, Upgrading}
              && AllIn(states, {Ready, Upgrading, Completed}) && Somewhere(states, Ready)
              && forall k | 0 <= k < |states| && k != me :: states[k] != Upgrading
  {
    ClusterStateIff(states);
  }

  /** A completed unit goes back to idle exactly when nothing is left of the stack, nobody has failed
      or recovers, and either some unit is idle or all have completed; nobody else's way back is
      through this handler. */
  lemma {:induction false} SettlesIff(sub: Substrate, c: Cluster, me: nat, leader: bool)
    requires WellFormed(c) && me < |c.states|
    ensures var o := Changed(sub, c, me, leader, None);
            var free := AllIn(c.states, {Idle, Ready, Upgrading, Completed})
                        && (Somewhere(c.states, Idle) || AllIn(c.states, {Completed}));
            && (c.states[me] == Completed ==>
                  o.cluster.states[me] == if Left(c, leader) == [] && free then Idle else Completed)
            && (c.states[me] != Completed && !o.granted ==> o.cluster.states[me] == c.states[me])
  {
    ClusterStateIff(c.states);
    TrimCut(c.stack, c.states);
  }

  /** Only a leader's pre-check changes anything.  In a failed cluster it puts the leader in recovery
      and completes a stack that lacks units.  Otherwise it needs an idle cluster whose checks pass,
      and on K8s a patch that works; then every unit goes on the stack, the highest ordinal on top,
      and the partition holds back all the others. */
  lemma {:induction false} PreCheckNeedsAHealthyCluster(sub: Substrate, c: Cluster, me: nat, leader: bool, healthy: bool,
                                                        patched: bool, order: seq<nat>, built: seq<nat>)
    requires WellFormed(c) && me < |c.states| && VisitsAll(order, |c.states|)
    ensures var o := PreCheck(sub, c, me, leader, None, healthy, patched, order, built);
            var c' := o.cluster;
            var failed := !Somewhere(c.states, Unset) && !Somewhere(c.states, Recovery) && Somewhere(c.states, Failed);
            var idle := AllIn(c.states, {Idle, Ready, Upgrading, Completed}) && Somewhere(c.states, Idle);
            if leader && failed then
              && c'.states == c.states[me := Recovery] && c'.partition == c.partition
              && o.cache == (if c'.stack == [] then None else Some(c'.stack)) && !o.granted
              && (c.stack == [] || |c.stack| == |c.states| ==> c'.stack == c.stack)
              && (c.stack != [] && |c.stack| != |c.states| ==>
                    c'.stack == Rest(c.stack) + Missing(order, c.stack) + [Top(c.stack)])
            else if leader && idle && healthy && (sub == K8s ==> patched) then
              && c'.states == c.states && o.cache == Some(c'.stack) && !o.granted
              && (sub == K8s ==>
                    && |c'.stack| == |c.states| && (forall k | 0 <= k < |c.states| :: c'.stack[k] == k)
                    && c'.partition == |c.states| - 1)
              && (sub == VM ==> c'.stack == built && c'.partition == c.partition)
            else o == Outcome(c, None, false)
  {
    ClusterStateIff(c.states);
    if c.stack != [] {
      RepairKeepsTheOldStack(c.stack, order);
    }
  }

  /** A resume moves the partition to the unit on top of the stack, exactly when a leader finds one
      unit missing from it and the patch works; it changes nothing else. */
  lemma {:induction false} ResumeMovesIff(c: Cluster, leader: bool, patched: bool)
    requires WellFormed(c) && c.states != []
    ensures var o := Resume(c, leader, None, patched);
            && o.cluster == (if leader && patched && |c.stack| > 0 && |c.stack| + 1 == |c.states|
                             then c.(partition := c.stack[|c.stack| - 1]) else c)
            && o.cache == (if leader && c.stack != [] then Some(c.stack) else None) && !o.granted
  {
  }

  /** The upgrade-charm hook without a stack does nothing.  With one it changes the unit's own state,
      and on VM perhaps, through the handler above, what a recovering leader finds. */
  lemma {:induction false} CharmHookWrites(sub: Substrate, c: Cluster, me: nat, leader: bool, supported: bool)
    requires WellFormed(c) && me < |c.states|
    ensures var o := CharmUpgraded(sub, c, me, leader, None, supported);
            var checks := if sub == VM then leader else me + 1 == |c.states|;
            var rollback := sub == VM && leader && supported && c.states[me] == Recovery
                            && c.stack != [] && c.stack[|c.stack| - 1] == me;
            if c.stack == [] then o == Outcome(c, None, false)
            else if rollback then o == Changed(VM, c.(states := c.states[me := Ready]), me, true, Some(c.stack))
            else
              && o.cluster == c.(states := c.states[me := if checks && !supported then Failed
                                                         else if sub == VM then Ready else Upgrading])
              && (o.granted <==> sub == VM && |c.states| == 1 && !(checks && !supported))
              && o.cache == (if leader && checks && !supported then None else Some(c.stack))
  {
  }

  /** Checks that fail, or a unit that is not upgrading or recovering, leave everything as it is.
      Otherwise the unit completes; a middle ordinal then lowers the partition to the next one, or
      fails if the patch does not work. */
  lemma {:induction false} PebbleReadyNeedsChecks(c: Cluster, me: nat, leader: bool, cache: Option<seq<nat>>,
                                                  healthy: bool, patched: bool)
    requires WellFormed(c) && me < |c.states| && Known(Items(cache), |c.states|)
    ensures var o := PebbleReady(c, me, leader, cache, healthy, patched);
            var middle := 0 < me && me + 1 < |c.states|;
            var completes := healthy && (c.states[me] == Upgrading || c.states[me] == Recovery);
            && (!completes ==> o == Outcome(c, cache, false))
            && (completes ==>
                  && o.cluster.states == c.states[me := o.cluster.states[me]]
                  && o.cluster.partition == (if middle && patched then me - 1 else c.partition)
                  && (if middle && !patched then o.cluster.states[me] == Failed else o.cluster.states[me] in {Completed, Idle})
                  && !o.granted && (leader && middle && !patched ==> o.cache == None)
                  && (!leader ==> o.cluster.stack == c.stack && o.cluster.states[me] != Idle && o.cache == cache)
                  && (leader ==>
                        var states := c.states[me := Completed];
                        o.cluster.stack ==
                          if !Somewhere(states, Unset) && !Somewhere(states, Recovery) && Somewhere(states, Failed)
                          then c.stack else Trim(c.stack, states)))
  {
    if WillComplete(c, me, healthy) {
      ChangedIsLocal(K8s, c.(states := c.states[me := Completed]), me, leader);
      GrantedIff(K8s, c.(states := c.states[me := Completed]), me, leader);
      SettlesIff(K8s, c.(states := c.states[me := Completed]), me, leader);
    }
  }
}
