/** The handlers of one unit's upgrade object, step by step as the charm library runs them.  Each
    is proved to leave exactly the data that its function in `Upgrade` describes. */
module UpgradeUnit {
  import opened Options
  import opened Upgrade

  class DataUpgrade {
    const substrate: Substrate
    const me: nat
    const leader: bool
    var states: seq<State>           // every unit's databag
    var stack: seq<nat>              // the application databag
    var partition: nat               // the StatefulSet
    var cache: Option<seq<nat>>      // this process's copy of the stack

    constructor (substrate: Substrate, me: nat, leader: bool, found: Cluster)
      requires WellFormed(found) && me < |found.states|
      ensures Valid() && Shared() == found && cache == None
      ensures this.substrate == substrate && this.me == me && this.leader == leader
    {
      this.substrate, this.me, this.leader := substrate, me, leader;
      states, stack, partition, cache := found.states, found.stack, found.partition, None;
    }

    ghost predicate Valid()
      reads this
    {
      me < |states| && Known(stack, |states|) && Known(Items(cache), |states|)
    }

    ghost function Shared(): Cluster
      reads this
    {
      Cluster(states, stack, partition)
    }

    // The lazily loading getter.
    method UpgradeStack() returns (list: seq<nat>)
      requires Valid()
      modifies this`cache
      ensures Valid() && cache == Loaded(old(cache), stack) && list == Items(cache)
    {
      if cache.None? && stack != [] {
        cache := Some(stack);
      }
      list := if cache.Some? then cache.value else [];
    }

    method Persist(list: seq<nat>)
      requires Valid() && Known(list, |states|)
      modifies this`stack, this`cache
      ensures Valid() && stack == list && cache == Some(list)
    {
      stack := list;
      cache := Some(list);
    }

    method WriteState(s: State)
      requires Valid()
      modifies this`states
      ensures Valid() && states == old(states)[me := s]
    {
      states := states[me := s];
    }

    // The completed leader or follower steps back to idle, when the whole cluster allows it.
    method SettleIfDone()
      requires Valid()
      modifies this`states
      ensures Valid() && states == BackToIdle(old(states), me)
    {
      var behind := ClusterState(states);
      if states[me] == Completed && (behind == Some(Idle) || behind == Some(Completed)) {
        WriteState(Idle);
      }
    }

    method OnUpgradeChanged() returns (granted: bool)
      requires Valid()
      modifies this
      ensures Valid()
      ensures Outcome(Shared(), cache, granted) == Changed(substrate, old(Shared()), me, leader, old(cache))
      decreases |Items(Loaded(cache, stack))|
    {
      granted := false;
      var behind := ClusterState(states);
      if behind == Some(Failed) || (substrate == VM && behind == Some(Recovery)) {
        return;
      }
      var list := UpgradeStack();
      if list == [] {
        SettleIfDone();
        return;
      }
      var top := Top(list);
      cache := Some(Rest(list));
      var topState := states[top];
      if leader && topState == Completed {
        ChangedAfterPop(substrate, old(Shared()), me, old(cache));
        stack := cache.value;
        granted := OnUpgradeChanged();
      }
      if topState == Ready || topState == Upgrading {
        granted := GrantSelf(top, behind);
      }
    }

    method GrantSelf(top: nat, behind: Option<State>) returns (granted: bool)
      requires Valid() && behind == ClusterState(states) && top < |states| && states[top] in {Ready, Upgrading}
      modifies this`states
      ensures Valid() && granted == Grants(old(states), me, top)
      ensures states == if granted then old(states)[me := Upgrading] else old(states)
    {
      var alone := NoOtherAtWork();
      granted := me == top && behind == Some(Ready) && alone;
      if granted {
        WriteState(Upgrading);
      }
    }

    method NoOtherAtWork() returns (alone: bool)
      requires Valid()
      ensures alone <==> forall k | 0 <= k < |states| && k != me :: states[k] != Upgrading
    {
      alone := true;
      for k := 0 to |states|
        invariant alone <==> forall j | 0 <= j < k && j != me :: states[j] != Upgrading
      {
        if k != me && states[k] == Upgrading {
          alone := false;
        }
      }
    }

    method SetUnitFailed()
      requires Valid()
      modifies this
      ensures Valid()
      ensures Outcome(Shared(), cache, false) == Failing(old(Shared()), me, leader, old(cache))
    {
      if leader {
        cache := None;
      }
      WriteState(Failed);
    }

    method RepairUpgradeStack(order: seq<nat>)
      requires Valid() && Known(order, |states|)
      modifies this`stack, this`cache
      ensures Valid()
      ensures var view := Items(Loaded(old(cache), old(stack)));
              if ClusterState(states) in {Some(Failed), Some(Recovery)} && view != []
                 && |view| != |states| && leader
              then stack == Repaired(view, order) && cache == Some(stack)
              else stack == old(stack)
                   && cache in {old(cache), Loaded(old(cache), old(stack))}
                   && (ClusterState(states) in {Some(Failed), Some(Recovery)} ==> cache == Loaded(old(cache), old(stack)))
    {
      var behind := ClusterState(states);
      if behind != Some(Failed) && behind != Some(Recovery) {
        return;
      }
      var list := UpgradeStack();
      if list == [] || |list| == |states| || !leader {
        return;
      }
      ghost var before := list;
      for i := 0 to |order|
        invariant list != [] && Known(list, |states|)
        invariant Repaired(list, order[i..]) == Repaired(before, order)
      {
        assert order[i..][1..] == order[i + 1..];
        if order[i] !in list {
          list := InsertBelowTop(list, order[i]);
        }
      }
      assert order[|order|..] == [];
      Persist(list);
    }

    // `built` is the stack a VM charm builds in its own way.
    method PreUpgradeCheckAction(healthy: bool, patched: bool, order: seq<nat>, built: seq<nat>)
      requires Valid() && Known(order, |states|) && Known(built, |states|)
      modifies this
      ensures Valid()
      ensures Outcome(Shared(), cache, false) ==
                PreCheck(substrate, old(Shared()), me, leader, old(cache), healthy, patched, order, built)
    {
      if !leader {
        return;
      }
      var behind := ClusterState(states);
      if behind == Some(Failed) {
        RepairUpgradeStack(order);
        WriteState(Recovery);
        return;
      }
      if behind != Some(Idle) || !healthy || (substrate == K8s && !patched) {
        return;
      }
      if substrate == K8s {
        partition := |states| - 1;
        Persist(AllUnits(|states|));
      } else {
        Persist(built);
      }
    }

    method ResumeUpgradeAction(patched: bool)
      requires Valid()
      modifies this
      ensures Valid()
      ensures Outcome(Shared(), cache, false) == Resume(old(Shared()), leader, old(cache), patched)
    {
      if !leader {
        return;
      }
      var list := UpgradeStack();
      if list == [] || |list| != |states| - 1 || !patched {
        return;
      }
      partition := Top(list);
    }

    method OnUpgradeCharm(supported: bool) returns (granted: bool)
      requires Valid()
      modifies this
      ensures Valid()
      ensures Outcome(Shared(), cache, granted) ==
                CharmUpgraded(substrate, old(Shared()), me, leader, old(cache), supported)
    {
      granted := false;
      var list := UpgradeStack();
      if list == [] {
        return;
      }
      if substrate == VM {
        if leader {
          if !supported {
            SetUnitFailed();
            return;
          }
          if Top(list) == me && states[me] == Recovery {
            WriteState(Ready);
            granted := OnUpgradeChanged();
            return;
          }
        }
        WriteState(Ready);
        granted := |states| == 1;
      } else {
        if me == |states| - 1 && !supported {
          SetUnitFailed();
          return;
        }
        WriteState(Upgrading);
      }
    }

    method OnUpgradeFinished(patched: bool)
      requires Valid() && substrate == K8s
      modifies this
      ensures Valid()
      ensures Outcome(Shared(), cache, false) == Finished(old(Shared()), me, leader, old(cache), patched)
    {
      if leader {
        var _ := OnUpgradeChanged();
      }
      if me == |states| - 1 || me == 0 {
        return;
      }
      if patched {
        partition := me - 1;
      } else {
        SetUnitFailed();
      }
    }

    method OnPebbleReady(healthy: bool, patched: bool)
      requires Valid() && substrate == K8s
      modifies this
      ensures Valid()
      ensures Outcome(Shared(), cache, false) ==
                PebbleReady(old(Shared()), me, leader, old(cache), healthy, patched)
      ensures !healthy ==> Shared() == old(Shared()) && cache == old(cache)
    {
      if states[me] != Upgrading && states[me] != Recovery {
        return;
      }
      if !healthy {
        return;
      }
      if leader {
        cache := None;
      }
      WriteState(Completed);
      OnUpgradeFinished(patched);
    }
  }
}
