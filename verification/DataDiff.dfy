/** The diff engine that turns databag snapshots into events, the provider's database requests
    built on it, and the propagation of relation statuses. */
module DataDiff {
  type Databag = map<string, string>

  datatype Diff = Diff(added: set<string>, changed: set<string>, deleted: set<string>)

  const SNAPSHOT_FIELD := "data"

  // The observed side's fields, without the snapshot that the library itself keeps there.
  function Observed(remote: Databag): Databag {
    map k | k in remote && k != SNAPSHOT_FIELD :: remote[k]
  }

  function DiffOf(before: Databag, after: Databag): Diff {
    Diff(after.Keys - before.Keys,
         (set k | k in before.Keys * after.Keys && before[k] != after[k]),
         before.Keys - after.Keys)
  }

  // Replays a diff: new values are taken for added and changed keys only.
  function Patch(before: Databag, d: Diff, values: Databag): Databag
    requires d.added + d.changed <= values.Keys
  {
    map k | k in (before.Keys - d.deleted) + d.added + d.changed ::
      if k in d.added + d.changed then values[k] else if k in before then before[k] else ""
  }

  /** The three parts are disjoint and rebuild the new snapshot from the old; no smaller diff
      does, since every listed key really differs. */
  lemma {:induction false} DiffIsExact(before: Databag, after: Databag)
    ensures var d := DiffOf(before, after);
            && d.added !! d.changed !! d.deleted
            && Patch(before, d, after) == after
            && (forall k :: k in d.added + d.changed + d.deleted <==>
                  !((k in before <==> k in after) && (k in before && k in after ==> before[k] == after[k])))
  {
  }

  datatype Emitted = Nothing | DatabaseRequested | EntityRequested | PermissionsChanged

  const FIXED_FIELDS: set<string> := {"entity-type", "extra-user-roles", "extra-group-roles"}

  /** The provider's relation-changed hook: the saved snapshot afterwards and the event it emits.
      An inconsistent change makes the hook fail, and Juju drops what it wrote. */
  datatype HookResult = HookResult(saved: Databag, emitted: Emitted)

  function EventFor(d: Diff): Emitted {
    if "database" in d.added then
      if "entity-type" in d.added then EntityRequested else DatabaseRequested
    else if "entity-type" !in d.added && "entity-permissions" in d.added + d.changed then PermissionsChanged
    else Nothing
  }

  function RelationChanged(leader: bool, saved: Databag, remote: Databag): HookResult {
    if !leader then HookResult(saved, Nothing)
    else
      var seen := Observed(remote);
      var d := DiffOf(saved, seen);
      if FIXED_FIELDS * d.changed != {} then HookResult(saved, Nothing)
      else HookResult(seen, EventFor(d))
  }

  // A field that is there now and was not before.
  predicate Appears(before: Databag, after: Databag, field: string) {
    field !in before && field in after
  }

  predicate Differs(before: Databag, after: Databag, field: string) {
    field in before && field in after && before[field] != after[field]
  }

  /** What the hook does to its own record and which event it sends.  Only the leader acts, and not
      when the kind of entity or its extra roles changed; it then records all of the other side's
      fields but the record kept there.  A database that appears is requested, with its kind of entity
      if that appears too; otherwise new or changed permissions are announced. */
  lemma {:induction false} EventIsExact(leader: bool, saved: Databag, remote: Databag)
    ensures var r := RelationChanged(leader, saved, remote);
            if leader && forall f | f in ["entity-type", "extra-user-roles", "extra-group-roles"] :: !Differs(saved, remote, f) then
              && (forall k :: k in r.saved <==> k in remote && k != "data")
              && (forall k | k in r.saved :: r.saved[k] == remote[k])
              && (r.emitted == DatabaseRequested <==> Appears(saved, remote, "database") && !Appears(saved, remote, "entity-type"))
              && (r.emitted == EntityRequested <==> Appears(saved, remote, "database") && Appears(saved, remote, "entity-type"))
              && (r.emitted == PermissionsChanged <==>
                    && !Appears(saved, remote, "database") && !Appears(saved, remote, "entity-type")
                    && (Appears(saved, remote, "entity-permissions") || Differs(saved, remote, "entity-permissions")))
            else r == HookResult(saved, Nothing)
  {
    var d := DiffOf(saved, Observed(remote));
    forall f ensures f in d.changed <==> f != "data" && Differs(saved, remote, f) {
    }
    forall f ensures f in d.added <==> f != "data" && Appears(saved, remote, f) {
    }
    assert forall f :: f in FIXED_FIELDS <==> f in ["entity-type", "extra-user-roles", "extra-group-roles"];
    if f :| f in FIXED_FIELDS && Differs(saved, remote, f) {
      assert f in FIXED_FIELDS * d.changed;
    }
  }

  class DatabaseProvider {
    var saved: Databag       // the snapshot in the application's own databag

    method TakeDiff(remote: Databag) returns (d: Diff)
      modifies this
      ensures d == DiffOf(old(saved), Observed(remote)) && saved == Observed(remote)
    {
      var seen := Observed(remote);
      d := Diff(seen.Keys - saved.Keys,
                (set k | k in saved.Keys * seen.Keys && saved[k] != seen[k]),
                saved.Keys - seen.Keys);
      saved := seen;
    }

    method OnRelationChanged(leader: bool, remote: Databag) returns (emitted: Emitted)
      modifies this
      ensures HookResult(saved, emitted) == RelationChanged(leader, old(saved), remote)
    {
      emitted := Nothing;
      if !leader {
        return;
      }
      var before := saved;
      var d := TakeDiff(remote);
      if FIXED_FIELDS * d.changed != {} {
        saved := before;   // the hook raises, so its writes are dropped
        return;
      }
      if "database" in d.added && "entity-type" !in d.added {
        emitted := DatabaseRequested;
        return;
      }
      if "database" in d.added && "entity-type" in d.added {
        emitted := EntityRequested;
        return;
      }
      if "entity-type" !in d.added && ("entity-permissions" in d.added || "entity-permissions" in d.changed) {
        emitted := PermissionsChanged;
      }
    }
  }

  // One dispatch of the hook: who ran it and what the remote databag held.
  datatype Dispatch = Dispatch(leader: bool, remote: Databag)

  // The snapshots that were saved along a history, starting with the first.
  function Snapshots(saved: Databag, history: seq<Dispatch>): seq<Databag>
    decreases |history|
  {
    if history == [] then [saved]
    else [saved] + Snapshots(RelationChanged(history[0].leader, saved, history[0].remote).saved, history[1..])
  }

  function Requests(saved: Databag, history: seq<Dispatch>, kind: Emitted): nat
    decreases |history|
  {
    if history == [] then 0
    else
      var r := RelationChanged(history[0].leader, saved, history[0].remote);
      (if r.emitted == kind then 1 else 0) + Requests(r.saved, history[1..], kind)
  }

  // How often a database appeared in the snapshots, with or without its kind of entity.
  function Appearances(snapshots: seq<Databag>, entity: bool): nat {
    if |snapshots| < 2 then 0
    else
      (if Appears(snapshots[0], snapshots[1], "database")
          && Appears(snapshots[0], snapshots[1], "entity-type") == entity then 1 else 0)
      + Appearances(snapshots[1..], entity)
  }

  /** Over every history, with any mix of leaders, followers and failing hooks, each observed step
      from no database to a database yields exactly one request event, of the kind that fits. */
  lemma {:induction false} RequestedOncePerAppearance(saved: Databag, history: seq<Dispatch>, entity: bool)
    ensures Requests(saved, history, if entity then EntityRequested else DatabaseRequested) ==
            Appearances(Snapshots(saved, history), entity)
    decreases |history|
  {
    if history != [] {
      var r := RelationChanged(history[0].leader, saved, history[0].remote);
      var rest := Snapshots(r.saved, history[1..]);
      RequestedOncePerAppearance(r.saved, history[1..], entity);
      assert rest[0] == r.saved;
      assert ([saved] + rest)[1..] == rest;
    }
  }

  // ---- Statuses ----

  // Active statuses by code; the text of a status is its message and resolution.
  type Statuses = map<int, string>

  /** The provider raises, resolves and clears; the requirer observes.  An observation that does
      not reach the diff, as for a subordinate that is not ready, leaves the old snapshot saved. */
  datatype StatusOp = Raise(code: int, text: string) | Resolve(code: int) | Clear | Observe(reachesDiff: bool)

  datatype Noticed = Noticed(raised: Statuses, resolved: set<int>)

  // The active statuses, the requirer's saved snapshot, and the codes its events add up to.
  datatype Channel = Channel(active: Statuses, saved: Statuses, replayed: set<int>)

  function Notice(previous: Statuses, current: Statuses): Noticed {
    Noticed(map code | code in current && code !in previous :: current[code], previous.Keys - current.Keys)
  }

  function Replay(codes: set<int>, n: Noticed): set<int> {
    codes - n.resolved + n.raised.Keys
  }

  function Step(c: Channel, op: StatusOp): Channel {
    match op
    case Raise(code, text) => c.(active := c.active[code := text])
    case Resolve(code) => c.(active := c.active - {code})
    case Clear => c.(active := map[])
    case Observe(reachesDiff) =>
      c.(replayed := Replay(c.replayed, Notice(c.saved, c.active)), saved := if reachesDiff then c.active else c.saved)
  }

  function After(c: Channel, ops: seq<StatusOp>): Channel {
    if ops == [] then c else Step(After(c, ops[..|ops| - 1]), ops[|ops| - 1])
  }

  const SILENT := Channel(map[], map[], {})

  // The i-th operation raised the code, and it was neither resolved nor cleared since, nor raised again.
  ghost predicate RaisedLast(ops: seq<StatusOp>, i: nat, code: int, text: string) {
    && i < |ops| && ops[i] == Raise(code, text)
    && forall j | i < j < |ops| :: ops[j] != Resolve(code) && ops[j] != Clear && !(ops[j].Raise? && ops[j].code == code)
  }

  /** A status is active, with its last text, exactly when it was raised and neither resolved nor
      cleared since. */
  lemma {:induction false} ActiveIff(ops: seq<StatusOp>, code: int, text: string)
    ensures code in After(SILENT, ops).active && After(SILENT, ops).active[code] == text <==>
            exists i: nat :: RaisedLast(ops, i, code, text)
    decreases |ops|
  {
    if ops != [] {
      var last := |ops| - 1;
      var init, op := ops[..last], ops[last];
      ActiveIff(init, code, text);
      if op == Raise(code, text) {
        assert RaisedLast(ops, last, code, text);
      } else if op == Resolve(code) || op == Clear || (op.Raise? && op.code == code) {
        assert forall i: nat :: !RaisedLast(ops, i, code, text);
      } else {
        if i: nat :| RaisedLast(init, i, code, text) {
          assert RaisedLast(ops, i, code, text);
        }
        if i: nat :| RaisedLast(ops, i, code, text) {
          assert i < last && RaisedLast(init, i, code, text);
        }
      }
    }
  }

  // The statuses that were active when the requirer last looked.
  function LastObserved(ops: seq<StatusOp>): Statuses {
    if ops == [] then map[]
    else if ops[|ops| - 1].Observe? then After(SILENT, ops).active
    else LastObserved(ops[..|ops| - 1])
  }

  /** What an observation notices: the codes that are active and were not, with their texts, and those
      that are active no more. */
  lemma NoticesAreExact(c: Channel)
    ensures var n := Notice(c.saved, c.active);
            && (forall k :: k in n.raised <==> k in c.active && k !in c.saved)
            && (forall k | k in n.raised :: n.raised[k] == c.active[k])
            && (forall k :: k in n.resolved <==> k in c.saved && k !in c.active)
  {
  }

  /** Replaying the raised and resolved events of any history whose observations all reach the
      diff gives exactly the codes that were active at the last observation. */
  lemma {:induction false} ReplayGivesActiveCodes(ops: seq<StatusOp>)
    requires forall i | 0 <= i < |ops| && ops[i].Observe? :: ops[i].reachesDiff
    ensures var c := After(SILENT, ops);
            c.replayed == LastObserved(ops).Keys && c.saved == LastObserved(ops)
  {
    if ops != [] {
      ReplayGivesActiveCodes(ops[..|ops| - 1]);
    }
  }

  /** An observation leaves the replay right if and only if every code that it does not notice was
      right before; a code is noticed when it is active and not in the snapshot, or the reverse. */
  lemma {:induction false} ObservationIsRightIff(c: Channel, reachesDiff: bool)
    ensures Step(c, Observe(reachesDiff)).replayed == c.active.Keys <==>
            forall k :: (k in c.active <==> k in c.saved) ==> (k in c.replayed <==> k in c.active)
  {
    var c' := Step(c, Observe(reachesDiff));
    assert forall k :: k in c'.replayed <==> if k in c.active <==> k in c.saved then k in c.replayed else k in c.active;
    if c'.replayed == c.active.Keys {
      assert forall k :: k in c'.replayed <==> k in c.active;
    } else {
      assert exists k :: !(k in c'.replayed <==> k in c.active) by {
        assert (forall k :: k in c'.replayed <==> k in c.active) ==> c'.replayed == c.active.Keys;
      }
    }
  }

  /** An observation that returns early keeps the replay in step with the saved snapshot, on which the
      next observation relies, if and only if no code appeared or disappeared. */
  lemma EarlyReturnKeepsStepIff(c: Channel)
    requires c.replayed == c.saved.Keys
    ensures var c' := Step(c, Observe(false));
            && c'.replayed == c.active.Keys
            && (c'.replayed == c'.saved.Keys <==> c.active.Keys == c.saved.Keys)
  {
  }

  // Whether the i-th operation is an observation that notices the code.
  ghost predicate Notices(ops: seq<StatusOp>, i: nat, code: int)
    requires i < |ops|
  {
    var c := After(SILENT, ops[..i]);
    ops[i].Observe? && !(code in c.active <==> code in c.saved)
  }

  /** Whether the last observation that noticed the code returned early. */
  ghost predicate LastNoticeWasEarly(ops: seq<StatusOp>, code: int) {
    exists i: nat :: i < |ops| && LastNotice(ops, i, code) && !ops[i].reachesDiff
  }

  ghost predicate LastNotice(ops: seq<StatusOp>, i: nat, code: int)
    requires i < |ops|
  {
    Notices(ops, i, code) && forall j: nat | i < j < |ops| :: !Notices(ops, j, code)
  }

  lemma {:induction false} NoticesInPrefix(ops: seq<StatusOp>, n: nat, i: nat, code: int)
    requires i < n <= |ops|
    ensures Notices(ops[..n], i, code) == Notices(ops, i, code)
  {
    assert ops[..n][..i] == ops[..i];
  }

  // One operation more: it is the last notice, or leaves the last notice where it was.
  lemma {:induction false} LastNoticeSteps(ops: seq<StatusOp>, code: int)
    requires ops != []
    ensures var last := |ops| - 1;
            LastNoticeWasEarly(ops, code) <==>
            if Notices(ops, last, code) then !ops[last].reachesDiff else LastNoticeWasEarly(ops[..last], code)
  {
    var last := |ops| - 1;
    var init := ops[..last];
    forall i: nat | i < last ensures Notices(init, i, code) == Notices(ops, i, code) {
      NoticesInPrefix(ops, last, i, code);
    }
    if Notices(ops, last, code) {
      assert LastNotice(ops, last, code);
    } else {
      forall i: nat | i < last ensures LastNotice(ops, i, code) <==> LastNotice(init, i, code) {
        assert LastNotice(ops, i, code) ==> forall j: nat | i < j < last :: !Notices(ops, j, code);
      }
      if LastNoticeWasEarly(init, code) {
        var i: nat :| i < |init| && LastNotice(init, i, code) && !init[i].reachesDiff;
        assert LastNotice(ops, i, code) && ops[i] == init[i];
      }
      if LastNoticeWasEarly(ops, code) {
        var i: nat :| i < |ops| && LastNotice(ops, i, code) && !ops[i].reachesDiff;
        assert i != last && LastNotice(init, i, code) && init[i] == ops[i];
      }
    }
  }

  /** Along any history the replay differs from the saved snapshot in exactly the codes that were
      last noticed by an observation that returned early. */
  lemma {:induction false} ReplayAgainstSnapshot(ops: seq<StatusOp>, code: int)
    ensures var c := After(SILENT, ops);
            (code in c.replayed <==> code in c.saved) <==> !LastNoticeWasEarly(ops, code)
  {
    if ops != [] {
      var init := ops[..|ops| - 1];
      ReplayAgainstSnapshot(init, code);
      LastNoticeSteps(ops, code);
    }
  }

  /** The replay is right after an observation that ends any history if and only if it notices
      every code whose last notice before it returned early. */
  lemma {:induction false} HistoryIsRightIff(ops: seq<StatusOp>, reachesDiff: bool)
    ensures var all := ops + [Observe(reachesDiff)];
            After(SILENT, all).replayed == LastObserved(all).Keys <==>
            forall code :: LastNoticeWasEarly(ops, code) ==> Notices(all, |ops|, code)
  {
    var all := ops + [Observe(reachesDiff)];
    var c := After(SILENT, ops);
    assert all[..|ops|] == ops;
    ObservationIsRightIff(c, reachesDiff);
    forall code
      ensures ((code in c.active <==> code in c.saved) ==> (code in c.replayed <==> code in c.active)) <==>
              (LastNoticeWasEarly(ops, code) ==> Notices(all, |ops|, code))
    {
      ReplayAgainstSnapshot(ops, code);
    }
  }

  /** What follows the last observation does not matter. */
  lemma {:induction false} LaterOperationsDoNotMatter(ops: seq<StatusOp>, later: seq<StatusOp>)
    requires forall i | 0 <= i < |later| :: !later[i].Observe?
    ensures After(SILENT, ops + later).replayed == After(SILENT, ops).replayed
    ensures LastObserved(ops + later) == LastObserved(ops)
    decreases |later|
  {
    if later == [] {
      assert ops + later == ops;
    } else {
      var last := |later| - 1;
      LaterOperationsDoNotMatter(ops, later[..last]);
      assert (ops + later)[..|ops + later| - 1] == ops + later[..last];
    }
  }

  /** Once out of step, a resolution is lost: a status raised before an early return and resolved
      before the next observation stays raised for the requirer. */
  lemma EarlyReturnLosesResolution(code: int, text: string)
    ensures var ops := [Raise(code, text), Observe(false), Resolve(code), Observe(true)];
            After(SILENT, ops).active == map[] && After(SILENT, ops).replayed == {code}
  {
    var raised := SILENT.(active := map[code := text]);
    assert After(SILENT, [Raise(code, text)]) == raised by {
      assert [Raise(code, text)][..0] == [];
    }
    var seen := raised.(replayed := {code});
    assert After(SILENT, [Raise(code, text), Observe(false)]) == seen by {
      assert [Raise(code, text), Observe(false)][..1] == [Raise(code, text)];
    }
    var resolved := seen.(active := map[]);
    assert After(SILENT, [Raise(code, text), Observe(false), Resolve(code)]) == resolved by {
      assert [Raise(code, text), Observe(false), Resolve(code)][..2] == [Raise(code, text), Observe(false)];
      assert seen.active - {code} == map[];
    }
    var ops := [Raise(code, text), Observe(false), Resolve(code), Observe(true)];
    assert ops[..3] == [Raise(code, text), Observe(false), Resolve(code)];
  }
}
