/** Sharing credentials with clients: the leader publishes the relation map, waits until every
    peer acknowledges it by its digest, and only then creates the user and shares the credentials.
    It also keeps PgBouncer's auth function installed in every database that is still in use. */
module Barrier {
  import opened Options
  import opened OrderedDict
  import opened RelationDatabases
  import opened PgbConfig

  // The digest of a map's JSON text; it determines the map, including its order.
  datatype Digest = NoDigest | DigestOf(text: Databases)

  /** What the leader's handlers read and write.  `rendered` lists the maps that the leader's own
      configuration was rendered from, oldest first; `shared` remembers, for every relation that got
      credentials, the map at that time; `usable` are those whose set-up in the backend worked. */
  datatype Leader = Leader(relations: seq<Relation>, databag: Option<Databases>, rendered: seq<Databases>,
                           shared: map<nat, Databases>, usable: set<nat>, installed: set<string>)

  // A peer's rendered maps and acknowledgements, oldest first.
  datatype Peer = Peer(rendered: seq<Databases>, acks: seq<Digest>)

  // The leader learns a legacy relation's database from what it published itself.
  function Visible(s: Leader, r: Relation): Relation {
    if r.legacy && r.id !in s.shared then r.(database := None) else r
  }

  function VisibleAll(s: Leader): seq<Relation> {
    seq(|s.relations|, i requires 0 <= i < |s.relations| => Visible(s, s.relations[i]))
  }

  // The map as the leader generates it from its relations.
  function GeneratedBy(s: Leader): Databases {
    Generated(ByEndpoint(VisibleAll(s)))
  }

  predicate EntitledToAll(r: Relation) {
    if r.legacy then r.admin else r.roles * REQUEST_WILDCARD_ROLES != {}
  }

  // The map that the request of r makes the leader publish.
  function MapWith(s: Leader, r: Relation): Databases
    requires Asks(r)
  {
    var d := Put(GeneratedBy(s), Rel(r.id), EntryOf(r));
    if EntitledToAll(r) then Put(d, Wildcard, Entry("*", false, r.database)) else d
  }

  predicate AllAcknowledge(seen: seq<Digest>, d: Databases) {
    forall p | 0 <= p < |seen| :: seen[p] == DigestOf(d)
  }

  // A request of either kind; `created` says whether the backend accepted user and database.
  function AfterRequest(s: Leader, r: Relation, seen: seq<Digest>, ready: bool, created: bool): Leader
    requires Asks(r)
  {
    if !ready then s
    else
      var d := MapWith(s, r);
      var s1 := s.(databag := Some(d));
      if !AllAcknowledge(seen, d) || (!created && !r.legacy) then s1
      else
        var s2 := s1.(shared := s.shared[r.id := d]);
        if !created then s2
        else
          var s3 := s2.(usable := s.usable + {r.id}, installed := s.installed + {r.database.value});
          if r.legacy then s3 else s3.(rendered := s.rendered + [d])
  }

  function Without(relations: seq<Relation>, id: nat): seq<Relation> {
    if relations == [] then []
    else (if relations[0].id == id then [] else [relations[0]]) + Without(relations[1..], id)
  }

  predicate NameInUse(d: Databases, name: string) {
    exists i :: 0 <= i < |d| && d[i].1.name == name
  }

  // Newer backends skip the removal for long names.
  predicate Removable(oldBackend: bool, name: string) {
    oldBackend || |name| < 50
  }

  function AfterBroken(s: Leader, id: nat, ready: bool, oldBackend: bool): Leader {
    var s0 := s.(relations := Without(s.relations, id));
    if !ready then s0
    else
      var before := if s.databag.Some? then s.databag.value else [];
      var d := Pop(before, Rel(id));
      var s1 := s0.(databag := Some(d));
      match Get(before, Rel(id))
      case None => s1
      case Some(e) =>
        if e.name != "" && !NameInUse(d, e.name) && Removable(oldBackend, e.name)
        then s1.(installed := s.installed - {e.name})
        else s1
  }

  // A peer renders the map it reads and acknowledges it; before the first map is written it
  // renders whatever its old configuration yields and acknowledges the empty map.
  function AfterPeerChanged(p: Peer, databag: Option<Databases>, fallback: Databases): Peer {
    match databag
    case None => Peer(p.rendered + [fallback], p.acks + [DigestOf([])])
    case Some(d) => Peer(p.rendered + [d], p.acks + [DigestOf(d)])
  }

  // ---- The handlers ----

  class LeaderUnit {
    var relations: seq<Relation>
    var databag: Option<Databases>
    var rendered: seq<Databases>
    var shared: map<nat, Databases>
    var usable: set<nat>
    var installed: set<string>

    ghost function State(): Leader
      reads this
    {
      Leader(relations, databag, rendered, shared, usable, installed)
    }

    method PublishMap(r: Relation) returns (d: Databases)
      requires Asks(r)
      modifies this`databag
      ensures d == MapWith(old(State()), r) && databag == Some(d)
    {
      var visible := VisibleAll(Leader(relations, databag, rendered, shared, usable, installed));
      d := GenerateRelationDatabases(OnEndpoint(visible, Db), OnEndpoint(visible, DbAdmin), OnEndpoint(visible, Client));
      d := Put(d, Rel(r.id), EntryOf(r));
      if EntitledToAll(r) {
        d := Put(d, Wildcard, Entry("*", false, r.database));
      }
      databag := Some(d);
    }

    method Synced(seen: seq<Digest>, d: Databases) returns (synced: bool)
      ensures synced <==> AllAcknowledge(seen, d)
    {
      for p := 0 to |seen|
        invariant forall q | 0 <= q < p :: seen[q] == DigestOf(d)
      {
        if seen[p] != DigestOf(d) {
          return false;
        }
      }
      return true;
    }

    method InstallAuthFunction(name: string, oldBackend: bool)
      modifies this`installed
      ensures installed == old(installed) + {name}
    {
      RemoveAuthFunction(name, oldBackend);
      installed := installed + {name};
    }

    method RemoveAuthFunction(name: string, oldBackend: bool)
      modifies this`installed
      ensures installed == if Removable(oldBackend, name) then old(installed) - {name} else old(installed)
    {
      if oldBackend || |name| < 50 {
        installed := installed - {name};
      }
    }

    method OnDatabaseRequested(r: Relation, seen: seq<Digest>, ready: bool, created: bool, oldBackend: bool)
      requires Asks(r) && !r.legacy
      modifies this
      ensures State() == AfterRequest(old(State()), r, seen, ready, created)
    {
      if !ready {
        return;
      }
      var d := PublishMap(r);
      var synced := Synced(seen, d);
      if !synced || !created {
        return;
      }
      InstallAuthFunction(r.database.value, oldBackend);
      rendered := rendered + [d];
      shared := shared[r.id := d];
      usable := usable + {r.id};
    }

    method OnLegacyRelationJoined(r: Relation, seen: seq<Digest>, ready: bool, created: bool, oldBackend: bool)
      requires Asks(r) && r.legacy
      modifies this
      ensures State() == AfterRequest(old(State()), r, seen, ready, created)
    {
      if !ready {
        return;
      }
      var d := PublishMap(r);
      var synced := Synced(seen, d);
      if !synced {
        return;
      }
      shared := shared[r.id := d];
      if !created {
        return;
      }
      InstallAuthFunction(r.database.value, oldBackend);
      usable := usable + {r.id};
    }

    method OnRelationBroken(id: nat, ready: bool, oldBackend: bool)
      modifies this
      ensures State() == AfterBroken(old(State()), id, ready, oldBackend)
    {
      relations := Without(relations, id);
      if !ready {
        return;
      }
      var d := if databag.Some? then databag.value else [];
      var entry := Get(d, Rel(id));
      d := Pop(d, Rel(id));
      databag := Some(d);
      if entry.Some? && entry.value.name != "" && !NameInUse(d, entry.value.name) {
        RemoveAuthFunction(entry.value.name, oldBackend);
      }
    }
  }

  // ---- What one hook does to the map and to the auth functions ----

  lemma {:induction false} VisibleMembers(s: Leader)
    requires DistinctIds(s.relations)
    ensures DistinctIds(ByEndpoint(VisibleAll(s)))
    ensures forall x :: x in ByEndpoint(VisibleAll(s)) <==> exists r :: r in s.relations && x == Visible(s, r)
  {
    var visible := VisibleAll(s);
    assert DistinctIds(visible);
    ByEndpointMembers(visible);
    forall x ensures x in visible <==> exists r :: r in s.relations && x == Visible(s, r) {
      if x in visible {
        var i: nat :| i < |visible| && visible[i] == x;
        assert s.relations[i] in s.relations && x == Visible(s, s.relations[i]);
      }
      if r :| r in s.relations && x == Visible(s, r) {
        var i: nat :| i < |s.relations| && s.relations[i] == r;
        assert visible[i] == x;
      }
    }
  }

  // What the leader generates for one of its relations.
  lemma {:induction false} GeneratedByIsExact(s: Leader, other: Relation)
    requires DistinctIds(s.relations) && other in s.relations
    ensures Get(GeneratedBy(s), Rel(other.id)) ==
              if other.database in {None, Some("")} || (other.legacy && other.id !in s.shared) then None
              else Some(Entry(other.database.value, other.legacy, None))
  {
    VisibleMembers(s);
    var all := ByEndpoint(VisibleAll(s));
    var x := Visible(s, other);
    assert x in all;
    var i: nat :| i < |all| && all[i] == x;
    GeneratedLookup(all, i);
  }

  lemma {:induction false} GeneratedByKnowsNoOther(s: Leader, id: nat)
    requires DistinctIds(s.relations) && forall other | other in s.relations :: other.id != id
    ensures Get(GeneratedBy(s), Rel(id)) == None
  {
    VisibleMembers(s);
    var all := ByEndpoint(VisibleAll(s));
    forall i | 0 <= i < |all| ensures all[i].id != id {
      assert all[i] in all;
    }
    GeneratedListsNothingElse(all, id);
  }

  // A relation whose database the leader knows and that is entitled to all of them.
  ghost predicate KnownToSeeEverything(s: Leader, r: Relation) {
    SeesEverything(r) && (r.legacy ==> r.id in s.shared)
  }

  lemma {:induction false} GeneratedByWildcard(s: Leader)
    requires DistinctIds(s.relations)
    ensures Get(GeneratedBy(s), Wildcard).Some? <==> exists r :: r in s.relations && KnownToSeeEverything(s, r)
  {
    VisibleMembers(s);
    var all := ByEndpoint(VisibleAll(s));
    var id := UnusedId(all);
    GeneratedListsNothingElse(all, id);
    if r :| r in s.relations && KnownToSeeEverything(s, r) {
      assert Visible(s, r) == r && r in all;
      var i: nat :| i < |all| && all[i] == r;
      assert SeesEverything(all[i]);
    }
    if i: nat :| i < |all| && SeesEverything(all[i]) {
      assert all[i] in all;
      var r :| r in s.relations && all[i] == Visible(s, r);
      assert KnownToSeeEverything(s, r);
    }
  }

  lemma {:induction false} UnusedId(relations: seq<Relation>) returns (id: nat)
    ensures forall i | 0 <= i < |relations| :: relations[i].id < id
  {
    id := 0;
    if relations != [] {
      id := UnusedId(relations[..|relations| - 1]);
      var last := relations[|relations| - 1].id;
      id := if last < id then id else last + 1;
    }
  }

  // The roles a request may come with that open every database.
  ghost predicate RequestSeesEverything(r: Relation) {
    if r.legacy then r.admin
    else exists role :: role in r.roles && (OpensEverything(role) || role == "charmed_admin" || role == "charmed_backup")
  }

  lemma EntitledIff(r: Relation)
    ensures EntitledToAll(r) <==> RequestSeesEverything(r)
  {
    assert forall role :: role in REQUEST_WILDCARD_ROLES <==>
        OpensEverything(role) || role == "charmed_admin" || role == "charmed_backup";
    if !r.legacy && EntitledToAll(r) {
      var role :| role in r.roles * REQUEST_WILDCARD_ROLES;
    }
    if !r.legacy && RequestSeesEverything(r) {
      var role :| role in r.roles && (OpensEverything(role) || role == "charmed_admin" || role == "charmed_backup");
      assert role in r.roles * REQUEST_WILDCARD_ROLES;
    }
  }

  /** The map that a request publishes lists the asking relation, every other relation whose database
      the leader knows, and no other id; the wildcard is there exactly when the asking or a known
      relation is entitled to every database. */
  lemma {:induction false} PublishedMapIsExact(s: Leader, r: Relation, id: nat)
    requires DistinctIds(s.relations) && r in s.relations && Asks(r)
    ensures Get(MapWith(s, r), Rel(r.id)) == Some(Entry(r.database.value, r.legacy, None))
    ensures forall other | other in s.relations && other != r ::
              Get(MapWith(s, r), Rel(other.id)) ==
                if other.database in {None, Some("")} || (other.legacy && other.id !in s.shared) then None
                else Some(Entry(other.database.value, other.legacy, None))
    ensures (forall other | other in s.relations :: other.id != id) ==> Get(MapWith(s, r), Rel(id)) == None
    ensures Get(MapWith(s, r), Wildcard).Some? <==>
              RequestSeesEverything(r) || exists other :: other in s.relations && KnownToSeeEverything(s, other)
    ensures RequestSeesEverything(r) ==> Get(MapWith(s, r), Wildcard) == Some(Entry("*", false, r.database))
  {
    EntitledIff(r);
    GeneratedByWildcard(s);
    MapWithReads(s, r, Wildcard);
    MapWithReads(s, r, Rel(r.id));
    MapWithReads(s, r, Rel(id));
    forall other | other in s.relations && other != r
      ensures Get(MapWith(s, r), Rel(other.id)) ==
                if other.database in {None, Some("")} || (other.legacy && other.id !in s.shared) then None
                else Some(Entry(other.database.value, other.legacy, None))
    {
      GeneratedByIsExact(s, other);
      MapWithReads(s, r, Rel(other.id));
    }
    if forall other | other in s.relations :: other.id != id {
      GeneratedByKnowsNoOther(s, id);
    }
  }

  lemma {:induction false} MapWithReads(s: Leader, r: Relation, k: Key)
    requires Asks(r)
    ensures Get(MapWith(s, r), k) ==
              if k == Rel(r.id) then Some(EntryOf(r))
              else if k == Wildcard && EntitledToAll(r) then Some(Entry("*", false, r.database))
              else Get(GeneratedBy(s), k)
  {
    var g := GeneratedBy(s);
    GetAfterPut(g, Rel(r.id), EntryOf(r), k);
    GetAfterPut(Put(g, Rel(r.id), EntryOf(r)), Wildcard, Entry("*", false, r.database), k);
  }

  // The names that the map's entries use.
  ghost predicate Uses(d: Databases, k: Key, name: string) {
    Get(d, k).Some? && Get(d, k).value.name == name
  }

  lemma {:induction false} NameInUseIff(d: Databases, name: string)
    requires DistinctKeys(d)
    ensures NameInUse(d, name) <==> exists k :: Uses(d, k, name)
  {
    if i :| 0 <= i < |d| && d[i].1.name == name {
      GetOfEntry(d, d[i].0, d[i].1);
      assert Uses(d, d[i].0, name);
    }
    if k :| Uses(d, k, name) {
      Present(d, k);
    }
  }

  /** A broken relation leaves the map, where all else reads as before, and its auth function goes
      exactly when no other entry has the name and the backend removes functions of such names. */
  lemma {:induction false} BrokenRelationLeaves(s: Leader, id: nat, oldBackend: bool)
    requires DistinctIds(s.relations) && (s.databag.Some? ==> DistinctKeys(s.databag.value))
    ensures var s' := AfterBroken(s, id, true, oldBackend);
            var before := if s.databag.Some? then s.databag.value else [];
            && (forall r :: r in s'.relations <==> r in s.relations && r.id != id)
            && s'.databag.Some? && Get(s'.databag.value, Rel(id)) == None
            && (forall k | k != Rel(id) :: Get(s'.databag.value, k) == Get(before, k))
            && (forall name :: name in s'.installed <==>
                  name in s.installed
                  && !(name != "" && Uses(before, Rel(id), name) && (oldBackend || |name| < 50)
                       && !exists k :: k != Rel(id) && Uses(before, k, name)))
            && s'.shared == s.shared && s'.usable == s.usable && s'.rendered == s.rendered
  {
    var before := if s.databag.Some? then s.databag.value else [];
    var d := Pop(before, Rel(id));
    WithoutMembers(s.relations, id);
    forall k ensures Get(d, k) == if k == Rel(id) then None else Get(before, k) {
      GetAfterPop(before, Rel(id), k);
    }
    PopKeepsDistinct(before, Rel(id));
    if Get(before, Rel(id)).Some? {
      var name := Get(before, Rel(id)).value.name;
      NameInUseIff(d, name);
      assert forall k :: Uses(d, k, name) <==> k != Rel(id) && Uses(before, k, name);
    }
  }

  /** Without a backend the hook only forgets the relation. */
  lemma BrokenWithoutBackend(s: Leader, id: nat, oldBackend: bool)
    ensures AfterBroken(s, id, false, oldBackend) == s.(relations := Without(s.relations, id))
  {
  }

  // ---- Whole runs ----

  datatype World = World(leader: Leader, versions: seq<Option<Databases>>, peers: seq<Peer>, used: set<nat>)

  datatype Event =
    | RelationAppears(r: Relation)
    | RequestHook(r: Relation, seen: seq<Digest>, ready: bool, created: bool)
    | PeerHook(peer: nat, version: nat, fallback: Databases)
    | BrokenHook(id: nat, ready: bool, oldBackend: bool)

  /** Relation ids are never used twice.  The leader may see an old acknowledgement of a peer, and
      a peer may read an old version of the map. */
  predicate Allowed(w: World, e: Event) {
    match e
    case RelationAppears(r) => r.id !in w.used
    case RequestHook(r, seen, _, _) =>
      && r in w.leader.relations && Asks(r)
      && |seen| == |w.peers|
      && forall p | 0 <= p < |seen| :: seen[p] == NoDigest || seen[p] in w.peers[p].acks
    case PeerHook(p, version, _) => p < |w.peers| && version < |w.versions|
    case BrokenHook(_, _, _) => true
  }

  function WithLeader(w: World, s: Leader): World {
    w.(leader := s, versions := w.versions + [s.databag])
  }

  function Next(w: World, e: Event): World
    requires Allowed(w, e)
  {
    match e
    case RelationAppears(r) =>
      w.(leader := w.leader.(relations := w.leader.relations + [r]), used := w.used + {r.id})
    case RequestHook(r, seen, ready, created) => WithLeader(w, AfterRequest(w.leader, r, seen, ready, created))
    case BrokenHook(id, ready, oldBackend) => WithLeader(w, AfterBroken(w.leader, id, ready, oldBackend))
    case PeerHook(p, version, fallback) =>
      w.(peers := w.peers[p := AfterPeerChanged(w.peers[p], w.versions[version], fallback)])
  }

  ghost predicate Initial(w: World) {
    && w.leader.relations == [] && w.leader.databag == None
    && w.leader.shared == map[] && w.leader.usable == {}
    && w.versions == [None]
    && w.used == {}
    && forall p | 0 <= p < |w.peers| :: w.peers[p].acks == []
  }

  ghost predicate AcksRendered(p: Peer) {
    forall d | DigestOf(d) in p.acks :: d == [] || d in p.rendered
  }

  // Every peer rendered the map under which the relation got its credentials.
  ghost predicate SharedSafely(w: World, id: nat) {
    id in w.leader.shared && forall p | 0 <= p < |w.peers| :: w.leader.shared[id] in w.peers[p].rendered
  }

  ghost predicate Listed(d: Databases, r: Relation) {
    Asks(r) && Get(d, Rel(r.id)) == Some(EntryOf(r))
  }

  ghost predicate InUse(s: Leader, r: Relation) {
    && s.databag.Some? && Listed(s.databag.value, r)
    && r.database.value in s.installed
  }

  ghost predicate LeaderFits(s: Leader) {
    && DistinctIds(s.relations)
    && s.usable <= s.shared.Keys
    && (forall r | r in s.relations && r.id in s.shared && !r.legacy ::
          r.id in s.usable && s.shared[r.id] in s.rendered)
    && (s.databag.Some? ==> DistinctKeys(s.databag.value))
    && (forall r | r in s.relations && r.id in s.shared :: Listed(s.shared[r.id], r))
    && (forall r | r in s.relations && r.id in s.usable :: InUse(s, r))
  }

  ghost predicate Inv(w: World) {
    && LeaderFits(w.leader)
    && (forall r | r in w.leader.relations :: r.id in w.used)
    && w.leader.shared.Keys <= w.used
    && (forall p | 0 <= p < |w.peers| :: AcksRendered(w.peers[p]))
    && (forall id | id in w.leader.shared :: SharedSafely(w, id))
  }

  lemma {:induction false} MapWithLists(s: Leader, r: Relation, other: Relation)
    requires DistinctIds(s.relations) && r in s.relations && Asks(r)
    requires other == r || (other in s.relations && Asks(other) && (other.legacy ==> other.id in s.shared))
    ensures Listed(MapWith(s, r), other) && DistinctKeys(MapWith(s, r))
  {
    var g := GeneratedBy(s);
    var d := Put(g, Rel(r.id), EntryOf(r));
    GeneratedDistinct(ByEndpoint(VisibleAll(s)));
    PutKeepsDistinct(g, Rel(r.id), EntryOf(r));
    PutKeepsDistinct(d, Wildcard, Entry("*", false, r.database));
    GetAfterPut(g, Rel(r.id), EntryOf(r), Rel(other.id));
    GetAfterPut(d, Wildcard, Entry("*", false, r.database), Rel(other.id));
    if other != r {
      GeneratedByLists(s, other);
    }
  }

  lemma {:induction false} GeneratedByLists(s: Leader, r: Relation)
    requires DistinctIds(s.relations) && r in s.relations && Asks(r) && (r.legacy ==> r.id in s.shared)
    ensures Listed(GeneratedBy(s), r)
  {
    var visible := VisibleAll(s);
    assert DistinctIds(visible);
    ByEndpointMembers(visible);
    var k :| 0 <= k < |s.relations| && s.relations[k] == r;
    assert visible[k] == r && r in visible;
    assert r in ByEndpoint(visible);
    var i :| 0 <= i < |ByEndpoint(visible)| && ByEndpoint(visible)[i] == r;
    GeneratedLookup(ByEndpoint(visible), i);
  }

  lemma {:induction false} WithoutMembers(relations: seq<Relation>, id: nat)
    requires DistinctIds(relations)
    ensures DistinctIds(Without(relations, id))
    ensures forall r :: r in Without(relations, id) <==> r in relations && r.id != id
  {
    if relations != [] {
      WithoutMembers(relations[1..], id);
      assert relations == [relations[0]] + relations[1..];
      var rest := Without(relations[1..], id);
      forall i | 0 <= i < |rest| ensures rest[i].id != relations[0].id {
        assert rest[i] in relations[1..];
      }
    }
  }

  lemma {:induction false} RequestKeepsLeader(s: Leader, r: Relation, seen: seq<Digest>, ready: bool, created: bool)
    requires LeaderFits(s) && r in s.relations && Asks(r)
    ensures LeaderFits(AfterRequest(s, r, seen, ready, created))
  {
    MapWithLists(s, r, r);
    forall other | other in s.relations && other.id in s.usable ensures Listed(MapWith(s, r), other) {
      assert InUse(s, other);
      MapWithLists(s, r, other);
    }
    forall other | other in s.relations && other.id == r.id ensures other == r {
    }
  }

  lemma {:induction false} BrokenKeepsLeader(s: Leader, id: nat, ready: bool, oldBackend: bool)
    requires LeaderFits(s)
    ensures LeaderFits(AfterBroken(s, id, ready, oldBackend))
  {
    WithoutMembers(s.relations, id);
    if ready && s.databag.Some? {
      var d := s.databag.value;
      PopKeepsDistinct(d, Rel(id));
      forall r | r in s.relations && r.id != id && r.id in s.usable
        ensures InUse(AfterBroken(s, id, ready, oldBackend), r)
      {
        assert InUse(s, r);
        GetAfterPop(d, Rel(id), Rel(r.id));
        Present(Pop(d, Rel(id)), Rel(r.id));
        assert NameInUse(Pop(d, Rel(id)), r.database.value);
      }
    }
  }

  lemma {:induction false} RequestKeepsInv(w: World, e: Event)
    requires Inv(w) && Allowed(w, e) && e.RequestHook?
    ensures Inv(Next(w, e))
  {
    var s, s' := w.leader, Next(w, e).leader;
    RequestKeepsLeader(s, e.r, e.seen, e.ready, e.created);
    MapWithLists(s, e.r, e.r);
    var d := MapWith(s, e.r);
    assert d != [];
    forall id | id in s'.shared ensures SharedSafely(Next(w, e), id) {
      if s'.shared == s.shared {
        assert SharedSafely(w, id);
      } else if id == e.r.id {
        assert forall p | 0 <= p < |w.peers| :: AcksRendered(w.peers[p]) && e.seen[p] == DigestOf(d);
      } else {
        assert SharedSafely(w, id);
      }
    }
  }

  lemma {:induction false} PeerKeepsInv(w: World, e: Event)
    requires Inv(w) && Allowed(w, e) && e.PeerHook?
    ensures Inv(Next(w, e))
  {
    var w' := Next(w, e);
    forall p | 0 <= p < |w'.peers| ensures AcksRendered(w'.peers[p]) {
      assert AcksRendered(w.peers[p]);
    }
    forall id | id in w.leader.shared ensures SharedSafely(w', id) {
      assert SharedSafely(w, id);
    }
  }

  lemma {:induction false} StepKeepsInv(w: World, e: Event)
    requires Inv(w) && Allowed(w, e)
    ensures Inv(Next(w, e))
  {
    match e
    case RelationAppears(r) =>
      forall id | id in w.leader.shared ensures SharedSafely(Next(w, e), id) {
        assert SharedSafely(w, id);
      }
      forall other | other in w.leader.relations && other.id in w.leader.usable ensures InUse(Next(w, e).leader, other) {
        assert InUse(w.leader, other);
      }
    case RequestHook(_, _, _, _) => RequestKeepsInv(w, e);
    case PeerHook(_, _, _) => PeerKeepsInv(w, e);
    case BrokenHook(id, ready, oldBackend) =>
      BrokenKeepsLeader(w.leader, id, ready, oldBackend);
      WithoutMembers(w.leader.relations, id);
      forall k | k in w.leader.shared ensures SharedSafely(Next(w, e), k) {
        assert SharedSafely(w, k);
      }
  }

  ghost predicate Run(w: World, events: seq<Event>, last: World)
    decreases |events|
  {
    if events == [] then w == last
    else Allowed(w, events[0]) && Run(Next(w, events[0]), events[1..], last)
  }

  lemma {:induction false} RunKeepsInv(w: World, events: seq<Event>, last: World)
    requires Inv(w) && Run(w, events, last)
    ensures Inv(last)
    decreases |events|
  {
    if events != [] {
      StepKeepsInv(w, events[0]);
      RunKeepsInv(Next(w, events[0]), events[1..], last);
    }
  }

  /** The credential barrier: whenever a live relation has credentials, every peer has at some
      point rendered the map under which they were shared, so has the leader for a new-style
      relation, and that map serves every name the client is told to connect to. */
  lemma {:induction false} CredentialBarrier(w: World, events: seq<Event>, last: World, r: Relation, p: nat, b: Backend)
    requires Initial(w) && Run(w, events, last)
    requires r in last.leader.relations && r.id in last.leader.shared && p < |last.peers|
    ensures var d := last.leader.shared[r.id];
            && d in last.peers[p].rendered
            && (!r.legacy ==> d in last.leader.rendered)
            && Listed(d, r)
            && (r.database.value != "*" ==>
                  && UriName(r.database.value) in ConfigFor(d, Some(b))
                  && ReadOnlyUriName(r.database.value) in ConfigFor(d, Some(b))
                  && (r.legacy ==> StandbyName(r.database.value) in ConfigFor(d, Some(b))))
  {
    RunKeepsInv(w, events, last);
    var d := last.leader.shared[r.id];
    assert SharedSafely(last, r.id);
    assert Listed(d, r);
    if r.database.value != "*" {
      AdvertisedNamesAreServed(d, Rel(r.id), EntryOf(r), b);
    }
  }

  /** A ready request publishes its map.  It shares credentials, under that map, exactly when every
      peer's acknowledgement of it was seen and, for a new-style relation, the backend accepted the
      request; the auth function is installed, and the leader's own configuration of a new-style
      relation rendered, exactly when the backend accepted it too.  No other relation's credentials
      and no other auth function change. */
  lemma {:induction false} SharesIffSynced(s: Leader, r: Relation, seen: seq<Digest>, ready: bool, created: bool)
    requires Asks(r)
    ensures var s' := AfterRequest(s, r, seen, ready, created);
            var synced := ready && s'.databag.Some? && forall p | 0 <= p < |seen| :: seen[p] == DigestOf(s'.databag.value);
            && s'.relations == s.relations
            && s'.databag == (if ready then Some(MapWith(s, r)) else s.databag)
            && s'.shared == (if synced && (created || r.legacy) then s.shared[r.id := s'.databag.value] else s.shared)
            && s'.usable == (if synced && created then s.usable + {r.id} else s.usable)
            && s'.installed == (if synced && created then s.installed + {r.database.value} else s.installed)
            && s'.rendered == (if synced && created && !r.legacy then s.rendered + [s'.databag.value] else s.rendered)
  {
  }

  // ---- A removed relation stays removed ----

  ghost predicate GoneFrom(s: Leader, id: nat) {
    && (forall r | r in s.relations :: r.id != id)
    && (s.databag.Some? ==> Get(s.databag.value, Rel(id)) == None)
  }

  // Ids are not used again.
  ghost predicate Gone(w: World, id: nat) {
    id in w.used && GoneFrom(w.leader, id)
  }

  lemma {:induction false} BrokenMap(s: Leader, id: nat, oldBackend: bool, k: Key)
    requires s.databag.Some? ==> DistinctKeys(s.databag.value)
    ensures var s' := AfterBroken(s, id, true, oldBackend);
            var before := if s.databag.Some? then s.databag.value else [];
            && s'.relations == Without(s.relations, id)
            && s'.databag.Some? && Get(s'.databag.value, k) == if k == Rel(id) then None else Get(before, k)
  {
    GetAfterPop(if s.databag.Some? then s.databag.value else [], Rel(id), k);
  }

  lemma {:induction false} BrokenMakesGone(s: Leader, id: nat, oldBackend: bool)
    requires LeaderFits(s)
    ensures GoneFrom(AfterBroken(s, id, true, oldBackend), id)
  {
    WithoutMembers(s.relations, id);
    BrokenMap(s, id, oldBackend, Rel(id));
  }

  lemma {:induction false} BrokenKeepsGone(s: Leader, other: nat, ready: bool, oldBackend: bool, id: nat)
    requires LeaderFits(s) && GoneFrom(s, id)
    ensures GoneFrom(AfterBroken(s, other, ready, oldBackend), id)
  {
    WithoutMembers(s.relations, other);
    if ready {
      BrokenMap(s, other, oldBackend, Rel(id));
    }
  }

  lemma {:induction false} RequestKeepsGone(s: Leader, r: Relation, seen: seq<Digest>, ready: bool, created: bool, id: nat)
    requires LeaderFits(s) && GoneFrom(s, id) && r in s.relations && Asks(r)
    ensures GoneFrom(AfterRequest(s, r, seen, ready, created), id)
  {
    MapWithReads(s, r, Rel(id));
    GeneratedByKnowsNoOther(s, id);
  }

  lemma {:induction false} StepKeepsGone(w: World, e: Event, id: nat)
    requires LeaderFits(w.leader) && Gone(w, id) && Allowed(w, e)
    ensures Gone(Next(w, e), id)
  {
    match e
    case RequestHook(r, seen, ready, created) => RequestKeepsGone(w.leader, r, seen, ready, created, id);
    case BrokenHook(other, ready, oldBackend) => BrokenKeepsGone(w.leader, other, ready, oldBackend, id);
    case _ =>
  }

  // A hook publishes what it leaves in the databag, or nothing.
  lemma VersionsGrow(w: World, e: Event)
    requires Allowed(w, e)
    ensures var w' := Next(w, e); w'.versions == w.versions || w'.versions == w.versions + [w'.leader.databag]
    ensures w.leader.databag.Some? ==> Next(w, e).leader.databag.Some?
  {
  }

  lemma {:induction false} GoneStaysGone(w: World, events: seq<Event>, last: World, id: nat)
    requires Inv(w) && Gone(w, id) && Run(w, events, last)
    ensures |w.versions| <= |last.versions|
    ensures forall i | |w.versions| <= i < |last.versions| ::
              last.versions[i].Some? ==> Get(last.versions[i].value, Rel(id)) == None
    ensures last.versions[..|w.versions|] == w.versions
    decreases |events|
  {
    if events != [] {
      var next := Next(w, events[0]);
      StepKeepsInv(w, events[0]);
      StepKeepsGone(w, events[0], id);
      VersionsGrow(w, events[0]);
      GoneStaysGone(next, events[1..], last, id);
      assert w.versions == next.versions[..|w.versions|] == last.versions[..|next.versions|][..|w.versions|];
      forall i | |w.versions| <= i < |last.versions|
        ensures last.versions[i].Some? ==> Get(last.versions[i].value, Rel(id)) == None
      {
        if i < |next.versions| {
          assert last.versions[i] == last.versions[..|next.versions|][i] == next.leader.databag;
        }
      }
    }
  }

  /** Once a relation broke with the backend ready, no map published from then on lists it. */
  lemma {:induction false} RemovedStaysRemoved(start: World, before: seq<Event>, w: World, id: nat, oldBackend: bool,
                                               after: seq<Event>, last: World)
    requires Initial(start) && Run(start, before, w) && id in w.used
    requires Run(Next(w, BrokenHook(id, true, oldBackend)), after, last)
    ensures |w.versions| < |last.versions|
    ensures forall i | |w.versions| <= i < |last.versions| ::
              last.versions[i].Some? && Get(last.versions[i].value, Rel(id)) == None
  {
    RunKeepsInv(start, before, w);
    AfterRemoval(w, id, oldBackend);
    LastVersionOn(Next(w, BrokenHook(id, true, oldBackend)), |w.versions|, after, last, id);
  }

  // From the version just published on.
  lemma {:induction false} LastVersionOn(w: World, n: nat, events: seq<Event>, last: World, id: nat)
    requires Inv(w) && Gone(w, id) && Run(w, events, last)
    requires w.leader.databag.Some? && |w.versions| == n + 1 && w.versions[n] == w.leader.databag
    ensures n < |last.versions|
    ensures forall i | n <= i < |last.versions| ::
              last.versions[i].Some? && Get(last.versions[i].value, Rel(id)) == None
  {
    GoneStaysGone(w, events, last, id);
    StaysPublished(w, events, last);
    assert last.versions[n] == last.versions[..n + 1][n] == w.leader.databag;
  }

  lemma {:induction false} AfterRemoval(w: World, id: nat, oldBackend: bool)
    requires Inv(w) && id in w.used
    ensures var next := Next(w, BrokenHook(id, true, oldBackend));
            Inv(next) && Gone(next, id) && next.leader.databag.Some? && next.versions == w.versions + [next.leader.databag]
  {
    StepKeepsInv(w, BrokenHook(id, true, oldBackend));
    BrokenMakesGone(w.leader, id, oldBackend);
    BrokenMap(w.leader, id, oldBackend, Rel(id));
  }

  // Once a map was published, every later version is a map.
  lemma {:induction false} StaysPublished(w: World, events: seq<Event>, last: World)
    requires w.leader.databag.Some? && Run(w, events, last)
    ensures |w.versions| <= |last.versions| && last.versions[..|w.versions|] == w.versions
    ensures forall i | |w.versions| <= i < |last.versions| :: last.versions[i].Some?
    decreases |events|
  {
    if events != [] {
      var next := Next(w, events[0]);
      VersionsGrow(w, events[0]);
      StaysPublished(next, events[1..], last);
      assert forall i | 0 <= i < |next.versions| :: last.versions[..|next.versions|][i] == last.versions[i];
    }
  }

  // ---- The barrier opens ----

  /** A peer that reads a map renders it and acknowledges it, after all it acknowledged before. */
  lemma PeerAcknowledges(p: Peer, d: Databases, fallback: Databases)
    ensures var p' := AfterPeerChanged(p, Some(d), fallback);
            p'.rendered == p.rendered + [d] && p'.acks == p.acks + [DigestOf(d)]
    ensures AfterPeerChanged(p, None, fallback) == Peer(p.rendered + [fallback], p.acks + [DigestOf([])])
  {
  }

  ghost predicate HaveAcknowledged(w: World, from: nat, d: Databases) {
    forall p | from <= p < |w.peers| :: DigestOf(d) in w.peers[p].acks
  }

  lemma {:induction false} RunsJoin(w: World, a: seq<Event>, mid: World, b: seq<Event>, last: World)
    requires Run(w, a, mid) && Run(mid, b, last)
    ensures Run(w, a + b, last)
    decreases |a|
  {
    if a == [] {
      assert a + b == b;
    } else {
      assert (a + b)[1..] == a[1..] + b;
      RunsJoin(Next(w, a[0]), a[1..], mid, b, last);
    }
  }

  // Every peer from some point on reads one version of the map.
  lemma {:induction false} PeersCatchUp(w: World, version: nat, d: Databases, n: nat) returns (events: seq<Event>, last: World)
    requires version < |w.versions| && w.versions[version] == Some(d) && n <= |w.peers|
    ensures Run(w, events, last) && last == w.(peers := last.peers) && |last.peers| == |w.peers|
    ensures forall p | 0 <= p < n :: DigestOf(d) in last.peers[p].acks
  {
    if n == 0 {
      events, last := [], w;
    } else {
      var mid;
      events, mid := PeersCatchUp(w, version, d, n - 1);
      var e := PeerHook(n - 1, version, []);
      PeerAcknowledges(mid.peers[n - 1], d, []);
      last := Next(mid, e);
      assert Run(last, [], last) && [e][1..] == [];
      assert Run(mid, [e], last);
      RunsJoin(w, events, mid, [e], last);
      events := events + [e];
    }
  }

  lemma MapFollowsRelations(s: Leader, s': Leader, r: Relation)
    requires Asks(r) && s.relations == s'.relations && s.shared == s'.shared
    ensures MapWith(s, r) == MapWith(s', r)
  {
    assert VisibleAll(s) == VisibleAll(s');
  }

  // A request that nobody has acknowledged yet only publishes its map.
  lemma {:induction false} FirstRequest(w: World, r: Relation) returns (e: Event, w': World)
    requires r in w.leader.relations && Asks(r)
    ensures Allowed(w, e) && w' == Next(w, e)
    ensures w'.versions == w.versions + [Some(MapWith(w.leader, r))] && w'.peers == w.peers
    ensures w'.leader.relations == w.leader.relations
    ensures w.peers != [] ==> MapWith(w'.leader, r) == MapWith(w.leader, r)
  {
    e := RequestHook(r, seq(|w.peers|, i => NoDigest), true, false);
    w' := Next(w, e);
    SharesIffSynced(w.leader, r, e.seen, true, false);
    if w.peers != [] {
      assert e.seen[0] != DigestOf(MapWith(w.leader, r));
      MapFollowsRelations(w.leader, w'.leader, r);
    }
  }

  // A request that every peer has acknowledged is served.
  lemma {:induction false} LastRequest(w: World, r: Relation) returns (e: Event, w': World)
    requires r in w.leader.relations && Asks(r)
    requires forall p | 0 <= p < |w.peers| :: DigestOf(MapWith(w.leader, r)) in w.peers[p].acks
    ensures Allowed(w, e) && w' == Next(w, e)
    ensures r.id in w'.leader.shared && r.id in w'.leader.usable && r.database.value in w'.leader.installed
  {
    var d := MapWith(w.leader, r);
    e := RequestHook(r, seq(|w.peers|, i => DigestOf(d)), true, true);
    w' := Next(w, e);
    SharesIffSynced(w.leader, r, e.seen, true, true);
  }

  lemma StepIsRun(w: World, e: Event)
    requires Allowed(w, e)
    ensures Run(w, [e], Next(w, e))
  {
    assert [e][1..] == [];
  }

  /** The barrier never blocks for good: in every state, a live relation that asks for a database gets
      its credentials and its auth function after its request was published, every peer has read the
      map and the request is repeated. */
  lemma {:induction false} RequestCanBeServed(w: World, r: Relation) returns (events: seq<Event>, last: World)
    requires r in w.leader.relations && Asks(r)
    ensures Run(w, events, last)
    ensures r.id in last.leader.shared && r.id in last.leader.usable && r.database.value in last.leader.installed
  {
    var first, published := FirstRequest(w, r);
    var steps, read := PeersCatchUp(published, |w.versions|, MapWith(w.leader, r), |w.peers|);
    var again;
    again, last := LastRequest(read, r);
    StepIsRun(w, first);
    StepIsRun(read, again);
    RunsJoin(published, steps, read, [again], last);
    RunsJoin(w, [first], published, steps + [again], last);
    events := [first] + (steps + [again]);
  }

  /** Auth-function reference counting: whatever requests, deferrals and removals happened, every
      live relation that has credentials and, if it is a legacy one, whose set-up worked, finds the
      auth function in its database. */
  lemma {:induction false} AuthFunctionStaysInstalled(w: World, events: seq<Event>, last: World, r: Relation)
    requires Initial(w) && Run(w, events, last)
    requires r in last.leader.relations && r.id in last.leader.shared
    requires r.legacy ==> r.id in last.leader.usable
    ensures Asks(r) && r.database.value in last.leader.installed
  {
    RunKeepsInv(w, events, last);
    assert InUse(last.leader, r);
  }

  /** A legacy relation gets its credentials before the backend is asked, so it may have them
      without the auth function: it has the function if and only if the set-up worked now or the
      function was there already. */
  lemma {:induction false} LegacySharesBeforeSetUp(s: Leader, r: Relation, seen: seq<Digest>, created: bool)
    requires Asks(r) && r.legacy && AllAcknowledge(seen, MapWith(s, r))
    ensures var s' := AfterRequest(s, r, seen, true, created);
            && r.id in s'.shared
            && (r.database.value in s'.installed <==> created || r.database.value in s.installed)
  {
  }

  /** Such a run: without peers to wait for, the first request of a legacy relation whose set-up
      fails shares credentials for a database that has no auth function. */
  lemma {:induction false} LegacySharesInVain(w: World, r: Relation)
    requires Initial(w) && w.peers == [] && w.leader.installed == {}
    requires r.legacy && Asks(r)
    ensures var events := [RelationAppears(r), RequestHook(r, [], true, false)];
            exists last :: Run(w, events, last) && r in last.leader.relations && r.id in last.leader.shared
                           && r.database.value !in last.leader.installed
  {
    var events := [RelationAppears(r), RequestHook(r, [], true, false)];
    var mid := Next(w, events[0]);
    assert Allowed(mid, events[1]);
    var last := Next(mid, events[1]);
    assert events[1..] == [events[1]] && [events[1]][1..] == [];
    assert Run(mid, [events[1]], last);
  }
}
