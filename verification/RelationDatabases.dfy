/** The map from relations to databases that the leader writes for its peers, and the PgBouncer
    configuration every unit derives from it. */
module RelationDatabases {
  import opened Options
  import opened OrderedDict

  datatype Key = Rel(id: nat) | Wildcard

  datatype Entry = Entry(name: string, legacy: bool, authDbname: Option<string>)

  type Databases = Dict<Key, Entry>

  // A relation of one of the three endpoints, and the database it asks for, if any.
  datatype Relation = Relation(id: nat, database: Option<string>, legacy: bool, admin: bool, roles: set<string>)

  const GENERATE_WILDCARD_ROLES: set<string> :=
    {"admin", "superuser", "createdb", "charmed_databases_owner", "charmed_dba", "charmed_dml", "charmed_read", "charmed_stats"}

  const REQUEST_WILDCARD_ROLES: set<string> := GENERATE_WILDCARD_ROLES + {"charmed_admin", "charmed_backup"}

  predicate Asks(r: Relation) {
    r.database.Some? && r.database.value != ""
  }

  function EntryOf(r: Relation): Entry
    requires Asks(r)
  {
    Entry(r.database.value, r.legacy, None)
  }

  predicate AddsWildcard(r: Relation) {
    if r.legacy then r.admin && Asks(r) else r.roles * GENERATE_WILDCARD_ROLES != {}
  }

  // What the leader has collected part of the way through its relations.
  datatype Collected = Collected(databases: Databases, wildcard: bool, database: Option<string>)

  const NOTHING := Collected([], false, None)

  function Collect(c: Collected, r: Relation): Collected {
    Collected(if Asks(r) then Put(c.databases, Rel(r.id), EntryOf(r)) else c.databases,
              c.wildcard || AddsWildcard(r), r.database)
  }

  function CollectAll(c: Collected, relations: seq<Relation>): Collected {
    if relations == [] then c
    else Collect(CollectAll(c, relations[..|relations| - 1]), relations[|relations| - 1])
  }

  function WithRelations(relations: seq<Relation>): Databases {
    CollectAll(NOTHING, relations).databases
  }

  // The wildcard entry authenticates against the database of whichever relation came last.
  function WithWildcard(c: Collected): Databases {
    if c.wildcard then Put(c.databases, Wildcard, Entry("*", false, c.database)) else c.databases
  }

  function Generated(relations: seq<Relation>): Databases {
    WithWildcard(CollectAll(NOTHING, relations))
  }

  lemma {:induction false} CollectInTwoParts(c: Collected, xs: seq<Relation>, ys: seq<Relation>)
    ensures CollectAll(c, xs + ys) == CollectAll(CollectAll(c, xs), ys)
  {
    if ys == [] {
      assert xs + ys == xs;
    } else {
      var n := |ys| - 1;
      assert (xs + ys)[..|xs + ys| - 1] == xs + ys[..n];
      CollectInTwoParts(c, xs, ys[..n]);
    }
  }

  predicate DistinctIds(relations: seq<Relation>) {
    forall i, j | 0 <= i < j < |relations| :: relations[i].id != relations[j].id
  }

  /** The map lists exactly the relations that ask for a database, each with its own name. */
  lemma {:induction false} GeneratedLookup(relations: seq<Relation>, i: nat)
    requires DistinctIds(relations) && i < |relations|
    ensures var r := relations[i];
            Get(Generated(relations), Rel(r.id)) ==
              if r.database in {None, Some("")} then None else Some(Entry(r.database.value, r.legacy, None))
  {
    WithRelationsLookup(relations, i);
    var c := CollectAll(NOTHING, relations);
    GetAfterPut(c.databases, Wildcard, Entry("*", false, c.database), Rel(relations[i].id));
  }

  lemma {:induction false} WithRelationsLookup(relations: seq<Relation>, i: nat)
    requires DistinctIds(relations) && i < |relations|
    ensures Get(WithRelations(relations), Rel(relations[i].id)) ==
              if Asks(relations[i]) then Some(EntryOf(relations[i])) else None
  {
    var n := |relations| - 1;
    var last := relations[n];
    if Asks(last) {
      GetAfterPut(WithRelations(relations[..n]), Rel(last.id), EntryOf(last), Rel(relations[i].id));
    }
    if i < n {
      WithRelationsLookup(relations[..n], i);
    } else {
      WithRelationsUnknown(relations[..n], Rel(last.id));
    }
  }

  lemma {:induction false} WithRelationsUnknown(relations: seq<Relation>, k: Key)
    requires forall i | 0 <= i < |relations| :: Rel(relations[i].id) != k
    ensures Get(WithRelations(relations), k) == None
  {
    if relations != [] {
      var n := |relations| - 1;
      WithRelationsUnknown(relations[..n], k);
      if Asks(relations[n]) {
        GetAfterPut(WithRelations(relations[..n]), Rel(relations[n].id), EntryOf(relations[n]), k);
      }
    }
  }

  // Entitled to every database: an admin of a legacy database, or a client with a role of that kind.
  ghost predicate SeesEverything(r: Relation) {
    if r.legacy then r.admin && r.database.Some? && r.database.value != ""
    else exists role :: role in r.roles && OpensEverything(role)
  }

  predicate OpensEverything(role: string) {
    || role == "admin" || role == "superuser" || role == "createdb" || role == "charmed_databases_owner"
    || role == "charmed_dba" || role == "charmed_dml" || role == "charmed_read" || role == "charmed_stats"
  }

  /** Nothing else is listed, and the wildcard is there exactly when some relation is entitled to
      every database; it authenticates against the database of the relation that comes last. */
  lemma {:induction false} GeneratedListsNothingElse(relations: seq<Relation>, id: nat)
    requires forall i | 0 <= i < |relations| :: relations[i].id != id
    ensures Get(Generated(relations), Rel(id)) == None
    ensures Get(Generated(relations), Wildcard) ==
              if exists i :: 0 <= i < |relations| && SeesEverything(relations[i])
              then Some(Entry("*", false, relations[|relations| - 1].database)) else None
  {
    var c := CollectAll(NOTHING, relations);
    WithRelationsUnknown(relations, Rel(id));
    WithRelationsUnknown(relations, Wildcard);
    GetAfterPut(c.databases, Wildcard, Entry("*", false, c.database), Rel(id));
    GetAfterPut(c.databases, Wildcard, Entry("*", false, c.database), Wildcard);
    WildcardIffEntitled(relations);
  }

  lemma {:induction false} WildcardIffEntitled(relations: seq<Relation>)
    ensures CollectAll(NOTHING, relations).wildcard <==> exists i :: 0 <= i < |relations| && SeesEverything(relations[i])
  {
    if relations != [] {
      WildcardIffEntitled(relations[..|relations| - 1]);
      SeesEverythingAdds(relations[|relations| - 1]);
    }
  }

  lemma SeesEverythingAdds(r: Relation)
    ensures AddsWildcard(r) <==> SeesEverything(r)
  {
    assert forall role :: role in GENERATE_WILDCARD_ROLES <==> OpensEverything(role);
    if !r.legacy && AddsWildcard(r) {
      var role :| role in r.roles * GENERATE_WILDCARD_ROLES;
    }
    if !r.legacy && SeesEverything(r) {
      var role :| role in r.roles && OpensEverything(role);
      assert role in r.roles * GENERATE_WILDCARD_ROLES;
    }
  }

  lemma {:induction false} GeneratedDistinct(relations: seq<Relation>)
    ensures DistinctKeys(Generated(relations))
  {
    WithRelationsDistinct(relations);
    var c := CollectAll(NOTHING, relations);
    PutKeepsDistinct(c.databases, Wildcard, Entry("*", false, c.database));
  }

  lemma {:induction false} WithRelationsDistinct(relations: seq<Relation>)
    ensures DistinctKeys(WithRelations(relations))
  {
    if relations != [] {
      var n := |relations| - 1;
      WithRelationsDistinct(relations[..n]);
      if Asks(relations[n]) {
        PutKeepsDistinct(WithRelations(relations[..n]), Rel(relations[n].id), EntryOf(relations[n]));
      }
    }
  }

  // ---- Endpoint by endpoint ----

  datatype Endpoint = Db | DbAdmin | Client

  function EndpointOf(r: Relation): Endpoint {
    if !r.legacy then Client else if r.admin then DbAdmin else Db
  }

  function OnEndpoint(relations: seq<Relation>, e: Endpoint): seq<Relation> {
    if relations == [] then []
    else (if EndpointOf(relations[0]) == e then [relations[0]] else []) + OnEndpoint(relations[1..], e)
  }

  // The relations in the order in which the leader goes through them.
  function ByEndpoint(relations: seq<Relation>): seq<Relation> {
    OnEndpoint(relations, Db) + OnEndpoint(relations, DbAdmin) + OnEndpoint(relations, Client)
  }

  lemma {:induction false} OnEndpointMembers(relations: seq<Relation>, e: Endpoint)
    requires DistinctIds(relations)
    ensures DistinctIds(OnEndpoint(relations, e))
    ensures forall r :: r in OnEndpoint(relations, e) <==> r in relations && EndpointOf(r) == e
  {
    if relations != [] {
      OnEndpointMembers(relations[1..], e);
      assert relations == [relations[0]] + relations[1..];
      var rest := OnEndpoint(relations[1..], e);
      forall i | 0 <= i < |rest| ensures rest[i].id != relations[0].id {
        assert rest[i] in relations[1..];
      }
    }
  }

  lemma {:induction false} JoinKeepsDistinct(all: seq<Relation>, xs: seq<Relation>, ys: seq<Relation>)
    requires DistinctIds(all) && DistinctIds(xs) && DistinctIds(ys)
    requires (forall x | x in xs :: x in all) && (forall y | y in ys :: y in all && y !in xs)
    ensures DistinctIds(xs + ys)
  {
    forall i, j | 0 <= i < |xs| && 0 <= j < |ys| ensures xs[i].id != ys[j].id {
      assert xs[i] in xs && ys[j] in ys;
      assert xs[i] != ys[j] && xs[i] in all && ys[j] in all;
    }
  }

  // Going through them endpoint by endpoint loses no relation and repeats none.
  lemma {:induction false} ByEndpointMembers(relations: seq<Relation>)
    requires DistinctIds(relations)
    ensures DistinctIds(ByEndpoint(relations))
    ensures forall r :: r in ByEndpoint(relations) <==> r in relations
  {
    var db, dbAdmin, clients := OnEndpoint(relations, Db), OnEndpoint(relations, DbAdmin), OnEndpoint(relations, Client);
    OnEndpointMembers(relations, Db);
    OnEndpointMembers(relations, DbAdmin);
    OnEndpointMembers(relations, Client);
    JoinKeepsDistinct(relations, db, dbAdmin);
    JoinKeepsDistinct(relations, db + dbAdmin, clients);
    forall r ensures r in ByEndpoint(relations) <==> r in relations {
      var e := EndpointOf(r);
      assert e == Db || e == DbAdmin || e == Client;
    }
  }

  // Where an element of the list stands in the relations.
  ghost predicate ComesFrom(relations: seq<Relation>, a: nat, b: nat, x: Relation, y: Relation) {
    a < b < |relations| && relations[a] == x && relations[b] == y
  }

  lemma {:induction false} OnEndpointInOrder(relations: seq<Relation>, e: Endpoint, i: nat, j: nat)
    requires i < j < |OnEndpoint(relations, e)|
    ensures exists a: nat, b: nat :: ComesFrom(relations, a, b, OnEndpoint(relations, e)[i], OnEndpoint(relations, e)[j])
  {
    var all, rest := OnEndpoint(relations, e), OnEndpoint(relations[1..], e);
    if EndpointOf(relations[0]) != e || i > 0 {
      var d := if EndpointOf(relations[0]) == e then 1 else 0;
      assert forall k | d <= k < |all| :: all[k] == rest[k - d];
      OnEndpointInOrder(relations[1..], e, i - d, j - d);
      var a: nat, b: nat :| ComesFrom(relations[1..], a, b, rest[i - d], rest[j - d]);
      assert ComesFrom(relations, a + 1, b + 1, all[i], all[j]);
    } else {
      assert all[j] == rest[j - 1] && all[j] in rest;
      OnEndpointHolds(relations[1..], e, all[j]);
      var b: nat :| b < |relations[1..]| && relations[1..][b] == all[j];
      assert ComesFrom(relations, 0, b + 1, all[i], all[j]);
    }
  }

  lemma {:induction false} OnEndpointHolds(relations: seq<Relation>, e: Endpoint, r: Relation)
    ensures r in OnEndpoint(relations, e) ==> r in relations && EndpointOf(r) == e
  {
    if relations != [] {
      OnEndpointHolds(relations[1..], e, r);
      assert relations == [relations[0]] + relations[1..];
    }
  }

  /** Legacy relations come before clients, those of admins after the others, and relations of one
      endpoint in the order they came in. */
  lemma {:induction false} ByEndpointInOrder(relations: seq<Relation>, i: nat, j: nat)
    requires i < j < |ByEndpoint(relations)|
    ensures var x, y := ByEndpoint(relations)[i], ByEndpoint(relations)[j];
            && (y.legacy ==> x.legacy && (x.admin ==> y.admin))
            && (x.legacy == y.legacy && (x.legacy ==> x.admin == y.admin) ==>
                  exists a: nat, b: nat :: ComesFrom(relations, a, b, x, y))
  {
    var db, dbAdmin, clients := OnEndpoint(relations, Db), OnEndpoint(relations, DbAdmin), OnEndpoint(relations, Client);
    var x, y := ByEndpoint(relations)[i], ByEndpoint(relations)[j];
    OnEndpointPlace(relations, i);
    OnEndpointPlace(relations, j);
    if j < |db| {
      OnEndpointInOrder(relations, Db, i, j);
    } else if |db| <= i && j < |db| + |dbAdmin| {
      OnEndpointInOrder(relations, DbAdmin, i - |db|, j - |db|);
    } else if |db| + |dbAdmin| <= i {
      OnEndpointInOrder(relations, Client, i - |db| - |dbAdmin|, j - |db| - |dbAdmin|);
    }
  }

  // The three parts of the list.
  lemma {:induction false} OnEndpointPlace(relations: seq<Relation>, i: nat)
    requires i < |ByEndpoint(relations)|
    ensures var x, m, n := ByEndpoint(relations)[i], |OnEndpoint(relations, Db)|, |OnEndpoint(relations, DbAdmin)|;
            && (i < m ==> x == OnEndpoint(relations, Db)[i] && x.legacy && !x.admin)
            && (m <= i < m + n ==> x == OnEndpoint(relations, DbAdmin)[i - m] && x.legacy && x.admin)
            && (m + n <= i ==> x == OnEndpoint(relations, Client)[i - m - n] && !x.legacy)
  {
    var x := ByEndpoint(relations)[i];
    OnEndpointHolds(relations, Db, x);
    OnEndpointHolds(relations, DbAdmin, x);
    OnEndpointHolds(relations, Client, x);
  }

  // One endpoint's relations, added to what was collected before.
  method CollectEndpoint(c: Collected, relations: seq<Relation>) returns (r: Collected)
    ensures r == CollectAll(c, relations)
  {
    r := c;
    for i := 0 to |relations|
      invariant r == CollectAll(c, relations[..i])
    {
      assert relations[..i + 1][..i] == relations[..i];
      var relation := relations[i];
      r := r.(database := relation.database);
      if relation.database.Some? && relation.database.value != "" {
        r := r.(databases := Put(r.databases, Rel(relation.id), Entry(relation.database.value, relation.legacy, None)));
        if relation.legacy && relation.admin {
          r := r.(wildcard := true);
        }
      }
      if !relation.legacy && relation.roles * GENERATE_WILDCARD_ROLES != {} {
        r := r.(wildcard := true);
      }
    }
    assert relations[..|relations|] == relations;
  }

  /** The leader's generation, endpoint by endpoint. */
  method GenerateRelationDatabases(db: seq<Relation>, dbAdmin: seq<Relation>, clients: seq<Relation>)
    returns (databases: Databases)
    ensures databases == Generated(db + dbAdmin + clients)
  {
    var c := CollectEndpoint(NOTHING, db);
    c := CollectEndpoint(c, dbAdmin);
    c := CollectEndpoint(c, clients);
    CollectInTwoParts(NOTHING, db, dbAdmin);
    CollectInTwoParts(NOTHING, db + dbAdmin, clients);
    databases := c.databases;
    if c.wildcard {
      databases := Put(databases, Wildcard, Entry("*", false, c.database));
    }
  }
}
