/** The databases section of a unit's PgBouncer configuration, derived from the relation map; the
    names that clients are told to connect to; and the recovery of names from an old section. */
module PgbConfig {
  import opened Options
  import opened OrderedDict
  import opened RelationDatabases

  datatype Endpoint = Endpoint(host: string, port: string)

  // The backend relation's endpoints; without replicas the primary also serves the readers.
  datatype Backend = Backend(primary: Endpoint, replicas: Option<Endpoint>, authUser: string)

  datatype Route = Route(endpoint: Endpoint, dbname: Option<string>, authDbname: Option<string>, authUser: string)

  type Config = map<string, Route>

  const READONLY := "_readonly"
  const STANDBY := "_standby"

  function Readers(b: Backend): Endpoint {
    if b.replicas.Some? then b.replicas.value else b.primary
  }

  function WriterRoute(b: Backend, name: string): Route {
    Route(b.primary, Some(name), None, b.authUser)
  }

  function ReaderRoute(b: Backend, name: string): Route {
    Route(Readers(b), Some(name), None, b.authUser)
  }

  // PostgreSQL cuts identifiers at 63 characters, so longer aliases are not offered.
  predicate Fits(alias: string) {
    |alias| < 64
  }

  function RoutesOf(cfg: Config, e: Entry, b: Backend): Config {
    if e.name == "*" then cfg
    else
      var cfg1 := cfg[e.name := WriterRoute(b, e.name)];
      var cfg2 := if Fits(e.name + READONLY) then cfg1[e.name + READONLY := ReaderRoute(b, e.name)] else cfg1;
      if e.legacy && Fits(e.name + STANDBY) then cfg2[e.name + STANDBY := ReaderRoute(b, e.name)] else cfg2
  }

  function RoutesOfAll(entries: seq<Entry>, b: Backend): Config {
    if entries == [] then map[]
    else RoutesOf(RoutesOfAll(entries[..|entries| - 1], b), entries[|entries| - 1], b)
  }

  function Entries(d: Databases): seq<Entry> {
    seq(|d|, i requires 0 <= i < |d| => d[i].1)
  }

  function ConfigFor(d: Databases, backend: Option<Backend>): Config {
    if backend.None? then map[]
    else
      var cfg := RoutesOfAll(Entries(d), backend.value);
      match Get(d, Wildcard)
      case None => cfg
      case Some(e) => cfg["*" := Route(backend.value.primary, None, e.authDbname, backend.value.authUser)]
  }

  /** The charm's generation, entry by entry in the map's order. */
  method RelationConfig(d: Databases, backend: Option<Backend>) returns (cfg: Config)
    ensures cfg == ConfigFor(d, backend)
  {
    cfg := map[];
    if backend.None? || d == [] {
      return;
    }
    var b := backend.value;
    for i := 0 to |d|
      invariant cfg == RoutesOfAll(Entries(d)[..i], b)
    {
      assert Entries(d)[..i + 1][..i] == Entries(d)[..i];
      var e := d[i].1;
      if e.name != "*" {
        cfg := cfg[e.name := WriterRoute(b, e.name)];
        if |e.name + READONLY| < 64 {
          cfg := cfg[e.name + READONLY := ReaderRoute(b, e.name)];
        }
        if e.legacy && |e.name + STANDBY| < 64 {
          cfg := cfg[e.name + STANDBY := ReaderRoute(b, e.name)];
        }
      }
    }
    assert Entries(d)[..|d|] == Entries(d);
    var wildcard := Get(d, Wildcard);
    if wildcard.Some? {
      cfg := cfg["*" := Route(b.primary, None, wildcard.value.authDbname, b.authUser)];
    }
  }

  predicate AliasOf(e: Entry, key: string) {
    && e.name != "*"
    && ((key == e.name + READONLY && Fits(key)) || (e.legacy && key == e.name + STANDBY && Fits(key)))
  }

  predicate NamedBy(e: Entry, key: string) {
    e.name != "*" && key == e.name
  }

  predicate Offers(e: Entry, key: string) {
    NamedBy(e, key) || AliasOf(e, key)
  }

  function RouteFrom(b: Backend, e: Entry, key: string): Route {
    if key == e.name then WriterRoute(b, e.name) else ReaderRoute(b, e.name)
  }

  lemma SuffixesDiffer(x: string, y: string)
    ensures x + READONLY != y + STANDBY
    ensures x + READONLY == y + READONLY ==> x == y
    ensures x + STANDBY == y + STANDBY ==> x == y
    ensures x != x + READONLY && x != x + STANDBY
  {
    var r, s := x + READONLY, y + STANDBY;
    assert r[|r| - 2] == 'l' && s[|s| - 2] == 'b';
    assert x == r[..|r| - 9] && y == (y + READONLY)[..|y + READONLY| - 9];
    assert y == s[..|s| - 8] && x == (x + STANDBY)[..|x + STANDBY| - 8];
    assert |x + READONLY| > |x| && |x + STANDBY| > |x|;
  }

  // One entry adds exactly what it offers, and nothing else changes.
  lemma {:induction false} OneEntry(cfg: Config, e: Entry, b: Backend, key: string)
    ensures key in RoutesOf(cfg, e, b) <==> key in cfg || Offers(e, key)
    ensures key in RoutesOf(cfg, e, b) ==>
              RoutesOf(cfg, e, b)[key] == if Offers(e, key) then RouteFrom(b, e, key) else cfg[key]
  {
  }

  // The keys that an entry gives rise to: its name, and the aliases of at most 63 characters.
  predicate GivesRiseTo(e: Entry, key: string) {
    && e.name != "*"
    && (|| key == e.name
        || (|key| <= 63 && (key == e.name + "_readonly" || (e.legacy && key == e.name + "_standby"))))
  }

  lemma OffersIff(e: Entry, key: string)
    ensures Offers(e, key) <==> GivesRiseTo(e, key)
  {
  }

  /** The keys are exactly the requested names and the aliases that fit, whatever the order. */
  lemma {:induction false} KeysAreExact(entries: seq<Entry>, b: Backend, key: string)
    ensures key in RoutesOfAll(entries, b) <==> exists i :: 0 <= i < |entries| && Offers(entries[i], key)
    ensures key in RoutesOfAll(entries, b) <==> exists i :: 0 <= i < |entries| && GivesRiseTo(entries[i], key)
  {
    if entries != [] {
      var n := |entries| - 1;
      KeysAreExact(entries[..n], b, key);
      OneEntry(RoutesOfAll(entries[..n], b), entries[n], b, key);
    }
  }

  /** The same for the whole section, where the wildcard adds one more key. */
  lemma {:induction false} SectionKeysAreExact(d: Databases, b: Backend, key: string)
    ensures key in ConfigFor(d, Some(b)) <==>
              || (exists i :: 0 <= i < |d| && GivesRiseTo(d[i].1, key))
              || (key == "*" && Get(d, Wildcard).Some?)
  {
    KeysAreExact(Entries(d), b, key);
    assert forall i | 0 <= i < |d| :: Entries(d)[i] == d[i].1;
  }

  // The last entry that offers a key decides where it leads.
  lemma {:induction false} LastOfferWins(entries: seq<Entry>, b: Backend, key: string, i: nat)
    requires i < |entries| && Offers(entries[i], key)
    requires forall j | i < j < |entries| && Offers(entries[j], key) :: RouteFrom(b, entries[j], key) == RouteFrom(b, entries[i], key)
    ensures key in RoutesOfAll(entries, b) && RoutesOfAll(entries, b)[key] == RouteFrom(b, entries[i], key)
  {
    var n := |entries| - 1;
    OneEntry(RoutesOfAll(entries[..n], b), entries[n], b, key);
    KeysAreExact(entries, b, key);
    if !Offers(entries[n], key) {
      LastOfferWins(entries[..n], b, key, i);
    }
  }

  // No requested name is an alias of another requested name.
  ghost predicate NoClash(entries: seq<Entry>) {
    forall i, j | 0 <= i < |entries| && 0 <= j < |entries| && NamedBy(entries[j], entries[j].name)
      :: !AliasOf(entries[i], entries[j].name)
  }

  lemma OffersAgree(x: Entry, y: Entry, b: Backend, key: string)
    requires Offers(x, key) && Offers(y, key)
    requires NamedBy(x, x.name) ==> !AliasOf(y, x.name)
    requires NamedBy(y, y.name) ==> !AliasOf(x, y.name)
    ensures RouteFrom(b, x, key) == RouteFrom(b, y, key)
  {
    SuffixesDiffer(x.name, y.name);
    SuffixesDiffer(y.name, x.name);
  }

  /** Without a clash every name leads to its own database on the primary, and every alias to that
      database on the replicas, or on the primary if there are none. */
  lemma {:induction false} RoutedToItsOwn(entries: seq<Entry>, b: Backend, i: nat, key: string)
    requires NoClash(entries) && i < |entries| && GivesRiseTo(entries[i], key)
    ensures key in RoutesOfAll(entries, b)
    ensures var route, readers := RoutesOfAll(entries, b)[key], if b.replicas.Some? then b.replicas.value else b.primary;
            && route.endpoint == (if key == entries[i].name then b.primary else readers)
            && route.dbname == Some(entries[i].name) && route.authDbname == None && route.authUser == b.authUser
  {
    FromItsOwn(entries, b, i, key);
  }

  /** The same in the whole section, to which the wildcard adds only its own key. */
  lemma {:induction false} SectionRoutes(d: Databases, b: Backend, i: nat, key: string)
    requires NoClash(Entries(d)) && i < |d| && GivesRiseTo(d[i].1, key)
    ensures key != "*" && key in ConfigFor(d, Some(b))
    ensures var route, readers := ConfigFor(d, Some(b))[key], if b.replicas.Some? then b.replicas.value else b.primary;
            && route.endpoint == (if key == d[i].1.name then b.primary else readers)
            && route.dbname == Some(d[i].1.name) && route.authDbname == None && route.authUser == b.authUser
  {
    assert Entries(d)[i] == d[i].1;
    RoutedToItsOwn(Entries(d), b, i, key);
  }

  lemma {:induction false} FromItsOwn(entries: seq<Entry>, b: Backend, i: nat, key: string)
    requires NoClash(entries) && i < |entries| && Offers(entries[i], key)
    ensures key in RoutesOfAll(entries, b)
    ensures RoutesOfAll(entries, b)[key] == RouteFrom(b, entries[i], key)
  {
    forall j | i < j < |entries| && Offers(entries[j], key)
      ensures RouteFrom(b, entries[j], key) == RouteFrom(b, entries[i], key)
    {
      OffersAgree(entries[j], entries[i], b, key);
    }
    LastOfferWins(entries, b, key, i);
  }

  ghost predicate Reordered(xs: seq<Entry>, ys: seq<Entry>) {
    multiset(xs) == multiset(ys)
  }

  lemma SameMembers(xs: seq<Entry>, ys: seq<Entry>)
    requires Reordered(xs, ys)
    ensures forall e :: e in xs <==> e in ys
  {
    assert forall e :: e in xs <==> e in multiset(xs);
    assert forall e :: e in ys <==> e in multiset(ys);
  }

  function MovedLast(entries: seq<Entry>, i: nat): seq<Entry>
    requires i < |entries|
  {
    entries[..i] + entries[i + 1..] + [entries[i]]
  }

  lemma MovedLastReorders(entries: seq<Entry>, i: nat)
    requires i < |entries|
    ensures Reordered(entries, MovedLast(entries, i))
  {
    assert entries == entries[..i] + [entries[i]] + entries[i + 1..];
  }

  /** The result does not depend on the order of the entries if and only if no requested name is
      an alias of another one. */
  lemma {:induction false} OrderIndependentIffNoClash(entries: seq<Entry>, b: Backend)
    ensures NoClash(entries) <==>
              forall other :: Reordered(entries, other) ==> RoutesOfAll(other, b) == RoutesOfAll(entries, b)
  {
    if NoClash(entries) {
      forall other | Reordered(entries, other) ensures RoutesOfAll(other, b) == RoutesOfAll(entries, b) {
        NoClashMakesEqual(entries, other, b);
      }
    } else {
      var i, j :| 0 <= i < |entries| && 0 <= j < |entries| && NamedBy(entries[j], entries[j].name) && AliasOf(entries[i], entries[j].name);
      ClashMatters(entries, i, j, b);
    }
  }

  lemma {:induction false} NoClashMakesEqual(entries: seq<Entry>, other: seq<Entry>, b: Backend)
    requires NoClash(entries) && Reordered(entries, other)
    ensures RoutesOfAll(other, b) == RoutesOfAll(entries, b)
  {
    SameMembers(entries, other);
    assert forall i | 0 <= i < |other| :: other[i] in entries;
    assert NoClash(other);
    var x, y := RoutesOfAll(entries, b), RoutesOfAll(other, b);
    forall key ensures key in x <==> key in y
      ensures key in x ==> x[key] == y[key]
    {
      KeysAreExact(entries, b, key);
      KeysAreExact(other, b, key);
      if key in x {
        var i :| 0 <= i < |entries| && Offers(entries[i], key);
        assert entries[i] in other;
        var j :| 0 <= j < |other| && other[j] == entries[i];
        FromItsOwn(entries, b, i, key);
        FromItsOwn(other, b, j, key);
      }
      assert forall j | 0 <= j < |other| :: other[j] in entries;
    }
  }

  // With the alias last or with the name last, the key leads to two different databases.
  lemma {:induction false} ClashMatters(entries: seq<Entry>, i: nat, j: nat, b: Backend)
    requires i < |entries| && j < |entries|
    requires NamedBy(entries[j], entries[j].name) && AliasOf(entries[i], entries[j].name)
    ensures exists other :: Reordered(entries, other) && RoutesOfAll(other, b) != RoutesOfAll(entries, b)
  {
    var key, n := entries[j].name, |entries| - 1;
    var x, y := MovedLast(entries, i), MovedLast(entries, j);
    LastOfferWins(x, b, key, n);
    LastOfferWins(y, b, key, n);
    SuffixesDiffer(entries[i].name, entries[i].name);
    assert RoutesOfAll(x, b)[key].dbname != RoutesOfAll(y, b)[key].dbname;
    MovedLastReorders(entries, i);
    MovedLastReorders(entries, j);
  }

  // The database names that a client's connection strings carry.
  function UriName(database: string): string {
    database
  }

  function ReadOnlyUriName(database: string): string {
    if |database + READONLY| < 64 then database + READONLY else database
  }

  function StandbyName(database: string): string {
    if |database + STANDBY| < 64 then database + STANDBY else database
  }

  lemma {:induction false} ServedEntry(d: Databases, k: Key, e: Entry, b: Backend)
    requires Get(d, k) == Some(e) && e.name != "*"
    ensures forall key | Offers(e, key) :: key in ConfigFor(d, Some(b))
  {
    Present(d, k);
    var i :| 0 <= i < |d| && d[i] == (k, e);
    forall key | Offers(e, key) ensures key in ConfigFor(d, Some(b)) {
      assert Entries(d)[i] == e;
      KeysAreExact(Entries(d), b, key);
    }
  }

  /** Every advertised name is a key of the rendered configuration. */
  lemma {:induction false} AdvertisedNamesAreServed(d: Databases, k: Key, e: Entry, b: Backend)
    requires Get(d, k) == Some(e) && e.name != "*"
    ensures UriName(e.name) in ConfigFor(d, Some(b))
    ensures ReadOnlyUriName(e.name) in ConfigFor(d, Some(b))
    ensures e.legacy ==> StandbyName(e.name) in ConfigFor(d, Some(b))
  {
    ServedEntry(d, k, e, b);
  }

  /** A database that is itself called "*" is skipped, so it is served if and only if the map has
      the wildcard entry.  The key then leads to any database on the primary, and authenticates
      against the database that the wildcard entry names.  Without a backend nothing is served. */
  lemma {:induction false} StarIsServedIffWildcard(d: Databases, b: Backend)
    ensures UriName("*") in ConfigFor(d, Some(b)) <==> Get(d, Wildcard).Some?
    ensures Get(d, Wildcard).Some? ==>
              ConfigFor(d, Some(b))["*"] == Route(b.primary, None, Get(d, Wildcard).value.authDbname, b.authUser)
    ensures ConfigFor(d, None) == map[]
  {
    KeysAreExact(Entries(d), b, "*");
    forall e: Entry ensures !Offers(e, "*") {
      assert |e.name + READONLY| > 1 && |e.name + STANDBY| > 1;
    }
  }

  predicate HasSuffix(s: string, suffix: string) {
    |suffix| <= |s| && s[|s| - |suffix|..] == suffix
  }

  predicate LooksLikeAlias(s: string) {
    HasSuffix(s, STANDBY) || HasSuffix(s, READONLY)
  }

  ghost predicate EndsLikeAlias(s: string) {
    exists x :: s == x + "_readonly" || s == x + "_standby"
  }

  lemma LooksLikeAliasIff(s: string)
    ensures LooksLikeAlias(s) <==> EndsLikeAlias(s)
  {
    HasSuffixIff(s, "_standby");
    HasSuffixIff(s, "_readonly");
  }

  lemma HasSuffixIff(s: string, suffix: string)
    ensures HasSuffix(s, suffix) <==> exists x :: s == x + suffix
  {
    if HasSuffix(s, suffix) {
      assert s == s[..|s| - |suffix|] + suffix;
    }
    forall x | s == x + suffix ensures HasSuffix(s, suffix) {
      assert s[|x|..] == suffix;
    }
  }

  function Recovered(keys: seq<string>): seq<string> {
    if keys == [] then []
    else Recovered(keys[..|keys| - 1]) + if LooksLikeAlias(keys[|keys| - 1]) then [] else [keys[|keys| - 1]]
  }

  function Numbered(names: seq<string>): Databases {
    seq(|names|, i requires 0 <= i < |names| => (Rel(i + 1), Entry(names[i], false, None)))
  }

  lemma NumberedGrows(names: seq<string>, name: string)
    ensures Numbered(names + [name]) == Numbered(names) + [(Rel(|names| + 1), Entry(name, false, None))]
  {
  }

  /** The regeneration from an old configuration file: every key that is not an alias becomes an
      entry, numbered from 1. */
  method RegenerateFromOldConfig(keys: seq<string>) returns (result: Databases)
    ensures result == Numbered(Recovered(keys))
    ensures |result| == |Recovered(keys)|
    ensures forall k | 0 <= k < |result| :: result[k] == (Rel(k + 1), Entry(Recovered(keys)[k], false, None))
  {
    result := [];
    var i := 1;
    for k := 0 to |keys|
      invariant result == Numbered(Recovered(keys[..k]))
      invariant i == |Recovered(keys[..k])| + 1
    {
      assert keys[..k + 1][..k] == keys[..k];
      if !LooksLikeAlias(keys[k]) {
        NumberedGrows(Recovered(keys[..k]), keys[k]);
        result := result + [(Rel(i), Entry(keys[k], false, None))];
        i := i + 1;
      }
    }
    assert keys[..|keys|] == keys;
  }

  lemma {:induction false} RecoveredMembers(keys: seq<string>, name: string)
    ensures name in Recovered(keys) <==> name in keys && !LooksLikeAlias(name)
  {
    if keys != [] {
      RecoveredMembers(keys[..|keys| - 1], name);
      assert keys == keys[..|keys| - 1] + [keys[|keys| - 1]];
    }
  }

  // The database names that the map's entries ask for.
  ghost predicate Requested(d: Databases, name: string) {
    exists i :: 0 <= i < |d| && NamedBy(d[i].1, name)
  }

  lemma AliasesLookLikeAliases(e: Entry, key: string)
    requires AliasOf(e, key)
    ensures LooksLikeAlias(key)
  {
  }

  // What is recovered: the requested names that do not look like aliases, and the wildcard.
  lemma {:induction false} RecoveredNames(d: Databases, b: Backend, keys: seq<string>, name: string)
    requires forall key :: key in keys <==> key in ConfigFor(d, Some(b))
    ensures name in Recovered(keys) <==>
              (Requested(d, name) && !LooksLikeAlias(name)) || (name == "*" && Get(d, Wildcard).Some?)
  {
    RecoveredMembers(keys, name);
    SectionKeysAreExact(d, b, name);
    if name in keys && !LooksLikeAlias(name) && !(name == "*" && Get(d, Wildcard).Some?) {
      var i :| 0 <= i < |d| && Offers(d[i].1, name);
      if AliasOf(d[i].1, name) {
        AliasesLookLikeAliases(d[i].1, name);
      }
    }
  }

  /** From the keys of a generated section, in any order, the regeneration recovers exactly the
      requested names if and only if no requested name ends like an alias and the section has no
      wildcard, which is recovered like a name. */
  lemma {:induction false} RecoveryIsExactIff(d: Databases, b: Backend, keys: seq<string>)
    requires forall key :: key in keys <==> key in ConfigFor(d, Some(b))
    ensures (forall name :: name in Recovered(keys) <==> Requested(d, name)) <==>
              && (forall i | 0 <= i < |d| && d[i].1.name != "*" :: !EndsLikeAlias(d[i].1.name))
              && Get(d, Wildcard).None?
  {
    forall s ensures LooksLikeAlias(s) <==> EndsLikeAlias(s) {
      LooksLikeAliasIff(s);
    }
    forall name ensures name in Recovered(keys) <==>
                          (Requested(d, name) && !LooksLikeAlias(name)) || (name == "*" && Get(d, Wildcard).Some?)
    {
      RecoveredNames(d, b, keys, name);
    }
    assert !Requested(d, "*");
    forall i | 0 <= i < |d| && d[i].1.name != "*" ensures Requested(d, d[i].1.name) {
      assert NamedBy(d[i].1, d[i].1.name);
    }
  }

  /** A client that may use every database puts the wildcard into the section, and the recovery
      takes it for a name that nobody requested. */
  lemma {:induction false} WildcardIsRecovered(b: Backend, keys: seq<string>)
    requires var d := [(Rel(1), Entry("app", false, None)), (Wildcard, Entry("*", false, Some("app")))];
             forall key :: key in keys <==> key in ConfigFor(d, Some(b))
    ensures "*" in Recovered(keys)
    ensures var d := [(Rel(1), Entry("app", false, None)), (Wildcard, Entry("*", false, Some("app")))];
            !Requested(d, "*")
  {
    var d := [(Rel(1), Entry("app", false, None)), (Wildcard, Entry("*", false, Some("app")))];
    GetOfEntry(d, Wildcard, Entry("*", false, Some("app")));
    RecoveredNames(d, b, keys, "*");
  }
}
