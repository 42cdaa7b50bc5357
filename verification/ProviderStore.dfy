/** The provider's side of a relation: a dictionary whose fields live either in the databag or,
    grouped, in Juju secrets.  It is meant to behave like one plain map. */
module ProviderStore {
  import opened Options

  datatype Group = User | Tls | Mtls | Entity | Extra

  type Fields = map<string, string>

  const LABEL_MAP: map<string, Group> := map[
    "username" := User, "password" := User, "uris" := User, "read-only-uris" := User,
    "tls" := Tls, "tls-ca" := Tls,
    "mtls-cert" := Mtls,
    "entity-name" := Entity, "entity-password" := Entity]

  const URI_PREFIX := "secret-"

  // Fields that may be written before the relation is initialised.
  const EARLY_FIELDS: set<string> := {"endpoints", "read-only-endpoints", "replset"}

  /** The databag's ordinary fields, the groups whose secret's URI it holds, the contents of those
      secrets, and the fields the other side wants as secrets. */
  datatype Store = Store(databag: Fields, uris: set<Group>, secrets: map<Group, Fields>, requested: set<string>)

  datatype StoreError = PrematureDataAccess

  function GroupOf(field: string): Group {
    if field in LABEL_MAP then LABEL_MAP[field] else Extra
  }

  function OfGroup(fields: set<string>, g: Group): set<string> {
    set f | f in fields && GroupOf(f) == g
  }

  function Touched(fields: set<string>): set<Group> {
    set f | f in fields :: GroupOf(f)
  }

  predicate NamesAUri(field: string) {
    URI_PREFIX <= field
  }

  predicate Ordinary(fields: set<string>) {
    forall f | f in fields :: !NamesAUri(f)
  }

  // A relation that started on the databag stays on the databag.
  predicate StaysOnDatabag(s: Store) {
    s.requested == {} || exists f :: f in s.requested && f in s.databag
  }

  // What a secret of the group may hold.
  ghost predicate GroupFits(content: Fields, requested: set<string>, g: Group) {
    forall f | f in content :: f in requested && GroupOf(f) == g
  }

  ghost predicate Valid(s: Store) {
    && s.uris == s.secrets.Keys
    && (StaysOnDatabag(s) ==> s.secrets == map[])
    && (forall g | g in s.secrets :: s.secrets[g] != map[])
    && (forall g | g in s.secrets :: GroupFits(s.secrets[g], s.requested, g))
  }

  // The value of a field, wherever it lives.
  function Lookup(s: Store, f: string): Option<string> {
    var g := GroupOf(f);
    if g in s.secrets && f in s.secrets[g] then Some(s.secrets[g][f])
    else if f in s.databag then Some(s.databag[f])
    else None
  }

  function Part(data: Fields, g: Group): Fields {
    map f | f in data && GroupOf(f) == g :: data[f]
  }

  function Content(secrets: map<Group, Fields>, g: Group): Fields {
    if g in secrets then secrets[g] else map[]
  }

  function Only(data: Fields, fields: set<string>): Fields {
    map f | f in data && f in fields :: data[f]
  }

  function WithSecrets(secrets: map<Group, Fields>, data: Fields, groups: set<Group>): map<Group, Fields> {
    map g | g in secrets.Keys + groups ::
      if g in groups then Content(secrets, g) + Part(data, g) else secrets[g]
  }

  function Updated(s: Store, data: Fields): Store {
    if StaysOnDatabag(s) then s.(databag := s.databag + data)
    else
      var secret := Only(data, s.requested);
      var groups := Touched(secret.Keys);
      Store(s.databag + (data - s.requested), s.uris + groups, WithSecrets(s.secrets, secret, groups), s.requested)
  }

  // Each field is found at most once: in the databag or in the one secret of its group.
  ghost predicate LivesOnce(s: Store, f: string) {
    && (forall g | g in s.secrets && f in s.secrets[g] :: g == GroupOf(f) && f !in s.databag)
  }

  lemma ValidMeansOnePlace(s: Store, f: string)
    requires Valid(s)
    ensures LivesOnce(s, f)
  {
  }

  // What a group's secret holds after an update.
  lemma {:induction false} ContentAfter(secrets: map<Group, Fields>, data: Fields, g: Group, f: string)
    ensures var c := Content(WithSecrets(secrets, data, Touched(data.Keys)), g);
            && (f in c <==> (f in data && GroupOf(f) == g) || f in Content(secrets, g))
            && (f in c ==> c[f] == if f in data && GroupOf(f) == g then data[f] else Content(secrets, g)[f])
  {
  }

  lemma {:induction false} TouchedHoldSomething(secrets: map<Group, Fields>, data: Fields, g: Group)
    requires g in WithSecrets(secrets, data, Touched(data.Keys))
    requires g in secrets ==> secrets[g] != map[]
    ensures WithSecrets(secrets, data, Touched(data.Keys))[g] != map[]
  {
    var groups := Touched(data.Keys);
    if g in groups {
      var k :| k in data.Keys && GroupOf(k) == g;
      ContentAfter(secrets, data, g, k);
    }
  }

  lemma {:induction false} UpdateKeepsValid(s: Store, data: Fields)
    requires Valid(s)
    ensures Valid(Updated(s, data))
  {
    UpdateKeepsPlace(s, data);
    if !StaysOnDatabag(s) {
      var secret := Only(data, s.requested);
      var secrets := Updated(s, data).secrets;
      forall g | g in secrets ensures secrets[g] != map[] {
        TouchedHoldSomething(s.secrets, secret, g);
      }
      forall g | g in secrets ensures GroupFits(secrets[g], s.requested, g) {
        GroupStaysFit(s, secret, g);
      }
    }
  }

  lemma UpdateKeepsPlace(s: Store, data: Fields)
    ensures StaysOnDatabag(Updated(s, data)) == StaysOnDatabag(s)
  {
    if StaysOnDatabag(s) {
      assert forall f | f in s.requested && f in s.databag :: f in Updated(s, data).databag;
    } else {
      assert forall f | f in Updated(s, data).databag :: f !in s.requested;
    }
  }

  lemma {:induction false} GroupStaysFit(s: Store, secret: Fields, g: Group)
    requires Valid(s) && secret.Keys <= s.requested
    ensures GroupFits(Content(WithSecrets(s.secrets, secret, Touched(secret.Keys)), g), s.requested, g)
  {
    var c := Content(WithSecrets(s.secrets, secret, Touched(secret.Keys)), g);
    forall f | f in c ensures f in s.requested && GroupOf(f) == g {
      ContentAfter(s.secrets, secret, g, f);
    }
  }

  /** An update behaves like the update of one map, and keeps every field in one place. */
  lemma {:induction false} UpdateRefinesMap(s: Store, data: Fields, f: string)
    requires Valid(s) && Ordinary(data.Keys)
    ensures Valid(Updated(s, data)) && LivesOnce(Updated(s, data), f)
    ensures Lookup(Updated(s, data), f) == if f in data then Some(data[f]) else Lookup(s, f)
  {
    UpdateKeepsValid(s, data);
    ValidMeansOnePlace(Updated(s, data), f);
    UpdateLooksUp(s, data, f);
  }

  lemma {:induction false} UpdateLooksUp(s: Store, data: Fields, f: string)
    requires Valid(s)
    ensures Lookup(Updated(s, data), f) == if f in data then Some(data[f]) else Lookup(s, f)
  {
    if !StaysOnDatabag(s) {
      ContentAfter(s.secrets, Only(data, s.requested), GroupOf(f), f);
      ValidMeansOnePlace(s, f);
    }
  }

  // ---- Reading ----

  // What one group's secret contributes to a request for some secret fields.
  function Found(s: Store, g: Group, wanted: set<string>): Fields {
    Only(Content(s.secrets, g), wanted)
  }

  // The fields that are looked up in the databag: ordinary ones, and those of groups that
  // contribute nothing.
  function Leftover(s: Store, wanted: set<string>): set<string> {
    if StaysOnDatabag(s) then wanted
    else set f | f in wanted && (f !in s.requested || Found(s, GroupOf(f), wanted * s.requested) == map[])
  }

  function FoundInSecrets(s: Store, wanted: set<string>): Fields {
    if StaysOnDatabag(s) then map[]
    else
      map f | f in wanted * s.requested && f in Found(s, GroupOf(f), wanted * s.requested) ::
        Found(s, GroupOf(f), wanted * s.requested)[f]
  }

  function Fetch(s: Store, wanted: set<string>): Fields {
    FoundInSecrets(s, wanted) + Only(s.databag, Leftover(s, wanted))
  }

  function FetchAll(s: Store): Fields {
    Fetch(s, s.databag.Keys + s.requested)
  }

  /** Fetching reads the one map: exactly the wanted fields that have a value, with that value. */
  lemma {:induction false} FetchReadsMap(s: Store, wanted: set<string>, f: string)
    requires Valid(s)
    ensures f in Fetch(s, wanted) <==> f in wanted && Lookup(s, f).Some?
    ensures f in Fetch(s, wanted) ==> Lookup(s, f) == Some(Fetch(s, wanted)[f])
    ensures f in FetchAll(s) <==> Lookup(s, f).Some?
  {
    FetchOne(s, wanted, f);
    FetchOne(s, s.databag.Keys + s.requested, f);
  }

  lemma {:induction false} FetchOne(s: Store, wanted: set<string>, f: string)
    requires Valid(s)
    ensures f in Fetch(s, wanted) <==> f in wanted && Lookup(s, f).Some?
    ensures f in Fetch(s, wanted) ==> Lookup(s, f) == Some(Fetch(s, wanted)[f])
  {
    var g := GroupOf(f);
    ValidMeansOnePlace(s, f);
    if f in wanted && !StaysOnDatabag(s) && f in s.requested {
      assert f in Found(s, g, wanted * s.requested) <==> g in s.secrets && f in s.secrets[g];
      assert f !in s.databag;
    }
  }

  // ---- Deleting ----

  predicate Distinct(fields: seq<string>) {
    forall i, j | 0 <= i < j < |fields| :: fields[i] != fields[j]
  }

  function Members(fields: seq<string>): set<string> {
    set f | f in fields
  }

  // A group's secret gives up the fields only if it holds the whole list, each field once.
  predicate GivesUp(s: Store, g: Group, fields: seq<string>) {
    g in s.secrets && Distinct(fields) && Members(fields) <= s.secrets[g].Keys
  }

  function Shrunk(s: Store, fields: seq<string>, groups: set<Group>): map<Group, Fields> {
    map g | g in s.secrets && !(g in groups && GivesUp(s, g, fields) && s.secrets[g].Keys == Members(fields)) ::
      if g in groups && GivesUp(s, g, fields) then s.secrets[g] - Members(fields) else s.secrets[g]
  }

  // The listed fields no secret took away, once the given groups have had their turn.
  function LeftForDatabag(s: Store, fields: seq<string>, done: set<Group>): set<string> {
    set f | f in Members(fields) && (f !in s.requested || (GroupOf(f) in done && !GivesUp(s, GroupOf(f), fields)))
  }

  function Deleted(s: Store, fields: seq<string>): Store {
    if StaysOnDatabag(s) then s.(databag := s.databag - Members(fields))
    else
      var groups := Touched(Members(fields) * s.requested);
      var secrets := Shrunk(s, fields, groups);
      Store(s.databag - LeftForDatabag(s, fields, groups), s.uris * secrets.Keys, secrets, s.requested)
  }

  predicate InSecret(s: Store, f: string) {
    GroupOf(f) in s.secrets && f in s.secrets[GroupOf(f)]
  }

  // One secret holds every listed field, and none is listed twice.
  ghost predicate HeldByOne(s: Store, fields: seq<string>) {
    && (forall i, j | 0 <= i < j < |fields| :: fields[i] != fields[j])
    && exists g :: g in s.secrets && forall f | f in fields :: f in s.secrets[g]
  }

  lemma HeldByOneIff(s: Store, fields: seq<string>)
    ensures HeldByOne(s, fields) <==> exists g :: g in s.secrets && GivesUp(s, g, fields)
  {
    if HeldByOne(s, fields) {
      var g :| g in s.secrets && forall f | f in fields :: f in s.secrets[g];
      assert GivesUp(s, g, fields);
    }
    if g :| g in s.secrets && GivesUp(s, g, fields) {
      assert forall f | f in fields :: f in Members(fields);
    }
  }

  ghost predicate DeletesExactly(s: Store, fields: seq<string>) {
    forall f :: Lookup(Deleted(s, fields), f) == if f in Members(fields) then None else Lookup(s, f)
  }

  /** Deletion removes exactly the listed fields if and only if none of them is held by a secret,
      or a single secret holds the whole list and no field is listed twice.  Otherwise the listed
      secret fields stay. */
  lemma {:induction false} DeleteIsExactIff(s: Store, fields: seq<string>)
    requires Valid(s) && Ordinary(Members(fields))
    ensures DeletesExactly(s, fields) <==>
              || (forall f | f in fields :: !(GroupOf(f) in s.secrets && f in s.secrets[GroupOf(f)]))
              || HeldByOne(s, fields)
    ensures !DeletesExactly(s, fields) ==>
              forall f :: Lookup(Deleted(s, fields), f) == if f in fields && !InSecret(s, f) then None else Lookup(s, f)
  {
    HeldByOneIff(s, fields);
    if exists g :: g in s.secrets && GivesUp(s, g, fields) {
      var g :| g in s.secrets && GivesUp(s, g, fields);
      OneSecretHoldsAll(s, fields, g);
    } else {
      forall f ensures Lookup(Deleted(s, fields), f) ==
                         if f in fields && !InSecret(s, f) then None else Lookup(s, f)
      {
        ValidMeansOnePlace(s, f);
      }
      forall f | f in fields && InSecret(s, f) ensures Lookup(s, f).Some? && f in Members(fields) {
      }
    }
  }

  /** Such a list: deleting a user name together with an ordinary field leaves the user name. */
  lemma {:induction false} MixedDeletionKeepsSecret(user: string, host: string)
    ensures var s := Store(map["endpoints" := host], {User}, map[User := map["username" := user]], {"username"});
            var s' := Deleted(s, ["username", "endpoints"]);
            && Valid(s) && Ordinary(Members(["username", "endpoints"]))
            && Lookup(s', "username") == Some(user) && Lookup(s', "endpoints") == None
  {
    var s := Store(map["endpoints" := host], {User}, map[User := map["username" := user]], {"username"});
    var fields := ["username", "endpoints"];
    assert Members(fields) == {"username", "endpoints"};
    assert "username"[0] != 's' && "endpoints"[0] != 's';
    assert s.secrets[User].Keys == {"username"};
    assert !GivesUp(s, User, fields);
    assert Touched(Members(fields) * s.requested) == {User} by {
      assert Members(fields) * s.requested == {"username"};
    }
  }

  // A field the secret does not list keeps its value; a listed one is gone.
  lemma {:induction false} OneSecretGivesUpField(s: Store, fields: seq<string>, g: Group, f: string)
    requires Valid(s) && g in s.secrets && GivesUp(s, g, fields)
    requires f in s.secrets[g]
    ensures Lookup(Deleted(s, fields), f) == if f in Members(fields) then None else Lookup(s, f)
  {
    assert g == GroupOf(f) && f in s.requested;
    var groups := Touched(Members(fields) * s.requested);
    if f in Members(fields) {
      assert f in Members(fields) * s.requested;
      assert g in groups;
    }
    assert g in Shrunk(s, fields, groups) ==>
        (f in Shrunk(s, fields, groups)[g] <==> f !in Members(fields));
    assert f !in s.databag;
  }

  // A field held elsewhere is not in the list.
  lemma {:induction false} OneSecretLeavesOthers(s: Store, fields: seq<string>, g: Group, f: string)
    requires Valid(s) && g in s.secrets && GivesUp(s, g, fields)
    requires f !in s.secrets[g]
    ensures Lookup(Deleted(s, fields), f) == Lookup(s, f) && f !in Members(fields)
  {
    var groups := Touched(Members(fields) * s.requested);
    forall h | h in groups ensures h == g {
      var k :| k in Members(fields) * s.requested && GroupOf(k) == h;
      assert k in s.secrets[g];
    }
  }

  lemma {:induction false} OneSecretHoldsAll(s: Store, fields: seq<string>, g: Group)
    requires Valid(s) && g in s.secrets && GivesUp(s, g, fields)
    ensures DeletesExactly(s, fields)
  {
    forall f ensures Lookup(Deleted(s, fields), f) == if f in Members(fields) then None else Lookup(s, f) {
      if f in s.secrets[g] {
        OneSecretGivesUpField(s, fields, g, f);
      } else {
        OneSecretLeavesOthers(s, fields, g, f);
      }
    }
  }

  lemma {:induction false} ShrunkHoldSomething(s: Store, fields: seq<string>, groups: set<Group>, g: Group)
    requires g in Shrunk(s, fields, groups) && s.secrets[g] != map[]
    ensures Shrunk(s, fields, groups)[g] != map[]
    ensures Shrunk(s, fields, groups)[g].Keys <= s.secrets[g].Keys
  {
    if g in groups && GivesUp(s, g, fields) {
      var k :| k in s.secrets[g].Keys && k !in Members(fields);
      assert k in Shrunk(s, fields, groups)[g];
    }
  }

  lemma {:induction false} DeleteKeepsValid(s: Store, fields: seq<string>)
    requires Valid(s)
    ensures Valid(Deleted(s, fields))
  {
    if !StaysOnDatabag(s) {
      var groups := Touched(Members(fields) * s.requested);
      forall g | g in Shrunk(s, fields, groups)
        ensures Shrunk(s, fields, groups)[g] != map[] && Shrunk(s, fields, groups)[g].Keys <= s.secrets[g].Keys
      {
        ShrunkHoldSomething(s, fields, groups, g);
      }
    }
  }

  // ---- Runs of updates and deletions ----

  datatype Op = Update(data: Fields) | Delete(fields: seq<string>)

  function After(s: Store, op: Op): Store {
    match op
    case Update(data) => Updated(s, data)
    case Delete(fields) => Deleted(s, fields)
  }

  function Run(s: Store, ops: seq<Op>): Store {
    if ops == [] then s else After(Run(s, ops[..|ops| - 1]), ops[|ops| - 1])
  }

  // What the same operations do to one plain map.
  function PlainAfter(data: Fields, op: Op): Fields {
    match op
    case Update(more) => data + more
    case Delete(fields) => data - Members(fields)
  }

  function PlainRun(data: Fields, ops: seq<Op>): Fields {
    if ops == [] then data else PlainAfter(PlainRun(data, ops[..|ops| - 1]), ops[|ops| - 1])
  }

  predicate OrdinaryOp(op: Op) {
    match op
    case Update(data) => Ordinary(data.Keys)
    case Delete(fields) => Ordinary(Members(fields))
  }

  // A deletion is exact if its fields are all outside the secrets or all in one of them.
  ghost predicate ExactOp(s: Store, op: Op) {
    op.Delete? ==> (forall f | f in op.fields :: !InSecret(s, f)) || HeldByOne(s, op.fields)
  }

  ghost predicate AllExact(s: Store, ops: seq<Op>) {
    ops == [] || (AllExact(s, ops[..|ops| - 1]) && ExactOp(Run(s, ops[..|ops| - 1]), ops[|ops| - 1]))
  }

  // After every operation, what can be fetched is the plain map.
  predicate FollowsMap(s: Store, ops: seq<Op>) {
    ops == [] || (FollowsMap(s, ops[..|ops| - 1]) && FetchAll(Run(s, ops)) == PlainRun(FetchAll(s), ops))
  }

  lemma {:induction false} OpKeepsValid(s: Store, op: Op)
    requires Valid(s)
    ensures Valid(After(s, op))
  {
    match op
    case Update(data) => UpdateKeepsValid(s, data);
    case Delete(fields) => DeleteKeepsValid(s, fields);
  }

  // The plain map holds what lookups give.
  lemma {:induction false} FetchAllIs(s: Store, data: Fields)
    requires Valid(s)
    ensures FetchAll(s) == data <==> forall f :: Lookup(s, f) == if f in data then Some(data[f]) else None
  {
    forall f
      ensures f in FetchAll(s) <==> Lookup(s, f).Some?
      ensures f in FetchAll(s) ==> Lookup(s, f) == Some(FetchAll(s)[f])
    {
      FetchReadsMap(s, s.databag.Keys + s.requested, f);
    }
  }

  lemma {:induction false} UpdateFollowsMap(s: Store, data: Fields)
    requires Valid(s) && Ordinary(data.Keys)
    ensures FetchAll(Updated(s, data)) == FetchAll(s) + data
  {
    UpdateKeepsValid(s, data);
    FetchAllIs(s, FetchAll(s));
    FetchAllIs(Updated(s, data), FetchAll(s) + data);
    forall f ensures Lookup(Updated(s, data), f) == if f in data then Some(data[f]) else Lookup(s, f) {
      UpdateRefinesMap(s, data, f);
    }
  }

  lemma {:induction false} DeleteFollowsMapIff(s: Store, fields: seq<string>)
    requires Valid(s) && Ordinary(Members(fields))
    ensures FetchAll(Deleted(s, fields)) == FetchAll(s) - Members(fields) <==> ExactOp(s, Delete(fields))
  {
    DeleteKeepsValid(s, fields);
    FetchAllIs(s, FetchAll(s));
    FetchAllIs(Deleted(s, fields), FetchAll(s) - Members(fields));
    DeleteIsExactIff(s, fields);
  }

  lemma {:induction false} OpRefinesMapIff(s: Store, op: Op)
    requires Valid(s) && OrdinaryOp(op)
    ensures FetchAll(After(s, op)) == PlainAfter(FetchAll(s), op) <==> ExactOp(s, op)
  {
    match op
    case Update(data) => UpdateFollowsMap(s, data);
    case Delete(fields) => DeleteFollowsMapIff(s, fields);
  }

  /** A run of updates and deletions follows one plain map, with every field in one place, if and
      only if each of its deletions is exact where it takes place. */
  lemma {:induction false} RunRefinesMapIff(s: Store, ops: seq<Op>)
    requires Valid(s) && forall i | 0 <= i < |ops| :: OrdinaryOp(ops[i])
    ensures Valid(Run(s, ops))
    ensures FollowsMap(s, ops) <==> AllExact(s, ops)
    ensures AllExact(s, ops) ==> FetchAll(Run(s, ops)) == PlainRun(FetchAll(s), ops)
    decreases |ops|
  {
    if ops != [] {
      var init, last := ops[..|ops| - 1], ops[|ops| - 1];
      RunRefinesMapIff(s, init);
      OpKeepsValid(Run(s, init), last);
      OpRefinesMapIff(Run(s, init), last);
    }
  }

  // ---- Where a field is kept ----

  // No field that was asked for as a secret is readable in the databag.
  ghost predicate Confidential(s: Store) {
    s.requested != {} && forall f | f in s.requested :: f !in s.databag
  }

  ghost predicate Holds(s: Store, f: string, value: string) {
    GroupOf(f) in s.secrets && f in s.secrets[GroupOf(f)] && s.secrets[GroupOf(f)][f] == value
  }

  /** An update writes the fields asked for as secrets to their groups' secrets and the others to the
      databag, where no secret field appears; nothing else changes. */
  lemma {:induction false} UpdateKeepsSecrets(s: Store, data: Fields)
    requires Valid(s) && Confidential(s)
    ensures var s' := Updated(s, data);
            && Valid(s') && Confidential(s') && s'.requested == s.requested
            && (forall f | f in data && f in s.requested :: Holds(s', f, data[f]))
            && (forall f | f in data && f !in s.requested :: f in s'.databag && s'.databag[f] == data[f])
            && (forall f | f in s'.databag && f !in data :: f in s.databag && s'.databag[f] == s.databag[f])
            && (forall f, v | f !in data :: Holds(s', f, v) <==> Holds(s, f, v))
  {
    UpdateKeepsValid(s, data);
    var secret := Only(data, s.requested);
    forall f
      ensures f in data && f in s.requested ==> Holds(Updated(s, data), f, data[f])
      ensures forall v | f !in data :: Holds(Updated(s, data), f, v) <==> Holds(s, f, v)
    {
      ContentAfter(s.secrets, secret, GroupOf(f), f);
    }
  }

  /** A relation that wants no secrets, or already has one of them in the databag, keeps everything
      in the databag. */
  lemma UpdateStaysOnDatabag(s: Store, data: Fields)
    requires !Confidential(s)
    ensures Updated(s, data) == s.(databag := s.databag + data)
  {
  }

  lemma {:induction false} DeleteKeepsConfidential(s: Store, fields: seq<string>)
    requires Valid(s) && Confidential(s)
    ensures Valid(Deleted(s, fields)) && Confidential(Deleted(s, fields)) && Deleted(s, fields).requested == s.requested
  {
    DeleteKeepsValid(s, fields);
  }

  /** Over any run of updates and deletions of a new relation that wants secrets, no such field is
      ever readable in the databag, and what the last update wrote to one is in its group's secret. */
  lemma {:induction false} SecretsStaySecret(requested: set<string>, ops: seq<Op>)
    requires requested != {}
    ensures var s := Run(Store(map[], {}, map[], requested), ops);
            && Valid(s) && Confidential(s) && s.requested == requested
            && (ops != [] && ops[|ops| - 1].Update? ==>
                  var data := ops[|ops| - 1].data;
                  forall f | f in data && f in requested :: Holds(s, f, data[f]))
    decreases |ops|
  {
    if ops != [] {
      var init := ops[..|ops| - 1];
      SecretsStaySecret(requested, init);
      var s := Run(Store(map[], {}, map[], requested), init);
      match ops[|ops| - 1]
      case Update(data) => UpdateKeepsSecrets(s, data);
      case Delete(fields) => DeleteKeepsConfidential(s, fields);
    }
  }

  /** Which fields share a secret. */
  lemma GroupsAreFixed(f: string)
    ensures GroupOf(f) == User <==> f in ["username", "password", "uris", "read-only-uris"]
    ensures GroupOf(f) == Tls <==> f in ["tls", "tls-ca"]
    ensures GroupOf(f) == Mtls <==> f == "mtls-cert"
    ensures GroupOf(f) == Entity <==> f in ["entity-name", "entity-password"]
  {
  }

  // ---- The object that carries it out ----

  class ProviderData {
    var databag: Fields
    var uris: set<Group>
    var secrets: map<Group, Fields>
    var requested: set<string>

    constructor (requested: set<string>)
      ensures State() == Store(map[], {}, map[], requested)
    {
      this.databag, this.uris, this.secrets, this.requested := map[], {}, map[], requested;
    }

    function State(): Store
      reads this
    {
      Store(databag, uris, secrets, requested)
    }

    /** Creates the group's secret and publishes its URI, or merges into the one that is there.
        It fails when the databag names a secret that cannot be found. */
    method AddOrUpdateSecret(g: Group, data: Fields) returns (ok: bool)
      modifies this`secrets, this`uris
      ensures ok <==> g in old(secrets) || g !in old(uris)
      ensures secrets == if ok then old(secrets)[g := Content(old(secrets), g) + Part(data, g)] else old(secrets)
      ensures uris == if ok && g !in old(secrets) then old(uris) + {g} else old(uris)
    {
      if g in secrets {
        secrets := secrets[g := secrets[g] + Part(data, g)];
        return true;
      }
      if g in uris {
        return false;
      }
      secrets := secrets[g := map[] + Part(data, g)];
      uris := uris + {g};
      return true;
    }

    /** Goes through the groups the secret fields touch, in any order.  No group refuses, as long
        as every URI in the databag names a secret. */
    method StoreSecretFields(secret: Fields) returns (refused: set<string>)
      requires uris == secrets.Keys
      modifies this`secrets, this`uris
      ensures secrets == WithSecrets(old(secrets), secret, Touched(secret.Keys))
      ensures uris == secrets.Keys && refused == {}
    {
      refused := {};
      ghost var groups := Touched(secret.Keys);
      var pending := Touched(secret.Keys);
      NoGroupsYet(secrets, secret);
      while pending != {}
        invariant pending <= groups
        invariant secrets == WithSecrets(old(secrets), secret, groups - pending)
        invariant uris == secrets.Keys && refused == {}
        decreases pending
      {
        var g :| g in pending;
        OneMoreGroup(old(secrets), secret, groups - pending, g);
        assert groups - (pending - {g}) == (groups - pending) + {g};
        var ok := AddOrUpdateSecret(g, secret);
        if !ok {
          refused := refused + OfGroup(secret.Keys, g);
        }
        pending := pending - {g};
      }
      assert groups - {} == groups;
    }

    method WriteFields(data: Fields)
      requires uris == secrets.Keys
      modifies this
      ensures State() == Updated(old(State()), data)
    {
      OnlyTheRest(data, requested);
      var normal := data.Keys;
      if !StaysOnDatabag(State()) {
        var refused := StoreSecretFields(Only(data, requested));
        normal := (data.Keys - requested) + refused;
        assert normal == data.Keys - requested;
      }
      databag := databag + Only(data, normal);
    }

    /** Before the relation is initialised only a few fields may be written; nothing is written
        if any other is among them. */
    method UpdateRelationData(initialised: bool, data: Fields) returns (r: Result<(), StoreError>)
      requires Valid(State())
      modifies this
      ensures Valid(State())
      ensures r.Err? <==> !initialised && exists f :: f in data && f !in ["endpoints", "read-only-endpoints", "replset"]
      ensures State() == if r.Ok? then Updated(old(State()), data) else old(State())
    {
      if !initialised && !(data.Keys <= EARLY_FIELDS) {
        return Err(PrematureDataAccess);
      }
      UpdateKeepsValid(State(), data);
      WriteFields(data);
      return Ok(());
    }

    /** Takes the listed fields out of one group's secret, or, at the first one it does not hold,
        leaves the secret as it was. */
    method DeleteFromSecret(g: Group, fields: seq<string>) returns (ok: bool)
      modifies this`secrets, this`uris
      ensures ok <==> GivesUp(old(State()), g, fields)
      ensures !ok ==> secrets == old(secrets) && uris == old(uris)
      ensures ok && old(secrets)[g].Keys == Members(fields) ==> secrets == old(secrets) - {g} && uris == old(uris) - {g}
      ensures ok && old(secrets)[g].Keys != Members(fields) ==>
                secrets == old(secrets)[g := old(secrets)[g] - Members(fields)] && uris == old(uris)
    {
      if g !in secrets {
        return false;
      }
      var content := secrets[g];
      var i := 0;
      while i < |fields|
        invariant 0 <= i <= |fields|
        invariant content == secrets[g] - Members(fields[..i])
        invariant Distinct(fields[..i]) && Members(fields[..i]) <= secrets[g].Keys
      {
        assert fields[..i + 1] == fields[..i] + [fields[i]];
        if fields[i] !in content {
          NotGivenUp(secrets[g].Keys, fields, i);
          return false;
        }
        assert Members(fields[..i + 1]) == Members(fields[..i]) + {fields[i]};
        content := content - {fields[i]};
        i := i + 1;
      }
      assert fields[..i] == fields;
      if content == map[] {
        assert forall f | f in secrets[g] :: f in Members(fields) || f in content;
        secrets, uris := secrets - {g}, uris - {g};
      } else {
        assert exists f :: f in content;
        secrets := secrets[g := content];
      }
      return true;
    }

    // One group's turn: the fields it refuses are left for the databag.
    method DeleteGroup(ghost s: Store, fields: seq<string>, ghost done: set<Group>, g: Group)
      returns (refused: set<string>)
      requires g !in done && requested == s.requested
      requires uris == secrets.Keys && secrets == Shrunk(s, fields, done)
      modifies this`secrets, this`uris
      ensures uris == secrets.Keys && secrets == Shrunk(s, fields, done + {g})
      ensures LeftForDatabag(s, fields, done + {g}) == LeftForDatabag(s, fields, done) + refused
    {
      OneMoreShrunk(s, fields, done, g);
      OneMoreLeft(s, fields, done, g);
      assert GivesUp(State(), g, fields) == GivesUp(s, g, fields);
      var ok := DeleteFromSecret(g, fields);
      refused := if ok then {} else OfGroup(Members(fields) * requested, g);
    }

    /** Hands the whole list to every group touched, in any order; the fields of a group that
        refuses are left for the databag. */
    method ProcessForDelete(fields: seq<string>) returns (normal: set<string>)
      requires uris == secrets.Keys
      modifies this`secrets, this`uris
      ensures secrets == Shrunk(old(State()), fields, Touched(Members(fields) * requested))
      ensures uris == secrets.Keys
      ensures normal == LeftForDatabag(old(State()), fields, Touched(Members(fields) * requested))
    {
      ghost var s := State();
      normal := Members(fields) - requested;
      ghost var groups := Touched(Members(fields) * requested);
      NothingTriedYet(s, fields);
      var pending := Touched(Members(fields) * requested);
      while pending != {}
        invariant pending <= groups
        invariant secrets == Shrunk(s, fields, groups - pending)
        invariant uris == secrets.Keys
        invariant normal == LeftForDatabag(s, fields, groups - pending)
        decreases pending
      {
        var g :| g in pending;
        assert groups - (pending - {g}) == (groups - pending) + {g};
        var refused := DeleteGroup(s, fields, groups - pending, g);
        normal, pending := normal + refused, pending - {g};
      }
      assert groups - {} == groups;
    }

    method DeleteRelationData(fields: seq<string>)
      requires Valid(State())
      modifies this
      ensures Valid(State()) && State() == Deleted(old(State()), fields)
    {
      DeleteKeepsValid(State(), fields);
      var normal := Members(fields);
      if !StaysOnDatabag(State()) {
        normal := ProcessForDelete(fields);
      }
      databag := databag - normal;
    }
  }

  lemma OnlyTheRest(data: Fields, requested: set<string>)
    ensures Only(data, data.Keys) == data && Only(data, data.Keys - requested) == data - requested
  {
  }

  lemma NothingTriedYet(s: Store, fields: seq<string>)
    ensures Shrunk(s, fields, {}) == s.secrets
    ensures LeftForDatabag(s, fields, {}) == Members(fields) - s.requested
  {
  }

  lemma OneMoreLeft(s: Store, fields: seq<string>, done: set<Group>, g: Group)
    ensures LeftForDatabag(s, fields, done + {g}) ==
            LeftForDatabag(s, fields, done) +
            (if GivesUp(s, g, fields) then {} else OfGroup(Members(fields) * s.requested, g))
  {
  }

  lemma NoGroupsYet(secrets: map<Group, Fields>, data: Fields)
    ensures WithSecrets(secrets, data, {}) == secrets
  {
  }

  // One group more: only that group's content changes.
  lemma {:induction false} OneMoreGroup(secrets: map<Group, Fields>, data: Fields, done: set<Group>, g: Group)
    requires g !in done
    ensures var now := WithSecrets(secrets, data, done);
            now[g := Content(now, g) + Part(data, g)] == WithSecrets(secrets, data, done + {g})
  {
    var now, more := WithSecrets(secrets, data, done), WithSecrets(secrets, data, done + {g});
    OneMoreContent(secrets, data, done, g);
    OneMoreLeavesOthers(secrets, data, done, g);
  }

  lemma {:induction false} OneMoreContent(secrets: map<Group, Fields>, data: Fields, done: set<Group>, g: Group)
    requires g !in done
    ensures Content(WithSecrets(secrets, data, done), g) == Content(secrets, g)
    ensures var more := WithSecrets(secrets, data, done + {g});
            g in more && more[g] == Content(secrets, g) + Part(data, g)
  {
  }

  lemma {:induction false} OneMoreLeavesOthers(secrets: map<Group, Fields>, data: Fields, done: set<Group>, g: Group)
    ensures var now, more := WithSecrets(secrets, data, done), WithSecrets(secrets, data, done + {g});
            && now.Keys + {g} == more.Keys
            && (forall h | h in now && h != g :: h in more && now[h] == more[h])
  {
  }

  lemma {:induction false} NotGivenUp(held: set<string>, fields: seq<string>, i: nat)
    requires i < |fields| && (fields[i] !in held || fields[i] in fields[..i])
    ensures !(Distinct(fields) && Members(fields) <= held)
  {
  }

  // The other groups' turns do not change what this group's secret does with the list.
  lemma {:induction false} OneMoreShrunk(s: Store, fields: seq<string>, done: set<Group>, g: Group)
    requires g !in done
    ensures g in Shrunk(s, fields, done) <==> g in s.secrets
    ensures g in s.secrets ==> Shrunk(s, fields, done)[g] == s.secrets[g]
    ensures var now := Shrunk(s, fields, done);
            Shrunk(s, fields, done + {g}) ==
            if !GivesUp(s, g, fields) then now
            else if s.secrets[g].Keys == Members(fields) then now - {g}
            else now[g := s.secrets[g] - Members(fields)]
  {
  }
}
