/** Juju's secret store as the application that owns the secrets sees it, one locally cached secret,
    and the cache of cached secrets.  The application is the only writer of its secrets.  A name here
    is what Juju calls the label of a secret. */
module SecretCache {
  import opened Options

  type Fields = map<string, string>

  datatype SecretError = AlreadyExists | NotFound | LabelTaken | Unavailable

  class Juju {
    var labels: map<string, nat>
    var contents: map<nat, Fields>
    var next: nat

    ghost predicate Valid()
      reads this
    {
      && (forall l | l in labels :: labels[l] in contents)
      && (forall id | id in contents :: id < next)
      && (forall l, m | l in labels && m in labels && labels[l] == labels[m] :: l == m)
    }

    constructor ()
      ensures Valid() && labels == map[] && contents == map[]
    {
      labels, contents, next := map[], map[], 0;
    }

    method AddSecret(content: Fields, name: string) returns (r: Result<nat, SecretError>)
      requires Valid()
      modifies this
      ensures Valid()
      ensures r == if name in old(labels) then Err(LabelTaken) else Ok(old(next))
      ensures r.Err? ==> labels == old(labels) && contents == old(contents)
      ensures r.Ok? ==> r.value !in old(contents)
                        && labels == old(labels)[name := r.value] && contents == old(contents)[r.value := content]
    {
      if name in labels {
        return Err(LabelTaken);
      }
      r := Ok(next);
      labels, contents, next := labels[name := next], contents[next := content], next + 1;
    }

    method SetContent(id: nat, content: Fields)
      requires Valid() && id in contents
      modifies this`contents
      ensures Valid() && contents == old(contents)[id := content]
    {
      contents := contents[id := content];
    }

    method RemoveAllRevisions(id: nat)
      requires Valid()
      modifies this`contents, this`labels
      ensures Valid() && contents == old(contents) - {id}
      ensures labels == Unlabelled(old(labels), id)
    {
      contents := contents - {id};
      labels := Unlabelled(labels, id);
    }

    // Looking a secret up by its id with a name moves that name onto it.
    method Attach(id: nat, name: string)
      requires Valid() && id in contents && name !in labels
      modifies this`labels
      ensures Valid() && labels == Relabelled(old(labels), id, name)
    {
      labels := Relabelled(labels, id, name);
    }
  }

  // A label moved onto a stored secret, which has one label at most.
  function Relabelled(labels: map<string, nat>, id: nat, name: string): map<string, nat> {
    Unlabelled(labels, id)[name := id]
  }

  function Unlabelled(labels: map<string, nat>, id: nat): map<string, nat> {
    map l | l in labels && labels[l] != id :: labels[l]
  }

  // The first of some labels that names a secret.
  function FirstKnown(labels: map<string, nat>, candidates: seq<string>): (r: Option<string>)
    ensures r.Some? ==> r.value in labels && r.value in candidates
    ensures r.None? ==> forall l | l in candidates :: l !in labels
  {
    if candidates == [] then None
    else if candidates[0] in labels then Some(candidates[0])
    else FirstKnown(labels, candidates[1..])
  }

  /** No earlier label would have done. */
  lemma {:induction false} FirstKnownIsFirst(labels: map<string, nat>, candidates: seq<string>, i: nat)
    requires i < |candidates| && candidates[i] in labels && forall j | 0 <= j < i :: candidates[j] !in labels
    ensures FirstKnown(labels, candidates) == Some(candidates[i])
  {
    if i > 0 {
      assert candidates[0] !in labels;
      FirstKnownIsFirst(labels, candidates[1..], i - 1);
    }
  }

  /** Where a secret is found: under its name, else under the first legacy name, else by URI. */
  function Located(labels: map<string, nat>, contents: map<nat, Fields>, name: string, legacy: seq<string>,
                   uri: Option<nat>): Result<Option<nat>, SecretError> {
    if name == "" && uri.None? then Ok(None)
    else if name in labels then Ok(Some(labels[name]))
    else if FirstKnown(labels, legacy).Some? then Ok(Some(labels[FirstKnown(labels, legacy).value]))
    else if uri.None? then Ok(None)
    else if uri.value in contents then Ok(uri)
    else Err(NotFound)
  }

  /** A secret is found exactly when its name, one of its legacy names or its URI leads to one, in this
      order; a URI that leads nowhere is an error, and without any of the three there is none. */
  lemma {:induction false} LocatedIsExact(labels: map<string, nat>, contents: map<nat, Fields>, name: string,
                                          legacy: seq<string>, uri: Option<nat>)
    ensures var r := Located(labels, contents, name, legacy, uri);
            var asks := name != "" || uri.Some?;
            && (!asks ==> r == Ok(None))
            && (asks && name in labels ==> r == Ok(Some(labels[name])))
            && (forall i | asks && name !in labels && 0 <= i < |legacy| && legacy[i] in labels
                           && forall j | 0 <= j < i :: legacy[j] !in labels ::
                  r == Ok(Some(labels[legacy[i]])))
            && (asks && name !in labels && (forall l | l in legacy :: l !in labels) ==>
                  match uri
                  case None => r == Ok(None)
                  case Some(id) => r == if id in contents then Ok(uri) else Err(NotFound))
  {
    forall i | 0 <= i < |legacy| && legacy[i] in labels && forall j | 0 <= j < i :: legacy[j] !in labels
      ensures FirstKnown(labels, legacy) == Some(legacy[i])
    {
      FirstKnownIsFirst(labels, legacy, i);
    }
  }

  class CachedSecret {
    const juju: Juju
    const name: string
    const legacyLabels: seq<string>
    var meta: Option<nat>
    var cached: Fields
    var uri: Option<nat>
    var currentLabel: Option<string>

    constructor (juju: Juju, name: string, uri: Option<nat>, legacyLabels: seq<string>)
      ensures this.juju == juju && this.name == name && this.legacyLabels == legacyLabels && this.uri == uri
      ensures meta == None && cached == map[] && currentLabel == None && Coherent()
    {
      this.juju, this.name, this.legacyLabels, this.uri := juju, name, legacyLabels, uri;
      meta, cached, currentLabel := None, map[], None;
    }

    // The name the secret is reached by.
    function LabelInUse(): string
      reads this
    {
      if currentLabel.Some? then currentLabel.value else name
    }

    /** The secret that is known is the one the name in use names, a legacy name is in use only
        while the new one names nothing, and what is cached is what is stored. */
    ghost predicate Coherent()
      reads this, juju
    {
      && (meta.Some? ==>
            && meta.value in juju.contents
            && LabelInUse() in juju.labels && juju.labels[LabelInUse()] == meta.value)
      && (currentLabel.Some? ==> meta.Some? && name !in juju.labels)
      && (cached != map[] ==> meta.Some? && meta.value in juju.contents && juju.contents[meta.value] == cached)
    }

    function Where(): Result<Option<nat>, SecretError>
      reads this, juju
    {
      if meta.Some? then Ok(meta) else Located(juju.labels, juju.contents, name, legacyLabels, uri)
    }

    // What a reader of the store would see.
    function Stored(): Fields
      reads this, juju
    {
      if Where().Ok? && Where().value.Some? && Where().value.value in juju.contents
      then juju.contents[Where().value.value] else map[]
    }

    // Whether the secret is still reached by a legacy label.
    predicate OnLegacy()
      reads this, juju
    {
      if meta.Some? then currentLabel.Some?
      else (name != "" || uri.Some?) && name !in juju.labels && FirstKnown(juju.labels, legacyLabels).Some?
    }

    // Whether no lookup by URI takes place.
    predicate NeedsNoUri()
      reads this, juju
    {
      meta.Some? || name in juju.labels || FirstKnown(juju.labels, legacyLabels).Some? || uri.None?
    }

    method FindByOldLabel()
      requires juju.Valid() && Coherent() && meta == None && name !in juju.labels
      modifies this`meta, this`currentLabel
      ensures Coherent()
      ensures FirstKnown(juju.labels, legacyLabels).Some? <==> currentLabel.Some?
      ensures FirstKnown(juju.labels, legacyLabels).None? ==> meta == None
      ensures FirstKnown(juju.labels, legacyLabels).Some? ==>
                meta == Some(juju.labels[FirstKnown(juju.labels, legacyLabels).value])
    {
      var i := 0;
      while i < |legacyLabels|
        invariant 0 <= i <= |legacyLabels|
        invariant meta == None && currentLabel == None && cached == map[]
        invariant FirstKnown(juju.labels, legacyLabels) == FirstKnown(juju.labels, legacyLabels[i..])
      {
        var l := legacyLabels[i];
        if l in juju.labels {
          meta := Some(juju.labels[l]);
          if l != name {
            currentLabel := Some(l);
          }
          return;
        }
        i := i + 1;
      }
    }

    /** Finds the secret.  The store keeps every content; only a URI lookup touches a name. */
    method Meta() returns (r: Result<Option<nat>, SecretError>)
      requires juju.Valid() && Coherent()
      modifies this`meta, this`currentLabel, juju`labels
      ensures juju.Valid() && Coherent()
      ensures r == old(Where()) && (r.Ok? ==> meta == r.value)
      ensures Stored() == old(Stored())
      ensures r.Ok? ==> currentLabel.Some? == old(OnLegacy())
      ensures old(NeedsNoUri()) ==>
                juju.labels == old(juju.labels)
      ensures juju.labels != old(juju.labels) ==>
                && r.Ok? && uri.Some? && meta == uri && name !in old(juju.labels)
                && juju.labels == Relabelled(old(juju.labels), uri.value, name)
    {
      if meta.None? {
        if name == "" && uri.None? {
          return Ok(None);
        }
        if name in juju.labels {
          meta := Some(juju.labels[name]);
        } else {
          FindByOldLabel();
        }
        if meta.None? && uri.Some? {
          if uri.value !in juju.contents {
            return Err(NotFound);
          }
          juju.Attach(uri.value, name);
          meta := uri;
        }
      }
      return Ok(meta);
    }

    method AddSecret(content: Fields) returns (r: Result<nat, SecretError>)
      requires juju.Valid()
      modifies this`meta, this`uri, juju
      ensures juju.Valid()
      ensures r.Ok? <==> old(uri).None? && name !in old(juju.labels)
      ensures r.Err? ==> meta == old(meta) && uri == old(uri)
                         && juju.labels == old(juju.labels) && juju.contents == old(juju.contents)
      ensures r.Ok? ==> r.value !in old(juju.contents) && meta == Some(r.value) && uri == Some(r.value)
                        && juju.labels == old(juju.labels)[name := r.value]
                        && juju.contents == old(juju.contents)[r.value := content]
    {
      if uri.Some? {
        return Err(AlreadyExists);
      }
      r := juju.AddSecret(content, name);
      if r.Ok? {
        uri, meta := Some(r.value), Some(r.value);
      }
    }

    /** A read returns what is stored and leaves every stored content as it was. */
    method GetContent() returns (r: Result<Fields, SecretError>)
      requires juju.Valid() && Coherent()
      modifies this`meta, this`currentLabel, this`cached, juju`labels
      ensures juju.Valid() && Coherent()
      ensures r == if old(Where()).Ok? then Ok(old(Stored())) else Err(NotFound)
      ensures r.Ok? ==> cached == r.value && meta == old(Where()).value && Stored() == old(Stored())
      ensures r.Ok? ==> currentLabel.Some? == old(OnLegacy())
      ensures old(NeedsNoUri()) ==>
                juju.labels == old(juju.labels)
    {
      if cached == map[] {
        var found := Meta();
        if found.Err? {
          return Err(NotFound);
        }
        if found.value.Some? {
          cached := juju.contents[found.value.value];
        }
      }
      return Ok(cached);
    }

    /** Moves off a legacy label: the whole content goes to a new secret under the new label, and
        the old secret stays as it was. */
    method MigrateToNewLabel()
      requires juju.Valid() && Coherent() && meta.Some?
      modifies this`meta, this`uri, this`currentLabel, juju
      ensures juju.Valid() && Coherent() && currentLabel.None? && meta.Some?
      ensures Stored() == old(Stored())
      ensures old(currentLabel).None? ==>
                meta == old(meta) && juju.labels == old(juju.labels) && juju.contents == old(juju.contents)
      ensures old(currentLabel).Some? ==>
                && meta.value !in old(juju.contents)
                && juju.labels == old(juju.labels)[name := meta.value]
                && juju.contents == old(juju.contents)[meta.value := old(Stored())]
    {
      if currentLabel.None? {
        return;
      }
      var content := juju.contents[meta.value];
      uri := None;
      var added := AddSecret(content);
      currentLabel := None;
    }

    method Overwrite(content: Fields)
      requires juju.Valid() && Coherent() && meta.Some? && content != map[]
      modifies this`meta, this`uri, this`currentLabel, this`cached, juju
      ensures juju.Valid() && Coherent() && currentLabel.None? && meta.Some? && Stored() == content
      ensures juju.contents == old(juju.contents)[meta.value := content]
      ensures if old(currentLabel).None? then meta == old(meta) && juju.labels == old(juju.labels)
              else meta.value !in old(juju.contents) && juju.labels == old(juju.labels)[name := meta.value]
    {
      MigrateToNewLabel();
      juju.SetContent(meta.value, content);
      cached := content;
    }

    /** A write of a non-empty content is what every later read returns; if the secret was still
        under a legacy label the old secret is not touched.  Writing an empty content removes the
        secret but not what is cached. */
    method SetContent(content: Fields) returns (r: Result<(), SecretError>)
      requires juju.Valid() && Coherent()
      modifies this`meta, this`uri, this`currentLabel, this`cached, juju
      ensures juju.Valid()
      ensures r.Err? <==> old(Where()).Err?
      ensures r.Ok? && old(Where()).value.None? ==> juju.contents == old(juju.contents) && meta.None?
      ensures r.Ok? && old(Where()).value.Some? && content == old(Stored()) ==>
                juju.contents == old(juju.contents) && meta == old(Where()).value
      ensures r.Ok? && old(Where()).value.Some? && content != old(Stored()) && content != map[] ==>
                && meta.Some? && juju.labels.Keys >= {name} && juju.labels[name] == meta.value
                && juju.contents == old(juju.contents)[meta.value := content]
                && (if old(OnLegacy()) then meta.value !in old(juju.contents) else meta == old(Where()).value)
      ensures r.Ok? && old(Where()).value.Some? && content != old(Stored()) && content == map[] ==>
                juju.contents == old(juju.contents) - {old(Where()).value.value} && cached == old(Stored())
      ensures Coherent() <==> (r.Ok? && old(Where()).value.Some? && content == map[] ==> old(Stored()) == map[])
      ensures r.Ok? && old(Where()).value.Some? ==> Stored() == content
      ensures old(NeedsNoUri()) && (content != map[] || content == old(Stored())) ==>
                juju.labels == if old(OnLegacy()) && content != old(Stored()) then old(juju.labels)[name := meta.value]
                               else old(juju.labels)
    {
      var found := Meta();
      if found.Err? {
        return Err(NotFound);
      }
      if found.value.None? {
        return Ok(());
      }
      var current := GetContent();
      if content == current.value {
        return Ok(());
      }
      if content != map[] {
        Overwrite(content);
      } else {
        juju.RemoveAllRevisions(meta.value);
      }
      return Ok(());
    }

    /** Overwrites some fields of what is stored. */
    method UpdateContent(data: Fields) returns (r: Result<(), SecretError>)
      requires juju.Valid() && Coherent()
      modifies this`meta, this`uri, this`currentLabel, this`cached, juju
      ensures juju.Valid() && Coherent()
      ensures r.Err? <==> old(Where()).Err?
      ensures r.Ok? && old(Where()).value.Some? ==> Stored() == old(Stored()) + data
      ensures r.Ok? && old(Where()).value.Some? ==>
                meta.Some? && juju.contents == old(juju.contents)[meta.value := Stored()]
      ensures r.Ok? && old(OnLegacy()) && old(Stored()) + data != old(Stored()) ==> meta.value !in old(juju.contents)
      ensures old(meta).Some? ==>
                && (meta == old(meta) || (meta.Some? && meta.value !in old(juju.contents)))
                && (juju.labels == old(juju.labels)
                    || (meta.Some? && name !in old(juju.labels) && juju.labels == old(juju.labels)[name := meta.value]))
    {
      var current := GetContent();
      if current.Err? {
        return Err(NotFound);
      }
      r := SetContent(current.value + data);
    }

    /** Removes the secret.  A legacy label in use is not forgotten. */
    method Remove() returns (r: Result<(), SecretError>)
      requires juju.Valid() && Coherent()
      modifies this`meta, this`uri, this`currentLabel, this`cached, juju
      ensures juju.Valid()
      ensures old(Where()).Err? ==> r == Err(NotFound)
      ensures old(Where()) == Ok(None) ==> r == Err(Unavailable)
      ensures r.Ok? ==> old(Where()).Ok? && old(Where()).value.Some?
                        && juju.contents == old(juju.contents) - {old(Where()).value.value}
                        && meta.None? && uri.None? && cached == map[]
      ensures r.Err? ==> juju.contents == old(juju.contents)
      ensures old(meta).Some? ==> r.Ok? && juju.labels == Unlabelled(old(juju.labels), old(meta).value)
      ensures Coherent() <==> r.Err? || !old(OnLegacy())
    {
      var found := Meta();
      if found.Err? {
        return Err(NotFound);
      }
      if found.value.None? {
        return Err(Unavailable);
      }
      juju.RemoveAllRevisions(found.value.value);
      cached, meta, uri := map[], None, None;
      return Ok(());
    }
  }

  ghost predicate AllCoherent(juju: Juju, secrets: map<string, CachedSecret>)
    reads juju, secrets.Values
  {
    && (forall n | n in secrets :: Member(juju, n, secrets[n]))
    && (forall m, n | m in secrets && n in secrets && secrets[m].meta == secrets[n].meta :: m == n)
  }

  ghost predicate Member(juju: Juju, name: string, secret: CachedSecret)
    reads juju, secret
  {
    secret.juju == juju && secret.name == name && secret.Coherent() && secret.meta.Some?
  }

  lemma {:induction false} OneMoreCoherent(juju: Juju, secrets: map<string, CachedSecret>, name: string,
                                           secret: CachedSecret)
    requires AllCoherent(juju, secrets) && Member(juju, name, secret)
    requires forall n | n in secrets :: secrets[n].meta != secret.meta
    ensures AllCoherent(juju, secrets[name := secret])
  {
  }

  // Two labels for one stored secret.
  lemma {:induction false} CachedTwice(juju: Juju, secrets: map<string, CachedSecret>, name: string,
                                        secret: CachedSecret)
    requires name !in secrets
    ensures (exists n :: n in secrets && secrets[n].meta == secret.meta) ==>
              !AllCoherent(juju, secrets[name := secret])
  {
    if n :| n in secrets && secrets[n].meta == secret.meta {
      var more := secrets[name := secret];
      assert n in more && name in more && more[n].meta == more[name].meta;
    }
  }

  class Cache {
    const juju: Juju
    var secrets: map<string, CachedSecret>

    constructor (juju: Juju)
      requires juju.Valid()
      ensures this.juju == juju && secrets == map[] && Valid()
    {
      this.juju, secrets := juju, map[];
    }

    /** Every cached secret is coherent with the store, and no two are the same stored secret. */
    ghost predicate Valid()
      reads this, juju, secrets.Values
    {
      juju.Valid() && AllCoherent(juju, secrets)
    }

    // Whether no cached secret stands for the stored one yet.
    ghost predicate NotCached(id: nat)
      reads this, secrets.Values
    {
      forall n | n in secrets :: secrets[n].meta != Some(id)
    }

    function Target(name: string, uri: Option<nat>, legacyLabels: seq<string>): Result<Option<nat>, SecretError>
      reads juju
    {
      Located(juju.labels, juju.contents, name, legacyLabels, uri)
    }

    /** What is done to one stored secret does not disturb the cached secrets that stand for others;
        at most the label given to it is new. */
    twostate lemma OthersStayCoherent(new id: nat, new given: string)
      requires old(AllCoherent(juju, secrets)) && secrets == old(secrets)
      requires forall n | n in secrets && n != given :: unchanged(secrets[n])
      requires forall i | i in old(juju.contents) && i != id ::
                 i in juju.contents && juju.contents[i] == old(juju.contents)[i]
      requires forall l | l in old(juju.labels) && old(juju.labels)[l] != id ::
                 l in juju.labels && juju.labels[l] == old(juju.labels)[l]
      requires forall l | l in juju.labels :: l in old(juju.labels) || l == given
      ensures forall n | n in secrets && n != given && secrets[n].meta != Some(id) :: Member(juju, n, secrets[n])
    {
      forall n | n in secrets && n != given && secrets[n].meta != Some(id) ensures Member(juju, n, secrets[n]) {
        assert old(Member(juju, n, secrets[n]));
      }
    }

    // Looks in the store for a secret.
    method Find(name: string, uri: Option<nat>, legacyLabels: seq<string>)
      returns (r: Result<CachedSecret, SecretError>)
      requires juju.Valid()
      modifies juju`labels
      ensures juju.Valid()
      ensures r.Ok? <==> old(Target(name, uri, legacyLabels)).Ok?
      ensures r.Ok? ==> r.value.meta == old(Target(name, uri, legacyLabels)).value
      ensures uri.None? ==> juju.labels == old(juju.labels)
      ensures r.Ok? ==> fresh(r.value) && r.value.juju == juju && r.value.name == name && r.value.Coherent()
      ensures juju.labels != old(juju.labels) ==>
                r.Ok? && r.value.meta.Some? && name !in old(juju.labels)
                && juju.labels == Relabelled(old(juju.labels), r.value.meta.value, name)
    {
      var secret := new CachedSecret(juju, name, uri, legacyLabels);
      var found := secret.Meta();
      if found.Err? {
        return Err(NotFound);
      }
      return Ok(secret);
    }

    // Looks for a secret that is not in the cache, and makes sure it can be cached.
    method Look(name: string, uri: Option<nat>, legacyLabels: seq<string>)
      returns (r: Result<CachedSecret, SecretError>)
      requires Valid() && name !in secrets
      modifies juju`labels
      ensures juju.Valid()
      ensures r.Ok? <==> old(Target(name, uri, legacyLabels)).Ok?
      ensures r.Ok? ==> fresh(r.value) && r.value.meta == old(Target(name, uri, legacyLabels)).value
      ensures r.Err? || r.value.meta.None? ==> Valid()
      ensures r.Ok? && r.value.meta.Some? && NotCached(r.value.meta.value) ==>
                AllCoherent(juju, secrets[name := r.value])
    {
      r := Find(name, uri, legacyLabels);
      if r.Err? || r.value.meta.None? {
        return;
      }
      OthersStayCoherent(r.value.meta.value, name);
      if NotCached(r.value.meta.value) {
        OneMoreCoherent(juju, secrets, name, r.value);
      }
    }

    /** Finds a secret, in the cache or else in the store.  No content changes.  The cache stays
        valid if and only if what was newly found was not cached under another label. */
    method Get(name: string, uri: Option<nat>, legacyLabels: seq<string>)
      returns (r: Result<Option<CachedSecret>, SecretError>)
      requires Valid()
      modifies this`secrets, juju`labels
      ensures name in old(secrets) ==> r == Ok(Some(old(secrets)[name]))
      ensures name !in old(secrets) ==> (r.Ok? <==> old(Target(name, uri, legacyLabels)).Ok?)
      ensures name !in old(secrets) && r.Ok? ==> (r.value.Some? <==> old(Target(name, uri, legacyLabels)).value.Some?)
      ensures name !in old(secrets) && r.Ok? && r.value.Some? ==>
                fresh(r.value.value) && r.value.value.meta == old(Target(name, uri, legacyLabels)).value
      ensures secrets == if name !in old(secrets) && r.Ok? && r.value.Some?
                         then old(secrets)[name := r.value.value] else old(secrets)
      ensures Valid() <==> name in old(secrets) || r.Err? || r.value.None?
                           || old(NotCached(Target(name, uri, legacyLabels).value.value))
    {
      if name in secrets {
        return Ok(Some(secrets[name]));
      }
      var secret := Look(name, uri, legacyLabels);
      if secret.Err? {
        return Err(NotFound);
      }
      if secret.value.meta.None? {
        return Ok(None);
      }
      CachedTwice(juju, secrets, name, secret.value);
      secrets := secrets[name := secret.value];
      return Ok(Some(secret.value));
    }

    method Create(name: string, content: Fields) returns (r: Result<CachedSecret, SecretError>)
      requires juju.Valid()
      modifies juju
      ensures juju.Valid()
      ensures r.Ok? <==> name !in old(juju.labels)
      ensures r.Err? ==> juju.labels == old(juju.labels) && juju.contents == old(juju.contents)
      ensures r.Ok? ==>
                && fresh(r.value) && Member(juju, name, r.value) && r.value.meta.value !in old(juju.contents)
                && juju.labels == old(juju.labels)[name := r.value.meta.value]
                && juju.contents == old(juju.contents)[r.value.meta.value := content]
    {
      var secret := new CachedSecret(juju, name, None, []);
      var added := secret.AddSecret(content);
      if added.Err? {
        return Err(added.error);
      }
      return Ok(secret);
    }

    lemma AllStored()
      requires Valid()
      ensures forall n | n in secrets :: secrets[n].meta.Some? && secrets[n].meta.value in juju.contents
    {
    }

    // A new stored secret under a new label disturbs no cached one.
    twostate lemma StaysValidBeside(new id: nat, new given: string)
      requires old(Valid()) && juju.Valid() && secrets == old(secrets) && given !in secrets
      requires forall n | n in secrets :: unchanged(secrets[n])
      requires id !in old(juju.contents) && id in juju.contents
      requires juju.contents == old(juju.contents)[id := juju.contents[id]]
      requires juju.labels == old(juju.labels)[given := id] && given !in old(juju.labels)
      ensures Valid() && NotCached(id)
    {
      forall n | n in secrets ensures secrets[n].meta != Some(id) {
        assert old(Member(juju, n, secrets[n]));
      }
      OthersStayCoherent(id, given);
    }

    method CreateApart(name: string, content: Fields) returns (r: Result<CachedSecret, SecretError>)
      requires Valid() && name !in secrets
      modifies juju
      ensures Valid()
      ensures r.Ok? <==> name !in old(juju.labels)
      ensures r.Err? ==> juju.contents == old(juju.contents)
      ensures r.Ok? ==>
                && fresh(r.value) && Member(juju, name, r.value) && NotCached(r.value.meta.value)
                && r.value.meta.value !in old(juju.contents)
                && juju.contents == old(juju.contents)[r.value.meta.value := content]
    {
      r := Create(name, content);
      if r.Ok? {
        StaysValidBeside(r.value.meta.value, name);
      }
    }

    /** Creates a secret under a new label. */
    method Add(name: string, content: Fields) returns (r: Result<CachedSecret, SecretError>)
      requires Valid()
      modifies this`secrets, juju
      ensures Valid()
      ensures name in old(secrets) ==> r == Err(AlreadyExists)
      ensures name !in old(secrets) ==> (r.Ok? <==> name !in old(juju.labels))
      ensures r.Err? ==> secrets == old(secrets) && juju.contents == old(juju.contents)
      ensures r.Ok? ==>
                && fresh(r.value) && r.value.meta.Some? && r.value.meta.value !in old(juju.contents)
                && secrets == old(secrets)[name := r.value]
                && juju.contents == old(juju.contents)[r.value.meta.value := content]
    {
      if name in secrets {
        return Err(AlreadyExists);
      }
      r := CreateApart(name, content);
      if r.Ok? {
        OneMoreCoherent(juju, secrets, name, r.value);
        secrets := secrets[name := r.value];
      }
    }

    method UpdateApart(name: string, data: Fields)
      requires Valid() && name in secrets
      modifies juju, secrets[name]
      ensures juju.Valid() && Member(juju, name, secrets[name])
      ensures forall n | n in secrets && n != name :: secrets[n].meta != secrets[name].meta
      ensures Contents(name) == old(Contents(name)) + data
      ensures forall id | id in old(juju.contents) && Some(id) != secrets[name].meta ::
                id in juju.contents && juju.contents[id] == old(juju.contents)[id]
      ensures juju.labels == old(juju.labels)
              || (name !in old(juju.labels) && juju.labels == old(juju.labels)[name := secrets[name].meta.value])
    {
      assert Member(juju, name, secrets[name]);
      assert forall n | n in secrets && n != name ::
          secrets[n].meta != secrets[name].meta && secrets[n].meta.value in juju.contents;
      var r := secrets[name].UpdateContent(data);
    }

    method RemoveApart(name: string) returns (id: nat)
      requires Valid() && name in secrets
      modifies juju, secrets[name]
      ensures juju.Valid()
      ensures old(secrets[name].meta) == Some(id)
      ensures juju.contents == old(juju.contents) - {id}
      ensures juju.labels == Unlabelled(old(juju.labels), id)
    {
      assert Member(juju, name, secrets[name]);
      id := secrets[name].meta.value;
      var r := secrets[name].Remove();
    }

    // The stored secret that a label stands for, in the cache or in the store.
    function Held(name: string): Option<nat>
      reads this, juju, secrets.Values
    {
      if name in secrets then secrets[name].meta else Target(name, None, []).value
    }

    // Removes a cached secret from the store and from the cache, and nothing else.
    method RemoveCached(name: string)
      requires Valid() && name in secrets
      modifies this`secrets, juju, secrets[name]
      ensures Valid() && secrets == old(secrets) - {name}
      ensures juju.contents == old(juju.contents) - {old(secrets[name].meta.value)}
    {
      AllStored();
      var id := RemoveApart(name);
      OthersStayCoherent(id, name);
      secrets := secrets - {name};
    }

    // Removes a secret that is found in the store but not in the cache.
    method RemoveStored(name: string)
      requires Valid() && name !in secrets
      modifies juju
      ensures juju.contents == match old(Target(name, None, []).value)
                               case None => old(juju.contents)
                               case Some(id) => old(juju.contents) - {id}
      ensures Valid() <==> old(Target(name, None, [])).value.None? || old(NotCached(Target(name, None, []).value.value))
    {
      AllStored();
      var found := Find(name, None, []);
      if found.value.meta.Some? {
        ghost var id := found.value.meta.value;
        var removed := found.value.Remove();
        OthersStayCoherent(id, name);
      }
    }

    /** Removes a secret, cached or found under its label, from the store and from the cache, and
        nothing else.  The cache stays valid if and only if what was found was not cached under another
        label. */
    method Remove(name: string)
      requires Valid()
      modifies this`secrets, juju, if name in secrets then {secrets[name]} else {}
      ensures secrets == old(secrets) - {name}
      ensures juju.contents == match old(Held(name))
                               case None => old(juju.contents)
                               case Some(id) => old(juju.contents) - {id}
      ensures Valid() <==> name in old(secrets) || old(Held(name)).None? || old(NotCached(Held(name).value))
    {
      if name in secrets {
        RemoveCached(name);
      } else {
        RemoveStored(name);
      }
    }

    // What is stored for a cached secret.
    function Contents(name: string): Fields
      reads this, juju, secrets.Values
    {
      if name in secrets && secrets[name].meta.Some? && secrets[name].meta.value in juju.contents
      then juju.contents[secrets[name].meta.value] else map[]
    }

    /** Overwrites some fields of a cached secret: every cached secret stays coherent with the store,
        and no other stored content changes. */
    method Update(name: string, data: Fields)
      requires Valid() && name in secrets
      modifies juju, secrets[name]
      ensures Valid()
      ensures Contents(name) == old(Contents(name)) + data
      ensures forall id | id in old(juju.contents) && Some(id) != secrets[name].meta ::
                id in juju.contents && juju.contents[id] == old(juju.contents)[id]
    {
      ghost var others := secrets - {name};
      UpdateApart(name, data);
      OthersStayCoherent(secrets[name].meta.value, name);
      OneMoreCoherent(juju, others, name, secrets[name]);
      assert others[name := secrets[name]] == secrets;
    }
  }
}
