/** The charm's secrets, kept in the peer relation: some still in the databag under the name an
    older charm gave them, the others in one Juju secret under a translated name.  A secret is
    deleted by overwriting it with a label.  It is meant to behave like one plain map. */
module PeerSecrets {
  import opened Options
  import KeyNames

  type Fields = map<string, string>

  const DELETED_LABEL := "None"

  // ---- One unit's view of the peer data ----

  /** `added` lists the fields first set as secrets while the current hook runs; `leader` says
      whether this unit leads the application. */
  datatype Peer = Peer(leader: bool, databag: Fields, content: Option<Fields>, added: set<string>)

  function Live(s: Peer): Fields {
    match s.content
    case None => map[]
    case Some(c) => map f | f in c && c[f] != DELETED_LABEL :: c[f]
  }

  function Current(s: Peer): set<string> {
    Live(s).Keys + s.added
  }

  // A relation that started on the databag stays there.
  predicate StaysOnDatabag(s: Peer) {
    s.leader && exists f :: f in Current(s) && f in s.databag
  }

  function FetchField(s: Peer, f: string): Option<string> {
    if !StaysOnDatabag(s) && f in Live(s) then Some(Live(s)[f])
    else if f in s.databag then Some(s.databag[f])
    else None
  }

  function Get(s: Peer, key: string, name: string): Option<string> {
    var found := FetchField(s, key);
    if found.Some? && found.value != "" then found
    else if name in Current(s) then FetchField(s, name)
    else None
  }

  function UpdateField(s: Peer, f: string, value: string): Peer {
    if StaysOnDatabag(s) || f !in Current(s) then s.(databag := s.databag[f := value])
    else s.(content := Some((if s.content.Some? then s.content.value else map[])[f := value]))
  }

  function DeleteField(s: Peer, f: string): Peer {
    if StaysOnDatabag(s) || f !in Current(s) || s.content.None? then s.(databag := s.databag - {f})
    else s.(content := Some(s.content.value[f := DELETED_LABEL]))
  }

  function Set(s: Peer, key: string, name: string, value: string): Peer {
    if value == "" then DeleteField(s, name)
    else
      var popped := s.(databag := s.databag - {key});
      var ready :=
        if name in Current(popped) then popped.(databag := popped.databag - {name})
        else popped.(added := popped.added + {name});
      UpdateField(ready, name, value)
  }

  class PeerData {
    const leader: bool
    var databag: Fields
    var content: Option<Fields>
    var added: set<string>

    constructor (s: Peer)
      ensures State() == s
    {
      leader, databag, content, added := s.leader, s.databag, s.content, s.added;
    }

    function State(): Peer
      reads this
    {
      Peer(leader, databag, content, added)
    }

    method WriteField(f: string, value: string)
      modifies this`databag, this`content
      ensures State() == UpdateField(old(State()), f, value)
    {
      if StaysOnDatabag(State()) || f !in Current(State()) {
        databag := databag[f := value];
      } else if content.Some? {
        content := Some(content.value[f := value]);
      } else {
        content := Some(map[f := value]);
      }
    }

    method RemoveSecret(key: string)
      modifies this`databag, this`content
      ensures State() == DeleteField(old(State()), KeyNames.Translate(key))
    {
      var name := KeyNames.Translate(key);
      if !StaysOnDatabag(State()) && name in Current(State()) && content.Some? {
        content := Some(content.value[name := DELETED_LABEL]);
      } else {
        databag := databag - {name};
      }
    }

    method SetSecret(key: string, value: string)
      modifies this`databag, this`content, this`added
      ensures State() == Set(old(State()), key, KeyNames.Translate(key), value)
    {
      if value == "" {
        RemoveSecret(key);
        return;
      }
      var name := KeyNames.Translate(key);
      databag := databag - {key};
      if name in Current(State()) {
        databag := databag - {name};
      } else {
        added := added + {name};
      }
      WriteField(name, value);
    }

    method GetSecret(key: string) returns (value: Option<string>)
      ensures value == Get(State(), key, KeyNames.Translate(key))
    {
      value := FetchField(State(), key);
      if value.None? || value.value == "" {
        var name := KeyNames.Translate(key);
        if name !in Current(State()) {
          return None;
        }
        value := FetchField(State(), name);
      }
    }
  }

  // ---- The plain map ----

  /** The old copies by key, and the secrets by translated name. */
  datatype Plain = Plain(copies: Fields, secrets: Fields)

  function Abstract(s: Peer): Plain {
    Plain(s.databag, Live(s))
  }

  function Secret(p: Plain, name: string): Option<string> {
    if name in p.secrets then Some(p.secrets[name]) else None
  }

  function Read(p: Plain, key: string, name: string): Option<string> {
    if key in p.copies then Some(p.copies[key]) else Secret(p, name)
  }

  datatype Op =
    | SetOp(key: string, name: string, value: string)
    | RemoveOp(key: string, name: string)
    | NextHook(leads: bool)

  function Apply(s: Peer, op: Op): Peer {
    match op
    case SetOp(k, name, v) => Set(s, k, name, v)
    case RemoveOp(_, name) => DeleteField(s, name)
    case NextHook(leads) => s.(leader := leads, added := {})
  }

  function ApplyPlain(p: Plain, op: Op): Plain {
    match op
    case SetOp(k, name, v) =>
      if v == "" then Plain(p.copies - {name}, p.secrets - {name})
      else if v == DELETED_LABEL then Plain(p.copies - {k}, p.secrets - {name})
      else Plain(p.copies - {k}, p.secrets[name := v])
    case RemoveOp(_, name) => Plain(p.copies - {name}, p.secrets - {name})
    case NextHook(_) => p
  }

  /** Which keys are in use, and their translated names: no two keys share a name, and a key that is
      itself some key's name is its own name. */
  type Names = map<string, string>

  ghost predicate Proper(names: Names) {
    && (forall j, k | j in names && k in names && names[j] == names[k] :: j == k)
    && (forall j, k | j in names && k in names && names[j] == k :: names[k] == k)
  }

  /** No field is both in the databag and a secret; the databag's copies are not under a translated
      name, nor the secrets under an untranslated one. */
  ghost predicate Tidy(s: Peer, names: Names) {
    && (forall f | f in s.databag :: f !in Current(s) && s.databag[f] != "")
    && (forall k | k in names && k != names[k] :: names[k] !in s.databag && k !in Live(s))
  }

  predicate Uses(op: Op, names: Names) {
    op.NextHook? || (op.key in names && names[op.key] == op.name)
  }

  lemma GetReadsPlain(s: Peer, names: Names, key: string)
    requires Tidy(s, names) && key in names
    ensures Get(s, key, names[key]) == Read(Abstract(s), key, names[key])
  {
  }

  ghost predicate Apart(s: Peer) {
    forall f | f in s.databag :: f !in Current(s)
  }

  lemma ApartFetches(s: Peer, f: string)
    requires Apart(s)
    ensures FetchField(s, f) ==
            if f in Live(s) then Some(Live(s)[f]) else if f in s.databag then Some(s.databag[f]) else None
  {
  }

  // What overwriting one field does to the secret's live content.
  lemma {:induction false} LiveAfter(s: Peer, name: string, value: string, s': Peer)
    requires s'.content == Some((if s.content.Some? then s.content.value else map[])[name := value])
    ensures Live(s') == if value == DELETED_LABEL then Live(s) - {name} else Live(s)[name := value]
  {
  }

  // With the databag and the secret apart, a set goes to the secret.
  lemma {:induction false} SetWritesTheSecret(s: Peer, key: string, name: string, value: string)
    requires Apart(s) && (name in s.databag ==> name == key) && value != ""
    ensures var s' := Set(s, key, name, value);
            && s'.databag == s.databag - {key}
            && s'.content == Some((if s.content.Some? then s.content.value else map[])[name := value])
            && s'.added == s.added + (if name in Current(s) then {} else {name})
  {
    var popped := s.(databag := s.databag - {key});
    assert Current(popped) == Current(s);
    assert name !in popped.databag;
    assert popped.databag - {name} == popped.databag;
  }

  lemma {:induction false} SetKeepsApart(s: Peer, key: string, name: string, value: string)
    requires Apart(s) && (name in s.databag ==> name == key) && value != ""
    ensures var s' := Set(s, key, name, value);
            && Apart(s') && s'.databag == s.databag - {key}
            && Live(s') == if value == DELETED_LABEL then Live(s) - {name} else Live(s)[name := value]
    ensures forall f | f != name :: f in Current(Set(s, key, name, value)) <==> f in Current(s)
  {
    SetWritesTheSecret(s, key, name, value);
    LiveAfter(s, name, value, Set(s, key, name, value));
  }

  lemma {:induction false} SetRefines(s: Peer, names: Names, key: string, value: string)
    requires Proper(names) && Tidy(s, names) && key in names && value != ""
    ensures Tidy(Set(s, key, names[key], value), names)
    ensures Abstract(Set(s, key, names[key], value)) == ApplyPlain(Abstract(s), SetOp(key, names[key], value))
  {
    SetKeepsApart(s, key, names[key], value);
  }

  lemma {:induction false} RemoveRefines(s: Peer, names: Names, key: string)
    requires Tidy(s, names) && key in names
    ensures Tidy(DeleteField(s, names[key]), names)
    ensures Abstract(DeleteField(s, names[key])) == ApplyPlain(Abstract(s), RemoveOp(key, names[key]))
  {
    var name := names[key];
    var s' := DeleteField(s, name);
    if name in Current(s) && s.content.Some? {
      LiveAfter(s, name, DELETED_LABEL, s');
      assert name !in s.databag && s.databag - {name} == s.databag;
    } else {
      assert name !in Live(s) && Live(s) - {name} == Live(s);
    }
  }

  /** One step on the databag and the secret is one step on the plain map, and keeps the invariant. */
  lemma {:induction false} StepRefines(s: Peer, names: Names, op: Op)
    requires Proper(names) && Tidy(s, names) && Uses(op, names)
    ensures Tidy(Apply(s, op), names)
    ensures Abstract(Apply(s, op)) == ApplyPlain(Abstract(s), op)
  {
    match op
    case SetOp(k, _, v) =>
      if v == "" {
        RemoveRefines(s, names, k);
      } else {
        SetRefines(s, names, k, v);
      }
    case RemoveOp(k, _) => RemoveRefines(s, names, k);
    case NextHook(_) =>
  }

  function Run(s: Peer, ops: seq<Op>): Peer {
    if ops == [] then s else Apply(Run(s, ops[..|ops| - 1]), ops[|ops| - 1])
  }

  function RunPlain(p: Plain, ops: seq<Op>): Plain {
    if ops == [] then p else ApplyPlain(RunPlain(p, ops[..|ops| - 1]), ops[|ops| - 1])
  }

  predicate AllUse(ops: seq<Op>, names: Names) {
    forall i | 0 <= i < |ops| :: Uses(ops[i], names)
  }

  lemma {:induction false} RunRefines(s: Peer, names: Names, ops: seq<Op>)
    requires Proper(names) && Tidy(s, names) && AllUse(ops, names)
    ensures Tidy(Run(s, ops), names)
    ensures Abstract(Run(s, ops)) == RunPlain(Abstract(s), ops)
    decreases |ops|
  {
    if ops != [] {
      var last := |ops| - 1;
      RunRefines(s, names, ops[..last]);
      StepRefines(Run(s, ops[..last]), names, ops[last]);
    }
  }

  // The last value set for the key, "" if it was last removed, nothing if it was never touched.
  function LastWrite(ops: seq<Op>, key: string): Option<string> {
    if ops == [] then None
    else
      var op := ops[|ops| - 1];
      if op.SetOp? && op.key == key then Some(op.value)
      else if op.RemoveOp? && op.key == key then Some("")
      else LastWrite(ops[..|ops| - 1], key)
  }

  predicate EverSet(ops: seq<Op>, key: string) {
    ops != [] &&
    (EverSet(ops[..|ops| - 1], key) ||
     (ops[|ops| - 1].SetOp? && ops[|ops| - 1].key == key && ops[|ops| - 1].value != ""))
  }

  // An old databag copy: a removal reaches it only if it is under the translated name.
  predicate CopyLeft(p: Plain, ops: seq<Op>, key: string, name: string) {
    key in p.copies && !EverSet(ops, key) && (key != name || LastWrite(ops, key).None?)
  }

  function Expected(p: Plain, ops: seq<Op>, key: string, name: string): Option<string> {
    if CopyLeft(p, ops, key, name) then Some(p.copies[key])
    else
      match LastWrite(ops, key)
      case None => Read(p, key, name)
      case Some(v) => if v == "" || v == DELETED_LABEL then None else Some(v)
  }

  lemma {:induction false} CopiesAlong(p: Plain, names: Names, ops: seq<Op>, key: string)
    requires Proper(names) && key in names && AllUse(ops, names)
    ensures var q := RunPlain(p, ops);
            && (key in q.copies <==> CopyLeft(p, ops, key, names[key]))
            && (key in q.copies ==> q.copies[key] == p.copies[key])
    decreases |ops|
  {
    if ops != [] {
      CopiesAlong(p, names, ops[..|ops| - 1], key);
    }
  }

  lemma {:induction false} SecretsAlong(p: Plain, names: Names, ops: seq<Op>, key: string)
    requires Proper(names) && key in names && AllUse(ops, names)
    ensures Secret(RunPlain(p, ops), names[key]) ==
            match LastWrite(ops, key)
            case None => Secret(p, names[key])
            case Some(v) => if v == "" || v == DELETED_LABEL then None else Some(v)
    decreases |ops|
  {
    if ops != [] {
      SecretsAlong(p, names, ops[..|ops| - 1], key);
    }
  }

  lemma {:induction false} NeverWrittenNeverSet(ops: seq<Op>, key: string)
    requires LastWrite(ops, key).None?
    ensures !EverSet(ops, key)
    decreases |ops|
  {
    if ops != [] {
      NeverWrittenNeverSet(ops[..|ops| - 1], key);
    }
  }

  /** Over any run of sets, removals and new hooks, with or without the lead, a key reads back the
      last value set for it; a key last removed reads as absent, unless an old databag copy under its
      untranslated name was there from the start and the key was never set; a key not touched keeps
      its value. */
  lemma {:induction false} ReadsLastWrite(s: Peer, names: Names, ops: seq<Op>, key: string)
    requires Proper(names) && Tidy(s, names) && key in names && AllUse(ops, names)
    ensures Get(Run(s, ops), key, names[key]) == Expected(Abstract(s), ops, key, names[key])
  {
    RunRefines(s, names, ops);
    GetReadsPlain(Run(s, ops), names, key);
    CopiesAlong(Abstract(s), names, ops, key);
    SecretsAlong(Abstract(s), names, ops, key);
    if LastWrite(ops, key).None? {
      NeverWrittenNeverSet(ops, key);
    }
  }

  // ---- Which of the two places is used ----

  // A leader whose databag still has one of the current secrets.
  ghost predicate StillOnDatabag(s: Peer) {
    s.leader && exists f :: f in s.databag && (f in Live(s) || f in s.added)
  }

  /** Such a leader reads, writes and deletes in the databag only; otherwise what is a secret is read,
      written and marked as deleted in the secret, and the rest in the databag. */
  lemma {:induction false} PlaceOfField(s: Peer, f: string, value: string)
    ensures StillOnDatabag(s) ==>
              && FetchField(s, f) == (if f in s.databag then Some(s.databag[f]) else None)
              && UpdateField(s, f, value) == s.(databag := s.databag[f := value])
              && DeleteField(s, f) == s.(databag := s.databag - {f})
    ensures !StillOnDatabag(s) && f !in Live(s) && f !in s.added ==>
              && FetchField(s, f) == (if f in s.databag then Some(s.databag[f]) else None)
              && UpdateField(s, f, value) == s.(databag := s.databag[f := value])
              && DeleteField(s, f) == s.(databag := s.databag - {f})
    ensures !StillOnDatabag(s) && (f in Live(s) || f in s.added) ==>
              && UpdateField(s, f, value).databag == s.databag
              && UpdateField(s, f, value).content.Some? && f in UpdateField(s, f, value).content.value
              && UpdateField(s, f, value).content.value[f] == value
              && (s.content.Some? ==> DeleteField(s, f).databag == s.databag && f !in Live(DeleteField(s, f)))
  {
  }

  /** A set of the only current secret that is still in the databag moves it to the secret. */
  lemma {:induction false} SetMovesTheLastCopy(s: Peer, key: string, name: string, value: string)
    requires value != "" && value != DELETED_LABEL && name in Current(s)
    requires forall f | f in s.databag && f in Current(s) :: f == name || f == key
    ensures var s' := Set(s, key, name, value);
            && name !in s'.databag && !StillOnDatabag(s')
            && name in Live(s') && Live(s')[name] == value
            && forall f | f != name && f in Live(s) :: f in Live(s') && Live(s')[f] == Live(s)[f]
  {
    var ready := s.(databag := s.databag - {key} - {name});
    assert Current(s.(databag := s.databag - {key})) == Current(s) == Current(ready);
    LiveAfter(s, name, value, Set(s, key, name, value));
  }

  /** An empty value under the untranslated key counts as none. */
  lemma GetPrefersTheKey(s: Peer, key: string, name: string)
    ensures Get(s, key, name) ==
            if FetchField(s, key).Some? && FetchField(s, key).value != "" then FetchField(s, key)
            else if name in Live(s) || name in s.added then FetchField(s, name) else None
  {
  }

  // ---- Where the plain map stops ----

  /** Setting a key whose translated name is still in the databag moves the leader, and only the
      leader, back to the databag, and every other secret becomes unreadable; nothing else does. */
  lemma {:induction false} OtherSecretsHiddenIff(s: Peer, key: string, name: string, value: string, f: string)
    requires Apart(s) && value != ""
    requires f in Live(s) && f != name
    ensures FetchField(Set(s, key, name, value), f) ==
            if s.leader && name in s.databag && name != key then None else Some(Live(s)[f])
  {
    var popped := s.(databag := s.databag - {key});
    var s' := Set(s, key, name, value);
    assert Current(popped) == Current(s);
    assert f !in s.databag;
    if name in popped.databag {
      assert name !in Current(s);
      assert s.leader ==> StaysOnDatabag(popped.(added := popped.added + {name}));
      assert s.leader ==> name in s'.databag && name in Current(s');
    }
  }

  /** A value that was set is still there in the next hook exactly when the translated name was not
      left in the databag, or only another unit than the leader set it and reads it. */
  lemma {:induction false} ValueOutlivesHookIff(s: Peer, key: string, name: string, value: string, leads: bool)
    requires Apart(s) && value != "" && value != DELETED_LABEL
    requires key != name ==> key !in Live(s)
    ensures Get(Apply(Set(s, key, name, value), NextHook(leads)), key, name) == Some(value) <==>
            || !(name in s.databag && name != key)
            || (!s.leader && (!leads || s.databag[name] == value))
  {
    var s' := Set(s, key, name, value);
    var next := Apply(s', NextHook(leads));
    if name in s.databag && name != key {
      var popped := s.(databag := s.databag - {key});
      assert Current(popped) == Current(s) && name !in Current(s);
      if s.leader {
        assert StaysOnDatabag(popped.(added := popped.added + {name}));
        assert s'.databag == (s.databag - {key})[name := value] && Live(next) == Live(s);
      } else {
        LiveAfter(s, name, value, s');
        assert next.databag == s.databag - {key} && Live(next) == Live(s)[name := value];
        assert leads ==> StaysOnDatabag(next);
      }
    } else {
      SetKeepsApart(s, key, name, value);
      ApartFetches(next, key);
      ApartFetches(next, name);
    }
  }

  /** Setting one key changes what a key with another translated name reads exactly when that key is
      spelled like the first one's translated name; it then reads the first key's value. */
  lemma {:induction false} OtherKeyReads(s: Peer, key: string, name: string, value: string, key': string, name': string)
    requires Apart(s) && value != "" && value != DELETED_LABEL
    requires name in s.databag ==> name == key
    requires key' != key && name' != name
    ensures Get(Set(s, key, name, value), key', name') == if key' == name then Some(value) else Get(s, key', name')
  {
    var s' := Set(s, key, name, value);
    SetKeepsApart(s, key, name, value);
    ApartFetches(s, key');
    ApartFetches(s, name');
    ApartFetches(s', key');
    ApartFetches(s', name');
  }

  /** Of two keys with different translated names, one is spelled like the other's translated name
      only when that name is "ca". */
  lemma {:induction false} OnlyCaIsReadTwice(key: string, key': string)
    requires KeyNames.Translate(key) != KeyNames.Translate(key')
    ensures key' == KeyNames.Translate(key) <==> key' == "ca" && KeyNames.Translate(key) == "ca"
  {
    KeyNames.TranslateIsStableIff(key);
  }

  function NamesOf(keys: set<string>): Names {
    map k | k in keys :: KeyNames.Translate(k)
  }

  /** Which keys a charm may use together. */
  lemma {:induction false} KeysAreProperIff(keys: set<string>)
    ensures Proper(NamesOf(keys)) <==>
              && (forall j, k | j in keys && k in keys && KeyNames.Translate(j) == KeyNames.Translate(k) :: j == k)
              && !("ca" in keys && exists k :: k in keys && KeyNames.Translate(k) == "ca")
  {
    var names := NamesOf(keys);
    if "ca" in keys && exists k :: k in keys && KeyNames.Translate(k) == "ca" {
      var k :| k in keys && KeyNames.Translate(k) == "ca";
      KeyNames.TranslateIsStableIff(k);
      assert names[k] == "ca" && names["ca"] != "ca";
    } else {
      forall j, k | j in keys && k in keys && KeyNames.Translate(j) == k ensures KeyNames.Translate(k) == k {
        KeyNames.TranslateIsStableIff(j);
      }
      forall j, k | j in keys && k in keys
        ensures names[j] == KeyNames.Translate(j) && names[k] == KeyNames.Translate(k)
      {
      }
    }
  }
}
