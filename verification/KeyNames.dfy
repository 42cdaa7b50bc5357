/** How the charm turns the key of a secret into a name Juju accepts as a secret field. */
module KeyNames {
  const KEY_OVERRIDES: map<string, string> := map[
    "ca" := "cauth",
    "monitoring_password" := "monitoring-password",
    "auth_file" := "auth-file"]

  predicate NoUnderscore(key: string) {
    forall i | 0 <= i < |key| :: key[i] != '_'
  }

  function Dashed(key: string): (r: string)
    ensures NoUnderscore(r) && (NoUnderscore(key) ==> r == key)
  {
    seq(|key|, i requires 0 <= i < |key| => if key[i] == '_' then '-' else key[i])
  }

  function StripLeft(key: string): (r: string)
    ensures r == [] || r[0] != '-'
    ensures NoUnderscore(key) ==> NoUnderscore(r)
  {
    if key != [] && key[0] == '-' then StripLeft(key[1..]) else key
  }

  function StripRight(key: string): (r: string)
    ensures |r| <= |key|
    ensures r == [] || (r[|r| - 1] != '-' && r[0] == key[0])
    ensures NoUnderscore(key) ==> NoUnderscore(r)
  {
    if key != [] && key[|key| - 1] == '-' then StripRight(key[..|key| - 1]) else key
  }

  function Cleaned(name: string): (r: string)
    ensures NoUnderscore(r)
    ensures r == [] || (r[0] != '-' && r[|r| - 1] != '-')
  {
    StripRight(StripLeft(Dashed(name)))
  }

  function Translate(key: string): string {
    Cleaned(if key in KEY_OVERRIDES then KEY_OVERRIDES[key] else key)
  }

  lemma {:induction false} CleanStays(name: string)
    requires NoUnderscore(name) && (name == [] || (name[0] != '-' && name[|name| - 1] != '-'))
    ensures Cleaned(name) == name
  {
  }

  predicate AllDashes(s: string) {
    forall i | 0 <= i < |s| :: s[i] == '-'
  }

  lemma {:induction false} StripLeftDropsDashes(key: string)
    ensures |StripLeft(key)| <= |key|
    ensures AllDashes(key[..|key| - |StripLeft(key)|]) && StripLeft(key) == key[|key| - |StripLeft(key)|..]
  {
    if key != [] && key[0] == '-' {
      StripLeftDropsDashes(key[1..]);
      var n := |key| - |StripLeft(key)|;
      assert key[..n] == ['-'] + key[1..][..n - 1];
    }
  }

  lemma {:induction false} StripRightDropsDashes(key: string)
    ensures AllDashes(key[|StripRight(key)|..]) && StripRight(key) == key[..|StripRight(key)|]
  {
    if key != [] && key[|key| - 1] == '-' {
      var init := key[..|key| - 1];
      StripRightDropsDashes(init);
      var n := |StripRight(key)|;
      assert key[n..] == init[n..] + ['-'];
    }
  }

  /** A cleaned name is the name with every underscore a dash, less the dashes at its two ends. */
  lemma {:induction false} CleanedIsTheMiddle(name: string) returns (lo: nat, hi: nat)
    ensures lo <= hi <= |name| && Cleaned(name) == Dashed(name)[lo..hi]
    ensures AllDashes(Dashed(name)[..lo]) && AllDashes(Dashed(name)[hi..])
    ensures forall i | lo <= i < hi :: Cleaned(name)[i - lo] == if name[i] == '_' then '-' else name[i]
  {
    var dashed := Dashed(name);
    var left := StripLeft(dashed);
    StripLeftDropsDashes(dashed);
    StripRightDropsDashes(left);
    lo := |dashed| - |left|;
    hi := lo + |StripRight(left)|;
    assert Cleaned(name) == dashed[lo..][..hi - lo] == dashed[lo..hi];
    assert dashed[hi..] == left[hi - lo..];
  }

  /** Translating a translated name changes nothing, except that "ca" always becomes "cauth". */
  lemma {:induction false} TranslateIsStableIff(key: string)
    ensures Translate(Translate(key)) == Translate(key) <==> Translate(key) != "ca"
  {
    var name := Translate(key);
    if name == "ca" {
      CleanStays("cauth");
    } else {
      assert "monitoring_password"[10] == '_' && "auth_file"[4] == '_';
      assert name !in KEY_OVERRIDES;
      CleanStays(name);
    }
  }
}
