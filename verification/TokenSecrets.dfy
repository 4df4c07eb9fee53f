/** The service account token secrets that go with a physical pod. */
module TokenSecrets {
  import opened Wrappers
  import opened PodStatus

  const ACCESS_PREFIX := "kube-api-access-"
  const TOKEN_LABEL := "kubeocean.io/service-account-token"

  datatype Key = Key(namespace: string, name: string)

  /** Secrets by key, each with its labels. */
  type Secrets = map<Key, Text>

  predicate IsTokenSecret(secrets: Secrets, k: Key) {
    k in secrets && Get(secrets[k], TOKEN_LABEL) == "true"
  }

  /** The last secret among the projected sources of a volume. */
  function LastSecret(sources: seq<Option<string>>): string {
    if sources == [] then ""
    else if sources[|sources| - 1].Some? then sources[|sources| - 1].value
    else LastSecret(sources[..|sources| - 1])
  }

  /** The secret of an API access volume, or "". */
  function SecretOf(v: Volume): string {
    if !(ACCESS_PREFIX <= v.name) then ""
    else if v.secret.Some? then v.secret.value
    else LastSecret(v.projected)
  }

  predicate Refers(volumes: seq<Volume>, name: string) {
    name != "" && exists i :: 0 <= i < |volumes| && SecretOf(volumes[i]) == name
  }

  /** The token secrets of the volumes that can be read. */
  ghost predicate Doomed(secrets: Secrets, namespace: string, volumes: seq<Volume>, unreadable: set<string>, k: Key) {
    k.namespace == namespace && Refers(volumes, k.name) && IsTokenSecret(secrets, k) && k.name !in unreadable
  }

  /** The volume gives access to the API by way of the secret. */
  ghost predicate Mentions(v: Volume, name: string) {
    && name != "" && |v.name| >= 16 && v.name[..16] == "kube-api-access-"
    && (if v.secret.Some? then v.secret.value == name
        else exists j :: LastAt(v.projected, name, j))
  }

  ghost predicate LastAt(sources: seq<Option<string>>, name: string, j: int) {
    0 <= j < |sources| && sources[j] == Some(name) && forall l :: j < l < |sources| ==> sources[l].None?
  }

  lemma {:induction false} LastSecretIs(sources: seq<Option<string>>, name: string)
    requires name != ""
    ensures LastSecret(sources) == name <==> exists j :: LastAt(sources, name, j)
  {
    if sources != [] {
      var n := |sources| - 1;
      var before := sources[..n];
      LastSecretIs(before, name);
      if sources[n].None? {
        if j :| LastAt(before, name, j) {
          forall l | j < l < |sources| ensures sources[l].None? {
            assert l < n ==> before[l] == sources[l];
          }
          assert LastAt(sources, name, j);
        }
        if j :| LastAt(sources, name, j) {
          assert LastAt(before, name, j);
        }
      } else if sources[n] == Some(name) {
        assert LastAt(sources, name, n);
      }
    }
  }

  lemma RefersIff(volumes: seq<Volume>, name: string)
    ensures Refers(volumes, name) <==> exists i :: 0 <= i < |volumes| && Mentions(volumes[i], name)
  {
    if name != "" {
      forall i | 0 <= i < |volumes| ensures SecretOf(volumes[i]) == name <==> Mentions(volumes[i], name) {
        LastSecretIs(volumes[i].projected, name);
        assert |ACCESS_PREFIX| == 16;
      }
    }
  }

  method FindSecret(v: Volume) returns (name: string)
    ensures name == SecretOf(v)
  {
    name := "";
    if !(ACCESS_PREFIX <= v.name) {
      return;
    }
    if v.secret.Some? {
      return v.secret.value;
    }
    for i := 0 to |v.projected|
      invariant name == LastSecret(v.projected[..i])
    {
      assert v.projected[..i + 1][..i] == v.projected[..i];
      if v.projected[i].Some? {
        name := v.projected[i].value;
      }
    }
    assert v.projected[..|v.projected|] == v.projected;
  }

  /** A secret that is missing or cannot be read is passed over. */
  method CollectTokenSecrets(secrets: Secrets, namespace: string, volumes: seq<Volume>, unreadable: set<string>)
    returns (names: seq<string>)
    ensures forall k :: Doomed(secrets, namespace, volumes, unreadable, k) <==>
            k.namespace == namespace && k.name in names
    ensures forall n :: n in names <==>
              && n !in unreadable && Key(namespace, n) in secrets
              && Get(secrets[Key(namespace, n)], "kubeocean.io/service-account-token") == "true"
              && exists i :: 0 <= i < |volumes| && Mentions(volumes[i], n)
  {
    forall n ensures Refers(volumes, n) <==> exists i :: 0 <= i < |volumes| && Mentions(volumes[i], n) {
      RefersIff(volumes, n);
    }
    names := [];
    for i := 0 to |volumes|
      invariant forall n :: n in names <==> Collected(secrets, namespace, volumes[..i], unreadable, n)
    {
      var name := FindSecret(volumes[i]);
      CollectedSnoc(secrets, namespace, volumes[..i], volumes[i], unreadable);
      assert volumes[..i + 1] == volumes[..i] + [volumes[i]];
      if name == "" || Key(namespace, name) !in secrets || name in unreadable {
        continue;
      }
      if Get(secrets[Key(namespace, name)], TOKEN_LABEL) == "true" {
        names := names + [name];
      }
    }
    assert volumes[..|volumes|] == volumes;
    forall k ensures Doomed(secrets, namespace, volumes, unreadable, k) <==>
        k.namespace == namespace && k.name in names {
      assert k == Key(k.namespace, k.name);
    }
  }

  ghost predicate Collected(secrets: Secrets, namespace: string, volumes: seq<Volume>, unreadable: set<string>,
                            name: string) {
    Refers(volumes, name) && IsTokenSecret(secrets, Key(namespace, name)) && name !in unreadable
  }

  lemma CollectedSnoc(secrets: Secrets, namespace: string, volumes: seq<Volume>, v: Volume, unreadable: set<string>)
    ensures forall n :: Collected(secrets, namespace, volumes + [v], unreadable, n) <==>
              || Collected(secrets, namespace, volumes, unreadable, n)
              || (&& n == SecretOf(v) && n != "" && IsTokenSecret(secrets, Key(namespace, n)) && n !in unreadable)
  {
    var all := volumes + [v];
    forall n ensures Refers(all, n) <==> Refers(volumes, n) || (n != "" && n == SecretOf(v)) {
      if i :| 0 <= i < |volumes| && SecretOf(volumes[i]) == n {
        assert all[i] == volumes[i];
      }
      assert all[|volumes|] == v;
    }
  }

  /** Deletes the token secrets of the volumes, up to the first failure. */
  method DeleteTokenSecrets(secrets: Secrets, namespace: string, volumes: seq<Volume>, unreadable: set<string>,
                            failing: set<string>)
    returns (ok: bool, left: Secrets)
    ensures failing == {} ==> ok
    ensures ok ==> forall k :: k in left <==> k in secrets && !Doomed(secrets, namespace, volumes, unreadable, k)
    ensures forall k :: k in secrets && k !in left ==> Doomed(secrets, namespace, volumes, unreadable, k)
    ensures forall k :: k in left ==> k in secrets && left[k] == secrets[k]
  {
    var names := CollectTokenSecrets(secrets, namespace, volumes, unreadable);
    left := secrets;
    for i := 0 to |names|
      invariant forall k :: k in left <==> k in secrets && !(k.namespace == namespace && k.name in names[..i])
      invariant forall k :: k in left ==> left[k] == secrets[k]
    {
      var k := Key(namespace, names[i]);
      if k in left && names[i] in failing {
        return false, left;
      }
      left := left - {k};
      assert names[..i + 1] == names[..i] + [names[i]];
      forall k': Key | k'.namespace == namespace && k'.name == names[i] ensures k' == k {
      }
    }
    assert names[..|names|] == names;
    return true, left;
  }
}
