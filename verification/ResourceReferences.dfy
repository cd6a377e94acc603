/** Finalizers, and the resource references that are kept among them. */
module ResourceReferences {
  import opened Common

  const FINALIZER := "unikorn"
  const DELETE_DEPENDENTS := "foregroundDeletion"
  const LEGACY_GROUP := "unikorn-cloud.org"
  const KUBERNETES_GROUP := "kubernetes.unikorn-cloud.org"

  predicate Ignored(f: string) {
    f in [FINALIZER, DELETE_DEPENDENTS]
  }

  /** The finalizers other than the two the manager ignores, in order. */
  function GetResourceReferences(finalizers: seq<string>): (r: seq<string>)
    ensures forall f :: f in r <==> f in finalizers && f != FINALIZER && f != DELETE_DEPENDENTS
  {
    if finalizers == [] then []
    else
      (if Ignored(finalizers[0]) then [] else [finalizers[0]])
      + GetResourceReferences(finalizers[1..])
  }

  /** controllerutil.RemoveFinalizer: every occurrence goes. */
  function Without(finalizers: seq<string>, f: string): (r: seq<string>)
    ensures forall x :: x in r <==> x in finalizers && x != f
  {
    if finalizers == [] then []
    else (if finalizers[0] == f then [] else [finalizers[0]]) + Without(finalizers[1..], f)
  }

  /** References are kept finalizer by finalizer, in order and with repetitions. */
  lemma {:induction false} ReferencesInOrder(a: seq<string>, b: seq<string>)
    ensures GetResourceReferences(a + b) == GetResourceReferences(a) + GetResourceReferences(b)
    decreases |a|
  {
    if a == [] {
      assert a + b == b;
    } else {
      var rest, head := a[1..], if Ignored(a[0]) then [] else [a[0]];
      assert (a + b)[1..] == rest + b && (a + b)[0] == a[0];
      ReferencesInOrder(rest, b);
      Regrouped(head, GetResourceReferences(rest), GetResourceReferences(b));
    }
  }

  function ApiGroup(group: string): string {
    if group == LEGACY_GROUP then KUBERNETES_GROUP else group
  }

  /** The reference made for a resource once its plural kind and group are known. */
  function GenerateResourceReference(resource: string, group: string, name: string): string {
    resource + "." + ApiGroup(group) + "/" + name
  }

  /** A reference spells out kind, group and name, the legacy group under the Kubernetes service's own
      name, and reads the same for a resource already in that group. */
  lemma LegacyReference(resource: string, name: string)
    ensures GenerateResourceReference(resource, "unikorn-cloud.org", name) ==
            resource + ".kubernetes.unikorn-cloud.org/" + name
    ensures forall group | group != "unikorn-cloud.org" ::
              GenerateResourceReference(resource, group, name) == resource + "." + group + "/" + name
  {
    var suffix := "." + ApiGroup("unikorn-cloud.org") + "/";
    assert suffix == ".kubernetes.unikorn-cloud.org/";
    assert GenerateResourceReference(resource, "unikorn-cloud.org", name) == resource + suffix + name;
  }

  /** A reference is never one of the ignored finalizers, so it always blocks deletion. */
  lemma ReferenceIsNeverIgnored(resource: string, group: string, name: string, finalizers: seq<string>)
    requires GenerateResourceReference(resource, group, name) in finalizers
    ensures GenerateResourceReference(resource, group, name) in GetResourceReferences(finalizers)
  {
    var prefix := resource + "." + ApiGroup(group);
    var reference := GenerateResourceReference(resource, group, name);
    assert reference[|prefix|] == '/';
    assert '/' in reference && '/' !in FINALIZER && '/' !in DELETE_DEPENDENTS;
  }

  lemma SplitAtFirst(a: string, x: string, b: string, y: string, sep: char)
    requires sep !in a && sep !in b
    requires a + [sep] + x == b + [sep] + y
    ensures a == b && x == y
  {
    var s := a + [sep] + x;
    assert s[|a|] == sep && s[|b|] == sep;
    assert |a| == |b|;
    assert a == s[..|a|] && b == s[..|b|];
    assert x == s[|a| + 1..] && y == s[|b| + 1..];
  }

  /** Two resources share a reference exactly when they have the same kind and name and the same
      group up to the legacy spelling of the Kubernetes service's group. */
  lemma ReferencesCoincideIff(r: string, g: string, n: string, r': string, g': string, n': string)
    requires '.' !in r && '.' !in r' && '/' !in g && '/' !in g'
    ensures GenerateResourceReference(r, g, n) == GenerateResourceReference(r', g', n') <==>
            r == r' && n == n' && (g == g' || {g, g'} == {LEGACY_GROUP, KUBERNETES_GROUP})
  {
    var tail, tail' := ApiGroup(g) + "/" + n, ApiGroup(g') + "/" + n';
    assert GenerateResourceReference(r, g, n) == r + ['.'] + tail;
    assert GenerateResourceReference(r', g', n') == r' + ['.'] + tail';
    if GenerateResourceReference(r, g, n) == GenerateResourceReference(r', g', n') {
      SplitAtFirst(r, tail, r', tail', '.');
      assert '/' !in KUBERNETES_GROUP;
      SplitAtFirst(ApiGroup(g), n, ApiGroup(g'), n', '/');
    }
    if {g, g'} == {LEGACY_GROUP, KUBERNETES_GROUP} {
      assert g in {LEGACY_GROUP, KUBERNETES_GROUP} && g' in {LEGACY_GROUP, KUBERNETES_GROUP};
    }
  }
}
