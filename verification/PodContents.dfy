/** What a runtime container finds at each path, traced through the volume each mount names. */
module PodContents {
  import opened Lists
  import opened Api
  import opened Cluster
  import V = Validation
  import R = Resolution
  import opened PodAssembly
  import opened Materialize
  import opened PodProperties

  /** One thing a container can see: a source, at a path, writable or not. */
  datatype View = View(path: string, source: Source, readOnly: bool)

  /** As the kubelet reads a pod: the mount names a volume, the volume names the source. */
  ghost predicate Sees(volumes: seq<Volume>, mounts: seq<Mount>, w: View) {
    exists v, m :: v in volumes && m in mounts && v.name == m.name && w == View(m.path, v.source, m.readOnly)
  }

  ghost predicate SeesAt(volumes: seq<Volume>, mounts: seq<Mount>, w: View, i: nat) {
    i < |volumes| && i < |mounts| && w == View(mounts[i].path, volumes[i].source, mounts[i].readOnly)
  }

  ghost predicate Lined(volumes: seq<Volume>, mounts: seq<Mount>, w: View) {
    exists i: nat :: SeesAt(volumes, mounts, w, i)
  }

  /** With matching, distinct names the lookup by name is the pairing by position. */
  lemma LookupIsPosition(volumes: seq<Volume>, mounts: seq<Mount>, w: View)
    requires MountNames(mounts) == Names(volumes) && Distinct(Names(volumes))
    ensures Sees(volumes, mounts, w) <==> Lined(volumes, mounts, w)
  {
    var names := Names(volumes);
    assert forall i :: 0 <= i < |mounts| ==> mounts[i].name == MountNames(mounts)[i];
    assert forall i :: 0 <= i < |volumes| ==> volumes[i].name == names[i];
    if Sees(volumes, mounts, w) {
      var v, m :| v in volumes && m in mounts && v.name == m.name && w == View(m.path, v.source, m.readOnly);
      var i :| 0 <= i < |volumes| && volumes[i] == v;
      var j :| 0 <= j < |mounts| && mounts[j] == m;
      assert names[i] == names[j];
      assert SeesAt(volumes, mounts, w, i);
    }
    if Lined(volumes, mounts, w) {
      var i: nat :| SeesAt(volumes, mounts, w, i);
      assert volumes[i] in volumes && mounts[i] in mounts;
    }
  }

  lemma LinedConcat(v: seq<Volume>, m: seq<Mount>, v2: seq<Volume>, m2: seq<Mount>, w: View)
    requires |v| == |m| && |v2| == |m2|
    ensures Lined(v + v2, m + m2, w) <==> Lined(v, m, w) || Lined(v2, m2, w)
  {
    if Lined(v + v2, m + m2, w) {
      var i: nat :| SeesAt(v + v2, m + m2, w, i);
      assert if i < |v| then SeesAt(v, m, w, i) else SeesAt(v2, m2, w, i - |v|);
    }
    if i: nat :| SeesAt(v, m, w, i) {
      assert SeesAt(v + v2, m + m2, w, i);
    }
    if i: nat :| SeesAt(v2, m2, w, i) {
      assert SeesAt(v + v2, m + m2, w, |v| + i);
    }
  }

  lemma LinedEach<T>(s: seq<T>, f: T -> Volume, g: T -> Mount, w: View)
    ensures Lined(Each(s, f), Each(s, g), w) <==> exists x :: x in s && w == View(g(x).path, f(x).source, g(x).readOnly)
  {
    var vs, ms := Each(s, f), Each(s, g);
    if i: nat :| SeesAt(vs, ms, w, i) {
      assert s[i] in s;
    }
    if x :| x in s && w == View(g(x).path, f(x).source, g(x).readOnly) {
      var i :| 0 <= i < |s| && s[i] == x;
      assert SeesAt(vs, ms, w, i);
    }
  }

  lemma LinedOne(v: Volume, m: Mount, w: View)
    ensures Lined([v], [m], w) <==> w == View(m.path, v.source, m.readOnly)
  {
    if w == View(m.path, v.source, m.readOnly) {
      assert SeesAt([v], [m], w, 0);
    }
  }

  // --- the three sources of mounts ---

  /** The Operator's own: working tree, scratch space, and the two credentials when there are any. */
  ghost predicate OperatorGives(x: Inputs, w: View) {
    x.spec.workspace.Some? &&
      (|| w == View(V.WorkspacePath(x.spec.workspace.value), Claim(x.name + "-workspace", false), false)
       || w == View(V.TmpMountPath, Scratch("", ""), false)
       || (x.gitSecret != "" && w == View(V.GitMountPath, SecretFiles(x.gitSecret, None), true))
       || (x.modelSecret != "" && w == View(V.ModelMountPath, SecretFiles(x.modelSecret, None), true)))
  }

  /** The source a declared volume stands for: its claim, else its ConfigMap, else its Secret, else scratch space. */
  ghost predicate Declares(v: AgentVolume, source: Source) {
    match source
    case Claim(name, readOnly) => v.claim == Some(name) && readOnly == v.readOnly
    case ConfigMapFiles(name, optional) => v.claim.None? && v.configMap == Some(ObjectSource(name, optional))
    case SecretFiles(name, optional) => v.claim.None? && v.configMap.None? && v.secret == Some(ObjectSource(name, optional))
    case Scratch(medium, sizeLimit) =>
      v.claim.None? && v.configMap.None? && v.secret.None? && v.emptyDir == Some(ScratchSource(medium, sizeLimit))
  }

  lemma DeclaresExactly(v: AgentVolume, source: Source)
    ensures SourceOf(v) == Some(source) <==> Declares(v, source)
  {
  }

  ghost predicate AgentGives(spec: AgentSpec, w: View) {
    spec.runtime.Some? &&
    exists v :: v in spec.runtime.value.volumes && Declares(v, w.source) && w.path == v.mountPath && w.readOnly == v.readOnly
  }

  ghost predicate CredentialsGive(creds: seq<R.MountedCredential>, w: View) {
    exists m :: m in creds && m.secret != "" && w == View(V.CredentialsDir + "/" + m.name, SecretFiles(m.secret, None), true)
  }

  lemma OperatorPart(x: Inputs, w: View)
    requires x.spec.workspace.Some?
    ensures var vs, ms :=
        WorkspaceVolumes(x.name, x.gitSecret, x.modelSecret), WorkspaceMounts(x.spec.workspace.value, x.gitSecret, x.modelSecret);
      Lined(vs, ms, w) <==> OperatorGives(x, w)
  {
    var path := V.WorkspacePath(x.spec.workspace.value);
    var tree, treeAt := Volume("workspace", Claim(x.name + "-workspace", false)), Mount("workspace", path, false);
    var tmp, tmpAt := Volume("tmp", Scratch("", "")), Mount("tmp", V.TmpMountPath, false);
    var git, gitAt := Volume("git-credential", SecretFiles(x.gitSecret, None)), Mount("git-credential", V.GitMountPath, true);
    var model, modelAt :=
      Volume("model-credential", SecretFiles(x.modelSecret, None)), Mount("model-credential", V.ModelMountPath, true);
    FourPlaces(tree, treeAt, tmp, tmpAt, git, gitAt, model, modelAt, x.gitSecret != "", x.modelSecret != "", w);
    assert WorkspaceVolumes(x.name, x.gitSecret, x.modelSecret) ==
      [tree] + [tmp] + (if x.gitSecret != "" then [git] else []) + (if x.modelSecret != "" then [model] else []);
    assert WorkspaceMounts(x.spec.workspace.value, x.gitSecret, x.modelSecret) ==
      [treeAt] + [tmpAt] + (if x.gitSecret != "" then [gitAt] else []) + (if x.modelSecret != "" then [modelAt] else []);
  }

  ghost predicate Pairs(v: Volume, m: Mount, w: View) {
    w == View(m.path, v.source, m.readOnly)
  }

  lemma FourPlaces(
      a: Volume, aAt: Mount, b: Volume, bAt: Mount, c: Volume, cAt: Mount, d: Volume, dAt: Mount,
      withC: bool, withD: bool, w: View)
    ensures Lined([a] + [b] + (if withC then [c] else []) + (if withD then [d] else []),
                  [aAt] + [bAt] + (if withC then [cAt] else []) + (if withD then [dAt] else []), w)
       <==> Pairs(a, aAt, w) || Pairs(b, bAt, w) || (withC && Pairs(c, cAt, w)) || (withD && Pairs(d, dAt, w))
  {
    LinedOne(a, aAt, w);
    LinedOne(b, bAt, w);
    LinedOne(c, cAt, w);
    LinedOne(d, dAt, w);
    LinedConcat([a], [aAt], [b], [bAt], w);
    LinedConcat([a] + [b], [aAt] + [bAt], if withC then [c] else [], if withC then [cAt] else [], w);
    LinedConcat(
      [a] + [b] + (if withC then [c] else []), [aAt] + [bAt] + (if withC then [cAt] else []),
      if withD then [d] else [], if withD then [dAt] else [], w);
  }

  lemma AgentPart(spec: AgentSpec, w: View)
    requires spec.runtime.Some?
    ensures var k := Known(spec.runtime.value.volumes);
      Lined(Each(k, UserVolume), Each(k, UserMount), w) <==> AgentGives(spec, w)
  {
    var k := Known(spec.runtime.value.volumes);
    LinedEach(k, UserVolume, UserMount, w);
    if x :| x in k && w == View(UserMount(x).path, UserVolume(x).source, UserMount(x).readOnly) {
      DeclaresExactly(x, w.source);
    }
    if AgentGives(spec, w) {
      var v :| v in spec.runtime.value.volumes && Declares(v, w.source) && w.path == v.mountPath && w.readOnly == v.readOnly;
      DeclaresExactly(v, w.source);
      assert v in k;
    }
  }

  lemma CredentialPart(creds: seq<R.MountedCredential>, w: View)
    ensures Lined(Each(Backed(creds), CredentialVolume), Each(Backed(creds), CredentialMount), w) <==> CredentialsGive(creds, w)
  {
    LinedEach(Backed(creds), CredentialVolume, CredentialMount, w);
    if CredentialsGive(creds, w) {
      var m :| m in creds && m.secret != "" && w == View(V.CredentialsDir + "/" + m.name, SecretFiles(m.secret, None), true);
      assert m in Backed(creds);
    }
  }

  /** The container sees exactly what the Operator, the Agent and its Credentials contribute, each thing at its own path. */
  lemma SeesExactly(x: Inputs, w: View)
    requires V.ValidSpec(x.spec) && x.spec.runtime.Some? && DistinctNames(x.spec.runtime.value.volumes)
    requires ProperCredentials(x.credentials)
    ensures Sees(Volumes(x), Mounts(x), w) <==> OperatorGives(x, w) || AgentGives(x.spec, w) || CredentialsGive(x.credentials, w)
  {
    VolumeNamesDistinct(x);
    MountsFollowVolumes(x);
    LookupIsPosition(Volumes(x), Mounts(x), w);
    var user, own := Known(x.spec.runtime.value.volumes), Backed(x.credentials);
    var fixed, fixedAt: seq<Mount> := [], [];
    if x.spec.workspace.Some? {
      fixed := WorkspaceVolumes(x.name, x.gitSecret, x.modelSecret);
      fixedAt := WorkspaceMounts(x.spec.workspace.value, x.gitSecret, x.modelSecret);
      OperatorPart(x, w);
    }
    AgentPart(x.spec, w);
    CredentialPart(x.credentials, w);
    ThreeSources(
      fixed, fixedAt, Each(user, UserVolume), Each(user, UserMount), Each(own, CredentialVolume), Each(own, CredentialMount), w);
  }

  lemma ThreeSources(
      v: seq<Volume>, m: seq<Mount>, v2: seq<Volume>, m2: seq<Mount>, v3: seq<Volume>, m3: seq<Mount>, w: View)
    requires |v| == |m| && |v2| == |m2| && |v3| == |m3|
    ensures Lined(v + v2 + v3, m + m2 + m3, w) <==> Lined(v, m, w) || Lined(v2, m2, w) || Lined(v3, m3, w)
  {
    LinedConcat(v, m, v2, m2, w);
    LinedConcat(v + v2, m + m2, v3, m3, w);
  }

  // --- in terms of the cluster ---

  /** A Credential the Agent lists, that exists and has a Secret, appears under its own name. */
  ghost predicate ListedCredentialGives(c: Store, ns: string, spec: AgentSpec, w: View) {
    exists n :: n in spec.credentialRefs && Exists(c, CredentialKind, ns, n)
      && c[Key(CredentialKind, ns, n)].body.secretName != ""
      && w == View(V.CredentialsDir + "/" + n, SecretFiles(c[Key(CredentialKind, ns, n)].body.secretName, None), true)
  }

  lemma CredentialAtMember(c: Store, ns: string, names: seq<string>, m: R.MountedCredential)
    ensures m in R.CredentialsAt(c, ns, names) <==>
            m.name in names && Exists(c, CredentialKind, ns, m.name) && c[Key(CredentialKind, ns, m.name)].body.secretName == m.secret
  {
    var all := R.All(CredentialKind, names);
    FlatMapMember(all, R.CredentialOf(c, ns), m);
    if m.name in names {
      var i :| 0 <= i < |names| && names[i] == m.name;
      assert all[i] in all;
    }
  }

  lemma ListedCredentials(c: Store, ns: string, spec: AgentSpec, w: View)
    ensures CredentialsGive(R.Resolve(c, ns, spec).credentials, w) <==> ListedCredentialGives(c, ns, spec, w)
  {
    R.CollectedLists(c, ns, spec);
    ListedNames(c, ns, spec, R.CredentialsAt(c, ns, spec.credentialRefs), w);
  }

  lemma ListedNames(c: Store, ns: string, spec: AgentSpec, creds: seq<R.MountedCredential>, w: View)
    requires creds == R.CredentialsAt(c, ns, spec.credentialRefs)
    ensures CredentialsGive(creds, w) <==> ListedCredentialGives(c, ns, spec, w)
  {
    if CredentialsGive(creds, w) {
      var m :| m in creds && m.secret != "" && w == View(V.CredentialsDir + "/" + m.name, SecretFiles(m.secret, None), true);
      CredentialAtMember(c, ns, spec.credentialRefs, m);
    }
    if ListedCredentialGives(c, ns, spec, w) {
      var n :| n in spec.credentialRefs && Exists(c, CredentialKind, ns, n)
        && c[Key(CredentialKind, ns, n)].body.secretName != ""
        && w == View(V.CredentialsDir + "/" + n, SecretFiles(c[Key(CredentialKind, ns, n)].body.secretName, None), true);
      CredentialAtMember(c, ns, spec.credentialRefs, R.MountedCredential(n, c[Key(CredentialKind, ns, n)].body.secretName));
    }
  }

  /** From cluster to container: every Secret the runtime can read is one its references lead to, at its documented place. */
  lemma BuiltPodSeesExactly(c: Store, a: Key, spec: AgentSpec, registryURL: string, x: Inputs, w: View)
    requires ProperNames(c) && V.ValidSpec(spec) && "" !in spec.credentialRefs
    requires spec.runtime.Some? && DistinctNames(spec.runtime.value.volumes)
    requires RuntimeInputs(c, a, spec, registryURL, R.Resolve(c, a.ns, spec)) == Some(x)
    ensures x.gitSecret == GitSecretAt(c, a.ns, spec)
    ensures spec.workspace.Some? ==> x.modelSecret == R.ModelSecret(c, a.ns, R.EffectiveSpec(c, a.ns, spec))
    ensures var pod := Materialized(x);
      Sees(pod.volumes, pod.containers[0].mounts, w) <==>
      OperatorGives(x, w) || AgentGives(spec, w) || ListedCredentialGives(c, a.ns, spec, w)
  {
    GitSecretExactly(c, a.ns, spec);
    ResolvedCredentialsAreProper(c, a.ns, spec);
    SeesExactly(x, w);
    ListedCredentials(c, a.ns, spec, w);
  }
}
