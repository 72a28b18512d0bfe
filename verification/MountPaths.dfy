/** Where the mounts of a runtime pod really land: which of them validation keeps apart, and which it does not. */
module MountPaths {
  import opened Lists
  import opened Api
  import opened Cluster
  import V = Validation
  import R = Resolution
  import opened Paths
  import opened PodAssembly
  import opened Materialize
  import PP = PodProperties

  // --- cleaned text and normal form ---

  lemma {:induction false} TrimKeepsPlace(path: string)
    ensures Normal(V.TrimRight(path)) == Normal(path)
  {
    if path != "" && path[|path| - 1] == '/' {
      var short := path[..|path| - 1];
      TrimKeepsPlace(short);
      NormalSlash(short);
      assert path == short + "/";
    }
  }

  lemma CleanKeepsPlace(path: string)
    ensures Normal(V.Clean(path)) == Normal(path)
  {
    TrimKeepsPlace(path);
    NormalRoot();
  }

  /** Written canonically but for trailing slashes. */
  predicate Plain(path: string) {
    Canonical(V.Clean(path))
  }

  /** On plain paths, validation's comparison of cleaned text is the comparison of places. */
  lemma PlainText(path: string)
    requires Plain(path)
    ensures V.Clean(path) == Text(Normal(path))
  {
    CleanKeepsPlace(path);
  }

  // --- the Operator's places ---

  const TmpPlace := ["tmp"]
  const PlanePlace := ["var", "run", "agentplane"]
  const GitPlace := PlanePlace + ["git"]
  const ModelPlace := PlanePlace + ["model"]
  const CredentialsPlace := PlanePlace + ["credentials"]

  const ReservedPlaces := [TmpPlace, GitPlace, ModelPlace, CredentialsPlace]

  lemma Below(dir: string, place: seq<string>, path: string, name: string)
    requires Writes(dir, place) && ProperPart(name) && path == dir + "/" + name
    ensures Writes(path, place + [name])
  {
    WritesChild(dir, place, name);
  }

  lemma ThreeDown(a: string, b: string, c: string)
    requires ProperPart(a) && ProperPart(b) && ProperPart(c)
    ensures Writes("/" + a + "/" + b + "/" + c, [a, b, c])
  {
    NormalRoot();
    Below("", [], "/" + a, a);
    Below("/" + a, [a], "/" + a + "/" + b, b);
    Below("/" + a + "/" + b, [a, b], "/" + a + "/" + b + "/" + c, c);
  }

  lemma PlaneDirectory()
    ensures Writes("/var/run/agentplane", PlanePlace)
  {
    ThreeDown("var", "run", "agentplane");
    assert "/" + "var" + "/" + "run" + "/" + "agentplane" == "/var/run/agentplane";
  }

  lemma TmpIsWritten()
    ensures Writes(V.TmpMountPath, TmpPlace)
  {
    NormalRoot();
    Below("", [], V.TmpMountPath, "tmp");
  }

  lemma GitIsWritten()
    ensures Writes(V.GitMountPath, GitPlace)
  {
    PlaneDirectory();
    Below("/var/run/agentplane", PlanePlace, V.GitMountPath, "git");
  }

  lemma ModelIsWritten()
    ensures Writes(V.ModelMountPath, ModelPlace)
  {
    PlaneDirectory();
    Below("/var/run/agentplane", PlanePlace, V.ModelMountPath, "model");
  }

  lemma CredentialsAreWritten()
    ensures Writes(V.CredentialsDir, CredentialsPlace)
  {
    PlaneDirectory();
    Below("/var/run/agentplane", PlanePlace, V.CredentialsDir, "credentials");
  }

  /** Neither a reserved path nor anything in the credentials directory. */
  ghost predicate OffOperator(place: seq<string>) {
    place !in ReservedPlaces && !Inside(place, CredentialsPlace)
  }

  /** For a plain path, other text means another place. */
  lemma OtherText(path: string, reserved: string, place: seq<string>)
    requires Plain(path) && Writes(reserved, place) && place != [] && V.Clean(path) != reserved
    ensures Normal(path) != place
  {
    PlainText(path);
  }

  lemma OtherDirectory(path: string, dir: string, place: seq<string>)
    requires Plain(path) && Writes(dir, place) && place != [] && !V.HasPrefix(V.Clean(path), dir + "/")
    ensures !Inside(Normal(path), place)
  {
    PlainText(path);
    if Inside(Normal(path), place) {
      DescentInside(Normal(path), place);
    }
  }

  lemma AcceptedText(spec: AgentSpec, v: AgentVolume)
    requires V.ValidVolume(spec, v)
    ensures var text := V.Clean(v.mountPath);
      text != V.TmpMountPath && text != V.GitMountPath && text != V.ModelMountPath && text != V.CredentialsDir
  {
    var r := V.ReservedMountPaths;
    assert r[0] in r && r[1] in r && r[2] in r && r[3] in r;
    assert forall p :: p in r ==> p in V.ReservedPaths(spec);
  }

  /** A plain path that validation accepts is off every Operator path, wherever it is mounted. */
  lemma PlainIsOffOperator(spec: AgentSpec, v: AgentVolume)
    requires V.ValidVolume(spec, v) && Plain(v.mountPath)
    ensures OffOperator(Normal(v.mountPath))
  {
    AcceptedText(spec, v);
    PlainIsNotReserved(v.mountPath);
    CredentialsAreWritten();
    OtherDirectory(v.mountPath, V.CredentialsDir, CredentialsPlace);
  }

  lemma PlainIsNotReserved(path: string)
    requires Plain(path)
    requires var text := V.Clean(path);
      text != V.TmpMountPath && text != V.GitMountPath && text != V.ModelMountPath && text != V.CredentialsDir
    ensures Normal(path) !in ReservedPlaces
  {
    var place := Normal(path);
    assert place != TmpPlace by { TmpIsWritten(); OtherText(path, V.TmpMountPath, TmpPlace); }
    assert place != GitPlace by { GitIsWritten(); OtherText(path, V.GitMountPath, GitPlace); }
    assert place != ModelPlace by { ModelIsWritten(); OtherText(path, V.ModelMountPath, ModelPlace); }
    assert place != CredentialsPlace by { CredentialsAreWritten(); OtherText(path, V.CredentialsDir, CredentialsPlace); }
  }

  // --- the mounts of the runtime container ---

  function Places(mounts: seq<Mount>): (r: seq<seq<string>>)
    ensures |r| == |mounts| && forall i :: 0 <= i < |r| ==> r[i] == Normal(mounts[i].path)
  {
    seq(|mounts|, i requires 0 <= i < |mounts| => Normal(mounts[i].path))
  }

  lemma PlacesConcat(a: seq<Mount>, b: seq<Mount>)
    ensures Places(a + b) == Places(a) + Places(b)
  {
  }

  function OperatorFixed(x: Inputs): seq<Mount> {
    if x.spec.workspace.Some? then FixedMounts(x.gitSecret, x.modelSecret) else []
  }

  function CredentialMounts(x: Inputs): seq<Mount> {
    Each(Backed(x.credentials), CredentialMount)
  }

  function UserMounts(x: Inputs): seq<Mount>
    requires x.spec.runtime.Some?
  {
    Each(Known(x.spec.runtime.value.volumes), UserMount)
  }

  function TreeMount(x: Inputs): seq<Mount> {
    if x.spec.workspace.Some? then [Mount("workspace", V.WorkspacePath(x.spec.workspace.value), false)] else []
  }

  /** What the Operator mounts beside the working tree. */
  function OperatorMounts(x: Inputs): seq<Mount> {
    OperatorFixed(x) + CredentialMounts(x)
  }

  lemma CredentialPlaces(creds: seq<R.MountedCredential>)
    requires ProperCredentials(creds)
    ensures var places := Places(Each(Backed(creds), CredentialMount));
      Distinct(places) && forall p :: p in places ==> Inside(p, CredentialsPlace)
  {
    BackedDistinct(creds);
    CredentialsAreWritten();
    var b := Backed(creds);
    var places := Places(Each(b, CredentialMount));
    forall i | 0 <= i < |b| ensures places[i] == CredentialsPlace + [b[i].name] {
      assert b[i] in creds;
      NormalChild(V.CredentialsDir, b[i].name);
    }
    forall i, j | 0 <= i < j < |places| ensures places[i] != places[j] {
      assert places[i][4] == b[i].name && places[j][4] == b[j].name;
    }
  }

  function Optional<T>(t: T, g: T, m: T, withGit: bool, withModel: bool): seq<T> {
    [t] + (if withGit then [g] else []) + (if withModel then [m] else [])
  }

  lemma OptionalPlaces(t: Mount, g: Mount, m: Mount, withGit: bool, withModel: bool)
    ensures Places(Optional(t, g, m, withGit, withModel))
         == Optional(Normal(t.path), Normal(g.path), Normal(m.path), withGit, withModel)
  {
  }

  lemma OptionalDistinct<T>(t: T, g: T, m: T, withGit: bool, withModel: bool)
    requires t != g && t != m && g != m
    ensures Distinct(Optional(t, g, m, withGit, withModel))
    ensures forall p :: p in Optional(t, g, m, withGit, withModel) ==> p == t || p == g || p == m
  {
  }

  lemma FixedPlaces(gitSecret: string, modelSecret: string)
    ensures Places(FixedMounts(gitSecret, modelSecret)) == Optional(TmpPlace, GitPlace, ModelPlace, gitSecret != "", modelSecret != "")
  {
    TmpIsWritten();
    GitIsWritten();
    ModelIsWritten();
    OptionalPlaces(
      Mount("tmp", V.TmpMountPath, false), Mount("git-credential", V.GitMountPath, true),
      Mount("model-credential", V.ModelMountPath, true), gitSecret != "", modelSecret != "");
  }

  lemma FixedPlacesReserved(gitSecret: string, modelSecret: string)
    ensures var places := Places(FixedMounts(gitSecret, modelSecret));
      Distinct(places) && forall p :: p in places ==> p in ReservedPlaces && !Inside(p, CredentialsPlace)
  {
    FixedPlaces(gitSecret, modelSecret);
    assert GitPlace[3] != ModelPlace[3] && |TmpPlace| == 1;
    OptionalDistinct(TmpPlace, GitPlace, ModelPlace, gitSecret != "", modelSecret != "");
  }

  lemma OperatorPlaces(x: Inputs)
    requires ProperCredentials(x.credentials)
    ensures Distinct(Places(OperatorMounts(x)))
    ensures forall p :: p in Places(OperatorMounts(x)) ==> !OffOperator(p)
  {
    PlacesConcat(OperatorFixed(x), CredentialMounts(x));
    CredentialPlaces(x.credentials);
    FixedPlacesReserved(x.gitSecret, x.modelSecret);
    DistinctConcat(Places(OperatorFixed(x)), Places(CredentialMounts(x)));
  }

  // --- what validation leaves open ---

  /** Each volume whose path is not plain lands off everything the Operator mounts and off every other volume. */
  ghost predicate IrregularAside(x: Inputs)
    requires x.spec.runtime.Some?
  {
    var k := Known(x.spec.runtime.value.volumes);
    forall i :: 0 <= i < |k| && !Plain(k[i].mountPath) ==>
      && Normal(k[i].mountPath) !in Places(OperatorMounts(x))
      && forall j :: 0 <= j < |k| && j != i ==> Normal(k[j].mountPath) != Normal(k[i].mountPath)
  }

  /** The working tree lands off everything else that is mounted. */
  ghost predicate WorkspaceAside(x: Inputs)
    requires x.spec.runtime.Some?
  {
    x.spec.workspace.Some? ==>
      var place := Normal(V.WorkspacePath(x.spec.workspace.value));
      place !in Places(OperatorMounts(x)) && place !in Places(UserMounts(x))
  }

  ghost predicate Disjoint<T(!new)>(a: seq<T>, b: seq<T>) {
    forall x :: x in a ==> x !in b
  }

  lemma PlainVolumesApart(x: Inputs, i: nat, j: nat)
    requires x.spec.runtime.Some? && V.ValidVolumes(x.spec, x.spec.runtime.value.volumes)
    requires var k := Known(x.spec.runtime.value.volumes);
      i < j < |k| && Plain(k[i].mountPath) && Plain(k[j].mountPath)
    ensures var k := Known(x.spec.runtime.value.volumes); Normal(k[i].mountPath) != Normal(k[j].mountPath)
  {
    var k := Known(x.spec.runtime.value.volumes);
    KnownPathsDistinct(x.spec.runtime.value.volumes);
    PlainText(k[i].mountPath);
    PlainText(k[j].mountPath);
  }

  lemma KnownIsValid(x: Inputs, v: AgentVolume)
    requires x.spec.runtime.Some? && V.ValidVolumes(x.spec, x.spec.runtime.value.volumes)
    requires v in Known(x.spec.runtime.value.volumes)
    ensures V.ValidVolume(x.spec, v)
  {
  }

  /** Among the Agent's own volumes only the irregular ones can collide. */
  lemma UserPlacesExactly(x: Inputs)
    requires x.spec.runtime.Some? && V.ValidVolumes(x.spec, x.spec.runtime.value.volumes) && ProperCredentials(x.credentials)
    ensures IrregularAside(x) <==>
            Distinct(Places(UserMounts(x))) && Disjoint(Places(UserMounts(x)), Places(OperatorMounts(x)))
  {
    var k, places, op := Known(x.spec.runtime.value.volumes), Places(UserMounts(x)), Places(OperatorMounts(x));
    assert |places| == |k| && forall i :: 0 <= i < |k| ==> places[i] == Normal(k[i].mountPath);
    OperatorPlaces(x);
    if IrregularAside(x) {
      forall i, j | 0 <= i < j < |places| ensures places[i] != places[j] {
        if Plain(k[i].mountPath) && Plain(k[j].mountPath) {
          PlainVolumesApart(x, i, j);
        }
      }
      forall i | 0 <= i < |places| ensures places[i] !in op {
        if Plain(k[i].mountPath) {
          KnownIsValid(x, k[i]);
          PlainIsOffOperator(x.spec, k[i]);
        }
      }
    }
  }

  lemma FourParts<T(!new)>(w: seq<T>, f: seq<T>, u: seq<T>, c: seq<T>)
    requires Distinct(w) && Distinct(f + c)
    ensures Distinct(w + f + u + c) <==>
            Disjoint(w, f + c) && Disjoint(w, u) && Distinct(u) && Disjoint(u, f + c)
  {
    DistinctConcat(f, c);
    DistinctConcat(w, f);
    DistinctConcat(w + f, u);
    DistinctConcat(w + f + u, c);
  }

  lemma MountsInParts(x: Inputs)
    requires x.spec.runtime.Some?
    ensures Mounts(x) == TreeMount(x) + OperatorFixed(x) + UserMounts(x) + CredentialMounts(x)
  {
  }

  lemma PlacesInParts(w: seq<Mount>, f: seq<Mount>, u: seq<Mount>, c: seq<Mount>)
    ensures Places(w + f + u + c) == Places(w) + Places(f) + Places(u) + Places(c)
  {
  }

  /** Validation keeps plain volumes apart from everything, so all paths are distinct exactly when the working tree and
      the irregular volumes keep apart as well. */
  lemma MountPathsDistinctExactly(x: Inputs)
    requires x.spec.runtime.Some? && V.ValidVolumes(x.spec, x.spec.runtime.value.volumes) && ProperCredentials(x.credentials)
    ensures Distinct(Places(Mounts(x))) <==> WorkspaceAside(x) && IrregularAside(x)
  {
    var w, f, u, c := TreeMount(x), OperatorFixed(x), UserMounts(x), CredentialMounts(x);
    MountsInParts(x);
    PlacesInParts(w, f, u, c);
    PlacesConcat(f, c);
    OperatorPlaces(x);
    UserPlacesExactly(x);
    FourParts(Places(w), Places(f), Places(u), Places(c));
    TreePlace(x);
  }

  lemma TreePlace(x: Inputs)
    requires x.spec.runtime.Some?
    ensures WorkspaceAside(x) <==>
            Disjoint(Places(TreeMount(x)), Places(OperatorMounts(x))) && Disjoint(Places(TreeMount(x)), Places(UserMounts(x)))
  {
    if x.spec.workspace.Some? {
      assert Places(TreeMount(x)) == [Normal(V.WorkspacePath(x.spec.workspace.value))];
    }
  }

  // --- the whole pod ---

  ghost predicate PathsDistinct(m: Managed) {
    forall c :: c in m.containers || c in m.initContainers ==> Distinct(Places(c.mounts))
  }

  lemma OneContainerPaths(m: Managed, main: Container)
    requires m.containers == [main] && |m.initContainers| <= 1
    requires m.initContainers != [] && Distinct(Places(main.mounts)) ==> Distinct(Places(m.initContainers[0].mounts))
    ensures PathsDistinct(m) <==> Distinct(Places(main.mounts))
  {
  }

  lemma CloneApart(ws: WorkspaceSpec, hasCredential: bool)
    requires hasCredential ==> Normal(V.WorkspacePath(ws)) != GitPlace
    ensures Distinct(Places(CloneMounts(ws, hasCredential)))
  {
    GitIsWritten();
  }

  lemma ClonePaths(x: Inputs)
    requires x.spec.runtime.Some? && x.spec.workspace.Some? && WorkspaceAside(x)
    ensures Distinct(Places(CloneMounts(x.spec.workspace.value, x.gitSecret != "")))
  {
    FixedPlaces(x.gitSecret, x.modelSecret);
    PlacesConcat(OperatorFixed(x), CredentialMounts(x));
    if x.gitSecret != "" {
      assert Places(OperatorMounts(x))[1] == GitPlace;
    }
    CloneApart(x.spec.workspace.value, x.gitSecret != "");
  }

  /** Exactly when no container of an accepted Agent's pod mounts two things at one place. */
  lemma PodPathsExactly(x: Inputs)
    requires V.ValidSpec(x.spec) && x.spec.runtime.Some? && ProperCredentials(x.credentials)
    ensures PathsDistinct(Materialized(x)) <==> WorkspaceAside(x) && IrregularAside(x)
  {
    MountPathsDistinctExactly(x);
    if x.spec.workspace.Some? && WorkspaceAside(x) {
      ClonePaths(x);
    }
    OneContainerPaths(Materialized(x), RuntimeContainer(x));
  }

  // --- nothing of the Operator's is shadowed ---

  ghost predicate OffTree(spec: AgentSpec, place: seq<string>) {
    spec.workspace.Some? ==> place != Normal(V.WorkspacePath(spec.workspace.value))
  }

  /** No volume of the Agent's own covers a reserved path, the working tree or anything in the credentials directory. */
  ghost predicate UserMountsAside(x: Inputs)
    requires x.spec.runtime.Some?
  {
    forall v :: v in Known(x.spec.runtime.value.volumes) ==>
      OffOperator(Normal(v.mountPath)) && OffTree(x.spec, Normal(v.mountPath))
  }

  /** The same, asked only of what validation cannot compare: irregular volumes, and an irregular workspace path. */
  ghost predicate IrregularOffOperator(x: Inputs)
    requires x.spec.runtime.Some?
  {
    forall v :: v in Known(x.spec.runtime.value.volumes) ==>
      && (!Plain(v.mountPath) ==> OffOperator(Normal(v.mountPath)))
      && (!Plain(v.mountPath) || !CanonicalTree(x.spec) ==> OffTree(x.spec, Normal(v.mountPath)))
  }

  predicate CanonicalTree(spec: AgentSpec) {
    spec.workspace.Some? ==> Canonical(V.WorkspacePath(spec.workspace.value))
  }

  lemma PlainIsOffTree(spec: AgentSpec, v: AgentVolume)
    requires V.ValidVolume(spec, v) && Plain(v.mountPath) && CanonicalTree(spec)
    ensures OffTree(spec, Normal(v.mountPath))
  {
    PlainText(v.mountPath);
    if spec.workspace.Some? {
      assert V.WorkspacePath(spec.workspace.value) in V.ReservedPaths(spec);
    }
  }

  lemma UserMountsAsideExactly(x: Inputs)
    requires x.spec.runtime.Some? && V.ValidVolumes(x.spec, x.spec.runtime.value.volumes)
    ensures UserMountsAside(x) <==> IrregularOffOperator(x)
  {
    if IrregularOffOperator(x) {
      forall v | v in Known(x.spec.runtime.value.volumes)
        ensures OffOperator(Normal(v.mountPath)) && OffTree(x.spec, Normal(v.mountPath))
      {
        KnownIsValid(x, v);
        if Plain(v.mountPath) {
          PlainIsOffOperator(x.spec, v);
          if CanonicalTree(x.spec) {
            PlainIsOffTree(x.spec, v);
          }
        }
      }
    }
  }

  /** A caller's sufficient condition: plain volume paths, and a canonical workspace path that is none of the Operator's. */
  lemma PlainPathsSuffice(x: Inputs)
    requires V.ValidSpec(x.spec) && x.spec.runtime.Some? && ProperCredentials(x.credentials) && CanonicalTree(x.spec)
    requires forall v :: v in x.spec.runtime.value.volumes ==> Plain(v.mountPath)
    requires x.spec.workspace.Some? ==> OffOperator(Normal(V.WorkspacePath(x.spec.workspace.value)))
    ensures PathsDistinct(Materialized(x)) && UserMountsAside(x)
  {
    UserMountsAsideExactly(x);
    TreeOffAll(x);
    NoIrregular(x);
    PodPathsExactly(x);
  }

  lemma NoIrregular(x: Inputs)
    requires x.spec.runtime.Some? && forall v :: v in x.spec.runtime.value.volumes ==> Plain(v.mountPath)
    ensures IrregularAside(x)
  {
    var k := Known(x.spec.runtime.value.volumes);
    assert forall i :: 0 <= i < |k| ==> k[i] in k;
  }

  lemma TreeOffAll(x: Inputs)
    requires x.spec.runtime.Some? && ProperCredentials(x.credentials) && UserMountsAside(x)
    requires x.spec.workspace.Some? ==> OffOperator(Normal(V.WorkspacePath(x.spec.workspace.value)))
    ensures WorkspaceAside(x)
  {
    OperatorPlaces(x);
    var k, places := Known(x.spec.runtime.value.volumes), Places(UserMounts(x));
    assert forall i :: 0 <= i < |places| ==> k[i] in k && places[i] == Normal(k[i].mountPath);
  }

  /** In every cluster state: what keeps the mounts of an accepted Agent's pod apart, and the Operator's own unshadowed. */
  lemma BuiltPodPathsExactly(c: Store, a: Key, spec: AgentSpec, registryURL: string, x: Inputs)
    requires ProperNames(c) && V.ValidSpec(spec) && "" !in spec.credentialRefs && spec.runtime.Some?
    requires RuntimeInputs(c, a, spec, registryURL, R.Resolve(c, a.ns, spec)) == Some(x)
    ensures PathsDistinct(Materialized(x)) <==> WorkspaceAside(x) && IrregularAside(x)
    ensures UserMountsAside(x) <==> IrregularOffOperator(x)
  {
    PP.ResolvedCredentialsAreProper(c, a.ns, spec);
    PodPathsExactly(x);
    UserMountsAsideExactly(x);
  }

  // --- accepted specs that collide ---

  lemma InUserPlaces(x: Inputs, v: AgentVolume)
    requires x.spec.runtime.Some? && v in Known(x.spec.runtime.value.volumes)
    ensures Normal(v.mountPath) in Places(UserMounts(x))
  {
    var k := Known(x.spec.runtime.value.volumes);
    var i :| 0 <= i < |k| && k[i] == v;
    assert Places(UserMounts(x))[i] == Normal(v.mountPath);
  }

  lemma InOperatorPlaces(x: Inputs, cred: R.MountedCredential)
    requires cred in x.credentials && cred.secret != ""
    ensures Normal(V.CredentialsDir + "/" + cred.name) in Places(OperatorMounts(x))
  {
    var b := Backed(x.credentials);
    var i :| 0 <= i < |b| && b[i] == cred;
    PlacesConcat(OperatorFixed(x), CredentialMounts(x));
    assert Places(CredentialMounts(x))[i] == Normal(V.CredentialsDir + "/" + cred.name);
  }

  lemma TreeHitsVolume(x: Inputs, v: AgentVolume)
    requires V.ValidSpec(x.spec) && x.spec.runtime.Some? && x.spec.workspace.Some? && ProperCredentials(x.credentials)
    requires v in Known(x.spec.runtime.value.volumes)
    requires Normal(V.WorkspacePath(x.spec.workspace.value)) == Normal(v.mountPath)
    ensures !PathsDistinct(Materialized(x)) && !UserMountsAside(x)
  {
    InUserPlaces(x, v);
    PodPathsExactly(x);
  }

  lemma CredentialHitsVolume(x: Inputs, v: AgentVolume, cred: R.MountedCredential)
    requires V.ValidSpec(x.spec) && x.spec.runtime.Some? && ProperCredentials(x.credentials)
    requires v in Known(x.spec.runtime.value.volumes) && cred in x.credentials && cred.secret != ""
    requires Normal(v.mountPath) == Normal(V.CredentialsDir + "/" + cred.name)
    ensures !PathsDistinct(Materialized(x)) && !UserMountsAside(x)
  {
    InUserPlaces(x, v);
    InOperatorPlaces(x, cred);
    UserPlacesExactly(x);
    PodPathsExactly(x);
    OperatorPlaces(x);
  }

  /** An accepted Agent stays accepted when it gets a workspace at the path of one of its volumes with a slash more, and
      the working tree then lies on that volume. */
  lemma TrailingSlashEscapesValidation(x: Inputs, spec: AgentSpec, ws: WorkspaceSpec, v: AgentVolume)
    requires V.ValidSpec(spec) && spec.workspace.None? && spec.runtime.Some? && v in Known(spec.runtime.value.volumes)
    requires ws == WorkspaceSpec("", "", None, v.mountPath + "/", Quantity("", false))
    requires x.spec == spec.(workspace := Some(ws)) && ProperCredentials(x.credentials)
    ensures V.ValidSpec(x.spec) && !PathsDistinct(Materialized(x)) && !UserMountsAside(x)
  {
    assert V.ValidVolume(spec, v);
    assert V.WorkspacePath(ws) == v.mountPath + "/";
    SlashedWorkspaceIsAccepted(spec, ws, v.mountPath);
    NormalSlash(v.mountPath);
    TreeHitsVolume(x, v);
  }

  lemma SlashedWorkspaceIsAccepted(spec: AgentSpec, ws: WorkspaceSpec, path: string)
    requires V.ValidSpec(spec) && spec.workspace.None? && spec.runtime.Some? && V.HasPrefix(path, "/")
    requires ws == WorkspaceSpec("", "", None, path + "/", Quantity("", false))
    ensures V.ValidSpec(spec.(workspace := Some(ws)))
  {
    var now, volumes := spec.(workspace := Some(ws)), spec.runtime.value.volumes;
    assert V.ReservedPaths(now) == V.ReservedPaths(spec) + {path + "/"};
    forall i | 0 <= i < |volumes| ensures V.ValidVolume(now, volumes[i]) {
      assert V.ValidVolume(spec, volumes[i]);
      assert V.Clean(volumes[i].mountPath) != path + "/";
    }
  }

  /** The Agent with one volume more. */
  function With(spec: AgentSpec, v: AgentVolume): AgentSpec
    requires spec.runtime.Some?
  {
    spec.(runtime := Some(spec.runtime.value.(volumes := spec.runtime.value.volumes + [v])))
  }

  /** A volume of the Agent's own, mountable, at an absolute path written with its first slash doubled. */
  ghost predicate DoublesSlash(spec: AgentSpec, v: AgentVolume, path: string)
    requires spec.runtime.Some?
  {
    && v.name !in V.ReservedVolumeNames && !V.HasPrefix(v.name, V.CredentialPrefix) && SourceOf(v).Some?
    && |path| > 1 && path[0] == '/' && path[|path| - 1] != '/' && v.mountPath == "/" + path
    && (forall w :: w in spec.runtime.value.volumes ==> V.Clean(w.mountPath) != "/" + path)
    && (spec.workspace.Some? ==> V.WorkspacePath(spec.workspace.value) != "/" + path)
  }

  /** Text that starts with two slashes is none of the Operator's paths and in no directory of its own. */
  lemma DoubledIsUnreserved(path: string)
    requires |path| > 1 && path[0] == '/' && path[1] == '/'
    ensures path !in V.ReservedMountPaths && !V.HasPrefix(path, V.CredentialsDir + "/")
  {
    assert forall p :: p in V.ReservedMountPaths ==> p[1] != '/';
    assert (V.CredentialsDir + "/")[1] != '/';
  }

  lemma DoubledIsAccepted(spec: AgentSpec, v: AgentVolume, path: string)
    requires V.ValidSpec(spec) && spec.runtime.Some? && DoublesSlash(spec, v, path)
    ensures V.ValidSpec(With(spec, v)) && v in Known(With(spec, v).runtime.value.volumes)
  {
    var now, volumes := With(spec, v), spec.runtime.value.volumes;
    assert V.Clean("/" + path) == "/" + path;
    DoubledIsUnreserved("/" + path);
    assert V.ReservedPaths(now) == V.ReservedPaths(spec);
    assert V.ValidVolume(now, v);
    forall i | 0 <= i < |volumes| ensures V.ValidVolume(now, volumes[i]) && V.Clean(volumes[i].mountPath) != V.Clean(v.mountPath) {
      assert V.ValidVolume(spec, volumes[i]);
      assert volumes[i] in volumes;
    }
    assert V.ValidVolumes(now, volumes + [v]);
  }

  /** The slash can as well be doubled at the front, which no trimming removes: the workspace path of every accepted Agent
      can be taken by a volume. */
  lemma DoubledSlashTakesWorkspace(x: Inputs, spec: AgentSpec, v: AgentVolume, path: string)
    requires V.ValidSpec(spec) && spec.runtime.Some? && DoublesSlash(spec, v, path)
    requires spec.workspace.Some? && V.WorkspacePath(spec.workspace.value) == path
    requires x.spec == With(spec, v) && ProperCredentials(x.credentials)
    ensures V.ValidSpec(x.spec) && !PathsDistinct(Materialized(x)) && !UserMountsAside(x)
  {
    DoubledIsAccepted(spec, v, path);
    NormalLead(path);
    TreeHitsVolume(x, v);
  }

  /** And so can the directory of any mounted Credential, leaving the other Credentials alone. */
  lemma DoubledSlashTakesCredential(x: Inputs, spec: AgentSpec, v: AgentVolume, cred: R.MountedCredential)
    requires V.ValidSpec(spec) && spec.runtime.Some? && DoublesSlash(spec, v, V.CredentialsDir + "/" + cred.name)
    requires cred in x.credentials && cred.secret != ""
    requires x.spec == With(spec, v) && ProperCredentials(x.credentials)
    ensures V.ValidSpec(x.spec) && !PathsDistinct(Materialized(x)) && !UserMountsAside(x)
  {
    DoubledIsAccepted(spec, v, V.CredentialsDir + "/" + cred.name);
    NormalLead(V.CredentialsDir + "/" + cred.name);
    CredentialHitsVolume(x, v, cred);
  }

  // --- at one path ---

  function BareSpec(mountPath: string): AgentSpec {
    AgentSpec(
      None, None, None, [], [], [], [], [], [], Some(RuntimeSpec("image", 1, 0, [], "", "", None, "", [])),
      Some(WorkspaceSpec("", "", None, mountPath, Quantity("", false))), None)
  }

  /** The smallest case: a workspace at /work and a volume at //work. */
  lemma WorkIsTaken(x: Inputs, v: AgentVolume, path: string)
    requires path == "/work" && v == AgentVolume("mine", "/" + path, false, Some("claim"), None, None, None)
    requires x.spec == With(BareSpec(path), v) && ProperCredentials(x.credentials)
    ensures V.ValidSpec(x.spec) && !PathsDistinct(Materialized(x)) && !UserMountsAside(x)
  {
    var spec := BareSpec(path);
    assert V.ValidSpec(spec) && V.WorkspacePath(spec.workspace.value) == path;
    assert v.name[1] == 'i' && V.CredentialPrefix[0] == 'c';
    assert forall n :: n in V.ReservedVolumeNames ==> n[1] != 'i' || n[0] == 'g';
    assert DoublesSlash(spec, v, path);
    DoubledSlashTakesWorkspace(x, spec, v, path);
  }
}
