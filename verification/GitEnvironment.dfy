/** git's environment-based configuration as a container sees it: a count, and that many numbered pairs. */
module GitEnvironment {
  import opened Lists
  import opened Api
  import opened Cluster
  import R = Resolution
  import V = Validation
  import opened ResourceVersion
  import opened PodAssembly
  import opened Materialize

  // --- effective values ---

  /** The value a process finds: of several entries for a name the last one counts. */
  function Value(env: seq<EnvVar>, name: string): Option<string> {
    if env == [] then None
    else
      var last := env[|env| - 1];
      if last.name == name then Some(last.value) else Value(env[..|env| - 1], name)
  }

  function Over(later: Option<string>, earlier: Option<string>): Option<string> {
    if later.Some? then later else earlier
  }

  lemma {:induction false} ValueConcat(a: seq<EnvVar>, b: seq<EnvVar>, name: string)
    ensures Value(a + b, name) == Over(Value(b, name), Value(a, name))
  {
    if b == [] {
      assert a + b == a;
    } else {
      var n := |b| - 1;
      ValueConcat(a, b[..n], name);
      assert (a + b)[..|a + b| - 1] == a + b[..n];
    }
  }

  lemma {:induction false} ValueUnset(env: seq<EnvVar>, name: string)
    ensures Value(env, name).None? <==> forall e :: e in env ==> e.name != name
  {
    if env != [] {
      var n := |env| - 1;
      ValueUnset(env[..n], name);
      assert env == env[..n] + [env[n]];
    }
  }

  lemma ValueOne(e: EnvVar, name: string)
    ensures Value([e], name) == if e.name == name then Some(e.value) else None
  {
    assert [e][..0] == [];
  }

  lemma ValueTwo(e: EnvVar, f: EnvVar, name: string)
    ensures Value([e, f], name) == Over(Value([f], name), Value([e], name))
  {
    assert [e, f] == [e] + [f];
    ValueConcat([e], [f], name);
  }

  // --- numbered names ---

  const CountName := "GIT_CONFIG_COUNT"

  function KeyName(i: nat): string {
    "GIT_CONFIG_KEY_" + Render(i)
  }

  function ValueName(i: nat): string {
    "GIT_CONFIG_VALUE_" + Render(i)
  }

  /** What git takes the count for; unset, empty and zero all mean none. */
  predicate Counts(count: Option<string>, n: nat) {
    if count.None? || count.value == "" then n == 0 else count.value == Render(n)
  }

  /** git reads exactly the pairs 0 to n - 1 and none is left unread. */
  ghost predicate Configured(env: seq<EnvVar>, n: nat) {
    && Counts(Value(env, CountName), n)
    && (forall i: nat :: Value(env, KeyName(i)).Some? <==> i < n)
    && (forall i: nat :: Value(env, ValueName(i)).Some? <==> i < n)
  }

  ghost predicate Contiguous(env: seq<EnvVar>) {
    exists n: nat :: Configured(env, n)
  }

  lemma NumberedNames(p: string, i: nat, digit: char, d: nat)
    requires d < 10 && digit == ('0' as int + d) as char
    ensures p + Render(i) == p + [digit] <==> i == d
  {
    RenderRoundTrip(i);
    RenderRoundTrip(d);
    assert Render(d) == [digit];
    PrefixInjective(p, Render(i), [digit]);
  }

  lemma KeyNames(i: nat)
    ensures KeyName(i) == "GIT_CONFIG_KEY_0" <==> i == 0
    ensures KeyName(i) == "GIT_CONFIG_KEY_1" <==> i == 1
    ensures KeyName(i)[0] == 'G' && KeyName(i)[11] == 'K'
  {
    NumberedNames("GIT_CONFIG_KEY_", i, '0', 0);
    NumberedNames("GIT_CONFIG_KEY_", i, '1', 1);
  }

  lemma ValueNames(i: nat)
    ensures ValueName(i) == "GIT_CONFIG_VALUE_0" <==> i == 0
    ensures ValueName(i) == "GIT_CONFIG_VALUE_1" <==> i == 1
    ensures ValueName(i)[0] == 'G' && ValueName(i)[11] == 'V'
  {
    NumberedNames("GIT_CONFIG_VALUE_", i, '0', 0);
    NumberedNames("GIT_CONFIG_VALUE_", i, '1', 1);
  }

  // --- what the workspace sets ---

  /** A name this module asks about: one of git's configuration, or the token file. */
  predicate Asked(name: string) {
    |name| > 11 && (name[0] == 'G' || name == FileVariable)
  }

  /** Variables whose names rule that out. */
  ghost predicate Foreign(env: seq<EnvVar>) {
    forall e :: e in env ==> e.name != "" && e.name[0] != 'G' && |e.name| < 30
  }

  lemma ForeignIsUnset(env: seq<EnvVar>, name: string)
    requires Foreign(env) && Asked(name)
    ensures Value(env, name).None?
  {
    ValueUnset(env, name);
    assert |FileVariable| == 30;
  }

  lemma HomeIsForeign(mount: string)
    ensures Foreign(HomeEnv(mount))
  {
  }

  lemma ValueOfFour(a: seq<EnvVar>, b: seq<EnvVar>, c: seq<EnvVar>, d: seq<EnvVar>, name: string)
    ensures Value(a + b + c + d, name) == Over(Value(d, name), Over(Value(c, name), Over(Value(b, name), Value(a, name))))
  {
    ValueConcat(a, b, name);
    ValueConcat(a + b, c, name);
    ValueConcat(a + b + c, d, name);
  }

  /** The pairs by name, and nothing else. */
  function PairValue(repository: string, mount: string, gitSecret: string, name: string): Option<string> {
    if name == "GIT_CONFIG_KEY_0" && repository != "" then Some("safe.directory")
    else if name == "GIT_CONFIG_VALUE_0" && repository != "" then Some(mount)
    else if name == "GIT_CONFIG_KEY_1" && gitSecret != "" then Some("credential.helper")
    else if name == "GIT_CONFIG_VALUE_1" && gitSecret != "" then Some(GitCredentialHelper)
    else None
  }

  lemma PairsOnly(repository: string, mount: string, gitSecret: string, name: string)
    ensures Value(GitPairEnv(repository, mount, gitSecret), name) == PairValue(repository, mount, gitSecret, name)
  {
    var safe, helper := SafeDirectory(mount), CredentialHelper;
    ValueConcat(if repository != "" then safe else [], if gitSecret != "" then helper else [], name);
    TwoValues(safe, name);
    TwoValues(helper, name);
  }

  lemma TwoValues(env: seq<EnvVar>, name: string)
    requires |env| == 2
    ensures Value(env, name) ==
      if env[1].name == name then Some(env[1].value) else if env[0].name == name then Some(env[0].value) else None
  {
    assert env == [env[0], env[1]];
    ValueTwo(env[0], env[1], name);
    ValueOne(env[0], name);
    ValueOne(env[1], name);
  }

  lemma CountOnly(repository: string, gitSecret: string, name: string)
    ensures var n := GitCount(repository, gitSecret);
      Value(GitCountEnv(repository, gitSecret), name) == if n > 0 && name == CountName then Some(Render(n)) else None
  {
    ValueOne(EnvVar(CountName, Render(GitCount(repository, gitSecret))), name);
  }

  lemma FileOnly(gitSecret: string, name: string)
    ensures Value(GitFileEnv(gitSecret), name) == if gitSecret != "" && name == FileVariable then Some(GitCredentialFile) else None
  {
    ValueOne(EnvVar(FileVariable, GitCredentialFile), name);
  }

  /** What a workspace sets under one of these names, whatever stands before it. */
  lemma WorkspaceValue(ws: WorkspaceSpec, gitSecret: string, name: string)
    requires Asked(name)
    ensures var n := GitCount(ws.repository, gitSecret);
      Value(WorkspaceEnv(ws, gitSecret), name) ==
      if name == FileVariable then if gitSecret != "" then Some(GitCredentialFile) else None
      else if name == CountName then if n > 0 then Some(Render(n)) else None
      else PairValue(ws.repository, V.WorkspacePath(ws), gitSecret, name)
  {
    var mount := V.WorkspacePath(ws);
    var home, count, file := HomeEnv(mount), GitCountEnv(ws.repository, gitSecret), GitFileEnv(gitSecret);
    ValueOfFour(home, count, file, GitPairEnv(ws.repository, mount, gitSecret), name);
    HomeIsForeign(mount);
    ForeignIsUnset(home, name);
    CountOnly(ws.repository, gitSecret, name);
    FileOnly(gitSecret, name);
    PairsOnly(ws.repository, mount, gitSecret, name);
  }

  /** Pair 0 belongs to the repository and pair 1 to the credential; there are no others. */
  lemma PairPresent(ws: WorkspaceSpec, gitSecret: string, i: nat)
    ensures Value(WorkspaceEnv(ws, gitSecret), KeyName(i)).Some? <==> (i == 0 && ws.repository != "") || (i == 1 && gitSecret != "")
    ensures Value(WorkspaceEnv(ws, gitSecret), ValueName(i)).Some? <==> (i == 0 && ws.repository != "") || (i == 1 && gitSecret != "")
  {
    KeyNames(i);
    ValueNames(i);
    WorkspaceValue(ws, gitSecret, KeyName(i));
    WorkspaceValue(ws, gitSecret, ValueName(i));
  }

  /** The workspace's own numbering is contiguous exactly when a credential never comes without a repository. */
  lemma ContiguousExactly(ws: WorkspaceSpec, gitSecret: string)
    ensures Contiguous(WorkspaceEnv(ws, gitSecret)) <==> (gitSecret != "" ==> ws.repository != "")
  {
    var env := WorkspaceEnv(ws, gitSecret);
    if gitSecret != "" && ws.repository == "" {
      PairPresent(ws, gitSecret, 0);
      PairPresent(ws, gitSecret, 1);
      assert Value(env, KeyName(1)).Some? && !Value(env, KeyName(0)).Some?;
    } else {
      var n := GitCount(ws.repository, gitSecret);
      forall i: nat
        ensures (Value(env, KeyName(i)).Some? <==> i < n) && (Value(env, ValueName(i)).Some? <==> i < n)
      {
        PairPresent(ws, gitSecret, i);
      }
      WorkspaceValue(ws, gitSecret, CountName);
      assert Configured(env, n);
    }
  }

  // --- the runtime container ---

  const FileVariable := "AGENTPLANE_GIT_CREDENTIAL_FILE"

  function Fragment(x: Inputs): seq<EnvVar> {
    if x.spec.workspace.Some? then WorkspaceEnv(x.spec.workspace.value, x.gitSecret) else []
  }

  /** The workspace's variables stand after the Agent's own, so they win. */
  lemma ContainerValue(x: Inputs, name: string)
    requires x.spec.runtime.Some? && Asked(name)
    ensures Value(Env(x), name) == Over(Value(Fragment(x), name), Value(x.spec.runtime.value.env, name))
  {
    var identity, own := Identity(x), Pointer(x);
    ValueOfFour(identity, x.spec.runtime.value.env, Fragment(x), own, name);
    OwnIsForeign(x);
    ForeignIsUnset(identity, name);
    ForeignIsUnset(own, name);
  }

  function Identity(x: Inputs): seq<EnvVar>
    requires x.spec.runtime.Some?
  {
    BaseEnv(x)[..3]
  }

  function Pointer(x: Inputs): seq<EnvVar> {
    if Backed(x.credentials) != [] then [EnvVar(V.CredentialsPathEnv, V.CredentialsDir)] else []
  }

  lemma OwnIsForeign(x: Inputs)
    requires x.spec.runtime.Some?
    ensures Foreign(Identity(x)) && Foreign(Pointer(x))
    ensures Env(x) == Identity(x) + x.spec.runtime.value.env + Fragment(x) + Pointer(x)
  {
  }

  /** How many pairs the workspace of a built runtime sets. */
  function PairsOf(spec: AgentSpec): nat {
    if spec.workspace.None? || spec.workspace.value.repository == "" then 0
    else if spec.workspace.value.credentialRef.Some? then 2 else 1
  }

  /** The Agent's own variables agree with the workspace's: beside pairs they number nothing higher, and where there are
      none they are contiguous themselves. */
  ghost predicate OwnGitFits(spec: AgentSpec)
    requires spec.runtime.Some?
  {
    Fits(spec.runtime.value.env, PairsOf(spec))
  }

  ghost predicate Fits(own: seq<EnvVar>, n: nat) {
    if n == 0 then Contiguous(own)
    else forall i: nat :: i >= n ==> Value(own, KeyName(i)).None? && Value(own, ValueName(i)).None?
  }

  lemma FragmentPairs(x: Inputs, i: nat)
    requires x.spec.runtime.Some? && (x.gitSecret != "" <==> WantsGitSecret(x.spec))
    ensures Value(Fragment(x), KeyName(i)).Some? <==> i < PairsOf(x.spec)
    ensures Value(Fragment(x), ValueName(i)).Some? <==> i < PairsOf(x.spec)
  {
    if x.spec.workspace.Some? {
      PairPresent(x.spec.workspace.value, x.gitSecret, i);
    }
  }

  lemma FragmentCount(x: Inputs)
    requires x.spec.runtime.Some? && (x.gitSecret != "" <==> WantsGitSecret(x.spec))
    ensures var n := PairsOf(x.spec); Value(Fragment(x), CountName) == if n > 0 then Some(Render(n)) else None
  {
    if x.spec.workspace.Some? {
      WorkspaceValue(x.spec.workspace.value, x.gitSecret, CountName);
    }
  }

  lemma ContainerPairs(x: Inputs, i: nat)
    requires x.spec.runtime.Some? && (x.gitSecret != "" <==> WantsGitSecret(x.spec))
    ensures var own := x.spec.runtime.value.env;
      && (Value(Env(x), KeyName(i)).Some? <==> i < PairsOf(x.spec) || Value(own, KeyName(i)).Some?)
      && (Value(Env(x), ValueName(i)).Some? <==> i < PairsOf(x.spec) || Value(own, ValueName(i)).Some?)
  {
    KeyNames(i);
    ValueNames(i);
    FragmentPairs(x, i);
    ContainerValue(x, KeyName(i));
    ContainerValue(x, ValueName(i));
  }

  lemma ContainerCount(x: Inputs)
    requires x.spec.runtime.Some? && (x.gitSecret != "" <==> WantsGitSecret(x.spec))
    ensures var own, n := x.spec.runtime.value.env, PairsOf(x.spec);
      Value(Env(x), CountName) == if n > 0 then Some(Render(n)) else Value(own, CountName)
  {
    FragmentCount(x);
    ContainerValue(x, CountName);
  }

  /** An environment that sets n pairs over another one. */
  lemma OverlayContiguousExactly(env: seq<EnvVar>, own: seq<EnvVar>, n: nat)
    requires Value(env, CountName) == if n > 0 then Some(Render(n)) else Value(own, CountName)
    requires forall i: nat :: Value(env, KeyName(i)).Some? <==> i < n || Value(own, KeyName(i)).Some?
    requires forall i: nat :: Value(env, ValueName(i)).Some? <==> i < n || Value(own, ValueName(i)).Some?
    ensures Contiguous(env) <==> Fits(own, n)
  {
    if n == 0 {
      assert forall m: nat :: Configured(env, m) <==> Configured(own, m);
    } else {
      OnlyCount(env, n);
    }
  }

  lemma ContainerContiguousExactly(x: Inputs)
    requires x.spec.runtime.Some? && (x.gitSecret != "" <==> WantsGitSecret(x.spec))
    ensures Contiguous(Env(x)) <==> OwnGitFits(x.spec)
  {
    var env, own, n := Env(x), x.spec.runtime.value.env, PairsOf(x.spec);
    ContainerCount(x);
    forall i: nat
      ensures Value(env, KeyName(i)).Some? <==> i < n || Value(own, KeyName(i)).Some?
      ensures Value(env, ValueName(i)).Some? <==> i < n || Value(own, ValueName(i)).Some?
    {
      ContainerPairs(x, i);
    }
    OverlayContiguousExactly(env, own, n);
  }

  /** The count decides how many pairs there may be. */
  lemma OnlyCount(env: seq<EnvVar>, n: nat)
    requires n > 0 && Value(env, CountName) == Some(Render(n))
    ensures Contiguous(env) <==> Configured(env, n)
  {
    forall m: nat | Configured(env, m) ensures m == n {
      RenderRoundTrip(m);
      RenderRoundTrip(n);
    }
  }

  /** Exactly when git, in a runtime the controller has built, reads every configured pair and no other. */
  lemma BuiltRuntimeContiguousExactly(c: Store, a: Key, spec: AgentSpec, registryURL: string, res: R.Result, x: Inputs)
    requires spec.runtime.Some? && RuntimeInputs(c, a, spec, registryURL, res) == Some(x)
    ensures Contiguous(Materialized(x).containers[0].env) <==> OwnGitFits(spec)
  {
    ContainerContiguousExactly(x);
  }

  // --- the credential file ---

  ghost predicate MountsGit(mounts: seq<Mount>) {
    exists m :: m in mounts && m.name == "git-credential"
  }

  /** The variable that names the token file is set exactly beside the mount that holds it, and names a file in it. */
  ghost predicate FileFollowsMount(env: seq<EnvVar>, mounts: seq<Mount>) {
    && (Value(env, FileVariable).Some? <==> MountsGit(mounts))
    && (forall m :: m in mounts && m.name == "git-credential" ==> Value(env, FileVariable) == Some(m.path + "/token"))
  }

  lemma OnlyGitMounts(x: Inputs, m: Mount)
    requires x.spec.runtime.Some? && V.ValidVolumes(x.spec, x.spec.runtime.value.volumes)
    requires m in Mounts(x) && m.name == "git-credential"
    ensures x.spec.workspace.Some? && x.gitSecret != "" && m.path == V.GitMountPath
  {
    var k, b := Known(x.spec.runtime.value.volumes), Backed(x.credentials);
    assert m !in Each(k, UserMount) by { UserNamesAreOwn(x.spec, x.spec.runtime.value.volumes); }
    assert m !in Each(b, CredentialMount) by {
      assert forall i :: 0 <= i < |b| ==> CredentialMount(b[i]).name[0] == V.CredentialPrefix[0];
    }
  }

  lemma UserNamesAreOwn(spec: AgentSpec, declared: seq<AgentVolume>)
    requires V.ValidVolumes(spec, declared)
    ensures forall m :: m in Each(Known(declared), UserMount) ==> m.name != "git-credential"
  {
    var k := Known(declared);
    assert V.ReservedVolumeNames[2] == "git-credential";
    forall i | 0 <= i < |k| ensures k[i].name != "git-credential" {
      assert k[i] in k;
      assert V.ValidVolume(spec, k[i]);
    }
  }

  lemma GitIsMounted(x: Inputs)
    requires x.spec.runtime.Some? && x.spec.workspace.Some? && x.gitSecret != ""
    ensures MountsGit(Mounts(x))
  {
    assert Mounts(x)[2] in Mounts(x) && Mounts(x)[2].name == "git-credential";
  }

  lemma ContainerFile(x: Inputs)
    requires x.spec.runtime.Some?
    ensures Value(Env(x), FileVariable) ==
      if x.spec.workspace.Some? && x.gitSecret != "" then Some(GitCredentialFile) else Value(x.spec.runtime.value.env, FileVariable)
  {
    ContainerValue(x, FileVariable);
    if x.spec.workspace.Some? {
      WorkspaceValue(x.spec.workspace.value, x.gitSecret, FileVariable);
    }
  }

  /** Exactly when the variable tells the truth in a built runtime: a git credential is mounted, or the Agent does not set it. */
  lemma BuiltRuntimeFileExactly(c: Store, a: Key, spec: AgentSpec, registryURL: string, res: R.Result, x: Inputs)
    requires V.ValidSpec(spec) && spec.runtime.Some? && RuntimeInputs(c, a, spec, registryURL, res) == Some(x)
    ensures var main := Materialized(x).containers[0];
      FileFollowsMount(main.env, main.mounts) <==> WantsGitSecret(spec) || Value(spec.runtime.value.env, FileVariable).None?
  {
    ContainerFile(x);
    forall m | m in Mounts(x) && m.name == "git-credential"
      ensures x.spec.workspace.Some? && x.gitSecret != "" && m.path == V.GitMountPath
    {
      OnlyGitMounts(x, m);
    }
    if x.spec.workspace.Some? && x.gitSecret != "" {
      GitIsMounted(x);
    }
  }

  /** The clone container sets nothing it was not told to. */
  lemma CloneFileFollowsMount(ws: WorkspaceSpec, hasCredential: bool)
    ensures var clone := CloneContainer(ws, hasCredential); FileFollowsMount(clone.env, clone.mounts)
  {
    var clone := CloneContainer(ws, hasCredential);
    if hasCredential {
      assert clone.mounts[1] in clone.mounts;
      assert clone.env[|clone.env| - 1] == EnvVar(FileVariable, GitCredentialFile);
    } else {
      ValueUnset(clone.env, FileVariable);
      assert forall e :: e in clone.env ==> |e.name| < |FileVariable|;
    }
  }

  // --- accepted specs that break them ---

  /** An Agent whose runtime sets one variable of its own and that has no workspace. */
  function SpecWithEnv(e: EnvVar): AgentSpec {
    AgentSpec(
      None, None, None, [], [], [], [], [], [],
      Some(RuntimeSpec("image", 1, 0, [e], "", "", None, "", [])), None, None)
  }

  lemma SpecWithEnvIsValid(e: EnvVar)
    requires e.name != V.CredentialsPathEnv
    ensures V.ValidSpec(SpecWithEnv(e))
  {
  }

  /** Any single pair variable is accepted and leaves git with a pair it never reads. */
  lemma StrayPairBreaks(c: Store, a: Key, registryURL: string, res: R.Result, i: nat, value: string, x: Inputs)
    requires RuntimeInputs(c, a, SpecWithEnv(EnvVar(KeyName(i), value)), registryURL, res) == Some(x)
    ensures V.ValidSpec(x.spec) && !Contiguous(Materialized(x).containers[0].env)
  {
    var e := EnvVar(KeyName(i), value);
    KeyNames(i);
    SpecWithEnvIsValid(e);
    ValueOne(e, KeyName(i));
    ValueOne(e, CountName);
    BuiltRuntimeContiguousExactly(c, a, SpecWithEnv(e), registryURL, res, x);
  }

  /** The token file variable is accepted without any git credential being mounted. */
  lemma StrayFileBreaks(c: Store, a: Key, registryURL: string, res: R.Result, value: string, x: Inputs)
    requires RuntimeInputs(c, a, SpecWithEnv(EnvVar(FileVariable, value)), registryURL, res) == Some(x)
    ensures V.ValidSpec(x.spec) && !FileFollowsMount(Materialized(x).containers[0].env, Materialized(x).containers[0].mounts)
  {
    var e := EnvVar(FileVariable, value);
    SpecWithEnvIsValid(e);
    ValueOne(e, FileVariable);
    BuiltRuntimeFileExactly(c, a, SpecWithEnv(e), registryURL, res, x);
  }
}
