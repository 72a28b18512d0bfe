# Agent Plane, modelled in Dafny

Agent Plane is a Kubernetes Operator plus a configuration Registry. An `Agent` names Models, Tools, Skills, Policies
and Credentials; the Operator resolves those names into a runtime Deployment and a Ready verdict, and the Registry
serves the same resolution to runtimes over an event stream. This project models both over one abstract cluster (a map
from kind, namespace and name to an object with a resourceVersion) and proves what the two promise.

`dafny verify dfyconfig.toml` checks everything.

## What is proved

* **Convergence** (`Resolution`, `Resolver`, `FieldIndex`, `Frame`, `Convergence`). Resolving walks forward from an
  Agent through class defaults, ToolSets and Tools; the field index walks the same graph backwards. An Agent the index
  leaves asleep resolves exactly as before the change, so on every run, with events handled late and in any order and
  status writes refused on conflict, a published result that is out of date is always queued or owed by a pending event.
  When nothing is left to do, everything published is current, and the controller can always get there.
* **Policy and Ready** (`ToolRules`, `PolicyMerge`, `Validation`, `Ready`). The merged access rule permits a name exactly
  when every Policy does, through wildcards, empty lists and the deny-all collapse. A reconcile writes Ready if and only
  if a condition stated on the cluster alone holds.
* **Operator and Registry agree** (`RegistryConfig`). Same effective spec, same merged policy, same tools in the same
  order, same model Secret, in every cluster state.
* **Watch protocol** (`ResourceVersion`, `Watch`, `WatchProperties`, `SlowConsumer`, `Delivery`,
  `Broadcaster`, `EventStream`). Over every
  interleaving of store, informer and handlers: the hub never sends on a closed channel or closes one twice; a watcher
  never rolls back; a drained watcher is current if and only if the newest broadcast was not dropped; and a client reading
  the bytes by the WHATWG event stream rules, cut off anywhere, has been handed exactly what was wholly received.
* **Pod assembly** (`Paths`, `PodAssembly`, `Materialize`, `PodProperties`, `MountPaths`, `PodContents`, `GitEnvironment`,
  `RuntimeContract`).
  Every pod built from an accepted spec has distinct volume names and no dangling mount or volume; the container sees exactly
  the sources its references lead to; mounts land on distinct places exactly when the paths that validation cannot compare
  keep apart. Over every history of reconciles the Deployment shows the last one that built anything, and nothing older.
* **What the hash does not see** (`SilentChanges`). Exactly when an unchanged hash, and a watcher that is up to date by
  version, mean an unchanged configuration, and families of changes for which they do not.

## Where the code and its comments disagree

The model follows the code. Each of these has a concrete counterexample or an exact condition:

* `api/v1alpha1/policy_merge.go:33-36` says attaching another policy can only narrow. True of Policies
  (`PolicyMerge.AppendNarrows`), false of ToolPolicies (`ToolRules.ToolPolicyCanWiden`); a ToolPolicy narrows every list it
  joins exactly when none of its own matches lets a tool through (`ToolRules.AlwaysNarrowsExactly`).
* `cmd/registry/main.go:547-549` says a slow consumer always converges. A full channel drops the newest frame, so a burst of
  more than eight leaves it behind (`SlowConsumer.BurstLeavesBehindExactly`), and nothing but another broadcast helps
  (`SlowConsumer.SlowConsumerStaysBehind`); `WatchProperties.LostExactlyWhenDropped` gives the exact condition over all runs
  and `WatchProperties.ReceivedFrameCatchesUp` the recovery.
* `internal/controller/agent_controller.go:919-922` says no volume can shadow the working directory or a mounted credential.
  Validation compares text after trimming slashes at the end, and not even that for the workspace path, so a slash more at
  the end or at the front gets past it (`MountPaths.TrailingSlashEscapesValidation`, `MountPaths.DoubledSlashTakesWorkspace`,
  `MountPaths.DoubledSlashTakesCredential`); `MountPaths.PodPathsExactly` and `MountPaths.UserMountsAsideExactly` give the
  exact conditions on the places that paths name.
* `internal/controller/agent_controller.go:1124-1128` says the credential file variable is set only when the credential is
  mounted, and the git variables are meant to be counted. An Agent's own environment may set either
  (`GitEnvironment.StrayFileBreaks`, `GitEnvironment.StrayPairBreaks`); `GitEnvironment.BuiltRuntimeFileExactly` and
  `GitEnvironment.BuiltRuntimeContiguousExactly` say when the built container is right.
* `api/v1alpha1/agentclass_types.go:39` says default policies are merged into every Agent of the class. They apply only to
  Agents that declare none (`Resolution.ClassPoliciesBindExactly`), so only those are bound by them
  (`Ready.ClassBindsExactly`).
* `internal/controller/agent_controller.go:433-435` says the hash changes only when a reference is added or removed or a
  referenced object changes. It does (`Resolution.HashInputMovesExactly`), but only for direct references: the Tools of a
  ToolSet, endpoints of servers and peers, ConfigMaps behind Skills and a Model's Credential do not show
  (`SilentChanges.HashMissesToolSetMembers`, `SilentChanges.ServerChangesSilently` and their neighbours), so what is served
  can change without a frame; a Degraded Agent has no hash at all (`SilentChanges.PromptOfDegradedChangesSilently`).
* `api/v1alpha1/validation.go:367-376` returns the duplicate it found, so a repeated empty name reads as none
  (`Validation.NoDuplicateExactly`, `Validation.EmptyNameHidesDuplicates`).

## Assumptions

* Objects in the cluster have names that can be one part of a path: not empty, no slash, neither one dot nor two
  (`ProperNames`); the API server admits no others.
* A resourceVersion names one state of an object (`VersionsMeanObjects`), where two cluster states are compared.
* Of several entries for one environment variable the last one counts, and a path names the place left when empty parts and
  dots are dropped and double dots go back.
* Reads of one reconcile are atomic and reliable. A status write is refused when the Agent's version has moved.
* For `LostExactlyWhenDropped`, `NothingLostWithoutDrops` and `ReceivedFrameCatchesUp`: versions broadcast for a key never decrease and never run ahead
  of the store that snapshots read (`FaithfulRun`). `NoRollback` and `HubIsSafe` need neither.
* For pods: user volume names are distinct (the CRD list key) and no credential reference is empty
  (`api/v1alpha1/common_types.go:29`).
* The config hash is taken as injective: `HashOf` carries the hashed list. Compact JSON holds no raw line breaks
  (section 7 of RFC 8259), which is `Writable`.

## Model

| member | source | states |
|---|---|---|
| Lists.Dedupe | internal/controller/agent_controller.go:418-431 | Same elements, each once. |
| Lists.DedupeOrder | internal/controller/agent_controller.go:417-431 | Elements keep the order of their first occurrences; with the contract of Dedupe this determines the list. |
| ToolRules.MatchToolRule | api/v1alpha1/policy_merge.go:243-256 | The single pass with a remembered wildcard finds the first exact rule anywhere, and failing that the first wildcard. |
| ToolRules.MatchConcat | api/v1alpha1/policy_merge.go:70-79 | Over joined rule lists: exact left, exact right, wildcard left, wildcard right, in that order. |
| ToolRules.WidensExactly | api/v1alpha1/policy_merge.go:70-79 | Appending a ToolPolicy allows a denied tool exactly when a rule of the new policy gets to decide it and does not deny. |
| ToolRules.AlwaysNarrowsExactly | api/v1alpha1/policy_merge.go:33-36 | A ToolPolicy narrows every list it joins if and only if each of its own matches denies. |
| ToolRules.AllDenyNarrows | api/v1alpha1/policy_merge.go:206-212 | Appending rules that all deny never permits a denied tool. |
| ToolRules.ExactRuleSurvives | api/v1alpha1/policy_merge.go:240-256 | The decision of an existing exact rule survives every append. |
| ToolRules.ToolPolicyCanWiden | api/v1alpha1/policy_merge.go:33-36 | A later exact allow defeats an earlier default deny, against the comment. |
| ToolRules.ValidateToolPolicy | api/v1alpha1/validation.go:40-52 | Accepts exactly the lists where equal specific tools have equal actions. |
| ToolRules.OrderIrrelevant | api/v1alpha1/validation.go:37-52 | For accepted lists, reordering the rules changes no decision for a tool with a rule of its own. |
| PolicyMerge.Permits | api/v1alpha1/policy_merge.go:220-238 | Entry by entry: no denied entry is the name or the wildcard, and the allowed list is empty or has the name or the wildcard; no rule permits everything. |
| PolicyMerge.DenyTakesAway | api/v1alpha1/policy_merge.go:224-228 | One more denied entry takes away exactly that name, or everything if it is the wildcard. |
| PolicyMerge.AllowAdds | api/v1alpha1/policy_merge.go:229-237 | The first allowed entry leaves exactly that name; each further one adds exactly its own, or everything not denied. |
| PolicyMerge.IntersectOrKeep | api/v1alpha1/policy_merge.go:110-136 | Empty lists and wildcards on either side keep the other; otherwise the common names in the left order. |
| PolicyMerge.Union | api/v1alpha1/policy_merge.go:147-157 | Both lists joined, each name once at its first occurrence. |
| PolicyMerge.MergeAccessRule | api/v1alpha1/policy_merge.go:89-106 | The in-place merge computes the merge whose meaning MergedDenotes gives. |
| PolicyMerge.MergedDenotes | api/v1alpha1/policy_merge.go:83-106 | One merge permits a name exactly when both sides do, deny-all collapse included. |
| PolicyMerge.MergeRules | api/v1alpha1/policy_merge.go:63-69 | The loop over Policies folds every aspect and lists the sources in order. |
| PolicyMerge.JoinRules | api/v1alpha1/policy_merge.go:70-79 | The loop over ToolPolicies joins the rules in order and defaults to deny if any of them does. |
| PolicyMerge.MergePolicies | api/v1alpha1/policy_merge.go:58-81 | The fold of every aspect, the joined rules, the sources in order and the default; nothing when nothing is referenced. |
| PolicyMerge.SourcesPoint | api/v1alpha1/policy_merge.go:37-40 | One source for each Policy and ToolPolicy, in the order given. |
| PolicyMerge.FoldDenotes | api/v1alpha1/policy_merge.go:58-106 | The folded rule permits a name exactly when every Policy's own rule does. |
| PolicyMerge.AppendNarrows | api/v1alpha1/policy_merge.go:33-36 | Attaching Policies conjoins their verdicts, so it only narrows. |
| PolicyMerge.OrderAndRepetitionIrrelevant | api/v1alpha1/policy_merge.go:58-106 | Lists with the same Policies, in any order and number, give the same verdicts. |
| PolicyMerge.Violations | api/v1alpha1/policy_merge.go:183-216 | Reports exactly the breaches: each with its kind, name and the rule that matched. |
| PolicyMerge.ReportSays | api/v1alpha1/policy_merge.go:183-216 | Each report names a declared reference and the rule or default that denied it. |
| PolicyMerge.CleanMeansCompliant | api/v1alpha1/policy_merge.go:183-216 | No breach of the merged policy if and only if every Policy permits every reference and the rules allow every tool. |
| Resolution.ClassFillsGaps | api/v1alpha1/agent_types.go:197-220 | Field by field: what the Agent sets survives every class, what it leaves unset is the class default, no class changes nothing, and no other field moves. |
| Resolution.ClassPoliciesBindExactly | api/v1alpha1/agent_types.go:197-220 | Class policies reach the effective spec of an Agent of the class if and only if it declares none itself. |
| Ready.ClassBindsExactly | api/v1alpha1/agentclass_types.go:39-42 | In every cluster, what an Agent's merged policy permits each default Policy of its class permits, if and only if it has no class or no Policy of its own. |
| Resolution.ResolutionPartitions | internal/controller/agent_controller.go:282-377 | Every target lands once, in order, in refs or in missing; one more entry without a model; missing is empty exactly when all resolve. |
| Resolution.CredentialsExtendRefs | internal/controller/agent_controller.go:327-345 | The hashed refs of an Agent without credentials are a prefix of its refs with credentials added, its own or the workspace's. |
| Resolution.ExtendedRefsExactly | internal/controller/agent_controller.go:327-345 | With a workspace credential already there the prefix survives exactly when it is missing, nothing added exists, or it is itself the first added one that exists. |
| Resolution.HashInputMovesExactly | internal/controller/agent_controller.go:433-443 | Two resolutions hash the same list if and only if every direct target of the first has the same presence and version in both, a changed class included. |
| Resolution.CollectedLists | internal/controller/agent_controller.go:103-126 | The collected policies, tool policies, skill scopes and credentials are those their own reference lists name and the cluster holds, in list order. |
| Resolution.ToolPolicyAtMember | internal/controller/agent_controller.go:111-112 | The collected ToolPolicies are exactly the listed ones that exist, as they are in the cluster. |
| Resolution.SurfaceExactly | internal/controller/agent_controller.go:379-394 | The tool surface is exactly the direct tools and the members of the ToolSets that exist. |
| Resolution.SurfaceGrows | internal/controller/agent_controller.go:382-394 | Direct tools come first; each ToolSet appends its members in their order, or nothing while it is missing. |
| Resolution.TargetsAreRanked | internal/controller/agent_controller.go:282-345 | Targets stand in the fixed order of the hash, kind by kind, credentials and the git credential last. |
| Resolution.ModelSecretSteps | internal/controller/agent_controller.go:1262-1286 | Each step from the Agent to its model's Secret, and empty when a step is missing. |
| Resolver.DedupeNames | internal/controller/agent_controller.go:418-431 | The loop with a seen map computes Dedupe. |
| Resolver.Outcome.Collect | internal/controller/agent_controller.go:103-126 | Each kind extends its own list and nothing else. |
| Resolver.Outcome.Visit | internal/controller/agent_controller.go:353-377 | One lookup grows refs or missing, collects, or records the git Secret; tools and peers stay. |
| Resolver.Outcome.Expand | internal/controller/agent_controller.go:379-412 | Declared tools, MCP servers and peers of the expanded, deduplicated surface. |
| Resolver.ExpandToolSets | internal/controller/agent_controller.go:382-394 | Direct tools, then the members of each existing ToolSet in order. |
| Resolver.CollectTargets | internal/controller/agent_controller.go:293-345 | The target list in hash order, class first, credentials and git credential last. |
| Resolver.ResolveRefs | internal/controller/agent_controller.go:278-415 | The in-place pass yields the declarative resolution, field by field. |
| FieldIndex.RefNamesOf | internal/controller/fieldindex.go:79-90 | Exactly the non-empty names of the list. |
| FieldIndex.RequestsMatchingIndex | internal/controller/fieldindex.go:231-269 | Each Agent of the namespace that one of the fields indexes under the name, once. |
| FieldIndex.AgentsReferencing | internal/controller/fieldindex.go:285-335 | Each Agent reached directly, through its class or through a ToolSet, once, and no other. |
| FieldIndex.InheritingAgents | internal/controller/fieldindex.go:307-318 | Exactly the Agents whose existing class hands the name down. |
| FieldIndex.IncludingAgents | internal/controller/fieldindex.go:320-331 | Exactly the Agents with an existing ToolSet that includes the Tool. |
| Frame.TargetIsIndexed | internal/controller/fieldindex.go:120-178 | Every target of an Agent, inherited ones included, leads the mapper back to it. |
| Frame.SurfaceIsIndexed | internal/controller/fieldindex.go:180-182 | Every tool of the expanded surface leads the mapper back to the Agent. |
| Frame.WokenExactly | internal/controller/fieldindex.go:285-335 | An event wakes exactly the Agents of its namespace whose spec, class or ToolSet names the object in the field that is for its kind. |
| Frame.UnwokenIsUnchanged | internal/controller/fieldindex.go:271-335 | After any create, update or delete, an Agent the mapper leaves asleep has an identical resolution in every field. |
| Frame.AgentsAreNotRead | internal/controller/agent_controller.go:278-415 | Writing an Agent, status included, moves no resolution. |
| Frame.WakeIsStable | internal/controller/fieldindex.go:285-335 | A change cannot take an Agent out of the image of a pending event without waking the Agent itself. |
| Convergence.RunKeepsInv | internal/controller/agent_controller.go:469-503 | On every run, the events of the controller's own status writes included, an Agent whose result is out of date is queued or in the image of an unprocessed event. |
| Convergence.StartSatisfiesInv | internal/controller/agent_controller.go:469-472 | The invariant holds of every freshly started controller. |
| Convergence.QuietRunsAreCurrent | internal/controller/agent_controller.go:453-503 | When no event, request or reconcile is left, exactly the existing Agents have a result and each is current. |
| Convergence.ControllerStepLowersWork | internal/controller/agent_controller.go:469-503 | Every controller step, a status write that moves the Agent's version and raises an event included, lowers a lexicographic measure, so the controller alone cannot run forever. |
| Convergence.Settles | internal/controller/agent_controller.go:469-503 | From every reachable state the controller alone can finish, its own events included, and leave everything current with no spec changed. |
| Validation.FirstDuplicate | api/v1alpha1/validation.go:367-376 | The name at the first repetition, or empty. |
| Validation.NoDuplicateExactly | api/v1alpha1/validation.go:367-376 | Reports nothing for distinct lists and, besides them, exactly those whose first repetition is the empty name. |
| Validation.NoDuplicateMeansDistinct | api/v1alpha1/validation.go:72-89 | For non-empty names the check is distinctness. |
| Validation.EmptyNameHidesDuplicates | api/v1alpha1/validation.go:367-376 | A list with a repeated empty name passes although another name repeats. |
| Validation.TrimRight | api/v1alpha1/validation.go:202-202 | The prefix left when exactly the slashes at the end are removed. |
| Validation.ValidateVolumes | api/v1alpha1/validation.go:169-223 | Accepts exactly volumes with unreserved names and absolute, unreserved, pairwise distinct cleaned paths outside the credentials directory. |
| Validation.ValidateRuntimeEnv | api/v1alpha1/validation.go:110-124 | Accepts exactly environments that leave the credentials variable alone. |
| Validation.ValidateWorkspace | api/v1alpha1/validation.go:229-259 | Accepts exactly workspaces with a runtime, a repository wherever branch or credential is set, an absolute path and a parsing size. |
| Validation.Validate | api/v1alpha1/validation.go:72-104 | Accepts exactly the valid specs. |
| Validation.AcceptedExactly | api/v1alpha1/validation.go:72-271 | For non-empty names: accepted if and only if nothing is referenced twice, workspace and endpoint come with a runtime, the workspace makes sense, and the runtime takes none of the Operator's names, paths and variables. |
| Ready.SkillToolViolations | api/v1alpha1/skill_scope.go:43-64 | Exactly the allowed tools the Agent cannot reach. |
| Ready.PeerViolations | internal/controller/agent_controller.go:1299-1321 | One report for each edge that points at the Agent itself, at no Agent or at one that is not exposed. |
| Ready.NoFaults | internal/controller/agent_controller.go:1299-1321 | No report if and only if no edge is at fault. |
| Ready.Reconcile | internal/controller/agent_controller.go:149-251 | Writes Ready with a hash if and only if the condition on the cluster holds, Degraded without one otherwise; a missing Agent changes nothing, an invalid spec keeps the count of refs. |
| Ready.ReadyIsExact | internal/controller/agent_controller.go:149-251 | The decision is equivalent to: spec valid, model and targets resolve, each Policy permits model, surface and servers, the rules allow each tool, Skills stay in the surface, peers are other exposed Agents. |
| Ready.VerdictSays | internal/controller/agent_controller.go:149-251 | The published status, read off the cluster: phase, hash of every target, count of the targets that are there. |
| Ready.PolicyPart | internal/controller/agent_controller.go:219-220 | The merged verdict on declared references is each Policy's verdict on the surface and the rules' on each tool. |
| Ready.SkillPart | internal/controller/agent_controller.go:225-225 | No Skill report if and only if every existing Skill allows only surface tools. |
| Ready.PeerPart | internal/controller/agent_controller.go:226-230 | No peer at fault if and only if each peer tool of the surface names another exposed Agent. |
| RegistryConfig.ResolveTool | cmd/registry/main.go:423-461 | A view exactly when the Tool exists, told field by field from the cluster: a peer's endpoint over a server's over its own, and an exposed peer's description where it has none. |
| RegistryConfig.ResolveSkill | cmd/registry/main.go:465-486 | Inline content, or what the ConfigMap holds under the key. |
| RegistryConfig.AddTool | cmd/registry/main.go:328-340 | One attempt serves an existing tool at its first occurrence and marks it; a missing one leaves no mark. |
| RegistryConfig.ServeDedupes | cmd/registry/main.go:326-353 | Trying names with a seen map serves the deduplicated names that exist, in order. |
| RegistryConfig.ResolvePolicy | cmd/registry/main.go:371-412 | The effective policy of the existing Policies and ToolPolicies, missing ones skipped. |
| RegistryConfig.ResolveModel | cmd/registry/main.go:307-325 | A model view exactly when the Model exists, with provider, name, endpoint, the Secret the Operator mounts and the key within it. |
| RegistryConfig.ModelFields | cmd/registry/main.go:307-325 | The model view, field by field, from the Model and its Credential. |
| RegistryConfig.PromptFields | cmd/registry/main.go:297-306 | The prompt served is the one named, with its text in the cluster. |
| RegistryConfig.SkillFields | cmd/registry/main.go:465-486 | The served Skills are exactly the listed ones that exist, told field by field. |
| RegistryConfig.BuildConfigFrom | cmd/registry/main.go:271-364 | Serves hash and phase, the Operator's effective spec, its deduplicated surface restricted to existing Tools in the same order with endpoints looked up, its merged policy, the model view, the prompt and the existing Skills with their content, in every cluster state. |
| RegistryConfig.ServedToolNames | cmd/registry/main.go:326-353 | Served tools are distinct and are exactly the surface tools that exist. |
| RegistryConfig.ServedTools | cmd/registry/main.go:326-353 | From the cluster: each existing tool of the surface once, told field by field, and nothing else. |
| ResourceVersion.RenderRoundTrip | cmd/registry/main.go:565-575 | A rendered number parses back to itself within 64 bits. |
| ResourceVersion.NewerIsGreater | cmd/registry/main.go:565-575 | On rendered versions the comparison is the strict numeric order. |
| ResourceVersion.IncomparableIsDelivered | cmd/registry/main.go:561-575 | Whatever cannot be compared is delivered. |
| ResourceVersion.TextOrderDiffers | cmd/registry/main.go:561-575 | Version 10 is newer than 9 although its text sorts before. |
| Watch.HubIsSafe | cmd/registry/main.go:513-559 | On every interleaving: no send on a closed channel, no second close, no key without subscribers, at most 8 frames. |
| Watch.BroadcastIsLocal | cmd/registry/main.go:550-559 | A broadcast leaves the watchers of other keys alone. |
| WatchProperties.NoRollback | cmd/registry/main.go:199-241 | With decimal versions, what is written to a watcher strictly increases, duplicates and regressions included. |
| WatchProperties.RunKeepsAllGood | cmd/registry/main.go:211-235 | On every run the channel holds the accepted frames not taken yet and the floor is the highest version seen. |
| Delivery.ShownExactly | cmd/registry/main.go:211-235 | On every run a watcher has been shown exactly its snapshot and, of the frames that found room and were taken, those newer than the one before, whole and in order. |
| Delivery.EveryFrameHasASource | cmd/registry/main.go:199-259 | Every frame handed out is one of the watcher's own Agent, with its own configuration: in the store at the snapshot, or broadcast since it subscribed. |
| WatchProperties.BehindExactly | cmd/registry/main.go:546-559 | A drained watcher misses something it was offered if and only if the newest offer was dropped. |
| WatchProperties.LostExactlyWhenDropped | cmd/registry/main.go:211-235 | On every faithful run a drained watcher is as new as all broadcasts since it subscribed, and ever if its snapshot found the Agent, if and only if the newest was not dropped. |
| WatchProperties.ReceivedFrameCatchesUp | cmd/registry/main.go:546-559 | On every faithful run a received frame raises the floor to every earlier broadcast, dropped ones included. |
| WatchProperties.NothingLostWithoutDrops | cmd/registry/main.go:211-235 | If no broadcast found the channel full, a drained watcher has lost nothing. |
| WatchProperties.DroppedMeansRefused | cmd/registry/main.go:550-559 | When every broadcast has a higher version than the ones before, losing the newest means exactly that it was refused. |
| SlowConsumer.BurstLeavesBehindExactly | cmd/registry/main.go:546-559 | On a faithful run of n changes, stored and broadcast before any is received, a watcher that had found its Agent ends up drained and behind if and only if n exceeds 8. |
| SlowConsumer.FloorStays | cmd/registry/main.go:225-240 | Until something is broadcast for its key, nothing moves the floor of a watcher without pending frames. |
| SlowConsumer.SlowConsumerStaysBehind | cmd/registry/main.go:546-549 | After a burst of more than 8, however the run goes on, the watcher stays behind until its Agent is broadcast again, against the comment. |
| Broadcaster.Hub.Subscribe | cmd/registry/main.go:517-526 | A fresh open channel is registered under the key and nothing else changes. |
| Broadcaster.Hub.Unsubscribe | cmd/registry/main.go:528-538 | The registration goes, an emptied key with it, and the channel is closed once. |
| Broadcaster.Hub.Broadcast | cmd/registry/main.go:550-559 | Each subscriber of the key is sent the frame without blocking; other channels stay. |
| Broadcaster.Hub.Receive | cmd/registry/main.go:228-230 | The first frame leaves the channel and nothing else changes. |
| Broadcaster.SubscribeMirrors | cmd/registry/main.go:517-526 | Subscribing takes the protocol's join step, channel by channel and key by key. |
| Broadcaster.BroadcastMirrors | cmd/registry/main.go:550-559 | Broadcasting takes the protocol's broadcast step. |
| Broadcaster.UnsubscribeMirrors | cmd/registry/main.go:528-538 | Unsubscribing under its own key takes the protocol's leave step. |
| Broadcaster.Serve | cmd/registry/main.go:513-559 | Over every run of the protocol the hub, operation by operation, ends up as the protocol's state, every call within its precondition: no send on a closed channel, no second close. |
| Broadcaster.HandleWatch | cmd/registry/main.go:212-240 | Writes the snapshot and each frame newer than the one before, whole and in order, and one keepalive each time it is due; its floor is the last version written. |
| EventStream.StreamRoundTrip | cmd/registry/main.go:222-240 | A reader by sections 9.2.5 and 9.2.6 of the WHATWG HTML standard dispatches exactly the written payloads, nothing for keepalives. |
| EventStream.CutStreamIsPrefix | cmd/registry/main.go:488-494 | Cut at any point, exactly the payloads of the items wholly received have been dispatched. |
| EventStream.ClientNeverRollsBack | cmd/registry/main.go:195-241 | Over every run and cut, a client was handed exactly the items wholly received, and their versions strictly increase. |
| EventStream.ClientSeesExactly | cmd/registry/main.go:195-241 | Over every run and cut, the client was handed, unaltered and in order, a first part of what its watcher was shown; uncut, the last is that of the floor. |
| PodAssembly.UserVolumes | internal/controller/agent_controller.go:1155-1190 | Volumes and mounts of the declared entries of known source, matched one by one. |
| PodAssembly.CredentialVolumes | internal/controller/agent_controller.go:1213-1234 | One Secret volume and one read-only mount for each Credential with a Secret. |
| Paths.NormalIsStable | api/v1alpha1/validation.go:202-205 | A place has one canonical text: writing the normal form of a path and normalizing again changes nothing. |
| MountPaths.CleanKeepsPlace | api/v1alpha1/validation.go:202-205 | Validation's trimming keeps the place a path names. |
| MountPaths.PlainIsOffOperator | api/v1alpha1/validation.go:206-217 | An accepted volume with a plain path is at no reserved place and not in the credentials directory. |
| MountPaths.UserPlacesExactly | api/v1alpha1/validation.go:169-223 | Volumes collide with none of the Operator's mounts and not with each other if and only if those with irregular paths do not. |
| Materialize.WorkspacePod | internal/controller/agent_controller.go:1022-1145 | The accumulated volumes, mounts and environment are the declared ones. |
| Materialize.PartsCoverAll | internal/controller/agent_controller.go:857-968 | The three parts of the closure set every managed field, so nothing of what was there is left. |
| Materialize.Deployment.Mutate | internal/controller/agent_controller.go:857-968 | Every managed field becomes that of the inputs, whatever was there; other fields stay. |
| Materialize.MutateAll | internal/controller/agent_controller.go:856-968 | After any history of materializations over any starting object only the last inputs show. |
| Materialize.ReconcileAll | internal/controller/agent_controller.go:149-191 | After any history of reconciles the Deployment shows the last one that built anything; reconciles that build nothing leave it standing. |
| Materialize.LastBuiltExactly | internal/controller/agent_controller.go:186-191 | That is what a valid spec with a runtime, not held back, built with none after it; nothing only when no reconcile built. |
| Materialize.ResolveModelSecret | internal/controller/agent_controller.go:1262-1286 | The Secret behind the effective Model's Credential, or empty while a step is missing. |
| Materialize.ReconcileRuntime | internal/controller/agent_controller.go:815-968 | Materializes the resolved inputs, or leaves the Deployment alone while the git Secret is missing. |
| RuntimeContract.BuiltRuntimeKnowsItself | internal/controller/agent_controller.go:820-866 | A built container has its Agent's namespace and name and the Registry address, configured or default, unless the Agent's own variables say otherwise. |
| RuntimeContract.BuiltRuntimeFindsCredentials | internal/controller/agent_controller.go:944-953 | With a Credential mounted the variable names the directory whatever the Agent sets; without one an accepted Agent's runtime does not have it. |
| RuntimeContract.BuiltRuntimeFindsWorkspace | internal/controller/agent_controller.go:1109-1118 | A workspace runtime has the working tree and a home on it in all seven variables, whatever the Agent sets. |
| RuntimeContract.CloneIsToldWhat | internal/controller/agent_controller.go:772-782 | The clone step is told repository, branch and place, and nothing it was not given. |
| RuntimeContract.BuiltFromRuntimeSpec | internal/controller/agent_controller.go:867-875 | Image, port, resources, service account and runtime class are the runtime spec's. |
| RuntimeContract.BuiltProbe | internal/controller/agent_controller.go:876-884 | An explicit probe wins, a listening workspace runtime gets the default, nothing else is probed. |
| RuntimeContract.SandboxedExactly | internal/controller/agent_controller.go:895-956 | A container is sandboxed if and only if something is mounted in it. |
| RuntimeContract.OneWriter | internal/controller/agent_controller.go:885-917 | A pod with the working tree runs alone, is recreated and has one clone step; any other runs the replicas it asked for. |
| RuntimeContract.SelectorsApart | internal/controller/agent_controller.go:858-861 | A Deployment selects its own pods and no other Agent's. |
| RuntimeContract.AcceptedPathsAreAbsolute | api/v1alpha1/validation.go:198-252 | Every mount of an accepted Agent's pod is at an absolute path. |
| RuntimeContract.NothingIsInert | api/v1alpha1/validation.go:237-249 | In an accepted Agent a branch comes with its repository, and a workspace credential is one the runtime waits for. |
| RuntimeContract.WorkspaceIsRejected | api/v1alpha1/validation.go:229-259 | No runtime, a branch or credential without repository, a relative path, an unreadable size: each rejects. |
| RuntimeContract.WorkspaceIsAccepted | api/v1alpha1/validation.go:229-259 | A plain workspace is accepted with any accepted runtime that keeps off its path. |
| PodProperties.ResolvedCredentialsAreProper | internal/controller/agent_controller.go:336-338 | An accepted spec resolves to Credentials with distinct, slash-free names. |
| PodProperties.GitSecretExactly | internal/controller/agent_controller.go:362-371 | The git Secret is that of the workspace Credential alone, also when the Agent lists it as its own. |
| PodProperties.HeldBackExactly | internal/controller/agent_controller.go:825-835 | The runtime is held back if and only if a git credential is wanted and has no Secret. |
| PodProperties.MountsFollowVolumes | internal/controller/agent_controller.go:1000-1011 | Mounts and volumes match entry by entry, so none dangles. |
| MountPaths.PodPathsExactly | api/v1alpha1/validation.go:183-211 | No container mounts two things at one place if and only if the working tree and the volumes with irregular paths keep off everything else. |
| MountPaths.UserMountsAsideExactly | api/v1alpha1/validation.go:206-217 | No volume of the Agent's covers a reserved place, the working tree or anything in the credentials directory if and only if this holds where a path is irregular. |
| MountPaths.BuiltPodPathsExactly | internal/controller/agent_controller.go:919-950 | Both equivalences for what an accepted Agent is given in any cluster state. |
| MountPaths.PlainPathsSuffice | api/v1alpha1/validation.go:183-217 | Plain volume paths and a canonical workspace path that is none of the Operator's suffice for both. |
| MountPaths.TrailingSlashEscapesValidation | api/v1alpha1/validation.go:183-204 | Any accepted Agent with a volume is accepted with a workspace at that volume's path and a slash more, and the two land on one place. |
| MountPaths.DoubledSlashTakesWorkspace | api/v1alpha1/validation.go:202-208 | Any accepted workspace path can be taken by an accepted volume whose path doubles the first slash. |
| MountPaths.DoubledSlashTakesCredential | api/v1alpha1/validation.go:209-217 | So can the directory of any mounted Credential. |
| MountPaths.WorkIsTaken | api/v1alpha1/validation.go:183-208 | The smallest case: workspace /work, volume //work. |
| PodProperties.BuiltPodIsWellFormed | internal/controller/agent_controller.go:885-958 | In every cluster state: distinct volume names, every mount of both containers backed, no unmounted volume. |
| PodContents.SeesExactly | internal/controller/agent_controller.go:1048-1102 | Looked up through volume names, the container sees exactly what the Operator, the Agent and its Credentials contribute. |
| PodContents.BuiltPodSeesExactly | internal/controller/agent_controller.go:885-958 | From the cluster: each listed, existing Credential's Secret under its own name, the git Secret of the workspace Credential, the model's Secret, each declared volume's own source, nothing else. |
| PodContents.DeclaresExactly | internal/controller/agent_controller.go:1158-1182 | A declared volume stands for its claim, else its ConfigMap, else its Secret, else scratch space. |
| GitEnvironment.ContiguousExactly | internal/controller/agent_controller.go:1038-1089 | What the workspace sets is contiguous, by effective values, if and only if a credential never comes without a repository. |
| GitEnvironment.ContainerValue | internal/controller/agent_controller.go:862-893 | The workspace's value of a git variable wins over the Agent's own. |
| GitEnvironment.BuiltRuntimeContiguousExactly | internal/controller/agent_controller.go:829-893 | In a built container count and pairs agree, as git reads them, if and only if the Agent's own variables number no pair beyond the workspace's, or, where the workspace sets none, are contiguous themselves. |
| GitEnvironment.StrayPairBreaks | api/v1alpha1/validation.go:110-124 | An accepted Agent with any single pair variable and no workspace has a pair git never reads. |
| GitEnvironment.BuiltRuntimeFileExactly | internal/controller/agent_controller.go:1119-1134 | In a built container the credential file variable goes with the git credential mount and names a file in it if and only if a git credential is wanted or the Agent does not set the variable itself. |
| GitEnvironment.StrayFileBreaks | api/v1alpha1/validation.go:110-124 | An accepted Agent that sets the variable without a workspace points at a file nothing mounts. |
| GitEnvironment.CloneFileFollowsMount | internal/controller/agent_controller.go:774-794 | In the clone container variable and mount always go together. |
| SilentChanges.SameHashSameConfigExactly | cmd/registry/main.go:271-364 | With an unchanged hash the served configuration is unchanged if and only if every surface tool is served alike once its server or peer is looked up, every Skill has the same content, and the model the same Secret and key. |
| SilentChanges.UpToDateIsCurrentExactly | cmd/registry/main.go:244-254 | On every run a watcher at the present version of a Ready, settled Agent holds the present configuration if and only if nothing moved that the hash does not cover. |
| SilentChanges.PromptOfDegradedChangesSilently | internal/controller/agent_controller.go:197-204 | While an Agent misses a reference, even another text of its own prompt leaves status and version alone and changes what is served. |
| SilentChanges.ServerChangesSilently | cmd/registry/main.go:438-443 | Another endpoint of the MCP server behind any tool of the surface moves what is served and no hashed reference. |
| SilentChanges.PeerChangesSilently | cmd/registry/main.go:447-455 | So does another published endpoint of a peer. |
| SilentChanges.SkillTextChangesSilently | cmd/registry/main.go:478-484 | So does another text in the ConfigMap behind a Skill. |
| SilentChanges.ToolSetMemberChangesSilently | cmd/registry/main.go:101-108 | So does any change in what is served for a Tool that only a ToolSet brings in. |
| SilentChanges.ModelCredentialChangesSilently | cmd/registry/main.go:315-322 | So does another Secret, or another key in it, behind a Credential that only the Model names. |
| SilentChanges.HashMissesToolSetMembers | internal/controller/agent_controller.go:379-412 | Two clusters with equal hashed references whose declared MCP servers and served tools differ. |

## Left out

- Kubernetes client, informer, workqueue and API server internals, and transport errors other than NotFound: foreign libraries, modelled as store, events and steps. A failed snapshot of an existing Agent is not modelled.
- Convergence of peer exposure and of a Model's Credential: the Agent controller watches neither.
- Events of owned Deployments and Services: they wake their own Agent, as any event of it does.
- Status conditions, messages and the wording and sorting of violations: reports are modelled as sets or lists of structured values.
- Lists.Dedupe: an empty input gives an empty list; Go's nil and empty slices are not told apart.
- Ready.Reconcile: publishes phase, hash and count only; peer endpoint and claim name in status are not modelled.
- SHA-256 and JSON encoding: the hash is injective by assumption, and so is the encoding of a configuration where frames are related to it.
- SilentChanges.UpToDateIsCurrentExactly: that a status write which changes nothing leaves the Agent's version alone is taken from the API server; the status compared is phase, hash and count.
- Symbolic links and other aliases inside a container's file system: a place is what the path's text names.
- RegistryConfig.BuildConfigFrom: the effective spec is served as a value, not as its JSON text, and spec fields neither side acts on are not modelled.
- Broadcaster.HandleWatch: which ready case select picks, the keepalive timer and flushing are the caller's input sequence.
- HTTP routing, timeouts and logging: no property depends on them.
- EventStream.StreamRoundTrip: the id and retry fields do not affect dispatch and are ignored by the reader.
- Materialize.WorkspacePod: the sandbox security context is a flag, and the text of git's credential helper an opaque constant.
- Materialize.ReconcileRuntime: the workspace claim, the Service and the owner reference are not modelled.
- Quantity parsing: a size carries the parser's verdict.
- The clone shell script, entrypoints, images and manifests: no shell semantics here.
- Model, Tool, ToolSet, Credential, Skill, Policy, ToolPolicy, PromptTemplate, AgentClass, MCPServer and Trigger controllers and their admission webhooks: they would only add easy members.
- Call-time enforcement in runtimes (session caps, skill loading): lives in the SDK.
