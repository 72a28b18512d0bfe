/** The reverse reference index: from a changed object back to the Agents whose resolution reads it. */
module FieldIndex {
  import opened Lists
  import opened Api
  import opened Cluster
  import opened Resolution

  // --- extractors ---

  function RefName(ref: Option<string>): seq<string> {
    if ref.None? || ref.value == "" then [] else [ref.value]
  }

  function RefNamesOf(refs: seq<string>): (names: seq<string>)
    ensures forall n :: n in names <==> n in refs && n != ""
  {
    if refs == [] then []
    else
      assert refs == [refs[0]] + refs[1..];
      (if refs[0] == "" then [] else [refs[0]]) + RefNamesOf(refs[1..])
  }

  datatype AgentField =
    | ByModel | ByPrompt | ByTools | ByToolSets | BySkills | ByPolicies | ByToolPolicies | ByCredentials | ByClass

  function AgentValues(spec: AgentSpec, field: AgentField): seq<string> {
    match field
    case ByModel => RefName(spec.modelRef)
    case ByPrompt => RefName(spec.promptRef)
    case ByTools => RefNamesOf(spec.toolRefs)
    case ByToolSets => RefNamesOf(spec.toolSetRefs)
    case BySkills => RefNamesOf(spec.skillRefs)
    case ByPolicies => RefNamesOf(spec.policyRefs)
    case ByToolPolicies => RefNamesOf(spec.toolPolicyRefs)
    case ByCredentials =>
      RefNamesOf(spec.credentialRefs)
      + (if spec.workspace.Some? then RefName(spec.workspace.value.credentialRef) else [])
    case ByClass => RefName(spec.agentClassRef)
  }

  datatype ClassField = DefaultModel | DefaultPrompt | DefaultPolicies | DefaultTools | DefaultSkills | DefaultToolPolicies

  function ClassValues(spec: AgentClassSpec, field: ClassField): seq<string> {
    match field
    case DefaultModel => RefName(spec.defaultModelRef)
    case DefaultPrompt => RefName(spec.defaultPromptRef)
    case DefaultPolicies => RefNamesOf(spec.defaultPolicyRefs)
    case DefaultTools => RefNamesOf(spec.defaultToolRefs)
    case DefaultSkills => RefNamesOf(spec.defaultSkillRefs)
    case DefaultToolPolicies => RefNamesOf(spec.defaultToolPolicyRefs)
  }

  // --- watch wiring ---

  datatype Wiring = Wiring(direct: seq<AgentField>, classFields: seq<ClassField>, viaToolSet: bool)

  /** How the Agent controller watches each kind it does not own; MCPServers are not watched. */
  function WatchOf(kind: Kind): Option<Wiring> {
    match kind
    case ModelKind => Some(Wiring([ByModel], [DefaultModel], false))
    case PromptTemplateKind => Some(Wiring([ByPrompt], [DefaultPrompt], false))
    case PolicyKind => Some(Wiring([ByPolicies], [DefaultPolicies], false))
    case ToolKind => Some(Wiring([ByTools], [DefaultTools], true))
    case ToolSetKind => Some(Wiring([ByToolSets], [], false))
    case SkillKind => Some(Wiring([BySkills], [DefaultSkills], false))
    case ToolPolicyKind => Some(Wiring([ByToolPolicies], [DefaultToolPolicies], false))
    case CredentialKind => Some(Wiring([ByCredentials], [], false))
    case AgentClassKind => Some(Wiring([ByClass], [], false))
    case AgentKind => None
    case McpServerKind => None
    case ConfigMapKind => None
  }

  // --- the three routes ---

  /** The Agent names the dependency itself. */
  ghost predicate Names(spec: AgentSpec, w: Wiring, name: string) {
    exists f :: f in w.direct && name in AgentValues(spec, f)
  }

  ghost predicate InheritsBy(c: Store, ns: string, spec: AgentSpec, field: ClassField, name: string) {
    exists class_ ::
      && class_ in AgentValues(spec, ByClass)
      && GetClass(c, ns, class_).Some?
      && name in ClassValues(GetClass(c, ns, class_).value, field)
  }

  /** The Agent's class exists and hands the dependency down. */
  ghost predicate Inherits(c: Store, ns: string, spec: AgentSpec, w: Wiring, name: string) {
    exists f :: f in w.classFields && InheritsBy(c, ns, spec, f, name)
  }

  /** A ToolSet the Agent names exists and includes the Tool. */
  ghost predicate Includes(c: Store, ns: string, spec: AgentSpec, w: Wiring, name: string) {
    w.viaToolSet && exists s ::
      && s in AgentValues(spec, ByToolSets)
      && GetMembers(c, ns, s).Some?
      && name in RefNamesOf(GetMembers(c, ns, s).value)
  }

  /** Agent a is an existing Agent of the same namespace reached by one of the three routes. */
  ghost predicate Reached(c: Store, w: Wiring, ns: string, name: string, a: Key) {
    && a.kind == AgentKind && a.ns == ns && GetAgent(c, a).Some?
    && var spec := GetAgent(c, a).value;
      Names(spec, w, name) || Inherits(c, ns, spec, w, name) || Includes(c, ns, spec, w, name)
  }

  // --- the mapper ---

  /** An indexed List of Agents: every match of the namespace once, in no particular order. */
  method ListAgents(c: Store, ns: string, field: AgentField, value: string) returns (items: seq<Key>)
    ensures Distinct(items)
    ensures forall a :: a in items <==>
              a.kind == AgentKind && a.ns == ns && GetAgent(c, a).Some? && value in AgentValues(GetAgent(c, a).value, field)
  {
    items := [];
    var left := c.Keys;
    while left != {}
      invariant left <= c.Keys
      invariant Distinct(items)
      invariant forall a :: a in items ==> a !in left
      invariant forall a :: a in items <==>
                a in c.Keys - left && a.kind == AgentKind && a.ns == ns && GetAgent(c, a).Some?
                && value in AgentValues(GetAgent(c, a).value, field)
      decreases left
    {
      var k :| k in left;
      left := left - {k};
      if k.kind == AgentKind && k.ns == ns {
        var spec := GetAgent(c, k);
        if spec.Some? && value in AgentValues(spec.value, field) {
          items := items + [k];
        }
      }
    }
  }

  method ListClasses(c: Store, ns: string, field: ClassField, value: string) returns (names: seq<string>)
    ensures forall n :: n in names <==> GetClass(c, ns, n).Some? && value in ClassValues(GetClass(c, ns, n).value, field)
  {
    names := [];
    var left := c.Keys;
    while left != {}
      invariant left <= c.Keys
      invariant forall n :: n in names <==>
                Key(AgentClassKind, ns, n) in c.Keys - left && GetClass(c, ns, n).Some?
                && value in ClassValues(GetClass(c, ns, n).value, field)
      decreases left
    {
      var k :| k in left;
      left := left - {k};
      if k.kind == AgentClassKind && k.ns == ns {
        var spec := GetClass(c, ns, k.name);
        if spec.Some? && value in ClassValues(spec.value, field) {
          names := names + [k.name];
        }
      }
    }
  }

  method ListToolSets(c: Store, ns: string, tool: string) returns (names: seq<string>)
    ensures forall n :: n in names <==> GetMembers(c, ns, n).Some? && tool in RefNamesOf(GetMembers(c, ns, n).value)
  {
    names := [];
    var left := c.Keys;
    while left != {}
      invariant left <= c.Keys
      invariant forall n :: n in names <==>
                Key(ToolSetKind, ns, n) in c.Keys - left && GetMembers(c, ns, n).Some?
                && tool in RefNamesOf(GetMembers(c, ns, n).value)
      decreases left
    {
      var k :| k in left;
      left := left - {k};
      if k.kind == ToolSetKind && k.ns == ns {
        var members := GetMembers(c, ns, k.name);
        if members.Some? && tool in RefNamesOf(members.value) {
          names := names + [k.name];
        }
      }
    }
  }

  /** Appends the requests not seen before. */
  method Add(reqs: seq<Key>, more: seq<Key>) returns (out: seq<Key>)
    requires Distinct(reqs)
    ensures Distinct(out)
    ensures forall a :: a in out <==> a in reqs || a in more
  {
    out := reqs;
    for i := 0 to |more|
      invariant Distinct(out)
      invariant forall a :: a in out <==> a in reqs || a in more[..i]
    {
      assert more[..i + 1] == more[..i] + [more[i]];
      if more[i] !in out {
        out := out + [more[i]];
      }
    }
    assert more[..|more|] == more;
  }

  method RequestsMatchingIndex(c: Store, ns: string, name: string, fields: seq<AgentField>) returns (reqs: seq<Key>)
    ensures Distinct(reqs)
    ensures forall a :: a in reqs <==>
              && a.kind == AgentKind && a.ns == ns && GetAgent(c, a).Some?
              && exists f :: f in fields && name in AgentValues(GetAgent(c, a).value, f)
  {
    reqs := [];
    for i := 0 to |fields|
      invariant Distinct(reqs)
      invariant forall a :: a in reqs <==>
                && a.kind == AgentKind && a.ns == ns && GetAgent(c, a).Some?
                && exists f :: f in fields[..i] && name in AgentValues(GetAgent(c, a).value, f)
    {
      assert fields[..i + 1] == fields[..i] + [fields[i]];
      var items := ListAgents(c, ns, fields[i], name);
      reqs := Add(reqs, items);
    }
    assert fields[..|fields|] == fields;
  }

  /** The event mapper: each Agent reached by one of the three routes, once, and no other. */
  method AgentsReferencing(c: Store, w: Wiring, ns: string, name: string) returns (reqs: seq<Key>)
    ensures Distinct(reqs)
    ensures forall a :: a in reqs <==> Reached(c, w, ns, name, a)
  {
    reqs := [];
    if |w.direct| > 0 {
      var found := RequestsMatchingIndex(c, ns, name, w.direct);
      reqs := Add(reqs, found);
    }
    var inherited := InheritingAgents(c, w, ns, name);
    reqs := Add(reqs, inherited);
    if w.viaToolSet {
      var included := IncludingAgents(c, ns, name);
      reqs := Add(reqs, included);
    }
  }

  method InheritingAgents(c: Store, w: Wiring, ns: string, name: string) returns (reqs: seq<Key>)
    ensures Distinct(reqs)
    ensures forall a :: a in reqs <==>
              a.kind == AgentKind && a.ns == ns && GetAgent(c, a).Some? && Inherits(c, ns, GetAgent(c, a).value, w, name)
  {
    reqs := [];
    for i := 0 to |w.classFields|
      invariant Distinct(reqs)
      invariant forall a :: a in reqs <==>
                && a.kind == AgentKind && a.ns == ns && GetAgent(c, a).Some?
                && exists f :: f in w.classFields[..i] && InheritsBy(c, ns, GetAgent(c, a).value, f, name)
    {
      assert forall f :: f in w.classFields[..i + 1] <==> f in w.classFields[..i] || f == w.classFields[i];
      var classes := ListClasses(c, ns, w.classFields[i], name);
      var more := AgentsOfAny(c, ns, classes, ByClass);
      assert forall a :: a in more <==>
          && a.kind == AgentKind && a.ns == ns && GetAgent(c, a).Some?
          && InheritsBy(c, ns, GetAgent(c, a).value, w.classFields[i], name);
      reqs := Add(reqs, more);
    }
    assert w.classFields[..|w.classFields|] == w.classFields;
  }

  /** The Agents whose index entry names any of the given objects. */
  method AgentsOfAny(c: Store, ns: string, names: seq<string>, field: AgentField) returns (reqs: seq<Key>)
    ensures Distinct(reqs)
    ensures forall a :: a in reqs <==>
              && a.kind == AgentKind && a.ns == ns && GetAgent(c, a).Some?
              && exists n :: n in names && n in AgentValues(GetAgent(c, a).value, field)
  {
    reqs := [];
    for i := 0 to |names|
      invariant Distinct(reqs)
      invariant forall a :: a in reqs <==>
                && a.kind == AgentKind && a.ns == ns && GetAgent(c, a).Some?
                && exists n :: n in names[..i] && n in AgentValues(GetAgent(c, a).value, field)
    {
      assert names[..i + 1] == names[..i] + [names[i]];
      var more := RequestsMatchingIndex(c, ns, names[i], [field]);
      assert field in [field];
      reqs := Add(reqs, more);
    }
    assert names[..|names|] == names;
  }

  method IncludingAgents(c: Store, ns: string, name: string) returns (reqs: seq<Key>)
    ensures Distinct(reqs)
    ensures forall a :: a in reqs <==>
              && a.kind == AgentKind && a.ns == ns && GetAgent(c, a).Some?
              && Includes(c, ns, GetAgent(c, a).value, Wiring([], [], true), name)
  {
    var sets := ListToolSets(c, ns, name);
    reqs := AgentsOfAny(c, ns, sets, ByToolSets);
  }
}
