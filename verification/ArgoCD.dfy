/** The Argo CD desired set: what each source reads, the loops that extract groups
    from policies and projects, and the watch predicates (argocd_controller.go). */
module ArgoCD {
  import opened Wrappers
  import opened GoStrings
  import opened Bindings
  import opened ReconcileSystem
  import SR = StateReconciler

  datatype Source = Source(namespace: string, resourceName: string, configMapName: string, appProjectsEnabled: bool)
  {
    function ResourceKey(): NamespacedName { NamespacedName(namespace, resourceName) }
    function ConfigMapKey(): NamespacedName { NamespacedName(namespace, configMapName) }
  }

  datatype Resource = Resource(deletionTimestamp: Option<int>)

  /** What the CSV reader yields, one value per call until the end of the file. */
  datatype CsvOutcome = ParseError | Record(fields: seq<string>)

  datatype ConfigMap = ConfigMap(data: map<string, seq<CsvOutcome>>, deletionTimestamp: Option<int>)

  /** An unstructured AppProject, down to what NestedSlice and NestedStringSlice tell apart. */
  datatype GroupsField = GroupsAbsent | GroupsMalformed | GroupList(groups: seq<string>)
  datatype Role = NotAnObject | RoleObject(field: GroupsField)
  datatype RolesField = RolesAbsent | RolesMalformed | RoleList(roles: seq<Role>)
  datatype AppProject = AppProject(field: RolesField, deletionTimestamp: Option<int>)

  /** The cluster as an Argo CD reconciler reads it. */
  datatype ArgoCluster = ArgoCluster(argoCDInstalled: bool, appProjectInstalled: bool,
                                     resources: map<NamespacedName, Resource>,
                                     configMaps: map<NamespacedName, ConfigMap>,
                                     appProjects: map<NamespacedName, AppProject>)

  // ---- policies ------------------------------------------------------------------

  predicate IsPolicyKey(key: string) {
    key == "policy.csv" || (HasPrefix(key, "policy.") && HasSuffix(key, ".csv"))
  }

  /** The group a policy line grants a role to, if it is a `g` line naming a UUID. */
  function LineGroup(line: CsvOutcome): Option<string> {
    if && line.Record? && |line.fields| >= 3
       && TrimSpace(line.fields[0]) == "g" && IsValidAzureUuid(TrimSpace(line.fields[1]))
    then Some(TrimSpace(line.fields[1])) else None
  }

  function PolicyGroups(policy: seq<CsvOutcome>): seq<string> {
    if policy == [] then []
    else
      var group := LineGroup(policy[|policy| - 1]);
      PolicyGroups(policy[..|policy| - 1]) + if group.Some? then [group.value] else []
  }

  lemma PolicyStep(policy: seq<CsvOutcome>, i: nat)
    requires i < |policy|
    ensures Dedup(PolicyGroups(policy[..i + 1]))
         == var groups, group := Dedup(PolicyGroups(policy[..i])), LineGroup(policy[i]);
            if group.Some? && group.value !in groups then groups + [group.value] else groups
  {
    hide LineGroup;
    assert policy[..i + 1][..i] == policy[..i];
    var group := LineGroup(policy[i]);
    if group.Some? {
      DedupSnoc(PolicyGroups(policy[..i]), group.value);
    } else {
      assert PolicyGroups(policy[..i + 1]) == PolicyGroups(policy[..i]);
    }
  }

  /** `t` with spaces around it. */
  ghost predicate Padded(s: string, t: string) {
    exists a, b :: s == a + t + b && AllIn(a, SPACES) && AllIn(b, SPACES)
  }

  /** The line has three fields or more, of which the first is "g" and the second this UUID,
      both perhaps with spaces around them. */
  ghost predicate Grants(line: CsvOutcome, g: string) {
    && line.Record? && |line.fields| >= 3 && Padded(line.fields[0], "g") && Padded(line.fields[1], g)
    && IsValidAzureUuid(g)
  }

  lemma LineGroupIff(line: CsvOutcome, g: string)
    ensures LineGroup(line) == Some(g) <==> Grants(line, g)
  {
    hide TrimSpace, IsValidAzureUuid;
    if line.Record? && |line.fields| >= 3 {
      TrimSpaceIff(line.fields[0], "g");
      TrimSpaceIff(line.fields[1], g);
      assert 'g' !in SPACES;
      if IsValidAzureUuid(g) { UuidHasNoSpaces(g); }
    }
  }

  lemma UuidHasNoSpaces(g: string)
    requires IsValidAzureUuid(g)
    ensures |g| == 36 && g[0] !in SPACES && g[35] !in SPACES
  {
    assert IsLowerHex(LowerChar(g[0])) && IsLowerHex(LowerChar(g[35]));
    SpacesAre(g[0]);
    SpacesAre(g[35]);
  }

  lemma {:induction false} PolicyGroupsAre(policy: seq<CsvOutcome>, g: string)
    ensures g in PolicyGroups(policy) <==> exists line :: line in policy && Grants(line, g)
  {
    hide LineGroup, Grants;
    if policy != [] {
      var front, last := policy[..|policy| - 1], policy[|policy| - 1];
      PolicyGroupsAre(front, g);
      LineGroupIff(last, g);
      assert policy == front + [last];
    }
  }

  /** The groups come in the order of their lines. */
  lemma {:induction false} PolicyGroupsConcat(a: seq<CsvOutcome>, b: seq<CsvOutcome>)
    ensures PolicyGroups(a + b) == PolicyGroups(a) + PolicyGroups(b)
  {
    hide LineGroup;
    if b == [] {
      assert a + b == a;
    } else {
      assert (a + b)[..|a + b| - 1] == a + b[..|b| - 1];
      PolicyGroupsConcat(a, b[..|b| - 1]);
    }
  }

  lemma GroupsOfPolicy(policy: seq<CsvOutcome>)
    ensures forall g :: g in Dedup(PolicyGroups(policy)) <==> exists line :: line in policy && Grants(line, g)
  {
    hide Dedup, PolicyGroups, Grants;
    DedupKeepsElements(PolicyGroups(policy));
    SameElements(Dedup(PolicyGroups(policy)), PolicyGroups(policy));
    forall g ensures g in PolicyGroups(policy) <==> exists line :: line in policy && Grants(line, g) {
      PolicyGroupsAre(policy, g);
    }
  }

  /** extractGroupsFromArgoCDPolicy. */
  method ExtractGroupsFromPolicy(policy: seq<CsvOutcome>) returns (groups: seq<string>)
    ensures groups == Dedup(PolicyGroups(policy))
    ensures NoDuplicates(groups) && Elements(groups) == Elements(PolicyGroups(policy))
    ensures forall g :: g in groups <==> exists line :: line in policy && Grants(line, g)
  {
    GroupsOfPolicy(policy);
    hide IsValidAzureUuid, TrimSpace, Dedup, Grants, Padded;
    groups := [];
    var seen: set<string> := {};
    DedupEmpty<string>();
    assert policy[..0] == [];
    for i := 0 to |policy|
      invariant groups == Dedup(PolicyGroups(policy[..i]))
      invariant seen == Elements(groups)
    {
      PolicyStep(policy, i);
      var line := policy[i];
      if line.ParseError? || |line.fields| < 3 {
        continue;
      }
      var kind := TrimSpace(line.fields[0]);
      assert kind == "g" ==> kind[0] == 'g';
      if HasPrefix(kind, "#") || kind != "g" {
        continue;
      }
      var groupID := TrimSpace(line.fields[1]);
      if !IsValidAzureUuid(groupID) {
        continue;
      }
      if groupID !in seen {
        groups := groups + [groupID];
        seen := seen + {groupID};
      }
    }
    assert policy[..|policy|] == policy;
    DedupKeepsElements(PolicyGroups(policy));
  }

  lemma SameElements(a: seq<string>, b: seq<string>)
    requires Elements(a) == Elements(b)
    ensures forall x :: x in a <==> x in b
  {
    assert forall x :: (x in a <==> x in Elements(a)) && (x in b <==> x in Elements(b));
  }

  // ---- projects ------------------------------------------------------------------

  function Uuids(names: seq<string>): seq<string> {
    if names == [] then []
    else Uuids(names[..|names| - 1]) + if IsValidAzureUuid(names[|names| - 1]) then [names[|names| - 1]] else []
  }

  function RoleGroups(role: Role): seq<string> {
    if role.RoleObject? && role.field.GroupList? then Uuids(role.field.groups) else []
  }

  function RolesGroups(roles: seq<Role>): seq<string> {
    if roles == [] then [] else RolesGroups(roles[..|roles| - 1]) + RoleGroups(roles[|roles| - 1])
  }

  function ProjectGroups(p: AppProject): seq<string> {
    if p.field.RoleList? then RolesGroups(p.field.roles) else []
  }

  lemma UuidsStep(before: seq<string>, names: seq<string>, i: nat)
    requires i < |names|
    ensures Dedup(before + Uuids(names[..i + 1]))
         == var groups := Dedup(before + Uuids(names[..i]));
            if IsValidAzureUuid(names[i]) && names[i] !in groups then groups + [names[i]] else groups
  {
    hide IsValidAzureUuid;
    assert names[..i + 1][..i] == names[..i];
    if IsValidAzureUuid(names[i]) {
      assert before + Uuids(names[..i + 1]) == before + Uuids(names[..i]) + [names[i]];
      DedupSnoc(before + Uuids(names[..i]), names[i]);
    } else {
      assert Uuids(names[..i + 1]) == Uuids(names[..i]);
    }
  }

  lemma NoRoles(roles: seq<Role>)
    ensures RolesGroups(roles[..0]) == []
  {
  }

  lemma RolesStep(roles: seq<Role>, i: nat)
    requires i < |roles|
    ensures Uuids([]) == []
    ensures RolesGroups(roles[..i + 1]) == RolesGroups(roles[..i]) + RoleGroups(roles[i])
  {
    assert roles[..i + 1][..i] == roles[..i];
  }

  /** The project has a list of roles, one of them with a list of groups that holds this UUID. */
  ghost predicate Allows(p: AppProject, g: string) {
    && p.field.RoleList? && IsValidAzureUuid(g)
    && exists r :: r in p.field.roles && r.RoleObject? && r.field.GroupList? && g in r.field.groups
  }

  lemma {:induction false} UuidsAre(names: seq<string>, g: string)
    ensures g in Uuids(names) <==> g in names && IsValidAzureUuid(g)
  {
    hide IsValidAzureUuid;
    if names != [] {
      UuidsAre(names[..|names| - 1], g);
      assert names == names[..|names| - 1] + [names[|names| - 1]];
    }
  }

  lemma {:induction false} RolesGroupsAre(roles: seq<Role>, g: string)
    ensures g in RolesGroups(roles)
            <==> && IsValidAzureUuid(g)
                 && exists r :: r in roles && r.RoleObject? && r.field.GroupList? && g in r.field.groups
  {
    hide IsValidAzureUuid, Uuids;
    if roles != [] {
      var front, last := roles[..|roles| - 1], roles[|roles| - 1];
      RolesGroupsAre(front, g);
      if last.RoleObject? && last.field.GroupList? { UuidsAre(last.field.groups, g); }
      assert roles == front + [last];
    }
  }

  lemma ProjectGroupsAre(p: AppProject, g: string)
    ensures g in ProjectGroups(p) <==> Allows(p, g)
  {
    hide RolesGroups, IsValidAzureUuid;
    if p.field.RoleList? { RolesGroupsAre(p.field.roles, g); }
  }

  /** The groups come in the order of their roles, and of the names in a role. */
  lemma {:induction false} RolesGroupsConcat(a: seq<Role>, b: seq<Role>)
    ensures RolesGroups(a + b) == RolesGroups(a) + RolesGroups(b)
  {
    hide RoleGroups;
    if b == [] {
      assert a + b == a;
    } else {
      assert (a + b)[..|a + b| - 1] == a + b[..|b| - 1];
      RolesGroupsConcat(a, b[..|b| - 1]);
    }
  }

  lemma {:induction false} UuidsConcat(a: seq<string>, b: seq<string>)
    ensures Uuids(a + b) == Uuids(a) + Uuids(b)
  {
    hide IsValidAzureUuid;
    if b == [] {
      assert a + b == a;
    } else {
      assert (a + b)[..|a + b| - 1] == a + b[..|b| - 1];
      UuidsConcat(a, b[..|b| - 1]);
    }
  }

  lemma GroupsOfProject(p: AppProject)
    ensures forall g :: g in Dedup(ProjectGroups(p)) <==> Allows(p, g)
  {
    hide Dedup, ProjectGroups, Allows;
    DedupKeepsElements(ProjectGroups(p));
    SameElements(Dedup(ProjectGroups(p)), ProjectGroups(p));
    forall g ensures g in ProjectGroups(p) <==> Allows(p, g) { ProjectGroupsAre(p, g); }
  }

  /** extractGroupsFromAppProject. */
  method ExtractGroupsFromAppProject(p: AppProject) returns (groups: seq<string>)
    ensures groups == Dedup(ProjectGroups(p))
    ensures NoDuplicates(groups) && Elements(groups) == Elements(ProjectGroups(p))
    ensures forall g :: g in groups <==> Allows(p, g)
  {
    hide IsValidAzureUuid, Dedup, RolesGroups, Uuids, Allows;
    GroupsOfProject(p);
    DedupEmpty<string>();
    DedupKeepsElements(ProjectGroups(p));
    groups := [];
    if !p.field.RoleList? {
      return;
    }
    var roles, seen: set<string> := p.field.roles, {};
    NoRoles(roles);
    for i := 0 to |roles|
      invariant groups == Dedup(RolesGroups(roles[..i]))
      invariant seen == Elements(groups)
    {
      ghost var before := RolesGroups(roles[..i]);
      RolesStep(roles, i);
      if roles[i].NotAnObject? || !roles[i].field.GroupList? {
        assert RolesGroups(roles[..i + 1]) == before;
        continue;
      }
      var names := roles[i].field.groups;
      assert names[..0] == [] && before + Uuids(names[..0]) == before;
      for j := 0 to |names|
        invariant groups == Dedup(before + Uuids(names[..j]))
        invariant seen == Elements(groups)
      {
        UuidsStep(before, names, j);
        if !IsValidAzureUuid(names[j]) {
          continue;
        }
        if names[j] !in seen {
          groups := groups + [names[j]];
          seen := seen + {names[j]};
        }
      }
      assert names[..|names|] == names;
    }
    assert roles[..|roles|] == roles;
  }

  // ---- candidates of a source --------------------------------------------------------

  /** The groups of the policies among these keys. */
  function PolicyCandidates(data: map<string, seq<CsvOutcome>>, keys: set<string>): set<string> {
    set key, g | key in keys && key in data && IsPolicyKey(key) && g in PolicyGroups(data[key]) :: g
  }

  function ConfigMapCandidates(cm: ConfigMap): set<string> {
    if IsZero(cm.deletionTimestamp) then PolicyCandidates(cm.data, cm.data.Keys) else {}
  }

  function ProjectCandidates(c: ArgoCluster, namespace: string): set<string> {
    if !c.appProjectInstalled then {}
    else set k, g | k in c.appProjects && k.namespace == namespace && IsZero(c.appProjects[k].deletionTimestamp)
                    && g in ProjectGroups(c.appProjects[k]) :: g
  }

  /** The owner resource is there and not being deleted; a source without one always counts. */
  predicate OwnerLive(c: ArgoCluster, source: Source) {
    source.resourceName == ""
    || (c.argoCDInstalled && source.ResourceKey() in c.resources
        && IsZero(c.resources[source.ResourceKey()].deletionTimestamp))
  }

  function SourceCandidates(c: ArgoCluster, source: Source): set<string> {
    if !OwnerLive(c, source) then {}
    else
      (if source.ConfigMapKey() in c.configMaps then ConfigMapCandidates(c.configMaps[source.ConfigMapKey()]) else {})
      + (if source.appProjectsEnabled then ProjectCandidates(c, source.namespace) else {})
  }

  function ArgoCandidates(c: ArgoCluster, sources: seq<Source>): set<string> {
    if sources == [] then {}
    else ArgoCandidates(c, sources[..|sources| - 1]) + SourceCandidates(c, sources[|sources| - 1])
  }

  lemma {:induction false} CandidatesAre(c: ArgoCluster, sources: seq<Source>)
    ensures forall g :: g in ArgoCandidates(c, sources) <==> exists s :: s in sources && g in SourceCandidates(c, s)
  {
    hide SourceCandidates;
    if sources != [] {
      var front, last := sources[..|sources| - 1], sources[|sources| - 1];
      CandidatesAre(c, front);
      assert sources == front + [last];
      assert forall s :: s in sources <==> s in front || s == last;
    }
  }

  // ---- what is read, and what counts ------------------------------------------------------

  /** A live ConfigMap gives the groups granted in the policies under "policy.csv" and under
      any key that starts with "policy." and ends in ".csv". */
  lemma ConfigMapCandidatesAre(cm: ConfigMap, g: string)
    ensures g in ConfigMapCandidates(cm)
            <==> cm.deletionTimestamp in {None, Some(0)}
                 && exists key :: key in cm.data
                                  && (key == "policy.csv" || exists x: string :: key == "policy." + x + ".csv")
                                  && exists line :: line in cm.data[key] && Grants(line, g)
  {
    hide PolicyGroups, Grants, IsPolicyKey;
    forall key | key in cm.data
      ensures IsPolicyKey(key) <==> key == "policy.csv" || exists x: string :: key == "policy." + x + ".csv"
      ensures g in PolicyGroups(cm.data[key]) <==> exists line :: line in cm.data[key] && Grants(line, g)
    {
      PolicyKeyIff(key);
      PolicyGroupsAre(cm.data[key], g);
    }
  }

  /** The prefix and the suffix overlap in "policy.csv" alone. */
  lemma LongPolicyKey(key: string)
    requires HasPrefix(key, "policy.") && HasSuffix(key, ".csv")
    ensures |key| >= 11 || key == "policy.csv"
  {
    assert key[|key| - 4] == '.';
    assert forall i :: 0 <= i < 7 && "policy."[i] == '.' ==> i == 6;
    if |key| == 10 { assert key == key[..7] + key[6..][1..]; }
  }

  lemma PolicyKeyIff(key: string)
    ensures IsPolicyKey(key) <==> key == "policy.csv" || exists x: string :: key == "policy." + x + ".csv"
  {
    if IsPolicyKey(key) && key != "policy.csv" {
      LongPolicyKey(key);
      assert key == "policy." + key[7..|key| - 4] + ".csv";
    }
    if x: string :| key == "policy." + x + ".csv" {
      assert key[|key| - 4..] == ".csv";
    }
  }

  lemma ProjectCandidatesAre(c: ArgoCluster, namespace: string, g: string)
    ensures g in ProjectCandidates(c, namespace)
            <==> c.appProjectInstalled
                 && exists k :: k in c.appProjects && k.namespace == namespace
                                && c.appProjects[k].deletionTimestamp in {None, Some(0)} && Allows(c.appProjects[k], g)
  {
    hide ProjectGroups, Allows;
    forall k | k in c.appProjects ensures g in ProjectGroups(c.appProjects[k]) <==> Allows(c.appProjects[k], g) {
      ProjectGroupsAre(c.appProjects[k], g);
    }
  }

  /** The owner resource in words: there is none, or it exists and is not being deleted. */
  ghost predicate Counts(c: ArgoCluster, source: Source) {
    var owner := NamespacedName(source.namespace, source.resourceName);
    source.resourceName == "" || (c.argoCDInstalled && owner in c.resources
                                  && c.resources[owner].deletionTimestamp in {None, Some(0)})
  }

  /** A source that counts gives the groups of its ConfigMap, and those of the projects in
      its namespace if it has them enabled. */
  lemma SourceCandidatesAre(c: ArgoCluster, source: Source, g: string)
    ensures var cm := NamespacedName(source.namespace, source.configMapName);
            g in SourceCandidates(c, source)
            <==> Counts(c, source)
                 && ((cm in c.configMaps && g in ConfigMapCandidates(c.configMaps[cm]))
                     || (source.appProjectsEnabled && g in ProjectCandidates(c, source.namespace)))
  {
    hide ConfigMapCandidates, ProjectCandidates;
  }

  /** An owner that is being deleted takes its source with it. */
  lemma DeletingOwnerGivesNothing(c: ArgoCluster, source: Source, t: int)
    requires source.resourceName != "" && NamespacedName(source.namespace, source.resourceName) in c.resources
    requires c.resources[NamespacedName(source.namespace, source.resourceName)].deletionTimestamp == Some(t) && t != 0
    ensures SourceCandidates(c, source) == {}
  {
  }

  /** A ConfigMap, a project or an owner that is being deleted might as well be gone. */
  lemma {:induction false} DeletingObjectsAreIgnored(c: ArgoCluster, sources: seq<Source>, key: NamespacedName, t: int)
    requires t != 0
    ensures key in c.configMaps && c.configMaps[key].deletionTimestamp == Some(t) ==>
              ArgoCandidates(c.(configMaps := c.configMaps - {key}), sources) == ArgoCandidates(c, sources)
    ensures key in c.appProjects && c.appProjects[key].deletionTimestamp == Some(t) ==>
              ArgoCandidates(c.(appProjects := c.appProjects - {key}), sources) == ArgoCandidates(c, sources)
    ensures key in c.resources && c.resources[key].deletionTimestamp == Some(t) ==>
              ArgoCandidates(c.(resources := c.resources - {key}), sources) == ArgoCandidates(c, sources)
  {
    hide SourceCandidates;
    if sources != [] {
      DeletingObjectsAreIgnored(c, sources[..|sources| - 1], key, t);
      DeletingForSource(c, sources[|sources| - 1], key, t);
    }
  }

  lemma DeletingForSource(c: ArgoCluster, source: Source, key: NamespacedName, t: int)
    requires t != 0
    ensures key in c.configMaps && c.configMaps[key].deletionTimestamp == Some(t) ==>
              SourceCandidates(c.(configMaps := c.configMaps - {key}), source) == SourceCandidates(c, source)
    ensures key in c.appProjects && c.appProjects[key].deletionTimestamp == Some(t) ==>
              SourceCandidates(c.(appProjects := c.appProjects - {key}), source) == SourceCandidates(c, source)
    ensures key in c.resources && c.resources[key].deletionTimestamp == Some(t) ==>
              SourceCandidates(c.(resources := c.resources - {key}), source) == SourceCandidates(c, source)
  {
    hide PolicyCandidates, ProjectCandidates;
    SameProjects(c, c.(configMaps := c.configMaps - {key}), source.namespace);
    SameProjects(c, c.(resources := c.resources - {key}), source.namespace);
    if key in c.appProjects && c.appProjects[key].deletionTimestamp == Some(t) {
      DeletingProject(c, source.namespace, key, t);
    }
  }

  lemma SameProjects(c: ArgoCluster, d: ArgoCluster, namespace: string)
    requires c.appProjects == d.appProjects && c.appProjectInstalled == d.appProjectInstalled
    ensures ProjectCandidates(c, namespace) == ProjectCandidates(d, namespace)
  {
  }

  lemma DeletingProject(c: ArgoCluster, namespace: string, key: NamespacedName, t: int)
    requires t != 0 && key in c.appProjects && c.appProjects[key].deletionTimestamp == Some(t)
    ensures ProjectCandidates(c.(appProjects := c.appProjects - {key}), namespace) == ProjectCandidates(c, namespace)
  {
    hide ProjectGroups;
    var p := c.(appProjects := c.appProjects - {key});
    assert forall k :: k in p.appProjects <==> k in c.appProjects && k != key;
  }

  // ---- watches --------------------------------------------------------------------------

  predicate ConfigMapWatched(sources: seq<Source>, key: NamespacedName) {
    exists s | s in sources :: key.namespace == s.namespace && key.name == s.configMapName
  }

  predicate AppProjectWatched(sources: seq<Source>, key: NamespacedName) {
    exists s | s in sources :: s.appProjectsEnabled && key.namespace == s.namespace
  }

  predicate ResourceWatched(sources: seq<Source>, key: NamespacedName) {
    exists s | s in sources :: s.resourceName != "" && key.namespace == s.namespace && key.name == s.resourceName
  }

  ghost predicate SameAt<T>(a: map<NamespacedName, T>, b: map<NamespacedName, T>, key: NamespacedName) {
    (key in a <==> key in b) && (key in a ==> a[key] == b[key])
  }

  /** Two clusters between which no event passes the predicates of a reconciler that was
      set up when the resource types installed were those of `setup`: the ArgoCD and
      AppProject watches exist only if their type was installed then. */
  ghost predicate NoEventBetween(setup: ArgoCluster, sources: seq<Source>, a: ArgoCluster, b: ArgoCluster) {
    && (forall key :: ConfigMapWatched(sources, key) ==> SameAt(a.configMaps, b.configMaps, key))
    && (setup.appProjectInstalled ==>
          forall key :: AppProjectWatched(sources, key) ==> SameAt(a.appProjects, b.appProjects, key))
    && (setup.argoCDInstalled ==> forall key :: ResourceWatched(sources, key) ==> SameAt(a.resources, b.resources, key))
  }

  /** A resource type that is installed in either cluster was already installed at setup. */
  ghost predicate TypesKnown(setup: ArgoCluster, a: ArgoCluster, b: ArgoCluster) {
    && a.argoCDInstalled == b.argoCDInstalled && (a.argoCDInstalled ==> setup.argoCDInstalled)
    && a.appProjectInstalled == b.appProjectInstalled && (a.appProjectInstalled ==> setup.appProjectInstalled)
  }

  lemma SourceCovered(setup: ArgoCluster, sources: seq<Source>, a: ArgoCluster, b: ArgoCluster, s: Source)
    requires NoEventBetween(setup, sources, a, b) && TypesKnown(setup, a, b) && s in sources
    ensures SourceCandidates(a, s) == SourceCandidates(b, s)
  {
    hide ConfigMapCandidates, ProjectGroups;
    assert ConfigMapWatched(sources, s.ConfigMapKey());
    assert SameAt(a.configMaps, b.configMaps, s.ConfigMapKey());
    if s.resourceName != "" && a.argoCDInstalled {
      assert ResourceWatched(sources, s.ResourceKey());
      assert SameAt(a.resources, b.resources, s.ResourceKey());
    }
    assert OwnerLive(a, s) <==> OwnerLive(b, s);
    if s.appProjectsEnabled && a.appProjectInstalled {
      forall key: NamespacedName | key.namespace == s.namespace ensures SameAt(a.appProjects, b.appProjects, key) {
        assert AppProjectWatched(sources, key);
      }
      ProjectsCovered(a, b, s.namespace);
    }
  }

  lemma ProjectsCovered(a: ArgoCluster, b: ArgoCluster, namespace: string)
    requires a.appProjectInstalled && b.appProjectInstalled
    requires forall key: NamespacedName :: key.namespace == namespace ==> SameAt(a.appProjects, b.appProjects, key)
    ensures ProjectCandidates(a, namespace) == ProjectCandidates(b, namespace)
  {
  }

  /** Watch coverage: whatever the sources, if no event passes the predicates then nothing
      the desired set is built from has changed. */
  lemma {:induction false} WatchesCoverReads(setup: ArgoCluster, sources: seq<Source>, all: seq<Source>,
                                             a: ArgoCluster, b: ArgoCluster)
    requires NoEventBetween(setup, all, a, b) && TypesKnown(setup, a, b) && forall s :: s in sources ==> s in all
    ensures ArgoCandidates(a, sources) == ArgoCandidates(b, sources)
  {
    hide NoEventBetween, SourceCandidates;
    if sources != [] {
      WatchesCoverReads(setup, sources[..|sources| - 1], all, a, b);
      SourceCovered(setup, all, a, b, sources[|sources| - 1]);
    }
  }

  const SAMPLE := "aaaaaaaa-aaaa-aaaa-aaaa-aaaaaaaaaaaa"

  /** A ConfigMap whose policy grants a role to one group. */
  function PolicyFor(group: string): ConfigMap {
    ConfigMap(map["policy.csv" := [Record(["g", group, "role:admin"])]], None)
  }

  lemma PolicyForHas(group: string)
    requires IsValidAzureUuid(group)
    ensures ConfigMapCandidates(PolicyFor(group)) == {group}
  {
    var cm := PolicyFor(group);
    var line := Record(["g", group, "role:admin"]);
    UuidIsTrimmed(group);
    assert TrimSpace("g") == "g";
    assert [line][..0] == [];
    assert PolicyGroups([line]) == [group];
    assert group in PolicyGroups(cm.data["policy.csv"]);
  }

  lemma UuidIsTrimmed(group: string)
    requires IsValidAzureUuid(group)
    ensures TrimSpace(group) == group
  {
  }

  // ---- the watches are not wider than they need be -------------------------------------

  /** Only the ConfigMap (or AppProject) at `key` differs. */
  ghost predicate DifferOnlyInConfigMap(a: ArgoCluster, b: ArgoCluster, key: NamespacedName) {
    b == a.(configMaps := b.configMaps) && forall k :: k != key ==> SameAt(a.configMaps, b.configMaps, k)
  }

  ghost predicate DifferOnlyInAppProject(a: ArgoCluster, b: ArgoCluster, key: NamespacedName) {
    b == a.(appProjects := b.appProjects) && forall k :: k != key ==> SameAt(a.appProjects, b.appProjects, k)
  }

  /** Every owner resource is live and there is nothing else. */
  function OnlyOwners(sources: seq<Source>): ArgoCluster {
    var owners := set s | s in sources :: s.ResourceKey();
    ArgoCluster(true, true, map k | k in owners :: Resource(None), map[], map[])
  }

  /** The ConfigMap predicate accepts exactly the objects whose change can matter. */
  lemma ConfigMapWatchExact(sources: seq<Source>, key: NamespacedName)
    ensures ConfigMapWatched(sources, key)
            <==> exists a, b ::
                   DifferOnlyInConfigMap(a, b, key) && ArgoCandidates(a, sources) != ArgoCandidates(b, sources)
  {
    hide ConfigMapCandidates, SourceCandidates;
    if ConfigMapWatched(sources, key) {
      var s :| s in sources && key.namespace == s.namespace && key.name == s.configMapName;
      var a := OnlyOwners(sources);
      var b := a.(configMaps := map[key := PolicyFor(SAMPLE)]);
      assert DifferOnlyInConfigMap(a, b, key);
      OwnedSource(sources, s, b, key);
      CandidatesAre(a, sources);
      CandidatesAre(b, sources);
      assert SAMPLE in ArgoCandidates(b, sources);
      assert SAMPLE !in ArgoCandidates(a, sources) by {
        forall s' | s' in sources ensures SourceCandidates(a, s') == {} { EmptySource(sources, s'); }
      }
    } else {
      forall a, b | DifferOnlyInConfigMap(a, b, key) ensures ArgoCandidates(a, sources) == ArgoCandidates(b, sources) {
        WatchesCoverReads(a, sources, sources, a, b);
      }
    }
  }

  lemma OwnedSource(sources: seq<Source>, s: Source, c: ArgoCluster, key: NamespacedName)
    requires s in sources && key == s.ConfigMapKey()
    requires c == OnlyOwners(sources).(configMaps := map[key := PolicyFor(SAMPLE)])
    ensures SAMPLE in SourceCandidates(c, s)
  {
    hide ConfigMapCandidates, ProjectCandidates;
    PolicyForHas(SAMPLE);
    assert s.ResourceKey() in c.resources;
  }

  lemma EmptySource(sources: seq<Source>, s: Source)
    ensures SourceCandidates(OnlyOwners(sources), s) == {}
  {
  }

  /** The AppProject predicate accepts exactly the objects whose change can matter. */
  lemma AppProjectWatchExact(sources: seq<Source>, key: NamespacedName)
    ensures AppProjectWatched(sources, key)
            <==> exists a, b ::
                   DifferOnlyInAppProject(a, b, key) && ArgoCandidates(a, sources) != ArgoCandidates(b, sources)
  {
    hide ConfigMapCandidates, SourceCandidates, ProjectGroups;
    if AppProjectWatched(sources, key) {
      var s :| s in sources && s.appProjectsEnabled && key.namespace == s.namespace;
      var a := OnlyOwners(sources);
      var b := a.(appProjects := map[key := ProjectFor(SAMPLE)]);
      assert DifferOnlyInAppProject(a, b, key);
      ProjectSource(sources, s, b, key);
      CandidatesAre(a, sources);
      CandidatesAre(b, sources);
      assert SAMPLE in ArgoCandidates(b, sources);
      assert SAMPLE !in ArgoCandidates(a, sources) by {
        forall s' | s' in sources ensures SourceCandidates(a, s') == {} { EmptySource(sources, s'); }
      }
    } else {
      forall a, b | DifferOnlyInAppProject(a, b, key) ensures ArgoCandidates(a, sources) == ArgoCandidates(b, sources) {
        if a.appProjectInstalled || b.appProjectInstalled { assert a.appProjectInstalled; }
        var setup := a;
        assert NoEventBetween(setup, sources, a, b);
        WatchesCoverReads(setup, sources, sources, a, b);
      }
    }
  }

  function ProjectFor(group: string): AppProject {
    AppProject(RoleList([RoleObject(GroupList([group]))]), None)
  }

  lemma ProjectSource(sources: seq<Source>, s: Source, c: ArgoCluster, key: NamespacedName)
    requires s in sources && s.appProjectsEnabled && key.namespace == s.namespace
    requires c == OnlyOwners(sources).(appProjects := map[key := ProjectFor(SAMPLE)])
    ensures SAMPLE in SourceCandidates(c, s)
  {
    hide ConfigMapCandidates, ProjectGroups;
    ProjectForHas(SAMPLE);
    assert SAMPLE in ProjectGroups(c.appProjects[key]);
    assert s.ResourceKey() in c.resources;
  }

  lemma ProjectForHas(group: string)
    requires IsValidAzureUuid(group)
    ensures ProjectGroups(ProjectFor(group)) == [group]
  {
    var role := RoleObject(GroupList([group]));
    assert [role][..0] == [] && [group][..0] == [];
    assert Uuids([group]) == [group];
    assert RoleGroups(role) == [group];
    assert RolesGroups([role]) == [group];
  }

  // ---- resource types installed late --------------------------------------------------------

  /** Objects exist only if their type is installed. */
  predicate Typed(c: ArgoCluster) {
    (!c.argoCDInstalled ==> c.resources == map[]) && (!c.appProjectInstalled ==> c.appProjects == map[])
  }

  /** No type has been uninstalled from the one cluster to the next. */
  predicate NoTypeLost(a: ArgoCluster, b: ArgoCluster) {
    (a.argoCDInstalled ==> b.argoCDInstalled) && (a.appProjectInstalled ==> b.appProjectInstalled)
  }

  /** A later change that no watch notices. */
  ghost predicate Unnoticed(setup: ArgoCluster, sources: seq<Source>, a: ArgoCluster, b: ArgoCluster) {
    Typed(a) && Typed(b) && NoTypeLost(setup, a) && NoTypeLost(a, b) && NoEventBetween(setup, sources, a, b)
  }

  /** The watches set up at `setup` notice every later change of the candidates. */
  ghost predicate Covered(setup: ArgoCluster, sources: seq<Source>) {
    forall a, b :: Unnoticed(setup, sources, a, b) ==> ArgoCandidates(a, sources) == ArgoCandidates(b, sources)
  }

  /** A source without an owner resource reads this ConfigMap. */
  predicate ReadWithoutOwner(sources: seq<Source>, key: NamespacedName) {
    exists s | s in sources :: s.resourceName == "" && s.ConfigMapKey() == key
  }

  /** A source without an owner resource reads the projects of this namespace. */
  predicate ProjectsWithoutOwner(sources: seq<Source>, namespace: string) {
    exists s | s in sources :: s.resourceName == "" && s.appProjectsEnabled && s.namespace == namespace
  }

  /** Whatever this source reads, it does not depend on its owner whether it counts. */
  predicate OwnerIrrelevant(sources: seq<Source>, s: Source) {
    s.resourceName == "" || (ReadWithoutOwner(sources, s.ConfigMapKey())
                             && (s.appProjectsEnabled ==> ProjectsWithoutOwner(sources, s.namespace)))
  }

  predicate LateTypesHarmless(setup: ArgoCluster, sources: seq<Source>) {
    && (setup.appProjectInstalled || forall s | s in sources :: !s.appProjectsEnabled)
    && (setup.argoCDInstalled || forall s | s in sources :: OwnerIrrelevant(sources, s))
  }

  /** What a source finds in its ConfigMap and its projects, whether or not its owner lives. */
  function Readings(c: ArgoCluster, s: Source): set<string> {
    (if s.ConfigMapKey() in c.configMaps then ConfigMapCandidates(c.configMaps[s.ConfigMapKey()]) else {})
    + (if s.appProjectsEnabled then ProjectCandidates(c, s.namespace) else {})
  }

  lemma SameReadings(setup: ArgoCluster, sources: seq<Source>, a: ArgoCluster, b: ArgoCluster, s: Source)
    requires NoEventBetween(setup, sources, a, b) && s in sources && NoTypeLost(setup, a) && NoTypeLost(a, b)
    requires s.appProjectsEnabled ==> setup.appProjectInstalled
    ensures Readings(a, s) == Readings(b, s)
  {
    hide ConfigMapCandidates, ProjectGroups;
    assert ConfigMapWatched(sources, s.ConfigMapKey());
    assert SameAt(a.configMaps, b.configMaps, s.ConfigMapKey());
    if s.appProjectsEnabled {
      forall key: NamespacedName | key.namespace == s.namespace ensures SameAt(a.appProjects, b.appProjects, key) {
        assert AppProjectWatched(sources, key);
      }
      ProjectsCovered(a, b, s.namespace);
    }
  }

  /** A reading that counts in one cluster counts in the other, through this source or
      through one without an owner. */
  lemma ReadingKept(setup: ArgoCluster, sources: seq<Source>, a: ArgoCluster, b: ArgoCluster, s: Source, g: string)
    requires LateTypesHarmless(setup, sources) && s in sources && g in SourceCandidates(a, s)
    requires NoEventBetween(setup, sources, a, b) || NoEventBetween(setup, sources, b, a)
    requires forall x :: x in sources ==> Readings(a, x) == Readings(b, x)
    requires setup.argoCDInstalled ==> a.argoCDInstalled && b.argoCDInstalled
    ensures exists x :: x in sources && g in SourceCandidates(b, x)
  {
    hide ConfigMapCandidates, ProjectCandidates;
    assert g in Readings(a, s) && Readings(a, s) == Readings(b, s);
    if s.resourceName == "" {
      assert g in SourceCandidates(b, s);
    } else if setup.argoCDInstalled {
      assert ResourceWatched(sources, s.ResourceKey());
      assert SameAt(a.resources, b.resources, s.ResourceKey()) || SameAt(b.resources, a.resources, s.ResourceKey());
      assert g in SourceCandidates(b, s);
    } else {
      assert OwnerIrrelevant(sources, s);
      var x :| x in sources && x.resourceName == "" && x.ConfigMapKey() == s.ConfigMapKey();
      if g !in SourceCandidates(b, x) {
        assert s.appProjectsEnabled;
        var y :| y in sources && y.resourceName == "" && y.appProjectsEnabled && y.namespace == s.namespace;
        assert g in SourceCandidates(b, y);
      }
    }
  }

  lemma HarmlessCovers(setup: ArgoCluster, sources: seq<Source>, a: ArgoCluster, b: ArgoCluster)
    requires LateTypesHarmless(setup, sources) && NoEventBetween(setup, sources, a, b)
    requires NoTypeLost(setup, a) && NoTypeLost(a, b)
    ensures ArgoCandidates(a, sources) == ArgoCandidates(b, sources)
  {
    hide SourceCandidates, NoEventBetween, Readings, ArgoCandidates, OwnerIrrelevant;
    CandidatesAre(a, sources);
    CandidatesAre(b, sources);
    forall s | s in sources ensures Readings(a, s) == Readings(b, s) { SameReadings(setup, sources, a, b, s); }
    forall g ensures g in ArgoCandidates(a, sources) <==> g in ArgoCandidates(b, sources) {
      if s :| s in sources && g in SourceCandidates(a, s) { ReadingKept(setup, sources, a, b, s, g); }
      if s :| s in sources && g in SourceCandidates(b, s) { ReadingKept(setup, sources, b, a, s, g); }
    }
  }

  /** No owner resource exists, and the ArgoCD type is not installed. */
  function WithoutOwners(c: ArgoCluster): ArgoCluster {
    c.(argoCDInstalled := false, resources := map[])
  }

  /** From no candidates to some, and no watch notices. */
  ghost predicate LateChange(setup: ArgoCluster, sources: seq<Source>, a: ArgoCluster, b: ArgoCluster) {
    Unnoticed(setup, sources, a, b) && ArgoCandidates(a, sources) == {} && SAMPLE in ArgoCandidates(b, sources)
  }

  /** The AppProject type arrives unwatched, with a project. */
  lemma LateProject(setup: ArgoCluster, sources: seq<Source>, s: Source)
    returns (a: ArgoCluster, b: ArgoCluster)
    requires !setup.appProjectInstalled && s in sources && s.appProjectsEnabled
    ensures LateChange(setup, sources, a, b)
  {
    hide ConfigMapCandidates, SourceCandidates, ProjectGroups, ArgoCandidates;
    var key := NamespacedName(s.namespace, "project");
    a := OnlyOwners(sources).(appProjectInstalled := false);
    b := OnlyOwners(sources).(appProjects := map[key := ProjectFor(SAMPLE)]);
    ProjectSource(sources, s, b, key);
    CandidatesAre(a, sources);
    CandidatesAre(b, sources);
    forall x | x in sources ensures SourceCandidates(a, x) == {} { NoProjects(sources, x); }
    assert SAMPLE in ArgoCandidates(b, sources) && ArgoCandidates(a, sources) == {};
  }

  lemma NoProjects(sources: seq<Source>, s: Source)
    ensures SourceCandidates(OnlyOwners(sources).(appProjectInstalled := false), s) == {}
  {
  }

  /** The ArgoCD type arrives unwatched, with the owner of a source whose ConfigMap no source
      without an owner reads. */
  lemma LateOwnerOfConfigMap(setup: ArgoCluster, sources: seq<Source>, s: Source)
    returns (a: ArgoCluster, b: ArgoCluster)
    requires !setup.argoCDInstalled && s in sources && s.resourceName != ""
    requires !ReadWithoutOwner(sources, s.ConfigMapKey())
    ensures LateChange(setup, sources, a, b)
  {
    hide ConfigMapCandidates, SourceCandidates, ArgoCandidates;
    var key := s.ConfigMapKey();
    b := OnlyOwners(sources).(configMaps := map[key := PolicyFor(SAMPLE)]);
    a := WithoutOwners(b);
    OwnedSource(sources, s, b, key);
    CandidatesAre(a, sources);
    CandidatesAre(b, sources);
    forall x | x in sources ensures SourceCandidates(a, x) == {} {
      assert x.resourceName == "" ==> x.ConfigMapKey() != key;
      UnreadConfigMap(sources, x, key);
    }
    assert SAMPLE in ArgoCandidates(b, sources) && ArgoCandidates(a, sources) == {};
  }

  lemma UnreadConfigMap(sources: seq<Source>, x: Source, key: NamespacedName)
    requires x.resourceName == "" ==> x.ConfigMapKey() != key
    ensures var c := OnlyOwners(sources).(configMaps := map[key := PolicyFor(SAMPLE)]);
            SourceCandidates(WithoutOwners(c), x) == {}
  {
    hide ConfigMapCandidates;
  }

  /** The same for its projects. */
  lemma LateOwnerOfProjects(setup: ArgoCluster, sources: seq<Source>, s: Source)
    returns (a: ArgoCluster, b: ArgoCluster)
    requires !setup.argoCDInstalled && s in sources && s.resourceName != "" && s.appProjectsEnabled
    requires !ProjectsWithoutOwner(sources, s.namespace)
    ensures LateChange(setup, sources, a, b)
  {
    hide ConfigMapCandidates, SourceCandidates, ArgoCandidates, ProjectGroups;
    var key := NamespacedName(s.namespace, "project");
    b := OnlyOwners(sources).(appProjects := map[key := ProjectFor(SAMPLE)]);
    a := WithoutOwners(b);
    ProjectSource(sources, s, b, key);
    CandidatesAre(a, sources);
    CandidatesAre(b, sources);
    forall x | x in sources ensures SourceCandidates(a, x) == {} {
      assert x.resourceName == "" && x.appProjectsEnabled ==> x.namespace != s.namespace;
      UnreadProject(sources, x, key);
    }
    assert SAMPLE in ArgoCandidates(b, sources) && ArgoCandidates(a, sources) == {};
  }

  lemma UnreadProject(sources: seq<Source>, x: Source, key: NamespacedName)
    requires x.resourceName == "" && x.appProjectsEnabled ==> x.namespace != key.namespace
    ensures var c := OnlyOwners(sources).(appProjects := map[key := ProjectFor(SAMPLE)]);
            SourceCandidates(WithoutOwners(c), x) == {}
  {
    hide ConfigMapCandidates, ProjectGroups;
  }

  lemma HarmfulChange(setup: ArgoCluster, sources: seq<Source>) returns (a: ArgoCluster, b: ArgoCluster)
    requires !LateTypesHarmless(setup, sources)
    ensures LateChange(setup, sources, a, b)
  {
    hide LateChange;
    if !setup.appProjectInstalled && exists s :: s in sources && s.appProjectsEnabled {
      var s :| s in sources && s.appProjectsEnabled;
      a, b := LateProject(setup, sources, s);
    } else {
      var s :| s in sources && !OwnerIrrelevant(sources, s);
      if !ReadWithoutOwner(sources, s.ConfigMapKey()) {
        a, b := LateOwnerOfConfigMap(setup, sources, s);
      } else {
        a, b := LateOwnerOfProjects(setup, sources, s);
      }
    }
  }

  /** Exactly when a type that is installed after setup, read but never watched, goes
      unnoticed: if projects are enabled and the AppProject type was missing at setup, or if
      the ArgoCD type was missing and some source with an owner reads what no source without
      one reads. */
  lemma CoveredIffLateTypesHarmless(setup: ArgoCluster, sources: seq<Source>)
    ensures Covered(setup, sources) <==> LateTypesHarmless(setup, sources)
  {
    hide NoEventBetween, ArgoCandidates, Typed, OwnerIrrelevant;
    if LateTypesHarmless(setup, sources) {
      forall a, b | Unnoticed(setup, sources, a, b)
        ensures ArgoCandidates(a, sources) == ArgoCandidates(b, sources)
      {
        HarmlessCovers(setup, sources, a, b);
      }
    } else {
      var a, b := HarmfulChange(setup, sources);
    }
  }

  // ---- what the ArgoCD watch need not accept -------------------------------------------------

  ghost predicate DifferOnlyInResource(a: ArgoCluster, b: ArgoCluster, key: NamespacedName) {
    b == a.(resources := b.resources) && forall k :: k != key ==> SameAt(a.resources, b.resources, k)
  }

  /** The resource owns a source, and not everything that source reads is also read by a
      source without an owner. */
  predicate OwnerMatters(sources: seq<Source>, key: NamespacedName) {
    exists s | s in sources :: s.resourceName != "" && s.ResourceKey() == key && !OwnerIrrelevant(sources, s)
  }

  /** There is nothing but one ConfigMap, or one project, and perhaps one owner. */
  function OneConfigMap(key: NamespacedName, owners: map<NamespacedName, Resource>): ArgoCluster {
    ArgoCluster(true, true, owners, map[key := PolicyFor(SAMPLE)], map[])
  }

  function OneProject(key: NamespacedName, owners: map<NamespacedName, Resource>): ArgoCluster {
    ArgoCluster(true, true, owners, map[], map[key := ProjectFor(SAMPLE)])
  }

  lemma ConfigMapNeedsOwner(sources: seq<Source>, s: Source)
    requires s in sources && s.resourceName != "" && !ReadWithoutOwner(sources, s.ConfigMapKey())
    ensures SAMPLE in ArgoCandidates(OneConfigMap(s.ConfigMapKey(), map[s.ResourceKey() := Resource(None)]), sources)
    ensures SAMPLE !in ArgoCandidates(OneConfigMap(s.ConfigMapKey(), map[]), sources)
  {
    hide ConfigMapCandidates, ArgoCandidates;
    PolicyForHas(SAMPLE);
    var a := OneConfigMap(s.ConfigMapKey(), map[s.ResourceKey() := Resource(None)]);
    CandidatesAre(a, sources);
    CandidatesAre(OneConfigMap(s.ConfigMapKey(), map[]), sources);
    assert SAMPLE in SourceCandidates(a, s);
  }

  lemma ProjectsNeedOwner(sources: seq<Source>, s: Source)
    requires s in sources && s.resourceName != "" && s.appProjectsEnabled
    requires !ProjectsWithoutOwner(sources, s.namespace)
    ensures var key := NamespacedName(s.namespace, "project");
            && SAMPLE in ArgoCandidates(OneProject(key, map[s.ResourceKey() := Resource(None)]), sources)
            && SAMPLE !in ArgoCandidates(OneProject(key, map[]), sources)
  {
    hide ProjectGroups, ArgoCandidates;
    ProjectForHas(SAMPLE);
    var key := NamespacedName(s.namespace, "project");
    var a := OneProject(key, map[s.ResourceKey() := Resource(None)]);
    CandidatesAre(a, sources);
    CandidatesAre(OneProject(key, map[]), sources);
    assert SAMPLE in ProjectGroups(a.appProjects[key]);
    assert SAMPLE in SourceCandidates(a, s);
  }

  lemma OnlyOwnerDiffers(a: ArgoCluster, b: ArgoCluster, key: NamespacedName, s: Source)
    requires DifferOnlyInResource(a, b, key)
    ensures Readings(a, s) == Readings(b, s)
    ensures s.resourceName == "" || s.ResourceKey() != key ==> SourceCandidates(a, s) == SourceCandidates(b, s)
  {
    hide ConfigMapCandidates, ProjectGroups;
    assert s.ResourceKey() != key ==> SameAt(a.resources, b.resources, s.ResourceKey());
    assert ProjectCandidates(a, s.namespace) == ProjectCandidates(b, s.namespace);
  }

  /** A candidate survives any change of an owner that does not matter. */
  lemma OwnerChangeKeeps(sources: seq<Source>, a: ArgoCluster, b: ArgoCluster, key: NamespacedName, s: Source,
                         g: string)
    requires Readings(a, s) == Readings(b, s) && s in sources && g in SourceCandidates(a, s)
    requires s.resourceName == "" || s.ResourceKey() != key ==> SourceCandidates(a, s) == SourceCandidates(b, s)
    requires a.appProjectInstalled == b.appProjectInstalled && !OwnerMatters(sources, key)
    ensures exists x :: x in sources && g in SourceCandidates(b, x)
  {
    hide ConfigMapCandidates, ProjectCandidates;
    assert g in Readings(a, s);
    if s.resourceName != "" && s.ResourceKey() == key {
      assert OwnerIrrelevant(sources, s);
      var x :| x in sources && x.resourceName == "" && x.ConfigMapKey() == s.ConfigMapKey();
      if g !in SourceCandidates(b, x) {
        var y :| y in sources && y.resourceName == "" && y.appProjectsEnabled && y.namespace == s.namespace;
        assert g in SourceCandidates(b, y);
      }
    }
  }

  /** Exactly which ArgoCD resources matter: some change of this one alone changes the
      candidates if and only if it owns a source not all of whose readings are also read by a
      source without an owner. The watch accepts exactly the resources that own a source. */
  lemma ResourceWatchIff(sources: seq<Source>, key: NamespacedName)
    ensures OwnerMatters(sources, key)
            <==> exists a, b ::
                   DifferOnlyInResource(a, b, key) && ArgoCandidates(a, sources) != ArgoCandidates(b, sources)
    ensures OwnerMatters(sources, key) ==> ResourceWatched(sources, key)
    ensures ResourceWatched(sources, key) <==> key.name != "" && exists s :: s in sources && s.ResourceKey() == key
  {
    hide ArgoCandidates, SourceCandidates;
    if OwnerMatters(sources, key) {
      var s :| s in sources && s.resourceName != "" && s.ResourceKey() == key && !OwnerIrrelevant(sources, s);
      var cm, project := s.ConfigMapKey(), NamespacedName(s.namespace, "project");
      var live := map[key := Resource(None)];
      if !ReadWithoutOwner(sources, cm) {
        ConfigMapNeedsOwner(sources, s);
        assert DifferOnlyInResource(OneConfigMap(cm, live), OneConfigMap(cm, map[]), key);
      } else {
        ProjectsNeedOwner(sources, s);
        assert DifferOnlyInResource(OneProject(project, live), OneProject(project, map[]), key);
      }
    } else {
      forall a, b | DifferOnlyInResource(a, b, key) ensures ArgoCandidates(a, sources) == ArgoCandidates(b, sources) {
        OwnerChangeHarmless(sources, a, b, key);
      }
    }
  }

  lemma OwnerChangeHarmless(sources: seq<Source>, a: ArgoCluster, b: ArgoCluster, key: NamespacedName)
    requires DifferOnlyInResource(a, b, key) && !OwnerMatters(sources, key)
    ensures ArgoCandidates(a, sources) == ArgoCandidates(b, sources)
  {
    hide ArgoCandidates, SourceCandidates, OwnerMatters, Readings, SameAt;
    CandidatesAre(a, sources);
    CandidatesAre(b, sources);
    forall g ensures g in ArgoCandidates(a, sources) <==> g in ArgoCandidates(b, sources) {
      if s :| s in sources && g in SourceCandidates(a, s) {
        OnlyOwnerDiffers(a, b, key, s);
        OwnerChangeKeeps(sources, a, b, key, s, g);
      }
      if s :| s in sources && g in SourceCandidates(b, s) {
        OnlyOwnerDiffers(a, b, key, s);
        OwnerChangeKeeps(sources, b, a, key, s, g);
      }
    }
  }

  // ---- the builders ----------------------------------------------------------------------

  datatype GetResult<T> = Found(obj: T) | NotFound | NoMatch | Failed

  function InNamespace(projects: map<NamespacedName, AppProject>, namespace: string): set<AppProject> {
    set k | k in projects && k.namespace == namespace :: projects[k]
  }

  /** The Kubernetes API for Argo CD objects; any call may fail. */
  class ArgoClient {
    var cluster: ArgoCluster

    /** How many calls have failed. */
    ghost var failures: nat

    constructor (cluster: ArgoCluster)
      ensures this.cluster == cluster
    {
      this.cluster, failures := cluster, 0;
    }

    method GetResource(key: NamespacedName) returns (r: GetResult<Resource>)
      modifies this`failures
      ensures failures == old(failures) + if r.Failed? then 1 else 0
      ensures r.Found? ==> cluster.argoCDInstalled && key in cluster.resources && r.obj == cluster.resources[key]
      ensures r.NotFound? ==> key !in cluster.resources
      ensures r.NoMatch? ==> !cluster.argoCDInstalled
    {
      r := Failed;
      if * {
        r := if !cluster.argoCDInstalled then NoMatch
             else if key in cluster.resources then Found(cluster.resources[key]) else NotFound;
      }
      failures := failures + if r.Failed? then 1 else 0;
    }

    method GetConfigMap(key: NamespacedName) returns (r: GetResult<ConfigMap>)
      modifies this`failures
      ensures !r.NoMatch? && failures == old(failures) + if r.Failed? then 1 else 0
      ensures r.Found? ==> key in cluster.configMaps && r.obj == cluster.configMaps[key]
      ensures r.NotFound? ==> key !in cluster.configMaps
    {
      r := Failed;
      if * {
        r := if key in cluster.configMaps then Found(cluster.configMaps[key]) else NotFound;
      }
      failures := failures + if r.Failed? then 1 else 0;
    }

    /** The projects of one namespace; None is an error other than an unknown type. */
    method ListAppProjects(namespace: string) returns (ok: bool, items: set<AppProject>)
      modifies this`failures
      ensures failures == old(failures) + if ok then 0 else 1
      ensures ok ==> items == if !cluster.appProjectInstalled then {}
                              else InNamespace(cluster.appProjects, namespace)
    {
      ok := *;
      failures := failures + if ok then 0 else 1;
      items := if !cluster.appProjectInstalled then {}
               else InNamespace(cluster.appProjects, namespace);
    }
  }

  class ArgoCDReconciler {
    const state: SR.StateReconciler
    const client: ArgoClient
    const sources: seq<Source>

    constructor (state: SR.StateReconciler, client: ArgoClient, sources: seq<Source>)
      ensures this.state == state && this.client == client && this.sources == sources
    {
      this.state, this.client, this.sources := state, client, sources;
    }

    /** The ConfigMap loop of buildArgoCDSourceDesiredGroupIDs. */
    method AddPolicies(found: set<string>, cm: ConfigMap) returns (candidates: set<string>)
      requires IsZero(cm.deletionTimestamp)
      ensures candidates == found + ConfigMapCandidates(cm)
    {
      hide IsPolicyKey, PolicyGroups;
      candidates := found;
      var todo := cm.data.Keys;
      while todo != {}
        invariant todo <= cm.data.Keys
        invariant candidates == found + PolicyCandidates(cm.data, cm.data.Keys - todo)
      {
        var key :| key in todo;
        todo := todo - {key};
        if !IsPolicyKey(key) {
          continue;
        }
        var groups := ExtractGroupsFromPolicy(cm.data[key]);
        candidates := candidates + Elements(groups);
      }
      assert cm.data.Keys - {} == cm.data.Keys;
    }

    /** buildAppProjectCandidateGroupIDs. */
    method BuildAppProjectCandidateGroupIDs(namespace: string) returns (groups: Option<set<string>>)
      modifies client`failures
      ensures client.failures == old(client.failures) + if groups.None? then 1 else 0
      ensures groups.Some? ==> groups.value == ProjectCandidates(client.cluster, namespace)
    {
      hide ProjectGroups;
      var ok, items := client.ListAppProjects(namespace);
      if !ok {
        return None;
      }
      var found: set<string> := {};
      var todo := items;
      while todo != {}
        invariant todo <= items && client.failures == old(client.failures)
        invariant found == set p, g | p in items - todo && IsZero(p.deletionTimestamp) && g in ProjectGroups(p) :: g
      {
        var project :| project in todo;
        todo := todo - {project};
        if !IsZero(project.deletionTimestamp) {
          continue;
        }
        var names := ExtractGroupsFromAppProject(project);
        found := found + Elements(names);
      }
      ListedProjects(client.cluster, namespace, items);
      groups := Some(found);
    }

    /** The candidates of one source; None is an error return. */
    method CollectCandidates(source: Source) returns (candidates: Option<set<string>>)
      modifies client`failures
      ensures client.failures == old(client.failures) + if candidates.None? then 1 else 0
      ensures candidates.Some? ==> candidates.value == SourceCandidates(client.cluster, source)
    {
      hide ConfigMapCandidates, ProjectCandidates;
      if source.resourceName != "" {
        var resource := client.GetResource(source.ResourceKey());
        match resource {
          case NotFound => return Some({});
          case NoMatch => return Some({});
          case Failed => return None;
          case Found(obj) =>
            if !IsZero(obj.deletionTimestamp) {
              return Some({});
            }
        }
      }
      var found: set<string> := {};
      var cm := client.GetConfigMap(source.ConfigMapKey());
      if !cm.Found? {
        if !cm.NotFound? {
          return None;
        }
      } else if IsZero(cm.obj.deletionTimestamp) {
        found := AddPolicies(found, cm.obj);
      } else {
        DeletingHasNone(cm.obj);
      }
      if source.appProjectsEnabled {
        var projects := BuildAppProjectCandidateGroupIDs(source.namespace);
        if projects.None? {
          return None;
        }
        found := found + projects.value;
      }
      candidates := Some(found);
    }

    /** BuildArgoCDDesiredGroupIDs: each source is resolved on its own, and the union is
        what resolving all candidates together gives, even if a lookup that failed for one
        source succeeds for a later one. */
    method BuildDesiredGroupIDs() returns (desired: Option<set<string>>)
      modifies client`failures, state.azure`known, state.azure`asked
      ensures client.failures == old(client.failures) + if desired.None? then 1 else 0
      ensures desired.Some? ==>
        desired.value == CachedGroups(state.azure.known, ArgoCandidates(client.cluster, sources))
      ensures desired.Some? ==>
        forall g :: g in desired.value <==>
          exists n :: n in ArgoCandidates(client.cluster, sources) && n in state.azure.known
                      && state.azure.known[n] == Some(g)
      ensures desired.Some? ==> ArgoCandidates(client.cluster, sources) <= state.azure.asked
    {
      hide SourceCandidates;
      var groups: set<string> := {};
      assert sources[..0] == [];
      for i := 0 to |sources|
        invariant client.failures == old(client.failures)
        invariant groups == CachedGroups(state.azure.known, ArgoCandidates(client.cluster, sources[..i]))
        invariant ArgoCandidates(client.cluster, sources[..i]) <= state.azure.asked
      {
        assert sources[..i + 1][..i] == sources[..i];
        var candidates := CollectCandidates(sources[i]);
        if candidates.None? {
          return None;
        }
        ghost var before := state.azure.known;
        var resolved := state.ResolveCandidateGroupIDs(candidates.value);
        ResolvedUnion(before, state.azure.known, ArgoCandidates(client.cluster, sources[..i]), candidates.value);
        groups := groups + resolved;
      }
      assert sources[..|sources|] == sources;
      SR.CachedGroupsAre(state.azure.known, ArgoCandidates(client.cluster, sources));
      desired := Some(groups);
    }

    /** Reconcile: the shared convergence pass, with this builder for its desired set. An
        error is exactly one failed read and leaves every assignment alone. */
    method Reconcile() returns (report: Option<SR.Stats>, ghost desired: set<string>)
      requires !state.mu
      modifies client`failures, state`mu, state.azure
      ensures !state.mu
      ensures client.failures + state.azure.failures
           == old(client.failures) + old(state.azure.failures) + if report.None? then 1 else 0
      ensures report.None? ==> state.azure.table == old(state.azure.table)
      ensures report.Some? ==> var candidates := ArgoCandidates(client.cluster, sources);
                               desired == CachedGroups(state.azure.known, candidates) && candidates <= state.azure.asked
      ensures report.Some? ==>
        SR.Converged(old(state.azure.table), desired, state.azure.made, state.azure.table, report.value)
    {
      hide SR.Converged, ArgoCandidates;
      report, desired := None, {};
      state.mu := true;
      var groups := BuildDesiredGroupIDs();
      if groups.None? {
        state.mu := false;
        return;
      }
      desired := groups.value;
      report := state.Converge(groups.value);
      state.mu := false;
    }
  }

  lemma DeletingHasNone(cm: ConfigMap)
    requires !IsZero(cm.deletionTimestamp)
    ensures ConfigMapCandidates(cm) == {}
  {
  }

  lemma ListedProjects(c: ArgoCluster, namespace: string, items: set<AppProject>)
    requires items == if !c.appProjectInstalled then {}
                      else InNamespace(c.appProjects, namespace)
    ensures ProjectCandidates(c, namespace)
         == set p, g | p in items && IsZero(p.deletionTimestamp) && g in ProjectGroups(p) :: g
  {
  }

  /** Resolving more spellings only adds what they stand for. */
  lemma ResolvedUnion(before: map<string, Option<string>>, after: map<string, Option<string>>, earlier: set<string>,
                      more: set<string>)
    requires before.Keys <= after.Keys <= before.Keys + more
    requires forall c :: c in before ==> after[c] == before[c]
    ensures CachedGroups(before, earlier) + CachedGroups(after, more) == CachedGroups(after, earlier + more)
  {
  }
}
