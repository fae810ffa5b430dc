/** One Argo CD reconciler as a transition system: a work item that watched changes queue,
    a pass that reads its sources object by object while the cluster goes on changing, and
    a convergence step on service principals that are its own. */
module ArgoSystem {
  import opened Wrappers
  import opened GoStrings
  import opened Bindings
  import opened ConvergencePass
  import opened ReconcileSystem
  import opened ArgoCD

  /** The cluster when the watches were set up, what is watched, and what is written to. */
  datatype Setup = Setup(cluster: ArgoCluster, sources: seq<Source>, servicePrincipals: set<string>,
                         directory: map<string, Option<string>>)

  /** What a pass has read of one source: whether its owner lets it count, and if so the
      candidates it found. */
  datatype Reading = Reading(live: bool, found: set<string>)

  /** Where the reconciler is. `done` are the sources read so far; then the owner, the
      ConfigMap and the projects of the next one are read, one call each. */
  datatype Stage =
    | Ready
    | AtOwner(done: seq<Reading>)
    | AtConfigMap(done: seq<Reading>)
    | AtProjects(done: seq<Reading>, found: set<string>)
    | AtLookups(done: seq<Reading>)
    | AtAzure(desired: set<string>, allResolved: bool)
  {
    predicate HasRead() { AtOwner? || AtConfigMap? || AtProjects? || AtLookups? }
  }

  /** How the latest pass ended; it was clean if no write failed and every group the
      directory holds was found. */
  datatype Outcome = NoPass | Erred | Completed(clean: bool)

  /** `known` are the spellings whose lookup has succeeded, which never fails again. */
  datatype ArgoState = ArgoState(cluster: ArgoCluster, dirty: bool, stage: Stage, known: set<string>,
                                 table: Table, last: Outcome)

  datatype ArgoAction =
    | Change(to: ArgoCluster)
    | Requeue
    | Start
    | ReadOwner(ok: bool)
    | ReadConfigMap(ok: bool)
    | ReadProjects(ok: bool)
    | LookUp(missed: set<string>)
    | Converge(ok: bool, failed: set<Write>)

  predicate ArgoInit(u: Setup, s: ArgoState) {
    && s.cluster == u.cluster && Typed(s.cluster) && s.dirty && s.stage == Ready && s.known == {} && s.last == NoPass
    && s.table.Keys == u.servicePrincipals
  }

  function Found(done: seq<Reading>): set<string> {
    set r, g | r in done && r.live && g in r.found :: g
  }

  ghost predicate ArgoEnabled(u: Setup, s: ArgoState, a: ArgoAction) {
    match a
    case Change(to) => Typed(to) && NoTypeLost(s.cluster, to)
    case Requeue => true
    case Start => s.dirty && s.stage == Ready
    case ReadOwner(_) => s.stage.AtOwner? && |s.stage.done| < |u.sources|
    case ReadConfigMap(_) => s.stage.AtConfigMap? && |s.stage.done| < |u.sources|
    case ReadProjects(_) => s.stage.AtProjects? && |s.stage.done| < |u.sources|
    case LookUp(missed) => s.stage.AtLookups? && missed <= Found(s.stage.done) - s.known
    case Converge(_, _) => s.stage.AtAzure?
  }

  /** The next source, or the lookups if there is none. */
  function Next(u: Setup, done: seq<Reading>): Stage {
    if |done| < |u.sources| then AtOwner(done) else AtLookups(done)
  }

  function ConfigMapReading(c: ArgoCluster, source: Source): set<string> {
    if source.ConfigMapKey() in c.configMaps then ConfigMapCandidates(c.configMaps[source.ConfigMapKey()]) else {}
  }

  /** An error return: the queue takes the work item back. */
  function Failed(s: ArgoState): ArgoState {
    s.(stage := Ready, dirty := true, last := Erred)
  }

  ghost function ArgoApply(u: Setup, s: ArgoState, a: ArgoAction): ArgoState
    requires ArgoEnabled(u, s, a)
  {
    match a
    case Change(to) => s.(cluster := to, dirty := s.dirty || !NoEventBetween(u.cluster, u.sources, s.cluster, to))
    case Requeue => s.(dirty := true)
    case Start => s.(dirty := false, stage := Next(u, []))
    case ReadOwner(ok) =>
      var source := u.sources[|s.stage.done|];
      if !ok then Failed(s)
      else if OwnerLive(s.cluster, source) then s.(stage := AtConfigMap(s.stage.done))
      else s.(stage := Next(u, s.stage.done + [Reading(false, {})]))
    case ReadConfigMap(ok) =>
      var source := u.sources[|s.stage.done|];
      var found := ConfigMapReading(s.cluster, source);
      if !ok then Failed(s)
      else if source.appProjectsEnabled then s.(stage := AtProjects(s.stage.done, found))
      else s.(stage := Next(u, s.stage.done + [Reading(true, found)]))
    case ReadProjects(ok) =>
      var found := s.stage.found + ProjectCandidates(s.cluster, u.sources[|s.stage.done|].namespace);
      if !ok then Failed(s) else s.(stage := Next(u, s.stage.done + [Reading(true, found)]))
    case LookUp(missed) =>
      var spellings := set c | c in Found(s.stage.done) - missed && ToLower(c) in u.directory;
      var resolved := forall c :: c in missed ==> ToLower(c) !in u.directory;
      s.(stage := AtAzure(DirectoryGroups(u.directory, Lowered(spellings)), resolved), known := s.known + spellings)
    case Converge(ok, failed) =>
      var desired := s.stage.desired;
      if !ok then Failed(s)
      else s.(stage := Ready, table := PassResult(s.table, desired, failed),
              last := Completed(s.stage.allResolved && failed * PassWrites(s.table, desired) == {}))
  }

  ghost predicate IsArgoRun(u: Setup, s: ArgoState, actions: seq<ArgoAction>)
    decreases |actions|
  {
    actions == [] || (ArgoEnabled(u, s, actions[0]) && IsArgoRun(u, ArgoApply(u, s, actions[0]), actions[1..]))
  }

  ghost function ArgoExec(u: Setup, s: ArgoState, actions: seq<ArgoAction>): ArgoState
    requires IsArgoRun(u, s, actions)
    decreases |actions|
  {
    if actions == [] then s else ArgoExec(u, ArgoApply(u, s, actions[0]), actions[1..])
  }

  // ---- the invariant ----------------------------------------------------------------------------

  /** A change of this owner raises an event, or there is no owner. */
  predicate OwnerWatched(u: Setup, source: Source) {
    source.resourceName == "" || u.cluster.argoCDInstalled
  }

  /** What was read of a source is what the cluster holds now, but for an owner nobody watches. */
  ghost predicate Current(u: Setup, c: ArgoCluster, source: Source, r: Reading) {
    (OwnerWatched(u, source) ==> r.live == OwnerLive(c, source)) && (r.live ==> r.found == Readings(c, source))
  }

  ghost predicate AllCurrent(u: Setup, c: ArgoCluster, done: seq<Reading>) {
    |done| <= |u.sources| && forall i :: 0 <= i < |done| ==> Current(u, c, u.sources[i], done[i])
  }

  ghost predicate OwnerStillLive(u: Setup, c: ArgoCluster, n: nat) {
    n < |u.sources| && (OwnerWatched(u, u.sources[n]) ==> OwnerLive(c, u.sources[n]))
  }

  function Wanted(u: Setup, c: ArgoCluster): set<string> {
    DirectoryGroups(u.directory, Lowered(ArgoCandidates(c, u.sources)))
  }

  ghost predicate StageCurrent(u: Setup, s: ArgoState) {
    match s.stage
    case Ready =>
      && s.last.Completed?
      && (s.last.clean ==> forall sp :: sp in s.table ==> s.table[sp] == Wanted(u, s.cluster))
    case AtOwner(done) => AllCurrent(u, s.cluster, done) && |done| < |u.sources|
    case AtConfigMap(done) => AllCurrent(u, s.cluster, done) && OwnerStillLive(u, s.cluster, |done|)
    case AtProjects(done, found) =>
      && AllCurrent(u, s.cluster, done) && OwnerStillLive(u, s.cluster, |done|)
      && u.sources[|done|].appProjectsEnabled && found == ConfigMapReading(s.cluster, u.sources[|done|])
    case AtLookups(done) => AllCurrent(u, s.cluster, done) && |done| == |u.sources|
    case AtAzure(desired, allResolved) => allResolved ==> desired == Wanted(u, s.cluster)
  }

  /** Unless the work item is queued, what the pass has gathered is up to date. */
  ghost predicate ArgoInv(u: Setup, s: ArgoState) {
    && Typed(s.cluster) && NoTypeLost(u.cluster, s.cluster) && s.table.Keys == u.servicePrincipals
    && (s.dirty || StageCurrent(u, s))
  }

  lemma CurrentAfter(u: Setup, a: ArgoCluster, b: ArgoCluster, source: Source, r: Reading)
    requires LateTypesHarmless(u.cluster, u.sources) && NoTypeLost(u.cluster, a) && NoTypeLost(a, b)
    requires NoEventBetween(u.cluster, u.sources, a, b) && source in u.sources && Current(u, a, source, r)
    ensures Current(u, b, source, r)
  {
    hide NoEventBetween, Readings, OwnerLive, OwnerIrrelevant;
    SameReadings(u.cluster, u.sources, a, b, source);
    OwnerAfter(u, a, b, source);
  }

  lemma OwnerAfter(u: Setup, a: ArgoCluster, b: ArgoCluster, source: Source)
    requires NoTypeLost(u.cluster, a) && NoTypeLost(a, b) && NoEventBetween(u.cluster, u.sources, a, b)
    requires source in u.sources
    ensures OwnerWatched(u, source) ==> OwnerLive(a, source) == OwnerLive(b, source)
  {
    if source.resourceName != "" && u.cluster.argoCDInstalled {
      assert ResourceWatched(u.sources, source.ResourceKey());
      assert SameAt(a.resources, b.resources, source.ResourceKey());
    }
  }

  lemma ConfigMapAfter(u: Setup, a: ArgoCluster, b: ArgoCluster, source: Source)
    requires NoEventBetween(u.cluster, u.sources, a, b) && source in u.sources
    ensures ConfigMapReading(a, source) == ConfigMapReading(b, source)
  {
    hide ConfigMapCandidates;
    assert ConfigMapWatched(u.sources, source.ConfigMapKey());
    assert SameAt(a.configMaps, b.configMaps, source.ConfigMapKey());
  }

  lemma ChangeKeepsReads(u: Setup, a: ArgoCluster, b: ArgoCluster, done: seq<Reading>)
    requires LateTypesHarmless(u.cluster, u.sources) && NoTypeLost(u.cluster, a) && NoTypeLost(a, b)
    requires NoEventBetween(u.cluster, u.sources, a, b) && AllCurrent(u, a, done)
    ensures AllCurrent(u, b, done)
  {
    hide NoEventBetween, Current, LateTypesHarmless;
    forall i | 0 <= i < |done| ensures Current(u, b, u.sources[i], done[i]) {
      assert u.sources[i] in u.sources;
      CurrentAfter(u, a, b, u.sources[i], done[i]);
    }
  }

  lemma ChangeKeepsStage(u: Setup, s: ArgoState, to: ArgoCluster)
    requires LateTypesHarmless(u.cluster, u.sources) && ArgoInv(u, s) && !s.dirty && NoTypeLost(s.cluster, to)
    requires NoEventBetween(u.cluster, u.sources, s.cluster, to)
    ensures StageCurrent(u, s.(cluster := to))
  {
    hide NoEventBetween, LateTypesHarmless, AllCurrent, ConfigMapReading, OwnerLive, ArgoCandidates;
    HarmlessCovers(u.cluster, u.sources, s.cluster, to);
    if s.stage.HasRead() {
      ChangeKeepsReads(u, s.cluster, to, s.stage.done);
      var n := |s.stage.done|;
      if n < |u.sources| {
        assert u.sources[n] in u.sources;
        OwnerAfter(u, s.cluster, to, u.sources[n]);
        ConfigMapAfter(u, s.cluster, to, u.sources[n]);
      }
    }
  }

  lemma NextIsCurrent(u: Setup, s: ArgoState, done: seq<Reading>)
    requires AllCurrent(u, s.cluster, done) && s.stage == Next(u, done)
    ensures StageCurrent(u, s)
  {
  }

  lemma OneMoreReading(u: Setup, c: ArgoCluster, done: seq<Reading>, r: Reading)
    requires AllCurrent(u, c, done) && |done| < |u.sources| && Current(u, c, u.sources[|done|], r)
    ensures AllCurrent(u, c, done + [r])
  {
    hide Current;
  }

  lemma ReadKeepsInv(u: Setup, s: ArgoState, a: ArgoAction)
    requires ArgoInv(u, s) && ArgoEnabled(u, s, a) && (a.ReadOwner? || a.ReadConfigMap? || a.ReadProjects?)
    ensures ArgoInv(u, ArgoApply(u, s, a))
  {
    hide AllCurrent, OwnerLive, ConfigMapReading, ProjectCandidates, ConfigMapCandidates;
    if !s.dirty && a.ok {
      var done, n := s.stage.done, |s.stage.done|;
      var s' := ArgoApply(u, s, a);
      var source := u.sources[n];
      ReadingsAre(s.cluster, source);
      var r := if a.ReadOwner? then Reading(false, {})
               else if a.ReadConfigMap? then Reading(true, ConfigMapReading(s.cluster, source))
               else Reading(true, s.stage.found + ProjectCandidates(s.cluster, source.namespace));
      if s'.stage == Next(u, done + [r]) {
        OneMoreReading(u, s.cluster, done, r);
        NextIsCurrent(u, s', done + [r]);
      }
    }
  }

  lemma ReadingsAre(c: ArgoCluster, source: Source)
    ensures Readings(c, source)
         == ConfigMapReading(c, source)
            + if source.appProjectsEnabled then ProjectCandidates(c, source.namespace) else {}
  {
  }

  /** A whole set of up-to-date readings gives exactly the candidates of the cluster: what an
      unwatched owner hides or shows, a source without an owner reads as well. */
  lemma ReadIsCurrent(u: Setup, c: ArgoCluster, done: seq<Reading>)
    requires LateTypesHarmless(u.cluster, u.sources) && NoTypeLost(u.cluster, c)
    requires AllCurrent(u, c, done) && |done| == |u.sources|
    ensures Found(done) == ArgoCandidates(c, u.sources)
  {
    hide SourceCandidates, ArgoCandidates, Current, LateTypesHarmless;
    CandidatesAre(c, u.sources);
    forall g ensures g in Found(done) <==> g in ArgoCandidates(c, u.sources) {
      if g in Found(done) {
        var r :| r in done && r.live && g in r.found;
        var i :| 0 <= i < |done| && done[i] == r;
        FoundIsCandidate(u, c, i, done, g);
      }
      if g in ArgoCandidates(c, u.sources) {
        var source :| source in u.sources && g in SourceCandidates(c, source);
        var i :| 0 <= i < |u.sources| && u.sources[i] == source;
        CandidateIsFound(u, c, i, done, g);
      }
    }
  }

  /** The sources without an owner that read what `source` reads. */
  lemma Substitute(u: Setup, c: ArgoCluster, source: Source, g: string) returns (i: nat)
    requires OwnerIrrelevant(u.sources, source) && source.resourceName != "" && g in Readings(c, source)
    ensures i < |u.sources| && u.sources[i].resourceName == "" && g in Readings(c, u.sources[i])
  {
    hide ConfigMapCandidates, ProjectCandidates;
    var x :| x in u.sources && x.resourceName == "" && x.ConfigMapKey() == source.ConfigMapKey();
    i :| 0 <= i < |u.sources| && u.sources[i] == x;
    if g !in Readings(c, x) {
      var y :| y in u.sources && y.resourceName == "" && y.appProjectsEnabled && y.namespace == source.namespace;
      i :| 0 <= i < |u.sources| && u.sources[i] == y;
    }
  }

  lemma CountsIffLive(c: ArgoCluster, source: Source)
    ensures SourceCandidates(c, source) == if OwnerLive(c, source) then Readings(c, source) else {}
    ensures source.resourceName == "" ==> OwnerLive(c, source)
  {
  }

  lemma FoundIsCandidate(u: Setup, c: ArgoCluster, i: nat, done: seq<Reading>, g: string)
    requires LateTypesHarmless(u.cluster, u.sources) && AllCurrent(u, c, done) && |done| == |u.sources|
    requires i < |done| && done[i].live && g in done[i].found
    ensures exists source :: source in u.sources && g in SourceCandidates(c, source)
  {
    hide Readings, OwnerLive, SourceCandidates, OwnerIrrelevant;
    var source := u.sources[i];
    assert Current(u, c, source, done[i]);
    CountsIffLive(c, source);
    if OwnerWatched(u, source) {
      assert g in SourceCandidates(c, source);
    } else {
      assert OwnerIrrelevant(u.sources, source);
      var j := Substitute(u, c, source, g);
      CountsIffLive(c, u.sources[j]);
      assert g in SourceCandidates(c, u.sources[j]);
    }
  }

  lemma CandidateIsFound(u: Setup, c: ArgoCluster, i: nat, done: seq<Reading>, g: string)
    requires LateTypesHarmless(u.cluster, u.sources) && AllCurrent(u, c, done) && |done| == |u.sources|
    requires i < |done| && g in SourceCandidates(c, u.sources[i])
    ensures g in Found(done)
  {
    hide Readings, OwnerLive, SourceCandidates, OwnerIrrelevant;
    var source := u.sources[i];
    CountsIffLive(c, source);
    var j := i;
    if !OwnerWatched(u, source) {
      assert OwnerIrrelevant(u.sources, source);
      j := Substitute(u, c, source, g);
      CountsIffLive(c, u.sources[j]);
    }
    assert Current(u, c, u.sources[j], done[j]);
    assert done[j] in done && done[j].live && g in done[j].found;
  }

  lemma LookUpKeepsInv(u: Setup, s: ArgoState, missed: set<string>)
    requires LateTypesHarmless(u.cluster, u.sources) && ArgoInv(u, s) && ArgoEnabled(u, s, LookUp(missed))
    ensures ArgoInv(u, ArgoApply(u, s, LookUp(missed)))
  {
    hide AllCurrent, ArgoCandidates, LateTypesHarmless, ToLower;
    if !s.dirty {
      ReadIsCurrent(u, s.cluster, s.stage.done);
      var all := ArgoCandidates(s.cluster, u.sources);
      if forall c :: c in missed ==> ToLower(c) !in u.directory { MissingGroups(u.directory, all, missed); }
    }
  }

  lemma MissingGroups(directory: map<string, Option<string>>, all: set<string>, missed: set<string>)
    requires forall c :: c in missed ==> ToLower(c) !in directory
    ensures DirectoryGroups(directory, Lowered(set c | c in all - missed && ToLower(c) in directory))
         == DirectoryGroups(directory, Lowered(all))
  {
    hide ToLower;
    forall l | l in Lowered(all) && l in directory
      ensures l in Lowered(set c | c in all - missed && ToLower(c) in directory)
    {
      var c :| c in all && ToLower(c) == l;
    }
  }

  lemma ConvergeKeepsInv(u: Setup, s: ArgoState, ok: bool, failed: set<Write>)
    requires ArgoInv(u, s) && ArgoEnabled(u, s, Converge(ok, failed))
    ensures ArgoInv(u, ArgoApply(u, s, Converge(ok, failed)))
  {
    hide PassWrites, Wanted, GroupsAfter;
    var s' := ArgoApply(u, s, Converge(ok, failed));
    if ok && s'.last.clean {
      forall sp | sp in s.table
        ensures s'.table[sp] == s.stage.desired
      {
        PassBounds(s.table, s.stage.desired, failed, sp);
      }
    }
  }

  lemma ArgoStepKeepsInv(u: Setup, s: ArgoState, a: ArgoAction)
    requires LateTypesHarmless(u.cluster, u.sources) && ArgoInv(u, s) && ArgoEnabled(u, s, a)
    ensures ArgoInv(u, ArgoApply(u, s, a))
  {
    hide LateTypesHarmless, NoEventBetween, StageCurrent;
    match a
    case Change(to) =>
      if !s.dirty && NoEventBetween(u.cluster, u.sources, s.cluster, to) { ChangeKeepsStage(u, s, to); }
    case Requeue =>
    case Start => StartIsCurrent(u, s);
    case ReadOwner(_) => ReadKeepsInv(u, s, a);
    case ReadConfigMap(_) => ReadKeepsInv(u, s, a);
    case ReadProjects(_) => ReadKeepsInv(u, s, a);
    case LookUp(missed) => LookUpKeepsInv(u, s, missed);
    case Converge(ok, failed) => ConvergeKeepsInv(u, s, ok, failed);
  }

  lemma StartIsCurrent(u: Setup, s: ArgoState)
    requires ArgoEnabled(u, s, Start)
    ensures StageCurrent(u, ArgoApply(u, s, Start))
  {
  }

  lemma {:induction false} ArgoRunKeepsInv(u: Setup, s: ArgoState, actions: seq<ArgoAction>)
    requires LateTypesHarmless(u.cluster, u.sources) && ArgoInv(u, s) && IsArgoRun(u, s, actions)
    ensures ArgoInv(u, ArgoExec(u, s, actions))
    decreases |actions|
  {
    hide ArgoInv, ArgoEnabled, ArgoApply, LateTypesHarmless;
    if actions != [] {
      ArgoStepKeepsInv(u, s, actions[0]);
      ArgoRunKeepsInv(u, ArgoApply(u, s, actions[0]), actions[1..]);
    }
  }

  lemma ResolvedIsDirectory(directory: map<string, Option<string>>, spellings: set<string>)
    ensures Resolved(spellings, DirectoryLookup(directory)) == DirectoryGroups(directory, Lowered(spellings))
  {
    hide ToLower;
    var lookup := DirectoryLookup(directory);
    forall l | l in Lowered(spellings) && l in directory && directory[l].Some?
      ensures directory[l].value in Resolved(spellings, lookup)
    {
      var c :| c in spellings && ToLower(c) == l;
      assert lookup(c) == directory[l];
    }
    forall c | c in spellings && lookup(c).Some?
      ensures lookup(c).value in DirectoryGroups(directory, Lowered(spellings))
    {
      assert ToLower(c) in Lowered(spellings);
    }
  }

  function DesiredNow(u: Setup, c: ArgoCluster): set<string> {
    Resolved(ArgoCandidates(c, u.sources), DirectoryLookup(u.directory))
  }

  /** A group the directory holds for a candidate of some source. */
  lemma DesiredNowMeans(u: Setup, c: ArgoCluster, g: string)
    ensures g in DesiredNow(u, c)
            <==> exists source, n :: source in u.sources && n in SourceCandidates(c, source)
                                     && ToLower(n) in u.directory && u.directory[ToLower(n)] == Some(g)
  {
    hide SourceCandidates, ArgoCandidates, ToLower;
    CandidatesAre(c, u.sources);
    var lookup := DirectoryLookup(u.directory);
    if g in DesiredNow(u, c) {
      var n :| n in ArgoCandidates(c, u.sources) && lookup(n).Some? && lookup(n).value == g;
      var source :| source in u.sources && n in SourceCandidates(c, source);
    }
    if source, n :| source in u.sources && n in SourceCandidates(c, source)
                    && ToLower(n) in u.directory && u.directory[ToLower(n)] == Some(g) {
      assert n in ArgoCandidates(c, u.sources) && lookup(n) == Some(g) && lookup(n).value == g;
    }
  }

  /** No lost update for Argo CD, over whole runs: with an empty queue and no pass in flight,
      the latest pass completed, and if it was clean every service principal of the target
      has exactly the groups of all its sources as they are now, although each object was read
      at a moment of its own, only watched changes were queued, and types may have been
      installed meanwhile, as long as those are harmless. */
  lemma ArgoNoLostUpdate(u: Setup, s0: ArgoState, actions: seq<ArgoAction>)
    requires ArgoInit(u, s0) && IsArgoRun(u, s0, actions) && LateTypesHarmless(u.cluster, u.sources)
    requires var s := ArgoExec(u, s0, actions); !s.dirty && s.stage == Ready
    ensures var s := ArgoExec(u, s0, actions);
            && s.last.Completed?
            && (s.last.clean ==>
                  forall sp :: sp in u.servicePrincipals ==> sp in s.table && s.table[sp] == DesiredNow(u, s.cluster))
  {
    hide ArgoCandidates, LateTypesHarmless, Resolved, DirectoryLookup, IsArgoRun, ArgoExec;
    ArgoRunKeepsInv(u, s0, actions);
    var s := ArgoExec(u, s0, actions);
    ResolvedIsDirectory(u.directory, ArgoCandidates(s.cluster, u.sources));
  }

  // ---- types that are not harmless ----------------------------------------------------------------

  /** The queue is empty, the latest pass was clean, and some service principal is not what
      the cluster says. */
  ghost predicate Stale(u: Setup, s: ArgoState) {
    && !s.dirty && s.stage == Ready && s.last == Completed(true)
    && exists sp :: sp in u.servicePrincipals && !(sp in s.table && s.table[sp] == DesiredNow(u, s.cluster))
  }

  ghost predicate CanEndStale(u: Setup, s: ArgoState) {
    exists actions :: IsArgoRun(u, s, actions) && Stale(u, ArgoExec(u, s, actions))
  }

  lemma StepThenStale(u: Setup, s: ArgoState, a: ArgoAction)
    requires ArgoEnabled(u, s, a) && CanEndStale(u, ArgoApply(u, s, a))
    ensures CanEndStale(u, s)
  {
    hide ArgoEnabled, ArgoApply, Stale;
    var rest :| IsArgoRun(u, ArgoApply(u, s, a), rest) && Stale(u, ArgoExec(u, ArgoApply(u, s, a), rest));
    var actions := [a] + rest;
    assert actions[0] == a && actions[1..] == rest;
    assert IsArgoRun(u, s, actions) && ArgoExec(u, s, actions) == ArgoExec(u, ArgoApply(u, s, a), rest);
  }

  /** From `a` to `b` the candidates appear, one group of the directory among them, and no
      watch notices. */
  ghost predicate Harmful(u: Setup, a: ArgoCluster, b: ArgoCluster) {
    LateChange(u.cluster, u.sources, a, b) && u.directory == map[SAMPLE := Some(SAMPLE)] && u.servicePrincipals != {}
  }

  /** What the reconciler looks like on its way to a clean pass that finds nothing. */
  ghost predicate FoundNothing(u: Setup, s: ArgoState, a: ArgoCluster, done: seq<Reading>) {
    s.cluster == a && !s.dirty && s.table.Keys == u.servicePrincipals && Found(done) == {} && |done| <= |u.sources|
  }

  lemma SampleIsWanted(u: Setup, c: ArgoCluster)
    requires u.directory == map[SAMPLE := Some(SAMPLE)] && SAMPLE in ArgoCandidates(c, u.sources)
    ensures SAMPLE in DesiredNow(u, c)
  {
    hide ArgoCandidates;
    assert ToLower(SAMPLE) == SAMPLE;
    assert DirectoryLookup(u.directory)(SAMPLE) == Some(SAMPLE);
  }

  lemma ChangedAfterwards(u: Setup, s: ArgoState, a: ArgoCluster, b: ArgoCluster)
    requires Harmful(u, a, b) && s.cluster == a && !s.dirty && s.stage == Ready && s.last == Completed(true)
    requires forall sp :: sp in s.table ==> s.table[sp] == {}
    ensures CanEndStale(u, s)
  {
    hide ArgoCandidates, NoEventBetween, DesiredNow;
    var s' := ArgoApply(u, s, Change(b));
    SampleIsWanted(u, b);
    var sp :| sp in u.servicePrincipals;
    assert !(sp in s'.table && s'.table[sp] == DesiredNow(u, b));
    assert IsArgoRun(u, s', []) && ArgoExec(u, s', []) == s';
    StepThenStale(u, s, Change(b));
  }

  lemma NothingFoundNothingWanted(u: Setup, s: ArgoState, done: seq<Reading>)
    requires s.stage == AtLookups(done) && Found(done) == {}
    ensures ArgoEnabled(u, s, LookUp({}))
    ensures ArgoApply(u, s, LookUp({})).stage == AtAzure({}, true)
  {
    hide ToLower;
  }

  lemma LookedUp(u: Setup, s: ArgoState, a: ArgoCluster, b: ArgoCluster, done: seq<Reading>)
    requires Harmful(u, a, b) && FoundNothing(u, s, a, done) && s.stage == AtLookups(done)
    ensures CanEndStale(u, s)
  {
    hide LateChange, CanEndStale, Found;
    NothingFoundNothingWanted(u, s, done);
    var s1 := ArgoApply(u, s, LookUp({}));
    var s2 := ArgoApply(u, s1, Converge(true, {}));
    ChangedAfterwards(u, s2, a, b);
    StepThenStale(u, s1, Converge(true, {}));
    StepThenStale(u, s, LookUp({}));
  }

  lemma OneMoreEmpty(done: seq<Reading>, r: Reading)
    requires Found(done) == {} && (r.live ==> r.found == {})
    ensures Found(done + [r]) == {}
  {
  }

  /** Nothing counts, so nothing is found in a source whose owner lets it count. */
  lemma NothingToRead(u: Setup, a: ArgoCluster, n: nat)
    requires ArgoCandidates(a, u.sources) == {} && n < |u.sources| && OwnerLive(a, u.sources[n])
    ensures ConfigMapReading(a, u.sources[n]) == {}
    ensures u.sources[n].appProjectsEnabled ==> ProjectCandidates(a, u.sources[n].namespace) == {}
  {
    hide ArgoCandidates, SourceCandidates, Readings, OwnerLive, ConfigMapReading, ProjectCandidates;
    CandidatesAre(a, u.sources);
    ReadingsAre(a, u.sources[n]);
    CountsIffLive(a, u.sources[n]);
    assert forall g :: g in Readings(a, u.sources[n]) ==> g in ArgoCandidates(a, u.sources);
  }

  lemma {:induction false} ReadOn(u: Setup, s: ArgoState, a: ArgoCluster, b: ArgoCluster, done: seq<Reading>)
    requires Harmful(u, a, b) && FoundNothing(u, s, a, done) && s.stage == Next(u, done)
    ensures CanEndStale(u, s)
    decreases |u.sources| - |done|, 1
  {
    hide LateChange, CanEndStale, Found, OwnerLive, ConfigMapReading, ProjectCandidates;
    if |done| == |u.sources| {
      LookedUp(u, s, a, b, done);
    } else if OwnerLive(a, u.sources[|done|]) {
      ReadLive(u, s, a, b, done);
    } else {
      var r := Reading(false, {});
      OneMoreEmpty(done, r);
      ReadOn(u, ArgoApply(u, s, ReadOwner(true)), a, b, done + [r]);
      StepThenStale(u, s, ReadOwner(true));
    }
  }

  lemma ReadLive(u: Setup, s: ArgoState, a: ArgoCluster, b: ArgoCluster, done: seq<Reading>)
    requires Harmful(u, a, b) && FoundNothing(u, s, a, done) && s.stage == AtOwner(done)
    requires |done| < |u.sources| && OwnerLive(a, u.sources[|done|])
    ensures CanEndStale(u, s)
    decreases |u.sources| - |done|, 0
  {
    hide CanEndStale, Found, OwnerLive, ConfigMapReading, ProjectCandidates, ArgoCandidates, Unnoticed;
    var source, r := u.sources[|done|], Reading(true, {});
    NothingToRead(u, a, |done|);
    OneMoreEmpty(done, r);
    var s1 := ArgoApply(u, s, ReadOwner(true));
    var s2 := ArgoApply(u, s1, ReadConfigMap(true));
    if source.appProjectsEnabled {
      assert s2.stage.found + ProjectCandidates(a, source.namespace) == {};
      ReadOn(u, ArgoApply(u, s2, ReadProjects(true)), a, b, done + [r]);
      StepThenStale(u, s2, ReadProjects(true));
    } else {
      ReadOn(u, s2, a, b, done + [r]);
    }
    StepThenStale(u, s1, ReadConfigMap(true));
    StepThenStale(u, s, ReadOwner(true));
  }

  /** If the types that may come late are not harmless, some directory and some run end with
      an empty queue and a clean latest pass, and not in line. */
  lemma HarmfulEndsStale(cluster: ArgoCluster, sources: seq<Source>, sps: set<string>)
    requires Typed(cluster) && sps != {} && !LateTypesHarmless(cluster, sources)
    ensures var u := Setup(cluster, sources, sps, map[SAMPLE := Some(SAMPLE)]);
            exists s0 :: ArgoInit(u, s0) && CanEndStale(u, s0)
  {
    hide LateTypesHarmless, Typed, NoTypeLost, NoEventBetween, ArgoCandidates, CanEndStale;
    var u := Setup(cluster, sources, sps, map[SAMPLE := Some(SAMPLE)]);
    var a, b := HarmfulChange(cluster, sources);
    var s0 := ArgoState(cluster, true, Ready, {}, map sp | sp in sps :: {}, NoPass);
    var s1 := ArgoApply(u, s0, Change(a));
    ReadOn(u, ArgoApply(u, s1, Start), a, b, []);
    StepThenStale(u, s1, Start);
    StepThenStale(u, s0, Change(a));
  }

  /** Exactly when no update is lost, over runs: for a reconciler that was set up over
      `cluster` no directory, no startup and no run end stale if and only if the types that
      may be installed later are harmless. */
  lemma NothingStaleIffHarmless(cluster: ArgoCluster, sources: seq<Source>, sps: set<string>)
    requires Typed(cluster) && sps != {}
    ensures LateTypesHarmless(cluster, sources)
            <==> forall directory, s0 :: ArgoInit(Setup(cluster, sources, sps, directory), s0) ==>
                   !CanEndStale(Setup(cluster, sources, sps, directory), s0)
  {
    hide LateTypesHarmless, Typed, ArgoInit, DesiredNow;
    if LateTypesHarmless(cluster, sources) {
      forall directory, s0 | ArgoInit(Setup(cluster, sources, sps, directory), s0)
        ensures !CanEndStale(Setup(cluster, sources, sps, directory), s0)
      {
        NeverStale(Setup(cluster, sources, sps, directory), s0);
      }
    } else {
      HarmfulEndsStale(cluster, sources, sps);
    }
  }

  lemma NeverStale(u: Setup, s0: ArgoState)
    requires ArgoInit(u, s0) && LateTypesHarmless(u.cluster, u.sources)
    ensures !CanEndStale(u, s0)
  {
    hide LateTypesHarmless, ArgoInit, DesiredNow, IsArgoRun, ArgoExec;
    forall actions | IsArgoRun(u, s0, actions) ensures !Stale(u, ArgoExec(u, s0, actions)) {
      var s := ArgoExec(u, s0, actions);
      if !s.dirty && s.stage == Ready { ArgoNoLostUpdate(u, s0, actions); }
    }
  }
}
