/** Nothing a pass of an Argo CD reconciler can do is missing from its transition system. */
module ArgoPassRuns {
  import opened GoStrings
  import opened Bindings
  import opened ConvergencePass
  import opened ReconcileSystem
  import opened ArgoCD
  import opened ArgoSystem

  /** The cluster may change and the work item may be queued again at any moment; a change
      queues it if and only if a watch notices, or it was queued anyway. */
  lemma ChangesAtAnyTime(u: Setup, s: ArgoState, to: ArgoCluster)
    ensures ArgoEnabled(u, s, Change(to)) <==> Typed(to) && NoTypeLost(s.cluster, to)
    ensures ArgoEnabled(u, s, Change(to)) ==>
      ArgoApply(u, s, Change(to))
      == s.(cluster := to, dirty := s.dirty || !NoEventBetween(u.cluster, u.sources, s.cluster, to))
    ensures ArgoEnabled(u, s, Requeue) && ArgoApply(u, s, Requeue) == s.(dirty := true)
  {
    hide NoEventBetween;
  }

  /** Every read, and the listing of Azure, may fail whenever it may succeed; the error puts
      the work item back and leaves the table alone. */
  lemma AnyReadMayFail(u: Setup, s: ArgoState, failed: set<Write>)
    ensures forall a :: a in {ReadOwner(false), ReadConfigMap(false), ReadProjects(false), Converge(false, failed)}
                        && ArgoEnabled(u, s, a) ==>
              ArgoApply(u, s, a) == s.(stage := Ready, dirty := true, last := Erred)
    ensures ArgoEnabled(u, s, ReadOwner(false)) <==> ArgoEnabled(u, s, ReadOwner(true))
    ensures ArgoEnabled(u, s, ReadConfigMap(false)) <==> ArgoEnabled(u, s, ReadConfigMap(true))
    ensures ArgoEnabled(u, s, ReadProjects(false)) <==> ArgoEnabled(u, s, ReadProjects(true))
    ensures ArgoEnabled(u, s, Converge(false, failed)) <==> ArgoEnabled(u, s, Converge(true, {}))
  {
  }

  ghost predicate Reaches(u: Setup, s: ArgoState, t: ArgoState) {
    exists actions :: IsArgoRun(u, s, actions) && ArgoExec(u, s, actions) == t
  }

  lemma ReachesItself(u: Setup, s: ArgoState)
    ensures Reaches(u, s, s)
  {
    assert IsArgoRun(u, s, []) && ArgoExec(u, s, []) == s;
  }

  lemma StepThenReaches(u: Setup, s: ArgoState, a: ArgoAction, t: ArgoState)
    requires ArgoEnabled(u, s, a) && Reaches(u, ArgoApply(u, s, a), t)
    ensures Reaches(u, s, t)
  {
    hide ArgoEnabled, ArgoApply;
    var rest :| IsArgoRun(u, ArgoApply(u, s, a), rest) && ArgoExec(u, ArgoApply(u, s, a), rest) == t;
    var actions := [a] + rest;
    assert actions[0] == a && actions[1..] == rest;
    assert IsArgoRun(u, s, actions) && ArgoExec(u, s, actions) == t;
  }

  // ---- the reads ---------------------------------------------------------------------------------

  /** The sources read so far, as the cluster is. */
  ghost predicate ReadSoFar(u: Setup, c: ArgoCluster, done: seq<Reading>) {
    |done| <= |u.sources| && forall i :: 0 <= i < |done| ==> done[i] == ReadingOf(c, u.sources[i])
  }

  function ReadingOf(c: ArgoCluster, source: Source): Reading {
    if OwnerLive(c, source) then Reading(true, Readings(c, source)) else Reading(false, {})
  }

  lemma OneMore(u: Setup, c: ArgoCluster, done: seq<Reading>)
    requires ReadSoFar(u, c, done) && |done| < |u.sources|
    ensures ReadSoFar(u, c, done + [ReadingOf(c, u.sources[|done|])])
  {
    hide OwnerLive, Readings;
  }

  lemma FoundIsAll(u: Setup, c: ArgoCluster, done: seq<Reading>)
    requires ReadSoFar(u, c, done) && |done| == |u.sources|
    ensures ArgoSystem.Found(done) == ArgoCandidates(c, u.sources)
  {
    hide ArgoCandidates, SourceCandidates, OwnerLive, Readings;
    CandidatesAre(c, u.sources);
    forall i | 0 <= i < |done|
      ensures SourceCandidates(c, u.sources[i]) == if done[i].live then done[i].found else {}
    {
      CountsIffLive(c, u.sources[i]);
    }
    forall g ensures g in ArgoSystem.Found(done) <==> g in ArgoCandidates(c, u.sources) {
      if r :| r in done && r.live && g in r.found {
        var i :| 0 <= i < |done| && done[i] == r;
        assert u.sources[i] in u.sources;
      }
      if s :| s in u.sources && g in SourceCandidates(c, s) {
        var i :| 0 <= i < |u.sources| && u.sources[i] == s;
        assert done[i] in done;
      }
    }
  }

  lemma {:induction false} ReadAll(u: Setup, s: ArgoState, done: seq<Reading>, all: seq<Reading>, t: ArgoState)
    requires ReadSoFar(u, s.cluster, done) && s.stage == Next(u, done)
    requires ReadSoFar(u, s.cluster, all) && |all| == |u.sources| && Reaches(u, s.(stage := AtLookups(all)), t)
    ensures Reaches(u, s, t)
    decreases |u.sources| - |done|
  {
    hide Reaches, OwnerLive, ConfigMapReading, ProjectCandidates, Readings;
    if |done| == |u.sources| {
      assert done == all;
    } else {
      OneMore(u, s.cluster, done);
      var r := ReadingOf(s.cluster, u.sources[|done|]);
      ReadAll(u, s.(stage := Next(u, done + [r])), done + [r], all, t);
      ReadOne(u, s, done, t);
    }
  }

  lemma ReadOne(u: Setup, s: ArgoState, done: seq<Reading>, t: ArgoState)
    requires s.stage == AtOwner(done) && |done| < |u.sources|
    requires Reaches(u, s.(stage := Next(u, done + [ReadingOf(s.cluster, u.sources[|done|])])), t)
    ensures Reaches(u, s, t)
  {
    hide Reaches, OwnerLive, ConfigMapReading, ProjectCandidates, Readings;
    var source := u.sources[|done|];
    ReadingsAre(s.cluster, source);
    if OwnerLive(s.cluster, source) {
      var s1 := ArgoApply(u, s, ReadOwner(true));
      var s2 := ArgoApply(u, s1, ReadConfigMap(true));
      if source.appProjectsEnabled {
        StepThenReaches(u, s2, ReadProjects(true), t);
      } else {
        assert Readings(s.cluster, source) == ConfigMapReading(s.cluster, source);
      }
      StepThenReaches(u, s1, ReadConfigMap(true), t);
    }
    StepThenReaches(u, s, ReadOwner(true), t);
  }

  function AllReadings(u: Setup, c: ArgoCluster): (all: seq<Reading>)
    ensures ReadSoFar(u, c, all) && |all| == |u.sources|
  {
    seq(|u.sources|, i requires 0 <= i < |u.sources| => ReadingOf(c, u.sources[i]))
  }

  // ---- a whole pass --------------------------------------------------------------------------------

  /** Every outcome of a pass is the outcome of a run: whichever lookups fail that have not
      succeeded before, and whichever writes, the queued reconciler can take a pass over the
      cluster as it is that leaves exactly the table those failures leave. */
  lemma EveryArgoPassIsARun(u: Setup, s: ArgoState, missed: set<string>, failed: set<Write>) returns (t: ArgoState)
    requires s.dirty && s.stage == Ready && missed <= ArgoCandidates(s.cluster, u.sources) - s.known
    ensures Reaches(u, s, t)
    ensures var found := set c | c in ArgoCandidates(s.cluster, u.sources) - missed && ToLower(c) in u.directory;
            var desired := DirectoryGroups(u.directory, Lowered(found));
            && t.cluster == s.cluster && !t.dirty && t.stage == Ready && t.known == s.known + found
            && t.table == PassResult(s.table, desired, failed)
            && t.last == Completed((forall c :: c in missed ==> ToLower(c) !in u.directory)
                                   && failed * PassWrites(s.table, desired) == {})
  {
    hide ArgoCandidates, PassResult, PassWrites, Reaches, ArgoSystem.Found, ToLower, DirectoryGroups, ReadSoFar;
    var all := AllReadings(u, s.cluster);
    FoundIsAll(u, s.cluster, all);
    var s1 := ArgoApply(u, s, Start);
    var s2 := s1.(stage := AtLookups(all));
    var s3 := ArgoApply(u, s2, LookUp(missed));
    t := ArgoApply(u, s3, Converge(true, failed));
    ReachesItself(u, t);
    StepThenReaches(u, s3, Converge(true, failed), t);
    StepThenReaches(u, s2, LookUp(missed), t);
    NothingRead(u, s.cluster);
    ReadAll(u, s1, [], all, t);
    StepThenReaches(u, s, Start, t);
  }

  lemma NothingRead(u: Setup, c: ArgoCluster)
    ensures ReadSoFar(u, c, [])
  {
  }
}
