/** Nothing a pass can do is missing from the transition system: however its lookups and
    writes turn out, there is a run of the system in which they do. */
module PassRuns {
  import opened Wrappers
  import opened GoStrings
  import opened Bindings
  import opened ConvergencePass
  import opened ReconcileSystem

  // ---- what may happen ---------------------------------------------------------------------------

  /** The environment is free: any change of the cluster may happen at any moment, and a
      resync too; an event queues the work item of its own controller, and only if the filter
      accepts it, and touches nothing else. */
  lemma EventsAtAnyTime(cfg: Config, s: State, e: BindingEvent, k: Kind)
    requires |s.history| > 0
    ensures Enabled(cfg, s, Event(e)) <==> Applies(s.Current(), e)
    ensures Enabled(cfg, s, Event(e)) ==>
      var s' := Apply(cfg, s, Event(e));
      && s'.history == s.history + [After(s.Current(), e)]
      && s'.Ctl(k) == s.Ctl(k).(dirty := s.Ctl(k).dirty || (k == e.kind && Accepts(e)))
      && s' == s.(history := s'.history, rb := s'.rb, crb := s'.crb)
    ensures Enabled(cfg, s, Resync(k))
    ensures Apply(cfg, s, Resync(k)) == s.WithCtl(k, s.Ctl(k).(dirty := true))
  {
    hide After, Accepts, Applies;
  }

  /** A controller takes up a queued work item whenever it is idle, whoever holds the mutex, and
      then waits until the mutex is free. */
  lemma QueueMoves(cfg: Config, s: State, k: Kind)
    requires |s.history| > 0
    ensures Enabled(cfg, s, Dequeue(k)) <==> s.Ctl(k) == Controller(true, Idle)
    ensures Enabled(cfg, s, Acquire(k)) <==> s.Ctl(k).phase == Waiting && s.lock == None
    ensures Enabled(cfg, s, Dequeue(k)) ==> Apply(cfg, s, Dequeue(k)) == s.WithCtl(k, Controller(false, Waiting))
  {
  }

  /** Every call may fail whenever it may succeed, but for a lookup the cache answers; and a
      lookup may succeed whenever the cache or the directory has an answer. */
  lemma AnyCallMayFail(cfg: Config, s: State, k: Kind, c: string, sp: string, w: Write)
    ensures Enabled(cfg, s, ListRoleBindings(k, true)) <==> Enabled(cfg, s, ListRoleBindings(k, false))
    ensures Enabled(cfg, s, ListClusterRoleBindings(k, true)) <==> Enabled(cfg, s, ListClusterRoleBindings(k, false))
    ensures Enabled(cfg, s, ListAzure(k, sp, true)) <==> Enabled(cfg, s, ListAzure(k, sp, false))
    ensures Enabled(cfg, s, DoWrite(k, w, true)) <==> Enabled(cfg, s, DoWrite(k, w, false))
    ensures |s.history| > 0 && s.Ctl(k).phase.Resolving? && c in s.Ctl(k).phase.lookups ==>
      && (Enabled(cfg, s, Resolve(k, c, true)) <==> c in s.cache || ToLower(c) in cfg.directory)
      && (Enabled(cfg, s, Resolve(k, c, false)) <==> c !in s.cache)
  {
    hide ToLower;
  }

  /** An error return gives up the lock and puts the work item back; nothing else changes. */
  lemma ErrorReturn(cfg: Config, s: State, k: Kind, a: Action)
    requires Enabled(cfg, s, a)
    requires || a == ListRoleBindings(k, false) || a == ListClusterRoleBindings(k, false)
             || (a.ListAzure? && a.k == k && !a.ok)
    ensures var s' := Apply(cfg, s, a);
            && s'.Ctl(k) == Controller(true, Idle) && s'.lock == None && s'.aborted
            && (forall k' :: k' != k ==> s'.Ctl(k') == s.Ctl(k'))
            && s'.history == s.history && s'.table == s.table && s'.cache == s.cache && s'.passes == s.passes
  {
  }

  // ---- reaching one state from another -------------------------------------------------------------

  ghost predicate Reaches(cfg: Config, s: State, t: State) {
    exists actions :: IsRun(cfg, s, actions) && Exec(cfg, s, actions) == t
  }

  lemma ReachesItself(cfg: Config, s: State)
    ensures Reaches(cfg, s, s)
  {
    assert IsRun(cfg, s, []) && Exec(cfg, s, []) == s;
  }

  lemma StepThenReaches(cfg: Config, s: State, a: Action, t: State)
    requires Enabled(cfg, s, a) && Reaches(cfg, Apply(cfg, s, a), t)
    ensures Reaches(cfg, s, t)
  {
    hide Enabled, Apply;
    var rest :| IsRun(cfg, Apply(cfg, s, a), rest) && Exec(cfg, Apply(cfg, s, a), rest) == t;
    var actions := [a] + rest;
    assert actions[0] == a && actions[1..] == rest;
    assert IsRun(cfg, s, actions) && Exec(cfg, s, actions) == t;
  }

  /** Only the phase of `k`, the cache and the table may differ. */
  ghost predicate SameBut(s: State, t: State, k: Kind) {
    && t.history == s.history && t.lock == s.lock && t.passes == s.passes && t.aborted == s.aborted
    && t.Ctl(k).dirty == s.Ctl(k).dirty && forall k' :: k' != k ==> t.Ctl(k') == s.Ctl(k')
  }

  /** The pass as it is recorded when it ends, and the state it leaves. */
  ghost predicate EndsAs(cfg: Config, s: State, t: State, k: Kind, failed: set<Write>) {
    var p := s.Ctl(k).phase;
    && p.HasBothLists()
    && t.history == s.history && t.lock == None && !t.aborted && t.Ctl(k) == Controller(s.Ctl(k).dirty, Idle)
    && (forall k' :: k' != k ==> t.Ctl(k') == s.Ctl(k'))
    && |t.passes| == |s.passes| + 1 && t.passes[..|s.passes|] == s.passes
    && var r := t.passes[|s.passes|];
       && r.owner == k && r.g.rbAt == p.g.rbAt && r.g.crbAt == p.g.crbAt
       && r.failed == failed * PassWrites(r.snapshot, r.g.desired)
  }

  // ---- the writes ------------------------------------------------------------------------------------

  lemma {:induction false} WriteAll(cfg: Config, s: State, k: Kind, failed: set<Write>) returns (t: State)
    requires Inv(cfg, s) && s.Ctl(k).phase.Writing?
    requires var p := s.Ctl(k).phase; p.failed <= failed && p.done !! failed
    ensures Reaches(cfg, s, t) && Inv(cfg, t) && EndsAs(cfg, s, t, k, failed) && t.cache == s.cache
    ensures var (p, r) := (s.Ctl(k).phase, t.passes[|s.passes|]); r.g == p.g && r.snapshot == p.snapshot
    decreases s.Ctl(k).phase.todo
  {
    hide Inv, Enabled, Apply, PassWrites, Reaches;
    var p := s.Ctl(k).phase;
    WritingPhase(cfg, s, k);
    if p.todo == {} {
      FinishStep(cfg, s, k);
      t := Apply(cfg, s, Finish(k));
      StepKeepsInv(cfg, s, Finish(k));
      ReachesItself(cfg, t);
      StepThenReaches(cfg, s, Finish(k), t);
    } else {
      var w :| w in p.todo;
      var a := DoWrite(k, w, w !in failed);
      OneWrite(cfg, s, k, w, w !in failed);
      StepKeepsInv(cfg, s, a);
      t := WriteAll(cfg, Apply(cfg, s, a), k, failed);
      StepThenReaches(cfg, s, a, t);
    }
  }

  lemma WritingPhase(cfg: Config, s: State, k: Kind)
    requires Inv(cfg, s) && s.Ctl(k).phase.Writing?
    ensures var p := s.Ctl(k).phase;
            && p.todo + p.done + p.failed == PassWrites(p.snapshot, p.g.desired)
            && p.todo !! p.done && p.todo !! p.failed && p.done !! p.failed && |s.history| > 0
  {
    hide SpellingsOf, PassWrites, PassOk, ResolvedSoFar, NothingLost, Quiescent, WithWrites;
    assert PhaseOk(cfg, s, s.Ctl(k).phase);
  }

  lemma OneWrite(cfg: Config, s: State, k: Kind, w: Write, ok: bool)
    requires |s.history| > 0 && s.Ctl(k).phase.Writing? && w in s.Ctl(k).phase.todo
    ensures Enabled(cfg, s, DoWrite(k, w, ok))
    ensures var (p, s') := (s.Ctl(k).phase, Apply(cfg, s, DoWrite(k, w, ok)));
            && SameBut(s, s', k) && s'.cache == s.cache
            && s'.Ctl(k).phase == (if ok then p.(todo := p.todo - {w}, done := p.done + {w})
                                   else p.(todo := p.todo - {w}, failed := p.failed + {w}))
  {
    hide ApplyWrite;
  }

  lemma FinishStep(cfg: Config, s: State, k: Kind)
    requires |s.history| > 0 && s.Ctl(k).phase.Writing? && s.Ctl(k).phase.todo == {}
    ensures Enabled(cfg, s, Finish(k))
    ensures var (p, t) := (s.Ctl(k).phase, Apply(cfg, s, Finish(k)));
            && t.history == s.history && t.lock == None && !t.aborted && t.Ctl(k) == Controller(s.Ctl(k).dirty, Idle)
            && (forall k' :: k' != k ==> t.Ctl(k') == s.Ctl(k')) && t.cache == s.cache
            && t.passes == s.passes + [Pass(k, p.g, p.snapshot, p.failed, s.table)]
  {
  }

  // ---- the listing of Azure ----------------------------------------------------------------------------

  lemma {:induction false} ListAll(cfg: Config, s: State, k: Kind, failed: set<Write>) returns (t: State)
    requires Inv(cfg, s) && s.Ctl(k).phase.ListingAzure?
    ensures Reaches(cfg, s, t) && Inv(cfg, t) && EndsAs(cfg, s, t, k, failed) && t.cache == s.cache
    ensures var (p, r) := (s.Ctl(k).phase, t.passes[|s.passes|]); r.g == p.g && r.snapshot == s.table
    decreases cfg.servicePrincipals - s.Ctl(k).phase.snapshot.Keys
  {
    hide Inv, Enabled, Apply, PassWrites, Reaches;
    var p := s.Ctl(k).phase;
    ListingPhase(cfg, s, k);
    if sp :| sp in cfg.servicePrincipals && sp !in p.snapshot {
      var a := ListAzure(k, sp, true);
      OneListing(cfg, s, k, sp);
      StepKeepsInv(cfg, s, a);
      t := ListAll(cfg, Apply(cfg, s, a), k, failed);
      StepThenReaches(cfg, s, a, t);
    } else {
      assert p.snapshot.Keys == cfg.servicePrincipals && p.snapshot == s.table;
      ToWriting(cfg, s, k);
      StepKeepsInv(cfg, s, BeginWrites(k));
      t := WriteAll(cfg, Apply(cfg, s, BeginWrites(k)), k, failed);
      StepThenReaches(cfg, s, BeginWrites(k), t);
    }
  }

  lemma ListingPhase(cfg: Config, s: State, k: Kind)
    requires Inv(cfg, s) && s.Ctl(k).phase.ListingAzure?
    ensures var p := s.Ctl(k).phase;
            && |s.history| > 0 && s.table.Keys == cfg.servicePrincipals && p.snapshot.Keys <= s.table.Keys
            && forall sp :: sp in p.snapshot ==> p.snapshot[sp] == s.table[sp]
  {
    hide SpellingsOf, PassWrites, PassOk, ResolvedSoFar, NothingLost, Quiescent;
    assert PhaseOk(cfg, s, s.Ctl(k).phase);
  }

  lemma OneListing(cfg: Config, s: State, k: Kind, sp: string)
    requires |s.history| > 0 && s.Ctl(k).phase.ListingAzure? && s.table.Keys == cfg.servicePrincipals
    requires sp in cfg.servicePrincipals && sp !in s.Ctl(k).phase.snapshot
    ensures Enabled(cfg, s, ListAzure(k, sp, true))
    ensures var (p, s') := (s.Ctl(k).phase, Apply(cfg, s, ListAzure(k, sp, true)));
            && SameBut(s, s', k) && s'.cache == s.cache && s'.table == s.table
            && s'.Ctl(k).phase == ListingAzure(p.g, p.snapshot[sp := s.table[sp]])
            && cfg.servicePrincipals - s'.Ctl(k).phase.snapshot.Keys < cfg.servicePrincipals - p.snapshot.Keys
  {
    var left := cfg.servicePrincipals - s.Ctl(k).phase.snapshot.Keys;
    assert sp in left && sp !in left - {sp};
  }

  lemma ToWriting(cfg: Config, s: State, k: Kind)
    requires |s.history| > 0 && s.Ctl(k).phase.ListingAzure? && s.Ctl(k).phase.snapshot.Keys == cfg.servicePrincipals
    ensures Enabled(cfg, s, BeginWrites(k))
    ensures var (p, s') := (s.Ctl(k).phase, Apply(cfg, s, BeginWrites(k)));
            && SameBut(s, s', k) && s'.cache == s.cache && s'.table == s.table
            && s'.Ctl(k).phase.Writing? && s'.Ctl(k).phase.g == p.g && s'.Ctl(k).phase.snapshot == p.snapshot
            && s'.Ctl(k).phase.done == {} && s'.Ctl(k).phase.failed == {}
  {
    hide PassWrites;
  }

  // ---- the lookups -------------------------------------------------------------------------------------

  /** Which lookups fail may be chosen among those the cache does not answer; those that do
      not fail must have an answer. */
  ghost predicate MayMiss(cfg: Config, s: State, lookups: set<string>, missed: set<string>) {
    forall c :: c in lookups ==> if c in missed then c !in s.cache else c in s.cache || ToLower(c) in cfg.directory
  }

  ghost predicate NoneInDirectory(cfg: Config, spellings: set<string>) {
    forall c :: c in spellings ==> ToLower(c) !in cfg.directory
  }

  lemma AfterLookups(cfg: Config, s: State, k: Kind, failed: set<Write>) returns (t: State)
    requires Inv(cfg, s) && s.Ctl(k).phase.Resolving? && s.Ctl(k).phase.lookups == {}
    ensures Reaches(cfg, s, t) && Inv(cfg, t) && EndsAs(cfg, s, t, k, failed) && t.cache == s.cache
    ensures var (p, r) := (s.Ctl(k).phase, t.passes[|s.passes|]);
            && r.snapshot == s.table && r.g == p.g && p.g.rbAt < |s.history| && p.g.crbAt < |s.history|
            && r.g.desired == CachedGroups(t.cache, Candidates(s.history, p.g.rbAt, p.g.crbAt))
  {
    hide Inv, Enabled, Apply, PassWrites, Reaches, Candidates, CachedGroups;
    HistoryIsNotEmpty(cfg, s);
    AllLookedUp(cfg, s, k);
    ToListing(cfg, s, k);
    StepKeepsInv(cfg, s, BeginAzureList(k));
    t := ListAll(cfg, Apply(cfg, s, BeginAzureList(k)), k, failed);
    StepThenReaches(cfg, s, BeginAzureList(k), t);
  }

  lemma {:induction false} ResolveAll(cfg: Config, s: State, k: Kind, missed: set<string>, failed: set<Write>)
    returns (t: State)
    requires Inv(cfg, s) && s.Ctl(k).phase.Resolving? && MayMiss(cfg, s, s.Ctl(k).phase.lookups, missed)
    ensures Reaches(cfg, s, t) && Inv(cfg, t) && EndsAs(cfg, s, t, k, failed)
    ensures t.cache.Keys == s.cache.Keys + (s.Ctl(k).phase.lookups - missed)
    ensures var (p, r) := (s.Ctl(k).phase, t.passes[|s.passes|]);
            && r.snapshot == s.table && p.g.rbAt < |s.history| && p.g.crbAt < |s.history|
            && r.g.desired == CachedGroups(t.cache, Candidates(s.history, p.g.rbAt, p.g.crbAt))
            && (r.g.allResolved <==> p.g.allResolved && NoneInDirectory(cfg, p.lookups * missed))
    decreases s.Ctl(k).phase.lookups
  {
    hide Inv, Enabled, Apply, PassWrites, Reaches, ToLower, Candidates, CachedGroups;
    var p := s.Ctl(k).phase;
    HistoryIsNotEmpty(cfg, s);
    if p.lookups == {} {
      t := AfterLookups(cfg, s, k, failed);
    } else {
      var c :| c in p.lookups;
      var a := Resolve(k, c, c !in missed);
      OneLookup(cfg, s, k, c, missed);
      StepKeepsInv(cfg, s, a);
      t := ResolveAll(cfg, Apply(cfg, s, a), k, missed, failed);
      StepThenReaches(cfg, s, a, t);
    }
  }

  lemma HistoryIsNotEmpty(cfg: Config, s: State)
    requires Inv(cfg, s)
    ensures |s.history| > 0
  {
  }

  lemma AllLookedUp(cfg: Config, s: State, k: Kind)
    requires Inv(cfg, s) && s.Ctl(k).phase.Resolving? && s.Ctl(k).phase.lookups == {}
    ensures var g := s.Ctl(k).phase.g;
            && g.rbAt < |s.history| && g.crbAt < |s.history|
            && g.desired == CachedGroups(s.cache, Candidates(s.history, g.rbAt, g.crbAt))
  {
    hide SpellingsOf, PassWrites, PassOk, NothingLost, Quiescent, CachedGroups;
    assert PhaseOk(cfg, s, s.Ctl(k).phase);
    var g := s.Ctl(k).phase.g;
    assert Candidates(s.history, g.rbAt, g.crbAt) - {} == Candidates(s.history, g.rbAt, g.crbAt);
  }

  lemma ToListing(cfg: Config, s: State, k: Kind)
    requires |s.history| > 0 && s.Ctl(k).phase.Resolving? && s.Ctl(k).phase.lookups == {}
    ensures Enabled(cfg, s, BeginAzureList(k))
    ensures var s' := Apply(cfg, s, BeginAzureList(k));
            && SameBut(s, s', k) && s'.cache == s.cache && s'.table == s.table
            && s'.Ctl(k).phase == ListingAzure(s.Ctl(k).phase.g, map[])
  {
  }

  lemma OneLookup(cfg: Config, s: State, k: Kind, c: string, missed: set<string>)
    requires |s.history| > 0 && s.Ctl(k).phase.Resolving? && c in s.Ctl(k).phase.lookups
    requires MayMiss(cfg, s, s.Ctl(k).phase.lookups, missed)
    ensures Enabled(cfg, s, Resolve(k, c, c !in missed))
    ensures var (p, s') := (s.Ctl(k).phase, Apply(cfg, s, Resolve(k, c, c !in missed)));
            && SameBut(s, s', k) && s'.table == s.table
            && s'.cache.Keys == s.cache.Keys + (if c in missed then {} else {c})
            && s'.Ctl(k).phase.Resolving? && s'.Ctl(k).phase.lookups == p.lookups - {c}
            && s'.Ctl(k).phase.g.rbAt == p.g.rbAt && s'.Ctl(k).phase.g.crbAt == p.g.crbAt
            && (s'.Ctl(k).phase.g.allResolved <==>
                  p.g.allResolved && (c in missed ==> ToLower(c) !in cfg.directory))
            && MayMiss(cfg, s', s'.Ctl(k).phase.lookups, missed)
  {
    hide ToLower;
  }

  // ---- a whole pass --------------------------------------------------------------------------------------

  lemma StartsPass(cfg: Config, s: State, k: Kind) returns (t: State)
    requires Inv(cfg, s) && s.Ctl(k) == Controller(true, Idle) && s.lock == None
    ensures |s.history| > 0
    ensures var now := |s.history| - 1;
            var resolving := Resolving(Gathered(now, now, {}, true), Candidates(s.history, now, now));
            t == s.WithCtl(k, Controller(false, resolving)).(lock := Some(k))
    ensures Inv(cfg, t) && forall u :: Reaches(cfg, t, u) ==> Reaches(cfg, s, u)
  {
    hide Inv, Candidates, Reaches;
    HistoryIsNotEmpty(cfg, s);
    var s1 := Apply(cfg, s, Dequeue(k));
    var s2 := Apply(cfg, s1, Acquire(k));
    var s3 := Apply(cfg, s2, ListRoleBindings(k, true));
    t := Apply(cfg, s3, ListClusterRoleBindings(k, true));
    StepKeepsInv(cfg, s, Dequeue(k));
    StepKeepsInv(cfg, s1, Acquire(k));
    StepKeepsInv(cfg, s2, ListRoleBindings(k, true));
    StepKeepsInv(cfg, s3, ListClusterRoleBindings(k, true));
    forall u | Reaches(cfg, t, u) ensures Reaches(cfg, s, u) {
      StepThenReaches(cfg, s3, ListClusterRoleBindings(k, true), u);
      StepThenReaches(cfg, s2, ListRoleBindings(k, true), u);
      StepThenReaches(cfg, s1, Acquire(k), u);
      StepThenReaches(cfg, s, Dequeue(k), u);
    }
  }

  lemma EndOfPass(cfg: Config, t: State)
    requires Inv(cfg, t) && t.lock == None && t.passes != []
    ensures var r := t.passes[|t.passes| - 1];
            t.table == r.result == PassResult(r.snapshot, r.g.desired, r.failed)
  {
    hide PassResult, PassWrites, SpellingsOf, NothingLost, Quiescent;
    assert PassOk(cfg, t, t.passes[|t.passes| - 1]);
  }

  lemma SameFailures(table: Table, desired: set<string>, failed: set<Write>)
    ensures PassResult(table, desired, failed * PassWrites(table, desired)) == PassResult(table, desired, failed)
  {
    hide PassWrites;
    PassWritesAre(table, desired);
    forall sp | sp in table
      ensures GroupsAfter(sp, table[sp], desired, failed * PassWrites(table, desired))
           == GroupsAfter(sp, table[sp], desired, failed)
    {
    }
  }

  /** Every outcome of a pass is the outcome of a run: while the mutex is free, whichever
      lookups fail that can, and whichever writes, a controller with its work item queued can
      take a pass that wants exactly the groups it then has in the cache for the spellings of
      the current bindings, and leaves exactly the table that those failures leave. */
  lemma EveryPassIsARun(cfg: Config, s: State, k: Kind, missed: set<string>, failed: set<Write>) returns (t: State)
    requires Inv(cfg, s) && s.Ctl(k) == Controller(true, Idle) && s.lock == None && |s.history| > 0
    requires MayMiss(cfg, s, Candidates(s.history, |s.history| - 1, |s.history| - 1), missed)
    ensures Reaches(cfg, s, t) && t.history == s.history && t.lock == None && !t.aborted
    ensures t.Ctl(k) == Controller(false, Idle) && forall k' :: k' != k ==> t.Ctl(k') == s.Ctl(k')
    ensures var all := Candidates(s.history, |s.history| - 1, |s.history| - 1);
            && t.cache.Keys == s.cache.Keys + (all - missed)
            && |t.passes| == |s.passes| + 1 && t.passes[..|s.passes|] == s.passes
            && var r := t.passes[|s.passes|];
               && r.owner == k && r.snapshot == s.table && r.g.desired == CachedGroups(t.cache, all)
               && (r.g.allResolved <==> NoneInDirectory(cfg, all * missed))
               && r.failed == failed * PassWrites(s.table, r.g.desired)
               && t.table == r.result == PassResult(s.table, r.g.desired, failed)
  {
    hide Inv, Enabled, Apply, PassWrites, PassResult, Reaches, Candidates, ToLower, CachedGroups;
    var s1 := StartsPass(cfg, s, k);
    t := ResolveAll(cfg, s1, k, missed, failed);
    EndOfPass(cfg, t);
    var r := t.passes[|s.passes|];
    SameFailures(s.table, r.g.desired, failed);
  }

  /** At startup either controller may be the first to take its pass, however that goes. */
  lemma StartupPass(cfg: Config, s0: State, k: Kind, missed: set<string>, failed: set<Write>) returns (t: State)
    requires Init(cfg, s0) && MayMiss(cfg, s0, Candidates(s0.history, 0, 0), missed)
    ensures Reaches(cfg, s0, t) && |t.passes| == 1 && t.passes[0].owner == k
    ensures t.Ctl(k) == Controller(false, Idle) && forall k' :: k' != k ==> t.Ctl(k') == Controller(true, Idle)
    ensures var all := Candidates(s0.history, 0, 0);
            t.cache.Keys == all - missed && t.table == PassResult(s0.table, CachedGroups(t.cache, all), failed)
  {
    hide Inv, PassResult, Reaches, Candidates, CachedGroups, ToLower;
    InitEstablishesInv(cfg, s0);
    t := EveryPassIsARun(cfg, s0, k, missed, failed);
  }
}
