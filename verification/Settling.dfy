/** The two controllers settle: without new events they cannot get stuck or run forever,
    and one failure-free round after any history brings Azure in line with the cluster. */
module Settling {
  import opened Wrappers
  import opened GoStrings
  import opened Bindings
  import opened ConvergencePass
  import opened ReconcileSystem

  /** A step the process takes by itself. */
  predicate IsControllerStep(a: Action) {
    !a.Event? && !a.Resync?
  }

  /** The pass returns an error, and the queue takes its work item back. */
  predicate Aborts(a: Action) {
    match a
    case ListRoleBindings(_, ok) => !ok
    case ListClusterRoleBindings(_, ok) => !ok
    case ListAzure(_, _, ok) => !ok
    case _ => false
  }

  /** A call fails that could have succeeded; a spelling the directory does not hold
      cannot be found. */
  predicate Fails(cfg: Config, a: Action) {
    match a
    case Resolve(_, spelling, ok) => !ok && ToLower(spelling) in cfg.directory
    case DoWrite(_, _, ok) => !ok
    case _ => Aborts(a)
  }

  // ---- no endless runs ---------------------------------------------------------------

  function Queued(s: State): nat {
    (if s.rb.dirty then 1 else 0) + if s.crb.dirty then 1 else 0
  }

  function Rank(p: Phase): nat {
    match p
    case Idle => 0
    case Writing(_, _, _, _, _) => 1
    case ListingAzure(_, _) => 2
    case Resolving(_, _) => 3
    case HaveRoleBindings(_) => 4
    case Locked => 5
    case Waiting => 6
  }

  function Work(cfg: Config, p: Phase): nat {
    match p
    case Resolving(_, lookups) => |lookups|
    case ListingAzure(_, snapshot) => |cfg.servicePrincipals - snapshot.Keys|
    case Writing(_, _, todo, _, _) => |todo|
    case _ => 0
  }

  function Ranks(s: State): nat { Rank(s.rb.phase) + Rank(s.crb.phase) }
  function WorkLeft(cfg: Config, s: State): nat { Work(cfg, s.rb.phase) + Work(cfg, s.crb.phase) }

  /** Lexicographically: work items queued, then phases to go, then calls left in the phase. */
  predicate Lower(cfg: Config, s': State, s: State) {
    || Queued(s') < Queued(s)
    || (Queued(s') == Queued(s) && Ranks(s') < Ranks(s))
    || (Queued(s') == Queued(s) && Ranks(s') == Ranks(s) && WorkLeft(cfg, s') < WorkLeft(cfg, s))
  }

  lemma OneControllerLowers(cfg: Config, s: State, s': State, k: Kind)
    requires forall k' :: k' != k ==> s'.Ctl(k') == s.Ctl(k')
    requires var (c, c') := (s.Ctl(k), s'.Ctl(k));
             || (c.dirty && !c'.dirty)
             || (c.dirty == c'.dirty && Rank(c'.phase) < Rank(c.phase))
             || (c.dirty == c'.dirty && Rank(c'.phase) == Rank(c.phase) && Work(cfg, c'.phase) < Work(cfg, c.phase))
    ensures Lower(cfg, s', s)
  {
    hide Rank, Work;
    assert s.rb == s.Ctl(RoleBindings) && s.crb == s.Ctl(ClusterRoleBindings);
    assert s'.rb == s'.Ctl(RoleBindings) && s'.crb == s'.Ctl(ClusterRoleBindings);
  }

  lemma ResolveLowers(cfg: Config, s: State, k: Kind, spelling: string, ok: bool)
    requires Enabled(cfg, s, Resolve(k, spelling, ok))
    ensures Lower(cfg, Apply(cfg, s, Resolve(k, spelling, ok)), s)
  {
  }

  lemma OneLess(sps: set<string>, snapshot: Table, sp: string, groups: set<string>)
    requires sp in sps && sp !in snapshot
    ensures |sps - snapshot[sp := groups].Keys| < |sps - snapshot.Keys|
  {
    var left := sps - snapshot.Keys;
    assert sps - snapshot[sp := groups].Keys == left - {sp};
    assert left == (left - {sp}) + {sp};
  }

  lemma ListedOne(cfg: Config, s: State, k: Kind, sp: string)
    requires Enabled(cfg, s, ListAzure(k, sp, true))
    ensures var p := s.Ctl(k).phase;
            Apply(cfg, s, ListAzure(k, sp, true)).Ctl(k).phase == ListingAzure(p.g, p.snapshot[sp := s.table[sp]])
  {
    hide Candidates, PassWrites;
  }

  lemma OneLessToList(cfg: Config, s: State, k: Kind, sp: string)
    requires Enabled(cfg, s, ListAzure(k, sp, true))
    ensures Work(cfg, Apply(cfg, s, ListAzure(k, sp, true)).Ctl(k).phase) < Work(cfg, s.Ctl(k).phase)
  {
    hide Apply;
    ListedOne(cfg, s, k, sp);
    OneLess(cfg.servicePrincipals, s.Ctl(k).phase.snapshot, sp, s.table[sp]);
  }

  lemma ListAzureLowers(cfg: Config, s: State, k: Kind, sp: string)
    requires Enabled(cfg, s, ListAzure(k, sp, true))
    ensures Lower(cfg, Apply(cfg, s, ListAzure(k, sp, true)), s)
  {
    hide Lower, Work;
    OneLessToList(cfg, s, k, sp);
    OneControllerLowers(cfg, s, Apply(cfg, s, ListAzure(k, sp, true)), k);
  }

  lemma WriteLowers(cfg: Config, s: State, k: Kind, w: Write, ok: bool)
    requires Enabled(cfg, s, DoWrite(k, w, ok))
    ensures Lower(cfg, Apply(cfg, s, DoWrite(k, w, ok)), s)
  {
  }

  lemma QueueStepLowers(cfg: Config, s: State, a: Action)
    requires Enabled(cfg, s, a) && (a.Dequeue? || a.Acquire? || a.Finish?)
    ensures Lower(cfg, Apply(cfg, s, a), s)
  {
    hide Lower, Work;
    OneControllerLowers(cfg, s, Apply(cfg, s, a), a.k);
  }

  lemma RoleBindingListLowers(cfg: Config, s: State, k: Kind)
    requires Enabled(cfg, s, ListRoleBindings(k, true))
    ensures Lower(cfg, Apply(cfg, s, ListRoleBindings(k, true)), s)
  {
  }

  lemma ClusterRoleBindingListLowers(cfg: Config, s: State, k: Kind)
    requires Enabled(cfg, s, ListClusterRoleBindings(k, true))
    ensures Lower(cfg, Apply(cfg, s, ListClusterRoleBindings(k, true)), s)
  {
    hide Lower, Work, Candidates;
    OneControllerLowers(cfg, s, Apply(cfg, s, ListClusterRoleBindings(k, true)), k);
  }

  lemma PhaseStepLowers(cfg: Config, s: State, a: Action)
    requires Enabled(cfg, s, a) && (a.BeginAzureList? || a.BeginWrites?)
    ensures Lower(cfg, Apply(cfg, s, a), s)
  {
    hide Lower, Work, PassWrites;
    OneControllerLowers(cfg, s, Apply(cfg, s, a), a.k);
  }

  /** Every step the process takes by itself lowers the measure, failed lookups and writes
      included, unless it ends a pass with an error: so without events and resyncs only a
      call that keeps failing can keep the process running. */
  lemma StepLowers(cfg: Config, s: State, a: Action)
    requires Enabled(cfg, s, a) && IsControllerStep(a) && !Aborts(a)
    ensures Lower(cfg, Apply(cfg, s, a), s)
  {
    hide Lower, Enabled, Apply;
    match a
    case Resolve(k, c, ok) => ResolveLowers(cfg, s, k, c, ok);
    case ListAzure(k, sp, _) => ListAzureLowers(cfg, s, k, sp);
    case DoWrite(k, w, ok) => WriteLowers(cfg, s, k, w, ok);
    case Dequeue(_) => QueueStepLowers(cfg, s, a);
    case Acquire(_) => QueueStepLowers(cfg, s, a);
    case Finish(_) => QueueStepLowers(cfg, s, a);
    case ListRoleBindings(k, _) => RoleBindingListLowers(cfg, s, k);
    case ListClusterRoleBindings(k, _) => ClusterRoleBindingListLowers(cfg, s, k);
    case _ => PhaseStepLowers(cfg, s, a);
  }

  // ---- no deadlock -------------------------------------------------------------------

  lemma GatheringStep(cfg: Config, s: State, k: Kind) returns (a: Action)
    requires |s.history| > 0 && PhaseOk(cfg, s, s.Ctl(k).phase)
    requires var p := s.Ctl(k).phase; p.Locked? || p.HaveRoleBindings? || p.Resolving?
    ensures IsControllerStep(a) && !Fails(cfg, a) && Enabled(cfg, s, a)
  {
    hide ResolvedSoFar, ToLower, Candidates;
    match s.Ctl(k).phase {
      case Locked => a := ListRoleBindings(k, true);
      case HaveRoleBindings(_) => a := ListClusterRoleBindings(k, true);
      case Resolving(g, lookups) =>
        if lookups == {} {
          a := BeginAzureList(k);
        } else {
          var c :| c in lookups;
          a := Resolve(k, c, c in s.cache || ToLower(c) in cfg.directory);
        }
    }
  }

  lemma ApplyingStep(cfg: Config, s: State, k: Kind) returns (a: Action)
    requires |s.history| > 0 && PhaseOk(cfg, s, s.Ctl(k).phase) && s.table.Keys == cfg.servicePrincipals
    requires var p := s.Ctl(k).phase; p.ListingAzure? || p.Writing?
    ensures IsControllerStep(a) && !Fails(cfg, a) && Enabled(cfg, s, a)
  {
    hide ResolvedSoFar, PassWrites, WithWrites, Candidates, ListsOk;
    match s.Ctl(k).phase {
      case ListingAzure(_, snapshot) =>
        if snapshot.Keys == cfg.servicePrincipals {
          a := BeginWrites(k);
        } else {
          assert snapshot.Keys <= s.table.Keys;
          var sp :| sp in cfg.servicePrincipals && sp !in snapshot;
          a := ListAzure(k, sp, true);
        }
      case Writing(_, _, todo, _, _) =>
        if todo == {} {
          a := Finish(k);
        } else {
          var w :| w in todo;
          a := DoWrite(k, w, true);
        }
    }
  }

  lemma HolderStep(cfg: Config, s: State, k: Kind) returns (a: Action)
    requires Inv(cfg, s) && s.lock == Some(k)
    ensures IsControllerStep(a) && !Fails(cfg, a) && Enabled(cfg, s, a)
  {
    hide PhaseOk, PassOk, NothingLost, Enabled;
    var p := s.Ctl(k).phase;
    assert p.HoldsLock() <==> s.lock == Some(k);
    if p.ListingAzure? || p.Writing? {
      a := ApplyingStep(cfg, s, k);
    } else {
      a := GatheringStep(cfg, s, k);
    }
  }

  /** No deadlock: unless both controllers are idle with empty queues, some step is enabled,
      and one whose call succeeds unless it looks up a group the directory does not hold. */
  lemma NotStuck(cfg: Config, s: State) returns (a: Action)
    requires Inv(cfg, s) && !Quiescent(s)
    ensures IsControllerStep(a) && !Fails(cfg, a) && Enabled(cfg, s, a)
  {
    hide NothingLost, PhaseOk, PassOk;
    if s.lock.Some? {
      a := HolderStep(cfg, s, s.lock.value);
    } else {
      var k := if s.rb.dirty || s.rb.phase != Idle then RoleBindings else ClusterRoleBindings;
      assert s.Ctl(k).phase.HoldsLock() <==> s.lock == Some(k);
      a := if s.Ctl(k).phase == Waiting then Acquire(k) else Dequeue(k);
    }
  }

  ghost predicate OutOfSteps(cfg: Config, s: State) {
    forall a :: IsControllerStep(a) ==> !Enabled(cfg, s, a)
  }

  /** The process is out of steps exactly when both controllers are idle with empty queues. */
  lemma OutOfStepsIffQuiescent(cfg: Config, s: State)
    requires Inv(cfg, s)
    ensures OutOfSteps(cfg, s) <==> Quiescent(s)
  {
    if Quiescent(s) {
      forall a | IsControllerStep(a) ensures !Enabled(cfg, s, a) { QuiescentDisables(cfg, s, a); }
    } else {
      hide Inv, Quiescent, Enabled;
      var a := NotStuck(cfg, s);
    }
  }

  lemma QuiescentDisables(cfg: Config, s: State, a: Action)
    requires Quiescent(s) && IsControllerStep(a)
    ensures !Enabled(cfg, s, a)
  {
  }

  // ---- one clean round -----------------------------------------------------------------

  /** `k` still has a pass of its own to start. */
  ghost predicate Pending(s: State, k: Kind) {
    s.Ctl(k).dirty || s.Ctl(k).phase == Waiting
  }

  ghost predicate CleanSoFar(p: Phase) {
    match p
    case Resolving(g, _) => g.allResolved
    case ListingAzure(g, _) => g.allResolved
    case Writing(g, _, _, _, failed) => g.allResolved && failed == {}
    case _ => true
  }

  ghost predicate LastPassClean(s: State) {
    s.passes != [] && !s.aborted && s.passes[|s.passes| - 1].Clean()
  }

  /** Once `k` has started, the pass in flight is clean, and between passes the latest is. */
  ghost predicate CleanRound(s: State, k: Kind) {
    Pending(s, k) || (CleanSoFar(s.Holder()) && (s.lock.None? ==> LastPassClean(s)))
  }

  lemma QueueStepKeepsRound(cfg: Config, s: State, a: Action, k: Kind)
    requires LockOk(s) && Enabled(cfg, s, a) && (a.Dequeue? || a.Acquire?) && CleanRound(s, k)
    ensures CleanRound(Apply(cfg, s, a), k)
  {
  }

  /** A step of the lock holder that keeps the lock and does not fail. */
  lemma HolderKeepsRound(s: State, s': State, h: Kind, k: Kind)
    requires CleanRound(s, k) && s.lock == Some(h) == s'.lock && s.Ctl(h).phase.HoldsLock()
    requires (forall k' :: k' != h ==> s'.Ctl(k') == s.Ctl(k')) && s'.Ctl(h).dirty == s.Ctl(h).dirty
    requires CleanSoFar(s.Ctl(h).phase) ==> CleanSoFar(s'.Ctl(h).phase)
    ensures CleanRound(s', k)
  {
  }

  lemma ListStepKeepsRound(cfg: Config, s: State, a: Action, k: Kind)
    requires LockOk(s) && Enabled(cfg, s, a) && (a.ListRoleBindings? || a.ListClusterRoleBindings?) && a.ok
    requires CleanRound(s, k)
    ensures CleanRound(Apply(cfg, s, a), k)
  {
  }

  lemma ResolveKeepsRound(cfg: Config, s: State, a: Action, k: Kind)
    requires LockOk(s) && Enabled(cfg, s, a) && a.Resolve? && !Fails(cfg, a) && CleanRound(s, k)
    ensures CleanRound(Apply(cfg, s, a), k)
  {
    hide CleanRound, ToLower;
    assert s.Ctl(a.k).phase.HoldsLock() <==> s.lock == Some(a.k);
    HolderKeepsRound(s, Apply(cfg, s, a), a.k, k);
  }

  lemma BeginKeepsRound(cfg: Config, s: State, a: Action, k: Kind)
    requires LockOk(s) && Enabled(cfg, s, a) && (a.BeginAzureList? || a.BeginWrites?) && CleanRound(s, k)
    ensures CleanRound(Apply(cfg, s, a), k)
  {
    hide CleanRound, PassWrites;
    assert s.Ctl(a.k).phase.HoldsLock() <==> s.lock == Some(a.k);
    HolderKeepsRound(s, Apply(cfg, s, a), a.k, k);
  }

  lemma AzureCallKeepsRound(cfg: Config, s: State, a: Action, k: Kind)
    requires LockOk(s) && Enabled(cfg, s, a) && (a.ListAzure? || a.DoWrite?) && a.ok && CleanRound(s, k)
    ensures CleanRound(Apply(cfg, s, a), k)
  {
    hide CleanRound, ApplyWrite;
    assert s.Ctl(a.k).phase.HoldsLock() <==> s.lock == Some(a.k);
    HolderKeepsRound(s, Apply(cfg, s, a), a.k, k);
  }

  lemma FinishKeepsRound(cfg: Config, s: State, h: Kind, k: Kind)
    requires LockOk(s) && Enabled(cfg, s, Finish(h)) && CleanRound(s, k)
    ensures CleanRound(Apply(cfg, s, Finish(h)), k)
  {
  }

  lemma StepKeepsRound(cfg: Config, s: State, a: Action, k: Kind)
    requires LockOk(s) && Enabled(cfg, s, a) && IsControllerStep(a) && !Fails(cfg, a) && CleanRound(s, k)
    ensures CleanRound(Apply(cfg, s, a), k)
  {
    hide CleanRound, Enabled, Apply, LockOk;
    if a.Dequeue? || a.Acquire? {
      QueueStepKeepsRound(cfg, s, a, k);
    } else if a.ListRoleBindings? || a.ListClusterRoleBindings? {
      ListStepKeepsRound(cfg, s, a, k);
    } else if a.Resolve? {
      ResolveKeepsRound(cfg, s, a, k);
    } else if a.BeginAzureList? || a.BeginWrites? {
      BeginKeepsRound(cfg, s, a, k);
    } else if a.Finish? {
      FinishKeepsRound(cfg, s, a.k, k);
    } else {
      AzureCallKeepsRound(cfg, s, a, k);
    }
  }

  /** Only steps of the process, none of them failing. */
  ghost predicate IsCleanRun(cfg: Config, s: State, actions: seq<Action>) {
    IsRun(cfg, s, actions) && forall i :: 0 <= i < |actions| ==> IsControllerStep(actions[i]) && !Fails(cfg, actions[i])
  }

  lemma ControllerStepKeepsHistory(cfg: Config, s: State, a: Action)
    requires Enabled(cfg, s, a) && IsControllerStep(a)
    ensures Apply(cfg, s, a).history == s.history
  {
    hide Candidates, PassWrites, ApplyWrite, State.WithCtl;
    ControllersAreNotHistory();
  }

  lemma {:induction false} CleanRunKeeps(cfg: Config, s: State, actions: seq<Action>, k: Kind)
    requires Inv(cfg, s) && IsCleanRun(cfg, s, actions) && CleanRound(s, k)
    ensures var s' := Exec(cfg, s, actions); Inv(cfg, s') && CleanRound(s', k) && s'.history == s.history
    decreases |actions|
  {
    hide CleanRound, Enabled, Apply, Inv;
    if actions != [] {
      InvLock(cfg, s);
      StepKeepsRound(cfg, s, actions[0], k);
      StepKeepsInv(cfg, s, actions[0]);
      ControllerStepKeepsHistory(cfg, s, actions[0]);
      CleanRunKeeps(cfg, Apply(cfg, s, actions[0]), actions[1..], k);
    }
  }

  lemma InvLock(cfg: Config, s: State)
    ensures Inv(cfg, s) ==> LockOk(s)
  {
  }

  /** Eventual consistency: whatever happened before, once the process is resynced and no
      event or failure intervenes, it is out of steps only when Azure is in line with the
      cluster. */
  lemma CleanRoundConverges(cfg: Config, s0: State, before: seq<Action>, k: Kind, after: seq<Action>)
    requires Init(cfg, s0) && IsRun(cfg, s0, before)
    requires |Exec(cfg, s0, before).history| > 0
    requires IsCleanRun(cfg, Apply(cfg, Exec(cfg, s0, before), Resync(k)), after)
    requires OutOfSteps(cfg, Exec(cfg, Apply(cfg, Exec(cfg, s0, before), Resync(k)), after))
    ensures var s := Exec(cfg, Apply(cfg, Exec(cfg, s0, before), Resync(k)), after);
            InLine(cfg, s.table, Exec(cfg, s0, before).Current())
  {
    hide Inv, DesiredGroups, Quiescent, OutOfSteps;
    InvAfterRun(cfg, s0, before);
    var s1 := Exec(cfg, s0, before);
    var s2 := Apply(cfg, s1, Resync(k));
    StepKeepsInv(cfg, s1, Resync(k));
    CleanRunKeeps(cfg, s2, after, k);
    var s := Exec(cfg, s2, after);
    OutOfStepsIffQuiescent(cfg, s);
    QuiescentRoundIsClean(cfg, s, k);
    QuiescentIsConverged(cfg, s);
  }

  lemma QuiescentRoundIsClean(cfg: Config, s: State, k: Kind)
    requires Inv(cfg, s) && Quiescent(s) && CleanRound(s, k)
    ensures LastPassClean(s)
  {
  }

  /** And such a round exists: from any state the process can get to, its own steps lead
      without failure to empty queues. */
  lemma {:induction false} Settles(cfg: Config, s: State) returns (actions: seq<Action>)
    requires Inv(cfg, s)
    ensures IsCleanRun(cfg, s, actions) && Quiescent(Exec(cfg, s, actions))
    decreases Queued(s), Ranks(s), WorkLeft(cfg, s)
  {
    hide Inv, Enabled, Apply, Quiescent, Queued, Ranks, WorkLeft;
    actions := [];
    if !Quiescent(s) {
      var a := NotStuck(cfg, s);
      StepKeepsInv(cfg, s, a);
      StepLowers(cfg, s, a);
      ControllerStepKeepsHistory(cfg, s, a);
      var rest := Settles(cfg, Apply(cfg, s, a));
      actions := [a] + rest;
      assert actions[1..] == rest;
    }
  }

  /** Together: after any history there is such a round, and it ends in line. */
  lemma ARoundBringsInLine(cfg: Config, s0: State, before: seq<Action>, k: Kind)
    requires Init(cfg, s0) && IsRun(cfg, s0, before)
    ensures |Exec(cfg, s0, before).history| > 0
    ensures var s := Exec(cfg, s0, before);
            exists after :: IsCleanRun(cfg, Apply(cfg, s, Resync(k)), after)
                            && InLine(cfg, Exec(cfg, Apply(cfg, s, Resync(k)), after).table, s.Current())
  {
    hide Inv, DesiredGroups, Quiescent, OutOfSteps, InLine, NothingLost;
    InvAfterRun(cfg, s0, before);
    var s1 := Exec(cfg, s0, before);
    InvHistory(cfg, s1);
    StepKeepsInv(cfg, s1, Resync(k));
    var s2 := Apply(cfg, s1, Resync(k));
    var after := Settles(cfg, s2);
    CleanRunKeeps(cfg, s2, after, k);
    OutOfStepsIffQuiescent(cfg, Exec(cfg, s2, after));
    CleanRoundConverges(cfg, s0, before, k, after);
  }

  lemma InvHistory(cfg: Config, s: State)
    ensures Inv(cfg, s) ==> |s.history| > 0
  {
  }
}
