/** After any history, over any rows, finitely many clean rounds bring Azure in line: every
    round that does not get there deletes a row of an undesired principal. */
module RowRounds {
  import opened Wrappers
  import opened GoStrings
  import opened Bindings
  import opened ConvergencePass
  import opened ReconcileSystem
  import opened AzureRows
  import opened AzureRowRefinement
  import opened RowSystem
  import opened Settling

  /** A resync of one controller, and what the process does about it. */
  datatype Round = Round(k: Kind, steps: seq<RowAction>)

  function Resynced(cfg: Config, role: string, c: RowState, k: Kind): RowState
    requires |c.s.history| > 0
  {
    RowApply(cfg, role, c, RowAction(Resync(k), "", 0))
  }

  /** Steps of the process alone, in which every call succeeds that can. */
  ghost predicate IsCleanRowRun(cfg: Config, role: string, c: RowState, rs: seq<RowAction>) {
    && IsRowRun(cfg, role, c, rs) && AllFresh(cfg, role, c, rs)
    && forall i :: 0 <= i < |rs| ==> IsControllerStep(rs[i].action) && !Fails(cfg, rs[i].action)
  }

  /** From one quiescent state to the next. */
  ghost predicate IsRound(cfg: Config, role: string, c: RowState, r: Round) {
    && |c.s.history| > 0 && IsCleanRowRun(cfg, role, Resynced(cfg, role, c, r.k), r.steps)
    && Quiescent(RowExec(cfg, role, Resynced(cfg, role, c, r.k), r.steps).s)
  }

  ghost function AfterRound(cfg: Config, role: string, c: RowState, r: Round): RowState
    requires IsRound(cfg, role, c, r)
  {
    RowExec(cfg, role, Resynced(cfg, role, c, r.k), r.steps)
  }

  ghost predicate AreRounds(cfg: Config, role: string, c: RowState, rounds: seq<Round>)
    decreases |rounds|
  {
    rounds == []
    || (IsRound(cfg, role, c, rounds[0]) && AreRounds(cfg, role, AfterRound(cfg, role, c, rounds[0]), rounds[1..]))
  }

  ghost function AfterRounds(cfg: Config, role: string, c: RowState, rounds: seq<Round>): RowState
    requires AreRounds(cfg, role, c, rounds)
    decreases |rounds|
  {
    if rounds == [] then c else AfterRounds(cfg, role, AfterRound(cfg, role, c, rounds[0]), rounds[1..])
  }

  // ---- one round is one clean pass over the rows as they were --------------------------------------

  /** `k` alone is at work: it has yet to write, and the rows are as they were, or it has
      begun to, and has listed them as they were. */
  ghost predicate OnePass(rows: Store, c: RowState, k: Kind) {
    && (forall k' :: k' != k ==> c.s.Ctl(k') == Controller(false, Idle))
    && var ctl := c.s.Ctl(k);
       if ctl.phase.Writing? || ctl == Controller(false, Idle) then !ctl.dirty && c.listed == rows
       else c.store == rows && (ctl.dirty <==> ctl.phase == Idle)
  }

  /** Of the steps that do not fail, only the first takes the work item off the queue, only
      two move to and from the writes, and none returns to the queue. */
  ghost predicate InTurn(x: Controller, x': Controller, a: Action) {
    if a.Dequeue? then x == Controller(true, Idle) && x' == Controller(false, Waiting)
    else
      && x.phase != Idle && x'.dirty == x.dirty
      && (x.phase.Writing? <==> a.DoWrite? || a.Finish?) && (x'.phase.Writing? <==> a.BeginWrites? || a.DoWrite?)
      && (x'.phase == Idle <==> a.Finish?)
  }

  ghost predicate OnlyInTurn(s: State, s': State, a: Action)
    requires IsControllerStep(a)
  {
    InTurn(s.Ctl(a.k), s'.Ctl(a.k), a) && forall k' :: k' != a.k ==> s'.Ctl(k') == s.Ctl(k')
  }

  lemma QueueStepInTurn(cfg: Config, s: State, a: Action)
    requires Enabled(cfg, s, a) && (a.Dequeue? || a.Acquire? || a.Finish?)
    ensures OnlyInTurn(s, Apply(cfg, s, a), a)
  {
  }

  lemma GatheringInTurn(cfg: Config, s: State, a: Action)
    requires Enabled(cfg, s, a) && !Aborts(a) && (a.ListRoleBindings? || a.ListClusterRoleBindings? || a.Resolve?)
    ensures OnlyInTurn(s, Apply(cfg, s, a), a)
  {
    hide Candidates, ToLower;
  }

  lemma ApplyingInTurn(cfg: Config, s: State, a: Action)
    requires Enabled(cfg, s, a) && !Aborts(a) && (a.BeginAzureList? || a.ListAzure? || a.BeginWrites? || a.DoWrite?)
    ensures OnlyInTurn(s, Apply(cfg, s, a), a)
  {
    hide PassWrites, ApplyWrite;
  }

  lemma StepInTurn(cfg: Config, s: State, a: Action)
    requires Enabled(cfg, s, a) && IsControllerStep(a) && !Aborts(a)
    ensures OnlyInTurn(s, Apply(cfg, s, a), a)
  {
    hide Enabled, Apply, OnlyInTurn;
    if a.Dequeue? || a.Acquire? || a.Finish? {
      QueueStepInTurn(cfg, s, a);
    } else if a.ListRoleBindings? || a.ListClusterRoleBindings? || a.Resolve? {
      GatheringInTurn(cfg, s, a);
    } else {
      ApplyingInTurn(cfg, s, a);
    }
  }

  lemma CleanStepKeepsPass(cfg: Config, role: string, rows: Store, c: RowState, r: RowAction, k: Kind)
    requires OnePass(rows, c, k) && Enabled(cfg, c.s, r.action) && IsControllerStep(r.action) && !Fails(cfg, r.action)
    ensures OnePass(rows, RowApply(cfg, role, c, r), k)
  {
    hide Enabled, Apply, View, ApplyCall;
    StepInTurn(cfg, c.s, r.action);
    var c' := RowApply(cfg, role, c, r);
    assert forall k' :: c'.s.Ctl(k') == Apply(cfg, c.s, r.action).Ctl(k');
    assert r.action.k == k;
  }

  lemma TracksLock(cfg: Config, role: string, c: RowState, t: State)
    requires Tracks(cfg, role, c, t)
    ensures LockOk(c.s) && |c.s.history| > 0 && AllIdsOk(c.store) && c.store.Keys == cfg.servicePrincipals
    ensures c.s.table.Keys == t.table.Keys == cfg.servicePrincipals
  {
    hide PhaseOk, PassOk, NothingLost, Quiescent, PhaseTracked, LastTracked, AllIdsOk;
    ViewKeys(c.store, role);
    assert t.rb == c.s.rb && t.crb == c.s.crb && t.lock == c.s.lock;
    forall k ensures c.s.Ctl(k).phase.HoldsLock() <==> c.s.lock == Some(k) {
      assert t.Ctl(k).phase.HoldsLock() <==> t.lock == Some(k);
    }
  }

  lemma RoundIgnoresTable(s: State, table: Table, k: Kind)
    ensures CleanRound(s.(table := table), k) <==> CleanRound(s, k)
  {
  }

  lemma {:induction false} CleanRowRunKeeps(cfg: Config, role: string, c: RowState, t: State, rs: seq<RowAction>,
                                            rows: Store, k: Kind) returns (t': State)
    requires Tracks(cfg, role, c, t) && IsCleanRowRun(cfg, role, c, rs) && CleanRound(c.s, k) && OnePass(rows, c, k)
    ensures var c' := RowExec(cfg, role, c, rs);
            && Tracks(cfg, role, c', t') && CleanRound(c'.s, k) && OnePass(rows, c', k)
            && c'.s.history == c.s.history
    decreases |rs|
  {
    hide Tracks, CleanRound, OnePass, Enabled, Apply, Fresh, View;
    t' := t;
    if rs != [] {
      var a, c1 := rs[0].action, RowApply(cfg, role, c, rs[0]);
      TracksLock(cfg, role, c, t);
      StepKeepsRound(cfg, c.s, a, k);
      RoundIgnoresTable(Apply(cfg, c.s, a), View(c1.store, role), k);
      ControllerStepKeepsHistory(cfg, c.s, a);
      CleanStepKeepsPass(cfg, role, rows, c, rs[0], k);
      var t1 := TrackStep(cfg, role, c, t, rs[0]);
      t' := CleanRowRunKeeps(cfg, role, c1, t1, rs[1..], rows, k);
    }
  }

  lemma Restarted(cfg: Config, role: string, c: RowState, k: Kind)
    requires |c.s.history| > 0 && Quiescent(c.s)
    ensures var c1 := Resynced(cfg, role, c, k);
            CleanRound(c1.s, k) && OnePass(c.store, c1, k) && c1.s.history == c.s.history
  {
    hide View;
  }

  /** The groups the bindings name now. */
  function Desired(cfg: Config, c: RowState): set<string>
    requires |c.s.history| > 0
  {
    DesiredGroups(c.s.Current(), DirectoryLookup(cfg.directory))
  }

  /** The latest pass wanted what the bindings name now. */
  lemma LatestWants(cfg: Config, role: string, c: RowState, t: State)
    requires Tracks(cfg, role, c, t) && Quiescent(c.s) && LastPassClean(c.s)
    ensures |c.s.history| > 0
    ensures cfg.servicePrincipals != {} ==> c.s.passes[|c.s.passes| - 1].g.desired == Desired(cfg, c)
  {
    hide DesiredGroups, PassResult, PassWrites, DirectoryLookup, AllIdsOk, View, Follows;
    TracksLock(cfg, role, c, t);
    assert Quiescent(t) && !RowSystem.Writing(t);
    QuiescentIsConverged(cfg, t);
    LastIsTable(cfg, t);
    var r := t.passes[|t.passes| - 1];
    if sp :| sp in cfg.servicePrincipals {
      LastListedAll(cfg, t);
      PassBounds(r.snapshot, r.g.desired, {}, sp);
    }
  }

  lemma LastListedAll(cfg: Config, t: State)
    requires Inv(cfg, t) && t.passes != []
    ensures t.passes[|t.passes| - 1].snapshot.Keys == cfg.servicePrincipals
  {
    hide PhaseOk, NothingLost, PassResult, PassWrites, SpellingsOf;
    assert PassOk(cfg, t, t.passes[|t.passes| - 1]);
  }

  lemma LatestWrote(cfg: Config, role: string, c: RowState, t: State)
    requires Tracks(cfg, role, c, t) && Quiescent(c.s) && LastPassClean(c.s)
    ensures Follows(c.listed, c.store, role, PassWrites(View(c.listed, role), c.s.passes[|c.s.passes| - 1].g.desired))
  {
    hide Inv, AllIdsOk, View, Follows, PassWrites;
    assert Quiescent(t) && !RowSystem.Writing(t);
    QuiescentIsConverged(cfg, t);
    var r := c.s.passes[|c.s.passes| - 1];
    var done := PassWrites(View(c.listed, role), r.g.desired);
    assert done - {} == done && r.failed == {};
  }

  lemma NothingToFollow(before: Store, after: Store, role: string, done: set<Write>)
    requires before.Keys == after.Keys == {}
    ensures Follows(before, after, role, done)
  {
    hide GroupAfter;
  }

  lemma RoundEnds(cfg: Config, rows: Store, c: RowState, k: Kind)
    requires Quiescent(c.s) && LockOk(c.s) && CleanRound(c.s, k) && OnePass(rows, c, k)
    ensures LastPassClean(c.s) && c.listed == rows
  {
  }

  /** What a round does to the rows. */
  ghost predicate RoundEffect(cfg: Config, role: string, c: RowState, c': RowState)
    requires |c.s.history| > 0
  {
    && c'.s.history == c.s.history && Quiescent(c'.s)
    && Follows(c.store, c'.store, role, PassWrites(View(c.store, role), Desired(cfg, c)))
  }

  lemma RoundIsOnePass(cfg: Config, role: string, c: RowState, t: State, r: Round) returns (t': State)
    requires Tracks(cfg, role, c, t) && Quiescent(c.s) && IsRound(cfg, role, c, r)
    ensures Tracks(cfg, role, AfterRound(cfg, role, c, r), t')
    ensures RoundEffect(cfg, role, c, AfterRound(cfg, role, c, r))
  {
    hide Tracks, IsCleanRowRun, IsRowRun, RowExec, RowApply, DesiredGroups, Follows, PassWrites, View, Quiescent,
         CleanRound, OnePass, LastPassClean, LockOk;
    var t1 := TrackStep(cfg, role, c, t, RowAction(Resync(r.k), "", 0));
    Restarted(cfg, role, c, r.k);
    t' := CleanRowRunKeeps(cfg, role, Resynced(cfg, role, c, r.k), t1, r.steps, c.store, r.k);
    var c' := AfterRound(cfg, role, c, r);
    TracksLock(cfg, role, c, t);
    TracksLock(cfg, role, c', t');
    RoundEnds(cfg, c.store, c', r.k);
    if cfg.servicePrincipals == {} {
      NothingToFollow(c.store, c'.store, role, PassWrites(View(c.store, role), Desired(cfg, c)));
    } else {
      LatestWants(cfg, role, c', t');
      LatestWrote(cfg, role, c', t');
    }
  }

  // ---- rows of undesired principals ----------------------------------------------------------------

  /** The rows, of any role, that belong to undesired principals. */
  function Undesired(store: Store, desired: set<string>): set<(string, Row)> {
    set sp, r | sp in store && r in store[sp] && Holds(UndesiredPrincipal(desired), r) :: (sp, r)
  }

  lemma {:induction false} FilterKeepsIds(rows: seq<Row>, p: Condition)
    requires IdsOk(rows)
    ensures IdsOk(Filter(rows, p))
  {
    hide Holds;
    if rows != [] {
      var front, last := rows[..|rows| - 1], rows[|rows| - 1];
      FilterKeepsIds(front, p);
      forall r | r in Filter(front, p) ensures r.id != last.id {
        FilterHas(front, p, r);
        var i :| 0 <= i < |front| && front[i] == r;
        assert rows[i] == r;
      }
    }
  }

  /** A row of an undesired principal was there before. */
  lemma UndesiredWasThere(store: Store, after: Store, role: string, desired: set<string>, sp: string, r: Row)
    requires Follows(store, after, role, PassWrites(View(store, role), desired)) && sp in after && r in after[sp]
    requires Holds(UndesiredPrincipal(desired), r)
    ensures sp in store && r in store[sp]
  {
    hide Filter, PassWrites, ManagedGroups;
    var (g, done) := (r.principal.value, PassWrites(View(store, role), desired));
    PassWritesAre(View(store, role), desired);
    assert GroupAfter(store[sp], after[sp], role, sp, g, done);
    FilterHas(after[sp], OfPrincipal(g), r);
    assert r in RowsOf(store[sp], g);
    FilterHas(store[sp], OfPrincipal(g), r);
  }

  /** The pass deletes a row of every group that it finds stale. */
  lemma StaleLosesRow(store: Store, after: Store, role: string, desired: set<string>, sp: string, g: string)
    returns (r: Row)
    requires AllIdsOk(store) && Follows(store, after, role, PassWrites(View(store, role), desired))
    requires sp in store && g in ManagedGroups(store[sp], role) && g !in desired
    ensures (sp, r) in Undesired(store, desired) && (sp, r) !in Undesired(after, desired)
  {
    hide Filter, PassWrites, ManagedGroups;
    var done := PassWrites(View(store, role), desired);
    PassWritesAre(View(store, role), desired);
    assert GroupAfter(store[sp], after[sp], role, sp, g, done);
    ManagedIffRow(store[sp], role, g);
    var own := RowsOf(store[sp], g);
    r := own[0];
    FilterHas(store[sp], OfPrincipal(g), r);
    FilterKeepsIds(store[sp], OfPrincipal(g));
    FilterHas(after[sp], OfPrincipal(g), r);
  }

  ghost predicate NoneStale(store: Store, role: string, desired: set<string>) {
    forall sp :: sp in store ==> ManagedGroups(store[sp], role) <= desired
  }

  lemma ProperSubset<T>(a: set<T>, b: set<T>, x: T)
    requires a <= b && x in b && x !in a
    ensures |a| < |b|
  {
    assert b == a + (b - a);
  }

  /** A round that finds a stale group leaves fewer rows of undesired principals. */
  lemma FewerRows(store: Store, after: Store, role: string, desired: set<string>)
    requires AllIdsOk(store) && Follows(store, after, role, PassWrites(View(store, role), desired))
    requires !NoneStale(store, role, desired)
    ensures |Undesired(after, desired)| < |Undesired(store, desired)|
  {
    hide Follows, PassWrites, ManagedGroups, Holds, AllIdsOk;
    var sp :| sp in store && !(ManagedGroups(store[sp], role) <= desired);
    var g :| g in ManagedGroups(store[sp], role) && g !in desired;
    var r := StaleLosesRow(store, after, role, desired, sp, g);
    forall sp, r | (sp, r) in Undesired(after, desired) ensures (sp, r) in Undesired(store, desired) {
      UndesiredWasThere(store, after, role, desired, sp, r);
    }
    ProperSubset(Undesired(after, desired), Undesired(store, desired), (sp, r));
  }

  /** A round that finds none makes the listing what it should be. */
  lemma NoneStaleReaches(store: Store, after: Store, role: string, desired: set<string>)
    requires Follows(store, after, role, PassWrites(View(store, role), desired)) && NoneStale(store, role, desired)
    ensures forall sp :: sp in store ==> sp in after && ManagedGroups(after[sp], role) == desired
  {
    hide PassWrites, ManagedGroups, Filter;
    var done := PassWrites(View(store, role), desired);
    PassWritesAre(View(store, role), desired);
    forall sp, g | sp in store ensures g in ManagedGroups(after[sp], role) <==> g in desired {
      assert GroupAfter(store[sp], after[sp], role, sp, g, done);
      ManagedIffRow(store[sp], role, g);
      ManagedIffRow(after[sp], role, g);
    }
  }

  // ---- round after round ----------------------------------------------------------------------------

  ghost predicate RowsInLine(cfg: Config, role: string, c: RowState) {
    |c.s.history| > 0 && InLine(cfg, View(c.store, role), c.s.Current())
  }

  lemma InLineIffListed(cfg: Config, role: string, c: RowState)
    requires |c.s.history| > 0 && c.store.Keys == cfg.servicePrincipals
    ensures RowsInLine(cfg, role, c)
            <==> forall sp :: sp in c.store ==> ManagedGroups(c.store[sp], role) == Desired(cfg, c)
  {
    hide DesiredGroups, ManagedGroups, DirectoryLookup;
    if RowsInLine(cfg, role, c) {
      assert forall sp :: sp in c.store ==> View(c.store, role)[sp] == ManagedGroups(c.store[sp], role);
    }
  }

  /** A round ends in line, or with fewer rows of undesired principals. */
  lemma RoundHelps(cfg: Config, role: string, c: RowState, t: State, r: Round) returns (t': State)
    requires Tracks(cfg, role, c, t) && Quiescent(c.s) && IsRound(cfg, role, c, r)
    ensures var c' := AfterRound(cfg, role, c, r);
            && Tracks(cfg, role, c', t') && c'.s.history == c.s.history
            && (NoneStale(c.store, role, Desired(cfg, c)) ==> RowsInLine(cfg, role, c'))
            && (NoneStale(c.store, role, Desired(cfg, c))
                || |Undesired(c'.store, Desired(cfg, c))| < |Undesired(c.store, Desired(cfg, c))|)
  {
    hide Tracks, IsRound, AfterRound, Follows, PassWrites, View, DesiredGroups, RowsInLine, NoneStale, AllIdsOk,
         Undesired, LockOk, Quiescent;
    t' := RoundIsOnePass(cfg, role, c, t, r);
    var c' := AfterRound(cfg, role, c, r);
    TracksLock(cfg, role, c, t);
    TracksLock(cfg, role, c', t');
    if NoneStale(c.store, role, Desired(cfg, c)) {
      NoneStaleReaches(c.store, c'.store, role, Desired(cfg, c));
      InLineIffListed(cfg, role, c');
    } else {
      FewerRows(c.store, c'.store, role, Desired(cfg, c));
    }
  }

  lemma {:induction false} RoundsStay(cfg: Config, role: string, c: RowState, t: State, rounds: seq<Round>)
    requires Tracks(cfg, role, c, t) && Quiescent(c.s) && AreRounds(cfg, role, c, rounds) && RowsInLine(cfg, role, c)
    ensures RowsInLine(cfg, role, AfterRounds(cfg, role, c, rounds))
    ensures AfterRounds(cfg, role, c, rounds).s.history == c.s.history
    decreases |rounds|
  {
    hide Tracks, IsCleanRowRun, RowExec, RowApply, RowsInLine, DesiredGroups, ManagedGroups, LockOk, Quiescent,
         AllIdsOk;
    if rounds != [] {
      TracksLock(cfg, role, c, t);
      InLineIffListed(cfg, role, c);
      var t' := RoundHelps(cfg, role, c, t, rounds[0]);
      RoundsStay(cfg, role, AfterRound(cfg, role, c, rounds[0]), t', rounds[1..]);
    }
  }

  /** More rounds than there are rows of undesired principals. */
  lemma {:induction false} RoundsReach(cfg: Config, role: string, c: RowState, t: State, rounds: seq<Round>)
    requires Tracks(cfg, role, c, t) && Quiescent(c.s) && AreRounds(cfg, role, c, rounds)
    requires |c.s.history| > 0 && |rounds| > |Undesired(c.store, Desired(cfg, c))|
    ensures RowsInLine(cfg, role, AfterRounds(cfg, role, c, rounds))
    ensures AfterRounds(cfg, role, c, rounds).s.history == c.s.history
    decreases |rounds|
  {
    hide Tracks, IsCleanRowRun, RowExec, RowApply, RowsInLine, DesiredGroups, NoneStale, Undesired, Quiescent;
    var c' := AfterRound(cfg, role, c, rounds[0]);
    var t' := RoundHelps(cfg, role, c, t, rounds[0]);
    if NoneStale(c.store, role, Desired(cfg, c)) {
      RoundsStay(cfg, role, c', t', rounds[1..]);
    } else {
      RoundsReach(cfg, role, c', t', rounds[1..]);
    }
  }

  // ---- such rounds exist ----------------------------------------------------------------------------

  lemma EnabledAlike(cfg: Config, s: State, t: State, a: Action)
    requires Like(s, t) && s.table.Keys == t.table.Keys && Enabled(cfg, t, a)
    ensures Enabled(cfg, s, a)
  {
    hide Applies, ToLower;
  }

  /** Graph has an id left for every row. */
  lemma FreshOne(c: RowState, a: Action) returns (r: RowAction)
    ensures r.action == a && Fresh(c, r)
  {
    r := RowAction(a, "", 0);
    if a.DoWrite? && a.w.sp in c.store { r := RowAction(a, UnusedId(c.store[a.w.sp]), 0); }
  }

  lemma SameQueues(s: State, table: Table, cfg: Config)
    ensures var s' := s.(table := table);
            Queued(s') == Queued(s) && Ranks(s') == Ranks(s) && WorkLeft(cfg, s') == WorkLeft(cfg, s)
  {
  }

  /** From wherever a process has got to, its own steps lead without failure to empty queues. */
  lemma {:induction false} RowsSettle(cfg: Config, role: string, c: RowState, t: State) returns (rs: seq<RowAction>)
    requires Tracks(cfg, role, c, t)
    ensures IsCleanRowRun(cfg, role, c, rs) && Quiescent(RowExec(cfg, role, c, rs).s)
    decreases Queued(c.s), Ranks(c.s), WorkLeft(cfg, c.s)
  {
    hide Tracks, Enabled, Apply, Quiescent, Queued, Ranks, WorkLeft, Fresh, View, LockOk, AllIdsOk, Inv;
    rs := [];
    if !Quiescent(c.s) {
      TracksLike(cfg, role, c, t);
      TracksLock(cfg, role, c, t);
      QuietAlike(c.s, t);
      var a := NotStuck(cfg, t);
      EnabledAlike(cfg, c.s, t, a);
      var r := FreshOne(c, a);
      StepLowers(cfg, c.s, a);
      var c1 := RowApply(cfg, role, c, r);
      SameQueues(Apply(cfg, c.s, a), View(c1.store, role), cfg);
      var t1 := TrackStep(cfg, role, c, t, r);
      var rest := RowsSettle(cfg, role, c1, t1);
      rs := [r] + rest;
      assert rs[1..] == rest;
    }
  }

  lemma QuietAlike(s: State, t: State)
    requires Like(s, t)
    ensures Quiescent(s) <==> Quiescent(t)
  {
  }

  lemma {:induction false} RoundsExist(cfg: Config, role: string, c: RowState, t: State, n: nat)
    returns (rounds: seq<Round>)
    requires Tracks(cfg, role, c, t) && Quiescent(c.s)
    ensures |rounds| == n && AreRounds(cfg, role, c, rounds)
    decreases n
  {
    hide Tracks, IsCleanRowRun, RowExec, Quiescent, Enabled, Apply, LockOk, AllIdsOk, Inv, View;
    rounds := [];
    if n > 0 {
      TracksLock(cfg, role, c, t);
      EveryResync(cfg, c.s, RoleBindings);
      var t1 := TrackStep(cfg, role, c, t, RowAction(Resync(RoleBindings), "", 0));
      var steps := RowsSettle(cfg, role, Resynced(cfg, role, c, RoleBindings), t1);
      var r := Round(RoleBindings, steps);
      var t' := RoundIsOnePass(cfg, role, c, t, r);
      var rest := RoundsExist(cfg, role, AfterRound(cfg, role, c, r), t', n - 1);
      rounds := [r] + rest;
      assert rounds[1..] == rest;
    }
  }

  lemma EveryResync(cfg: Config, s: State, k: Kind)
    requires |s.history| > 0
    ensures Enabled(cfg, s, Resync(k))
  {
  }

  lemma {:induction false} StepsKeepHistory(cfg: Config, role: string, c: RowState, rs: seq<RowAction>)
    requires IsCleanRowRun(cfg, role, c, rs)
    ensures RowExec(cfg, role, c, rs).s.history == c.s.history
    decreases |rs|
  {
    hide Enabled, Apply, View, Fresh;
    if rs != [] {
      ControllerStepKeepsHistory(cfg, c.s, rs[0].action);
      StepsKeepHistory(cfg, role, RowApply(cfg, role, c, rs[0]), rs[1..]);
    }
  }

  // ---- after any history ----------------------------------------------------------------------------

  /** Whatever the rows were at startup and whatever has happened since, once the queues are
      empty more clean rounds than there are rows of undesired principals end in line: no
      remove need have been possible. */
  lemma RoundsConverge(cfg: Config, role: string, c0: RowState, before: seq<RowAction>, rounds: seq<Round>)
    requires RowInit(cfg, role, c0) && IsRowRun(cfg, role, c0, before) && AllFresh(cfg, role, c0, before)
    requires Quiescent(RowExec(cfg, role, c0, before).s)
    requires AreRounds(cfg, role, RowExec(cfg, role, c0, before), rounds)
    ensures var c := RowExec(cfg, role, c0, before);
            && |c.s.history| > 0
            && (|rounds| > |Undesired(c.store, Desired(cfg, c))| ==>
                  var c' := AfterRounds(cfg, role, c, rounds);
                  c'.s.history == c.s.history && InLine(cfg, View(c'.store, role), c.s.Current()))
  {
    hide Tracks, RowInit, Quiescent, IsRowRun, AllFresh, RowExec, InLine, View, AreRounds, AfterRounds, DesiredGroups,
         Undesired, LockOk, AllIdsOk;
    TrackStart(cfg, role, c0);
    var t := TrackRun(cfg, role, c0, c0.s, before);
    var c := RowExec(cfg, role, c0, before);
    TracksLock(cfg, role, c, t);
    if |rounds| > |Undesired(c.store, Desired(cfg, c))| { RoundsReach(cfg, role, c, t, rounds); }
  }

  /** And such rounds exist: after every history the process settles without failure, and
      then any number of clean rounds can follow, so that it gets in line. */
  lemma RoundsBringInLine(cfg: Config, role: string, c0: RowState, before: seq<RowAction>)
    requires RowInit(cfg, role, c0) && IsRowRun(cfg, role, c0, before) && AllFresh(cfg, role, c0, before)
    ensures var c := RowExec(cfg, role, c0, before);
            && |c.s.history| > 0
            && exists steps, rounds ::
                 && IsCleanRowRun(cfg, role, c, steps)
                 && var c1 := RowExec(cfg, role, c, steps);
                    && AreRounds(cfg, role, c1, rounds)
                    && InLine(cfg, View(AfterRounds(cfg, role, c1, rounds).store, role), c.s.Current())
  {
    hide Tracks, RowInit, IsRowRun, AllFresh, RowExec, InLine, View, AreRounds, AfterRounds, DesiredGroups, Undesired,
         LockOk, AllIdsOk;
    TrackStart(cfg, role, c0);
    var t := TrackRun(cfg, role, c0, c0.s, before);
    var c := RowExec(cfg, role, c0, before);
    var steps := RowsSettle(cfg, role, c, t);
    var c1 := RowExec(cfg, role, c, steps);
    StepsKeepHistory(cfg, role, c, steps);
    var t1 := TrackRun(cfg, role, c, t, steps);
    TracksLock(cfg, role, c1, t1);
    var rounds := RoundsExist(cfg, role, c1, t1, |Undesired(c1.store, Desired(cfg, c1))| + 1);
    RoundsReach(cfg, role, c1, t1, rounds);
  }
}
