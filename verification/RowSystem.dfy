/** The two controllers over Azure's own rows: whether the latest pass could make its
    removes by deleting one row each decides whether anything is lost. */
module RowSystem {
  import opened Wrappers
  import opened GoStrings
  import opened Bindings
  import opened ConvergencePass
  import opened ReconcileSystem
  import opened AzureRows
  import opened AzureRowRefinement

  /** The process and the rows; what `s` calls the table is the listing of the rows, and
      `listed` are the rows the latest pass that came to write had listed. */
  datatype RowState = RowState(s: State, store: Store, listed: Store)

  /** One action, and the id and position Graph would give a row it creates. */
  datatype RowAction = RowAction(action: Action, id: string, at: nat)

  function StoreAfter(store: Store, role: string, r: RowAction): Store {
    if r.action.DoWrite? && r.action.ok then ApplyCall(store, role, Call(r.action.w, r.id, r.at)) else store
  }

  function RowApply(cfg: Config, role: string, c: RowState, r: RowAction): RowState
    requires Enabled(cfg, c.s, r.action)
  {
    var store := StoreAfter(c.store, role, r);
    RowState(Apply(cfg, c.s, r.action).(table := View(store, role)), store,
             if r.action.BeginWrites? then c.store else c.listed)
  }

  ghost predicate IsRowRun(cfg: Config, role: string, c: RowState, rs: seq<RowAction>)
    decreases |rs|
  {
    rs == [] || (Enabled(cfg, c.s, rs[0].action) && IsRowRun(cfg, role, RowApply(cfg, role, c, rs[0]), rs[1..]))
  }

  ghost function RowExec(cfg: Config, role: string, c: RowState, rs: seq<RowAction>): RowState
    requires IsRowRun(cfg, role, c, rs)
    decreases |rs|
  {
    if rs == [] then c else RowExec(cfg, role, RowApply(cfg, role, c, rs[0]), rs[1..])
  }

  /** Graph gives a created row a new id. */
  ghost predicate Fresh(c: RowState, r: RowAction) {
    r.action.DoWrite? ==> FreshCall(c.store, Call(r.action.w, r.id, r.at))
  }

  ghost predicate AllFresh(cfg: Config, role: string, c: RowState, rs: seq<RowAction>)
    requires IsRowRun(cfg, role, c, rs)
    decreases |rs|
  {
    rs == [] || (Fresh(c, rs[0]) && AllFresh(cfg, role, RowApply(cfg, role, c, rs[0]), rs[1..]))
  }

  /** Startup over these rows. */
  ghost predicate RowInit(cfg: Config, role: string, c: RowState) {
    Init(cfg, c.s) && c.s.table == View(c.store, role) && AllIdsOk(c.store) && c.listed == c.store
  }

  // ---- the process that believes its removes ---------------------------------------------------

  /** The same process but for its table and the passes it remembers. */
  ghost predicate Like(s: State, t: State) {
    s == t.(table := s.table, passes := s.passes)
  }

  /** What has become of the rows of every group, as GroupAfter says. */
  ghost predicate Follows(before: Store, after: Store, role: string, done: set<Write>) {
    before.Keys == after.Keys
    && forall sp, g :: sp in before ==> GroupAfter(before[sp], after[sp], role, sp, g, done)
  }

  ghost predicate Writing(s: State) {
    s.rb.phase.Writing? || s.crb.phase.Writing?
  }

  /** The rows are those that were listed, after the successful writes of the pass. */
  ghost predicate Wrote(c: RowState, role: string, snapshot: Table, done: set<Write>) {
    snapshot == View(c.listed, role) && Follows(c.listed, c.store, role, done)
  }

  ghost predicate PhaseTracked(c: RowState, role: string, t: State, p: Phase) {
    && (p.ListingAzure? ==> t.table == c.s.table)
    && (p.Writing? ==> Wrote(c, role, p.snapshot, p.done))
  }

  ghost predicate LastTracked(c: RowState, role: string, t: State) {
    t.passes != [] ==>
      && c.s.passes != []
      && var (r, r') := (c.s.passes[|c.s.passes| - 1], t.passes[|t.passes| - 1]);
         && r' == r.(result := r'.result)
         && Wrote(c, role, r.snapshot, PassWrites(r.snapshot, r.g.desired) - r.failed)
  }

  /** `t` is the process as it would be if every remove since the latest listing had taken
      the group off the listing. It starts from the real rows at every listing, and remembers
      no pass from before. */
  ghost predicate Tracks(cfg: Config, role: string, c: RowState, t: State) {
    && Inv(cfg, t) && Like(c.s, t) && c.s.table == View(c.store, role) && AllIdsOk(c.store)
    && c.store.Keys == cfg.servicePrincipals
    && (forall k :: PhaseTracked(c, role, t, t.Ctl(k).phase))
    && (!Writing(t) ==> LastTracked(c, role, t))
  }

  /** Both take the step alike, and neither's table or passes change. */
  ghost predicate SameStep(cfg: Config, s: State, t: State, a: Action) {
    && Enabled(cfg, s, a) && Enabled(cfg, t, a)
    && var (s', t') := (Apply(cfg, s, a), Apply(cfg, t, a));
       && Like(s', t') && s'.table == s.table && t'.table == t.table && s'.passes == s.passes && t'.passes == t.passes
  }

  /** Alike, and alike in what may differ. */
  lemma WithCtlLike(s: State, t: State, k: Kind, x: Controller)
    requires Like(s, t)
    ensures var (s', t') := (s.WithCtl(k, x), t.WithCtl(k, x));
            Like(s', t') && s'.table == s.table && t'.table == t.table && s'.passes == s.passes && t'.passes == t.passes
  {
  }

  lemma EventLike(cfg: Config, s: State, t: State, e: BindingEvent)
    requires Like(s, t) && Enabled(cfg, s, Event(e))
    ensures SameStep(cfg, s, t, Event(e))
  {
    hide After, Accepts, Applies, State.WithCtl;
    var history := s.history + [After(s.Current(), e)];
    WithCtlLike(s.(history := history), t.(history := history), e.kind, s.Ctl(e.kind).(dirty := true));
  }

  lemma ResyncLike(cfg: Config, s: State, t: State, k: Kind)
    requires Like(s, t) && Enabled(cfg, s, Resync(k))
    ensures SameStep(cfg, s, t, Resync(k))
  {
  }

  lemma DequeueLike(cfg: Config, s: State, t: State, k: Kind)
    requires Like(s, t) && Enabled(cfg, s, Dequeue(k))
    ensures SameStep(cfg, s, t, Dequeue(k))
  {
  }

  lemma AcquireLike(cfg: Config, s: State, t: State, k: Kind)
    requires Like(s, t) && Enabled(cfg, s, Acquire(k))
    ensures SameStep(cfg, s, t, Acquire(k))
  {
  }

  lemma RoleBindingListLike(cfg: Config, s: State, t: State, k: Kind, ok: bool)
    requires Like(s, t) && Enabled(cfg, s, ListRoleBindings(k, ok))
    ensures SameStep(cfg, s, t, ListRoleBindings(k, ok))
  {
  }

  lemma ClusterRoleBindingListLike(cfg: Config, s: State, t: State, k: Kind, ok: bool)
    requires Like(s, t) && Enabled(cfg, s, ListClusterRoleBindings(k, ok))
    ensures SameStep(cfg, s, t, ListClusterRoleBindings(k, ok))
  {
    hide Candidates;
  }

  lemma ResolveLike(cfg: Config, s: State, t: State, k: Kind, spelling: string, ok: bool)
    requires Like(s, t) && Enabled(cfg, s, Resolve(k, spelling, ok))
    ensures SameStep(cfg, s, t, Resolve(k, spelling, ok))
  {
    hide ToLower;
  }

  lemma BeginListLike(cfg: Config, s: State, t: State, k: Kind)
    requires Like(s, t) && Enabled(cfg, s, BeginAzureList(k))
    ensures SameStep(cfg, s, t, BeginAzureList(k))
  {
    hide State.WithCtl;
    assert s.Ctl(k) == t.Ctl(k);
    WithCtlLike(s, t, k, s.Ctl(k).(phase := ListingAzure(s.Ctl(k).phase.g, map[])));
  }

  lemma BeginWritesLike(cfg: Config, s: State, t: State, k: Kind)
    requires Like(s, t) && Enabled(cfg, s, BeginWrites(k))
    ensures SameStep(cfg, s, t, BeginWrites(k))
  {
    hide PassWrites, State.WithCtl;
    assert s.Ctl(k) == t.Ctl(k);
    var p := s.Ctl(k).phase;
    var writes := PassWrites(p.snapshot, p.g.desired);
    WithCtlLike(s, t, k, s.Ctl(k).(phase := Phase.Writing(p.g, p.snapshot, writes, {}, {})));
  }

  lemma ListAzureLike(cfg: Config, s: State, t: State, k: Kind, sp: string, ok: bool)
    requires Like(s, t) && Enabled(cfg, s, ListAzure(k, sp, ok)) && s.table == t.table
    ensures SameStep(cfg, s, t, ListAzure(k, sp, ok))
  {
  }

  lemma WriteLike(cfg: Config, s: State, t: State, k: Kind, w: Write, ok: bool)
    requires Like(s, t) && Enabled(cfg, s, DoWrite(k, w, ok))
    ensures Enabled(cfg, t, DoWrite(k, w, ok))
    ensures var (s', t') := (Apply(cfg, s, DoWrite(k, w, ok)), Apply(cfg, t, DoWrite(k, w, ok)));
            Like(s', t') && s'.passes == s.passes && t'.passes == t.passes
  {
    hide ApplyWrite;
  }

  lemma FinishLike(cfg: Config, s: State, t: State, k: Kind)
    requires Like(s, t) && Enabled(cfg, s, Finish(k))
    ensures Enabled(cfg, t, Finish(k))
    ensures var (s', t', p) := (Apply(cfg, s, Finish(k)), Apply(cfg, t, Finish(k)), s.Ctl(k).phase);
            && Like(s', t') && s'.table == s.table && t'.table == t.table
            && s'.passes == s.passes + [Pass(k, p.g, p.snapshot, p.failed, s.table)]
            && t'.passes == t.passes + [Pass(k, p.g, p.snapshot, p.failed, t.table)]
  {
  }

  // ---- every fresh step is tracked ---------------------------------------------------------------

  lemma NothingWritten(store: Store, role: string)
    ensures Follows(store, store, role, {})
  {
    hide GroupAfter;
    forall sp, g | sp in store ensures GroupAfter(store[sp], store[sp], role, sp, g, {}) {
      UntouchedGroup(store[sp], role, sp, g);
    }
  }

  lemma OneMoreWrite(before: Store, now: Store, role: string, call: Call, done: set<Write>)
    requires AllIdsOk(now) && Follows(before, now, role, done) && call.write !in done && FreshCall(now, call)
    requires forall sp, g :: Assign(sp, g) !in done + {call.write} || Remove(sp, g) !in done + {call.write}
    ensures Follows(before, ApplyCall(now, role, call), role, done + {call.write})
    ensures AllIdsOk(ApplyCall(now, role, call))
  {
    hide GroupAfter, AllIdsOk, ApplyCall, FreshCall;
    CallKeepsIds(now, role, call);
    forall sp, g | sp in before
      ensures GroupAfter(before[sp], ApplyCall(now, role, call)[sp], role, sp, g, done + {call.write})
    {
      assert Assign(sp, g) !in done + {call.write} || Remove(sp, g) !in done + {call.write};
      OneMoreCall(before[sp], now, role, call, sp, g, done);
    }
  }

  /** A step that leaves the rows, both tables and the passes alone, and neither starts nor
      ends a listing or the writes. */
  lemma PlainStep(cfg: Config, role: string, c: RowState, t: State, r: RowAction, k: Kind)
    requires Tracks(cfg, role, c, t) && SameStep(cfg, c.s, t, r.action) && !r.action.DoWrite? && !r.action.BeginWrites?
    requires forall k' :: k' != k ==> Apply(cfg, t, r.action).Ctl(k').phase == t.Ctl(k').phase
    requires var (p, p') := (t.Ctl(k).phase, Apply(cfg, t, r.action).Ctl(k).phase);
             && (p'.ListingAzure? ==> p.ListingAzure?)
             && (p' == p || (!p.Writing? && !p'.Writing?))
    ensures Tracks(cfg, role, RowApply(cfg, role, c, r), Apply(cfg, t, r.action))
  {
    hide Inv, Enabled, Apply, View, AllIdsOk, Follows;
    StepKeepsInv(cfg, t, r.action);
    var t' := Apply(cfg, t, r.action);
    assert t.rb == t.Ctl(RoleBindings) && t.crb == t.Ctl(ClusterRoleBindings);
    assert t'.rb == t'.Ctl(RoleBindings) && t'.crb == t'.Ctl(ClusterRoleBindings);
  }

  lemma PhaseOfQueueStep(cfg: Config, t: State, a: Action)
    requires Enabled(cfg, t, a) && (a.Resync? || a.Dequeue? || a.Acquire?)
    ensures var t' := Apply(cfg, t, a);
            && (forall k' :: k' != a.k ==> t'.Ctl(k').phase == t.Ctl(k').phase)
            && (t'.Ctl(a.k).phase == t.Ctl(a.k).phase || t'.Ctl(a.k).phase == Waiting || t'.Ctl(a.k).phase == Locked)
            && (t'.Ctl(a.k).phase == t.Ctl(a.k).phase || t.Ctl(a.k).phase == Idle || t.Ctl(a.k).phase == Waiting)
  {
  }

  lemma PhaseOfGathering(cfg: Config, t: State, a: Action)
    requires Enabled(cfg, t, a) && (a.ListRoleBindings? || a.ListClusterRoleBindings? || a.Resolve? || a.ListAzure?)
    ensures var t' := Apply(cfg, t, a);
            && (forall k' :: k' != a.k ==> t'.Ctl(k').phase == t.Ctl(k').phase)
            && !t.Ctl(a.k).phase.Writing? && !t'.Ctl(a.k).phase.Writing?
            && (t'.Ctl(a.k).phase.ListingAzure? ==> t.Ctl(a.k).phase.ListingAzure?)
  {
    hide Candidates, ToLower;
  }

  lemma PhaseOfEvent(cfg: Config, t: State, e: BindingEvent)
    requires Enabled(cfg, t, Event(e))
    ensures forall k :: Apply(cfg, t, Event(e)).Ctl(k).phase == t.Ctl(k).phase
  {
    hide After, Accepts, Applies;
  }

  lemma QuietStep(cfg: Config, role: string, c: RowState, t: State, r: RowAction)
    requires Tracks(cfg, role, c, t) && Enabled(cfg, c.s, r.action)
    requires !r.action.DoWrite? && !r.action.BeginWrites? && !r.action.BeginAzureList? && !r.action.Finish?
    ensures Enabled(cfg, t, r.action)
    ensures Tracks(cfg, role, RowApply(cfg, role, c, r), Apply(cfg, t, r.action))
  {
    hide Inv, Enabled, Apply, Tracks, SameStep;
    TracksLike(cfg, role, c, t);
    var a := r.action;
    match a {
      case Event(e) => EventLike(cfg, c.s, t, e);
      case ListRoleBindings(k, ok) => RoleBindingListLike(cfg, c.s, t, k, ok);
      case ListClusterRoleBindings(k, ok) => ClusterRoleBindingListLike(cfg, c.s, t, k, ok);
      case Resolve(k, spelling, ok) => ResolveLike(cfg, c.s, t, k, spelling, ok);
      case ListAzure(k, sp, ok) =>
        ListingIsReal(cfg, role, c, t, k, sp, ok);
        ListAzureLike(cfg, c.s, t, k, sp, ok);
      case Resync(k) => ResyncLike(cfg, c.s, t, k);
      case Dequeue(k) => DequeueLike(cfg, c.s, t, k);
      case Acquire(k) => AcquireLike(cfg, c.s, t, k);
      case _ =>
    }
    BothEnabled(cfg, c.s, t, a);
    if a.Event? {
      PhaseOfEvent(cfg, t, a.e);
      PlainStep(cfg, role, c, t, r, a.e.kind);
    } else {
      if a.Resync? || a.Dequeue? || a.Acquire? { PhaseOfQueueStep(cfg, t, a); } else { PhaseOfGathering(cfg, t, a); }
      PlainStep(cfg, role, c, t, r, a.k);
    }
  }

  lemma TracksLike(cfg: Config, role: string, c: RowState, t: State)
    requires Tracks(cfg, role, c, t)
    ensures Like(c.s, t) && Inv(cfg, t) && c.s.table == View(c.store, role) && AllIdsOk(c.store)
  {
  }

  lemma BothEnabled(cfg: Config, s: State, t: State, a: Action)
    requires SameStep(cfg, s, t, a)
    ensures Enabled(cfg, t, a)
  {
  }

  lemma ListingIsReal(cfg: Config, role: string, c: RowState, t: State, k: Kind, sp: string, ok: bool)
    requires Tracks(cfg, role, c, t) && Enabled(cfg, c.s, ListAzure(k, sp, ok))
    ensures c.s.table == t.table
  {
    assert PhaseTracked(c, role, t, t.Ctl(k).phase);
  }

  // ---- a listing starts from the real rows --------------------------------------------------------

  /** The process forgets its earlier passes and reads the table as it is. */
  lemma ResetKeepsInv(cfg: Config, t: State, k: Kind, table: Table)
    requires Inv(cfg, t) && t.Ctl(k).phase.ListingAzure? && t.Ctl(k).phase.snapshot == map[]
    requires table.Keys == cfg.servicePrincipals
    ensures Inv(cfg, t.(table := table, passes := []))
  {
    hide SpellingsOf, PassWrites, WithWrites, PassResult, ResolvedSoFar;
    var t' := t.(table := table, passes := []);
    assert t.Ctl(k).phase.HoldsLock() <==> t.lock == Some(k);
    forall k' ensures PhaseOk(cfg, t', t'.Ctl(k').phase) && (t'.Ctl(k').phase.HoldsLock() <==> t'.lock == Some(k')) {
      assert PhaseOk(cfg, t, t.Ctl(k').phase) && (t.Ctl(k').phase.HoldsLock() <==> t.lock == Some(k'));
    }
    assert t'.RbSeen() == t.RbSeen() && t'.CrbSeen() == t.CrbSeen();
  }

  lemma PhaseOfBegin(cfg: Config, t: State, k: Kind)
    requires Enabled(cfg, t, BeginAzureList(k))
    ensures var t' := Apply(cfg, t, BeginAzureList(k));
            && t'.Ctl(k).phase.ListingAzure? && t'.Ctl(k).phase.snapshot == map[]
            && forall k' :: k' != k ==> t'.Ctl(k') == t.Ctl(k')
  {
  }

  lemma OnlyHolder(cfg: Config, t: State, k: Kind)
    requires Inv(cfg, t) && t.Ctl(k).phase.HoldsLock()
    ensures forall k' :: k' != k ==> !t.Ctl(k').phase.HoldsLock()
    ensures t.table.Keys == cfg.servicePrincipals
  {
    hide PhaseOk, PassOk, NothingLost, Quiescent;
    assert forall k' :: t.Ctl(k').phase.HoldsLock() <==> t.lock == Some(k');
  }

  lemma BeginListTracked(cfg: Config, role: string, c: RowState, t: State, r: RowAction)
    requires Tracks(cfg, role, c, t) && Enabled(cfg, c.s, r.action) && r.action.BeginAzureList?
    ensures Enabled(cfg, t, r.action)
    ensures Tracks(cfg, role, RowApply(cfg, role, c, r), Apply(cfg, t, r.action).(table := c.s.table, passes := []))
  {
    hide Inv, View, AllIdsOk, Follows, Enabled, Apply;
    BeginListLike(cfg, c.s, t, r.action.k);
    StepKeepsInv(cfg, t, r.action);
    PhaseOfBegin(cfg, t, r.action.k);
    ViewKeys(c.store, role);
    var t1 := Apply(cfg, t, r.action);
    var t' := t1.(table := c.s.table, passes := []);
    OnlyHolder(cfg, t1, r.action.k);
    ResetKeepsInv(cfg, t1, r.action.k, c.s.table);
    assert forall k :: t'.Ctl(k) == t1.Ctl(k);
  }

  lemma ViewKeys(store: Store, role: string)
    ensures View(store, role).Keys == store.Keys
  {
  }

  // ---- the writes, and the end of the pass ---------------------------------------------------------

  lemma BeginWritesFacts(cfg: Config, t: State, k: Kind)
    requires Inv(cfg, t) && Enabled(cfg, t, BeginWrites(k))
    ensures var (p, p') := (t.Ctl(k).phase, Apply(cfg, t, BeginWrites(k)).Ctl(k).phase);
            && p.ListingAzure? && p.snapshot == t.table && p'.Writing? && p'.snapshot == p.snapshot && p'.done == {}
            && forall k' :: k' != k ==> Apply(cfg, t, BeginWrites(k)).Ctl(k') == t.Ctl(k')
  {
    hide SpellingsOf, PassWrites, PassOk, ResolvedSoFar, NothingLost, Quiescent;
    assert PhaseOk(cfg, t, t.Ctl(k).phase);
  }

  lemma BeginWritesTracked(cfg: Config, role: string, c: RowState, t: State, r: RowAction)
    requires Tracks(cfg, role, c, t) && Enabled(cfg, c.s, r.action) && r.action.BeginWrites?
    ensures Enabled(cfg, t, r.action) && Tracks(cfg, role, RowApply(cfg, role, c, r), Apply(cfg, t, r.action))
  {
    hide Inv, View, AllIdsOk, Follows, Enabled, Apply;
    BeginWritesLike(cfg, c.s, t, r.action.k);
    StepKeepsInv(cfg, t, r.action);
    BeginWritesFacts(cfg, t, r.action.k);
    assert PhaseTracked(c, role, t, t.Ctl(r.action.k).phase);
    NothingWritten(c.store, role);
    var t' := Apply(cfg, t, r.action);
    OtherIsIdle(cfg, role, RowApply(cfg, role, c, r), t', r.action.k);
    WritingHolds(t', r.action.k);
  }

  lemma OtherIsIdle(cfg: Config, role: string, c: RowState, t: State, k: Kind)
    requires Inv(cfg, t) && t.Ctl(k).phase.HoldsLock()
    ensures forall k' :: k' != k ==> PhaseTracked(c, role, t, t.Ctl(k').phase)
  {
    hide Inv;
    OnlyHolder(cfg, t, k);
  }

  lemma WritingHolds(t: State, k: Kind)
    ensures t.Ctl(k).phase.Writing? ==> Writing(t)
  {
  }

  lemma WriteFacts(cfg: Config, t: State, k: Kind, w: Write, ok: bool)
    requires Inv(cfg, t) && Enabled(cfg, t, DoWrite(k, w, ok))
    ensures var (p, p') := (t.Ctl(k).phase, Apply(cfg, t, DoWrite(k, w, ok)).Ctl(k).phase);
            && p.Writing? && p'.Writing? && p'.snapshot == p.snapshot
            && p'.done == (if ok then p.done + {w} else p.done)
            && w !in p.done && p.done + {w} <= PassWrites(p.snapshot, p.g.desired)
            && forall k' :: k' != k ==> Apply(cfg, t, DoWrite(k, w, ok)).Ctl(k') == t.Ctl(k')
  {
    hide SpellingsOf, PassWrites, PassOk, ResolvedSoFar, NothingLost, Quiescent, ApplyWrite, WithWrites;
    assert PhaseOk(cfg, t, t.Ctl(k).phase);
  }

  lemma NeverBoth(table: Table, desired: set<string>, done: set<Write>)
    requires done <= PassWrites(table, desired)
    ensures forall sp, g :: Assign(sp, g) !in done || Remove(sp, g) !in done
  {
    hide PassWrites;
    PassWritesAre(table, desired);
  }

  lemma WriteTracked(cfg: Config, role: string, c: RowState, t: State, r: RowAction)
    requires Tracks(cfg, role, c, t) && Enabled(cfg, c.s, r.action) && r.action.DoWrite? && Fresh(c, r)
    ensures Enabled(cfg, t, r.action) && Tracks(cfg, role, RowApply(cfg, role, c, r), Apply(cfg, t, r.action))
  {
    hide Inv, View, AllIdsOk, Follows, Enabled, Apply, FreshCall, ApplyCall;
    var (k, w, ok) := (r.action.k, r.action.w, r.action.ok);
    WriteLike(cfg, c.s, t, k, w, ok);
    StepKeepsInv(cfg, t, r.action);
    WriteFacts(cfg, t, k, w, ok);
    var (p, t') := (t.Ctl(k).phase, Apply(cfg, t, r.action));
    assert PhaseTracked(c, role, t, p);
    if ok {
      NeverBoth(p.snapshot, p.g.desired, p.done + {w});
      OneMoreWrite(c.listed, c.store, role, Call(w, r.id, r.at), p.done);
      CallKeepsIds(c.store, role, Call(w, r.id, r.at));
    }
    OtherIsIdle(cfg, role, RowApply(cfg, role, c, r), t', k);
    WritingHolds(t', k);
  }

  lemma FinishFacts(cfg: Config, t: State, k: Kind)
    requires Inv(cfg, t) && Enabled(cfg, t, Finish(k))
    ensures var (p, t') := (t.Ctl(k).phase, Apply(cfg, t, Finish(k)));
            && p.done == PassWrites(p.snapshot, p.g.desired) - p.failed && t'.Ctl(k).phase == Idle
            && forall k' :: k' != k ==> t'.Ctl(k') == t.Ctl(k')
  {
    hide SpellingsOf, PassWrites, PassOk, ResolvedSoFar, NothingLost, Quiescent, WithWrites;
    assert PhaseOk(cfg, t, t.Ctl(k).phase);
  }

  lemma FinishTracked(cfg: Config, role: string, c: RowState, t: State, r: RowAction)
    requires Tracks(cfg, role, c, t) && Enabled(cfg, c.s, r.action) && r.action.Finish?
    ensures Enabled(cfg, t, r.action) && Tracks(cfg, role, RowApply(cfg, role, c, r), Apply(cfg, t, r.action))
  {
    hide Inv, View, AllIdsOk, Follows, PassWrites, Apply;
    var k := r.action.k;
    FinishLike(cfg, c.s, t, k);
    StepKeepsInv(cfg, t, r.action);
    FinishFacts(cfg, t, k);
    assert PhaseTracked(c, role, t, t.Ctl(k).phase);
    var t' := Apply(cfg, t, r.action);
    OnlyHolder(cfg, t, k);
    forall k' ensures PhaseTracked(RowApply(cfg, role, c, r), role, t', t'.Ctl(k').phase) {
      if k' != k { assert !t.Ctl(k').phase.HoldsLock(); }
    }
  }

  lemma TrackStep(cfg: Config, role: string, c: RowState, t: State, r: RowAction) returns (t': State)
    requires Tracks(cfg, role, c, t) && Enabled(cfg, c.s, r.action) && Fresh(c, r)
    ensures Tracks(cfg, role, RowApply(cfg, role, c, r), t')
  {
    hide Tracks, Enabled, RowApply, Apply, Fresh;
    if r.action.BeginAzureList? {
      BeginListTracked(cfg, role, c, t, r);
      t' := Apply(cfg, t, r.action).(table := c.s.table, passes := []);
    } else {
      if r.action.BeginWrites? {
        BeginWritesTracked(cfg, role, c, t, r);
      } else if r.action.DoWrite? {
        WriteTracked(cfg, role, c, t, r);
      } else if r.action.Finish? {
        FinishTracked(cfg, role, c, t, r);
      } else {
        QuietStep(cfg, role, c, t, r);
      }
      t' := Apply(cfg, t, r.action);
    }
  }

  lemma {:induction false} TrackRun(cfg: Config, role: string, c: RowState, t: State, rs: seq<RowAction>)
    returns (t': State)
    requires Tracks(cfg, role, c, t) && IsRowRun(cfg, role, c, rs) && AllFresh(cfg, role, c, rs)
    ensures Tracks(cfg, role, RowExec(cfg, role, c, rs), t')
    decreases |rs|
  {
    hide Tracks, Enabled, RowApply, Fresh;
    t' := t;
    if rs != [] {
      var t1 := TrackStep(cfg, role, c, t, rs[0]);
      t' := TrackRun(cfg, role, RowApply(cfg, role, c, rs[0]), t1, rs[1..]);
    }
  }

  lemma TrackStart(cfg: Config, role: string, c: RowState)
    requires RowInit(cfg, role, c)
    ensures Tracks(cfg, role, c, c.s)
  {
    hide View, IdsOk, GroupAfter;
    InitEstablishesInv(cfg, c.s);
    ViewKeys(c.store, role);
  }

  // ---- exactly when nothing is lost -----------------------------------------------------------------

  /** The removes the latest pass had to make, for the rows it listed. */
  ghost predicate LatestRemovable(c: RowState, role: string)
    requires c.s.passes != []
  {
    AllRemovable(c.listed, role, PassWrites(View(c.listed, role), c.s.passes[|c.s.passes| - 1].g.desired))
  }

  /** After a clean pass the listing of the rows is what the pass meant to reach if and only
      if it could make its removes. */
  lemma ReachedIff(listed: Store, store: Store, role: string, desired: set<string>)
    requires Follows(listed, store, role, PassWrites(View(listed, role), desired) - {})
    ensures View(store, role) == PassResult(View(listed, role), desired, {})
            <==> AllRemovable(listed, role, PassWrites(View(listed, role), desired))
  {
    hide PassWrites, PassResult, GroupAfter, ManagedGroups, Removable;
    var (result, done) := (PassResult(View(listed, role), desired, {}), PassWrites(View(listed, role), desired));
    ResultKeys(View(listed, role), desired, {});
    assert done - {} == done;
    forall sp, g | sp in listed
      ensures (g in View(store, role)[sp] <==> g in result[sp])
              <==> (Remove(sp, g) in done ==> Removable(listed[sp], role, g))
    {
      assert GroupAfter(listed[sp], store[sp], role, sp, g, done - {});
      ListedAfter(listed, role, desired, store[sp], {}, sp, g);
    }
    if AllRemovable(listed, role, done) {
      forall sp | sp in listed ensures View(store, role)[sp] == result[sp] {}
    }
  }

  lemma SameTableIffInLine(cfg: Config, a: Table, b: Table, c: Cluster)
    requires InLine(cfg, b, c) && a.Keys == b.Keys == cfg.servicePrincipals
    ensures InLine(cfg, a, c) <==> a == b
  {
    hide DesiredGroups;
  }

  lemma QuiescentRows(cfg: Config, role: string, c: RowState, t: State)
    requires Tracks(cfg, role, c, t) && Quiescent(c.s)
    ensures c.s.passes != [] && !c.s.aborted && |c.s.history| > 0
    ensures c.s.passes[|c.s.passes| - 1].Clean() ==>
      (InLine(cfg, View(c.store, role), c.s.Current()) <==> LatestRemovable(c, role))
  {
    hide InLine, View, AllIdsOk, Follows, PassWrites, PassResult, AllRemovable;
    assert Quiescent(t) && !Writing(t);
    QuiescentIsConverged(cfg, t);
    ViewKeys(c.store, role);
    var r := c.s.passes[|c.s.passes| - 1];
    if r.Clean() {
      LastIsTable(cfg, t);
      ReachedIff(c.listed, c.store, role, r.g.desired);
      SameTableIffInLine(cfg, View(c.store, role), t.table, c.s.Current());
    }
  }

  lemma LastIsTable(cfg: Config, t: State)
    requires Inv(cfg, t) && Quiescent(t) && t.passes != []
    ensures var r := t.passes[|t.passes| - 1]; t.table == PassResult(r.snapshot, r.g.desired, r.failed)
    ensures t.table.Keys == cfg.servicePrincipals
  {
    hide PassResult, PassWrites, SpellingsOf, NothingLost;
    assert PassOk(cfg, t, t.passes[|t.passes| - 1]);
    assert forall k :: t.Ctl(k).phase.HoldsLock() <==> t.lock == Some(k);
  }

  /** No lost update, in rows, for every run: with empty queues and a clean latest pass, the
      rows that hold the role are on every service principal exactly those of the current
      bindings' groups if and only if the latest pass could make each of its removes by
      deleting the first row it had listed for the group. Whatever earlier passes did to
      the rows plays no part. */
  lemma RowsNoLostUpdate(cfg: Config, role: string, c: RowState, rs: seq<RowAction>)
    requires RowInit(cfg, role, c) && IsRowRun(cfg, role, c, rs) && AllFresh(cfg, role, c, rs)
    requires Quiescent(RowExec(cfg, role, c, rs).s)
    ensures var c' := RowExec(cfg, role, c, rs);
            && c'.s.passes != [] && !c'.s.aborted && |c'.s.history| > 0
            && (c'.s.passes[|c'.s.passes| - 1].Clean() ==>
                  (InLine(cfg, View(c'.store, role), c'.s.Current()) <==> LatestRemovable(c', role)))
  {
    hide Tracks, RowInit, Quiescent, IsRowRun, AllFresh, RowExec, InLine, View, LatestRemovable;
    TrackStart(cfg, role, c);
    var t := TrackRun(cfg, role, c, c.s, rs);
    QuiescentRows(cfg, role, RowExec(cfg, role, c, rs), t);
  }
}
