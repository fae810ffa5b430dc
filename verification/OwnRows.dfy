/** When every remove of every run can be made by deleting one row: the groups this
    controller deals with have no rows of their own but its own. */
module OwnRows {
  import opened Wrappers
  import opened GoStrings
  import opened Bindings
  import opened ConvergencePass
  import opened ReconcileSystem
  import opened AzureRows
  import opened AzureRowRefinement
  import opened RowSystem

  /** A remove that succeeds finds no row of the group with the role after its first. */
  ghost predicate Safe(c: RowState, role: string, r: RowAction) {
    r.action.DoWrite? && r.action.ok && r.action.w.Remove? && r.action.w.sp in c.store ==>
      Removable(c.store[r.action.w.sp], role, r.action.w.group)
  }

  ghost predicate AllSafe(cfg: Config, role: string, c: RowState, rs: seq<RowAction>)
    requires IsRowRun(cfg, role, c, rs)
    decreases |rs|
  {
    rs == [] || (Safe(c, role, rs[0]) && AllSafe(cfg, role, RowApply(cfg, role, c, rs[0]), rs[1..]))
  }

  function Actions(rs: seq<RowAction>): seq<Action> {
    seq(|rs|, i requires 0 <= i < |rs| => rs[i].action)
  }

  // ---- safe runs are runs over the listings --------------------------------------------------------

  lemma OnlyWritesChangeTheTable(cfg: Config, s: State, a: Action)
    requires Enabled(cfg, s, a)
    ensures Apply(cfg, s, a).table == if a.DoWrite? && a.ok then ApplyWrite(s.table, a.w) else s.table
  {
    hide Candidates, PassWrites, ApplyWrite, After, Accepts, Applies, State.WithCtl;
    ControllersAreNotTheTable();
  }

  lemma ControllersAreNotTheTable()
    ensures forall s: State, k, c :: s.WithCtl(k, c).table == s.table
  {
  }

  lemma NoSuchPrincipal(store: Store, role: string, call: Call)
    requires call.write.sp !in store
    ensures ApplyCall(store, role, call) == store && ApplyWrite(View(store, role), call.write) == View(store, role)
  {
  }

  /** A safe step on rows is the same step on the listing. */
  lemma RowStepIsStep(cfg: Config, role: string, c: RowState, r: RowAction)
    requires Enabled(cfg, c.s, r.action) && c.s.table == View(c.store, role) && AllIdsOk(c.store)
    requires Fresh(c, r) && Safe(c, role, r)
    ensures var c' := RowApply(cfg, role, c, r);
            c'.s == Apply(cfg, c.s, r.action) && c'.s.table == View(c'.store, role) && AllIdsOk(c'.store)
  {
    hide Apply, Enabled, View, AllIdsOk, ApplyCall, ApplyWrite, Removable, FreshCall;
    OnlyWritesChangeTheTable(cfg, c.s, r.action);
    if r.action.DoWrite? && r.action.ok {
      var call := Call(r.action.w, r.id, r.at);
      if r.action.w.sp in c.store {
        CallRefinesIff(c.store, role, call);
        CallKeepsIds(c.store, role, call);
      } else {
        NoSuchPrincipal(c.store, role, call);
      }
    }
  }

  lemma {:induction false} RowRunIsRun(cfg: Config, role: string, c: RowState, rs: seq<RowAction>)
    requires IsRowRun(cfg, role, c, rs) && AllFresh(cfg, role, c, rs) && AllSafe(cfg, role, c, rs)
    requires c.s.table == View(c.store, role) && AllIdsOk(c.store)
    ensures IsRun(cfg, c.s, Actions(rs)) && RowExec(cfg, role, c, rs).s == Exec(cfg, c.s, Actions(rs))
    ensures RowExec(cfg, role, c, rs).s.table == View(RowExec(cfg, role, c, rs).store, role)
    decreases |rs|
  {
    hide Enabled, RowApply, Apply, View, AllIdsOk, Safe, Fresh;
    if rs != [] {
      RowStepIsStep(cfg, role, c, rs[0]);
      RowRunIsRun(cfg, role, RowApply(cfg, role, c, rs[0]), rs[1..]);
      assert Actions(rs)[1..] == Actions(rs[1..]);
    }
  }

  // ---- groups of this controller's own ------------------------------------------------------------

  /** The group has one row at most, and that row holds the role. */
  ghost predicate OneOwnRow(rows: seq<Row>, role: string, group: string) {
    |RowsOf(rows, group)| <= 1 && forall j :: 0 <= j < |RowsOf(rows, group)| ==> HoldsRole(RowsOf(rows, group)[j], role)
  }

  /** The groups of `own` have no other rows, and no other group is managed. */
  ghost predicate Owned(store: Store, role: string, own: set<string>) {
    forall sp :: sp in store ==>
      ManagedGroups(store[sp], role) <= own && forall g :: g in own ==> OneOwnRow(store[sp], role, g)
  }

  /** Every group the directory can return. */
  function Returned(directory: map<string, Option<string>>): set<string> {
    set l | l in directory && directory[l].Some? :: directory[l].value
  }

  lemma OwnRowIsAssigned(rows: seq<Row>, role: string, group: string)
    requires OneOwnRow(rows, role, group)
    ensures RowsOf(rows, group) != [] ==> AlreadyAssigned(rows, group, role)
  {
    hide Filter;
    if RowsOf(rows, group) != [] { FilterHas(rows, OfPrincipal(group), RowsOf(rows, group)[0]); }
  }

  lemma CreatedRowsOf(rows: seq<Row>, role: string, c: Creation)
    requires OneOwnRow(rows, role, c.group)
    ensures OneOwnRow(CreateRow(rows, role, c), role, c.group)
  {
    hide Filter;
    var p := OfPrincipal(c.group);
    OwnRowIsAssigned(rows, role, c.group);
    if !AlreadyAssigned(rows, c.group, role) {
      var at := if c.at <= |rows| then c.at else |rows|;
      FilterMiddle(rows[..at], Row(Some(c.id), Some(c.group), Some(role)), rows[at..], p);
      FilterConcat(rows[..at], rows[at..], p);
      assert rows == rows[..at] + rows[at..];
    }
  }

  lemma CallKeepsOwned(store: Store, role: string, call: Call, own: set<string>)
    requires AllIdsOk(store) && Owned(store, role, own) && call.write.group in own
    ensures Owned(ApplyCall(store, role, call), role, own)
  {
    hide IdsOk, Filter, RemoveGroup, CreateRow, ManagedGroups;
    if call.write.sp in store {
      var (sp, group, after) := (call.write.sp, call.write.group, ApplyCall(store, role, call));
      forall g | g in own ensures OneOwnRow(after[sp], role, g) {
        assert OneOwnRow(store[sp], role, g);
        if g != group {
          CallKeepsRows(store, role, call, sp, g);
        } else if call.write.Assign? {
          CreatedRowsOf(store[sp], role, Creation(group, call.id, call.at));
        } else {
          RemoveTakesHead(store[sp], group, OfPrincipal(group));
        }
      }
      if call.write.Assign? {
        CreateSimulatesAssign(store[sp], role, Creation(group, call.id, call.at));
      } else {
        RemoveEffect(store[sp], role, group);
      }
    }
  }

  /** A pass only writes groups that it listed or that the directory returned. */
  lemma WrittenGroup(cfg: Config, role: string, c: RowState, t: State, k: Kind, w: Write, ok: bool, own: set<string>)
    requires Tracks(cfg, role, c, t) && Enabled(cfg, t, DoWrite(k, w, ok))
    requires Owned(c.listed, role, own) && Returned(cfg.directory) <= own
    ensures w.group in own
  {
    hide SpellingsOf, PassWrites, WithWrites, NothingLost, Quiescent, PassOk, ManagedGroups, Follows, ToLower;
    assert PhaseOk(cfg, t, t.Ctl(k).phase) && PhaseTracked(c, role, t, t.Ctl(k).phase);
    var p := t.Ctl(k).phase;
    PassWritesAre(p.snapshot, p.g.desired);
    assert w in PassWrites(p.snapshot, p.g.desired);
    match w
    case Assign(_, g) => DesiredIsReturned(cfg, t, p.g, Candidates(t.history, p.g.rbAt, p.g.crbAt), g);
    case Remove(sp, g) => assert g in ManagedGroups(c.listed[sp], role);
  }

  lemma DesiredIsReturned(cfg: Config, t: State, g: Gathered, tried: set<string>, group: string)
    requires CacheAgrees(cfg, t.cache) && g.desired == CachedGroups(t.cache, tried) && group in g.desired
    ensures group in Returned(cfg.directory)
  {
    hide ToLower;
    var x :| x in tried && x in t.cache && t.cache[x].Some? && t.cache[x].value == group;
    assert ToLower(x) in cfg.directory && cfg.directory[ToLower(x)].value == group;
  }

  lemma OwnedIsRemovable(store: Store, role: string, own: set<string>, sp: string, group: string)
    requires Owned(store, role, own) && sp in store && group in own
    ensures Removable(store[sp], role, group)
  {
    hide ManagedGroups, Filter;
    assert OneOwnRow(store[sp], role, group);
  }

  /** If the groups managed at the start, and those the directory can return, have no rows of
      other roles and none twice, then every remove of every run is safe; what rows anybody
      else has does not matter. */
  lemma {:induction false} OwnedRunIsSafe(cfg: Config, role: string, c: RowState, t: State, rs: seq<RowAction>,
                                          own: set<string>)
    returns (t': State)
    requires Tracks(cfg, role, c, t) && IsRowRun(cfg, role, c, rs) && AllFresh(cfg, role, c, rs)
    requires Owned(c.store, role, own) && Owned(c.listed, role, own) && Returned(cfg.directory) <= own
    ensures AllSafe(cfg, role, c, rs)
    ensures var c' := RowExec(cfg, role, c, rs); Tracks(cfg, role, c', t') && Owned(c'.listed, role, own)
    decreases |rs|
  {
    hide Tracks, Enabled, Apply, View, AllIdsOk, Owned, Removable, ApplyCall, Returned;
    t' := t;
    if rs != [] {
      var r := rs[0];
      TracksLike(cfg, role, c, t);
      if r.action.DoWrite? && r.action.ok {
        WriteLike(cfg, c.s, t, r.action.k, r.action.w, true);
        WrittenGroup(cfg, role, c, t, r.action.k, r.action.w, true, own);
        CallKeepsOwned(c.store, role, Call(r.action.w, r.id, r.at), own);
        if r.action.w.sp in c.store { OwnedIsRemovable(c.store, role, own, r.action.w.sp, r.action.w.group); }
      }
      var t1 := TrackStep(cfg, role, c, t, r);
      t' := OwnedRunIsSafe(cfg, role, RowApply(cfg, role, c, r), t1, rs[1..], own);
    }
  }

  lemma OwnedIsLatestRemovable(c: RowState, role: string, own: set<string>)
    requires Owned(c.listed, role, own) && c.s.passes != []
    ensures LatestRemovable(c, role)
  {
    hide ManagedGroups, Removable, PassWrites, OneOwnRow;
    var done := PassWrites(View(c.listed, role), c.s.passes[|c.s.passes| - 1].g.desired);
    PassWritesAre(View(c.listed, role), c.s.passes[|c.s.passes| - 1].g.desired);
    forall sp, g | Remove(sp, g) in done && sp in c.listed ensures Removable(c.listed[sp], role, g) {
      assert g in ManagedGroups(c.listed[sp], role);
      OwnedIsRemovable(c.listed, role, own, sp, g);
    }
  }

  /** Then no run loses anything: quiescent and clean means in line. */
  lemma OwnedRowsInLine(cfg: Config, role: string, c: RowState, rs: seq<RowAction>, own: set<string>)
    requires RowInit(cfg, role, c) && IsRowRun(cfg, role, c, rs) && AllFresh(cfg, role, c, rs)
    requires Owned(c.store, role, own) && Returned(cfg.directory) <= own
    requires Quiescent(RowExec(cfg, role, c, rs).s)
    ensures AllSafe(cfg, role, c, rs)
    ensures var c' := RowExec(cfg, role, c, rs);
            && c'.s.passes != [] && |c'.s.history| > 0
            && (c'.s.passes[|c'.s.passes| - 1].Clean() ==> InLine(cfg, View(c'.store, role), c'.s.Current()))
  {
    hide Tracks, Init, View, AllIdsOk, Quiescent, IsRowRun, AllFresh, RowExec, InLine, LatestRemovable, Owned, Returned,
         AllSafe;
    TrackStart(cfg, role, c);
    var t := OwnedRunIsSafe(cfg, role, c, c.s, rs, own);
    RowsNoLostUpdate(cfg, role, c, rs);
    OwnedIsLatestRemovable(RowExec(cfg, role, c, rs), role, own);
  }
}
