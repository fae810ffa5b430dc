/** Exactly when an assigned group can be lost again: what the cache and the passes in
    flight make of every pair of binding lists that a pass can take. */
module Flapping {
  import opened Wrappers
  import opened GoStrings
  import opened Bindings
  import opened ConvergencePass
  import opened ReconcileSystem
  import opened Settling

  /** `c'` is `c` after one binding event. */
  ghost predicate Follows(c: Cluster, c': Cluster) {
    exists e :: Applies(c, e) && After(c, e) == c'
  }

  /** `h` is a way the history of `s` can continue. */
  ghost predicate Continues(s: State, h: seq<Cluster>) {
    0 < |s.history| && s.history <= h && forall t :: |s.history| <= t < |h| ==> Follows(h[t - 1], h[t])
  }

  /** In a RoleBinding list of version `i` and a ClusterRoleBinding list of version `j` no
      spelling that is in the cache stands for the group. */
  ghost predicate Torn(cache: map<string, Option<string>>, h: seq<Cluster>, i: nat, j: nat, group: string) {
    i < |h| && j < |h| && forall c :: c in Candidates(h, i, j) && c in cache ==> cache[c] != Some(group)
  }

  /** The pass in flight takes such a pair of lists, or is about to remove the group. */
  ghost predicate PhaseAtRisk(s: State, h: seq<Cluster>, p: Phase, sp: string, group: string) {
    match p
    case HaveRoleBindings(rbAt) => exists j: nat :: |s.history| <= j + 1 && Torn(s.cache, h, rbAt, j, group)
    case Resolving(g, _) => Torn(s.cache, h, g.rbAt, g.crbAt, group)
    case ListingAzure(g, _) => Torn(s.cache, h, g.rbAt, g.crbAt, group)
    case Writing(_, _, todo, _, _) => Remove(sp, group) in todo
    case _ => false
  }

  /** A pass yet to come can take such a pair: the current version or a later one for each
      list, RoleBindings first. */
  ghost predicate HistoryAtRisk(s: State, h: seq<Cluster>, group: string) {
    exists i: nat, j: nat :: |s.history| <= i + 1 <= j + 1 && Torn(s.cache, h, i, j, group)
  }

  ghost predicate AtRisk(s: State, h: seq<Cluster>, sp: string, group: string) {
    HistoryAtRisk(s, h, group) || exists k :: PhaseAtRisk(s, h, s.Ctl(k).phase, sp, group)
  }

  ghost predicate Has(table: Table, sp: string, group: string) {
    sp in table && group in table[sp]
  }

  // ---- no risk, no loss -------------------------------------------------------------------

  ghost predicate CacheGrows(a: map<string, Option<string>>, b: map<string, Option<string>>) {
    forall c :: c in a ==> c in b && b[c] == a[c]
  }

  lemma TornShrinks(a: map<string, Option<string>>, b: map<string, Option<string>>, h: seq<Cluster>, i: nat, j: nat,
                    group: string)
    requires CacheGrows(a, b) && Torn(b, h, i, j, group)
    ensures Torn(a, h, i, j, group)
  {
  }

  lemma PhaseRiskShrinks(s: State, s': State, h: seq<Cluster>, p: Phase, sp: string, group: string)
    requires |s.history| <= |s'.history| && CacheGrows(s.cache, s'.cache) && PhaseAtRisk(s', h, p, sp, group)
    ensures PhaseAtRisk(s, h, p, sp, group)
  {
    hide Torn, CacheGrows;
    match p
    case HaveRoleBindings(rbAt) =>
      var j: nat :| |s'.history| <= j + 1 && Torn(s'.cache, h, rbAt, j, group);
      TornShrinks(s.cache, s'.cache, h, rbAt, j, group);
    case Resolving(g, _) => TornShrinks(s.cache, s'.cache, h, g.rbAt, g.crbAt, group);
    case ListingAzure(g, _) => TornShrinks(s.cache, s'.cache, h, g.rbAt, g.crbAt, group);
    case _ =>
  }

  /** A step of one controller brings no risk that its new phase does not bring. */
  lemma RiskShrinks(s: State, s': State, k: Kind, h: seq<Cluster>, sp: string, group: string)
    requires |s.history| <= |s'.history| && CacheGrows(s.cache, s'.cache)
    requires forall k' :: k' != k ==> s'.Ctl(k').phase == s.Ctl(k').phase
    requires PhaseAtRisk(s', h, s'.Ctl(k).phase, sp, group) ==> AtRisk(s, h, sp, group)
    requires AtRisk(s', h, sp, group)
    ensures AtRisk(s, h, sp, group)
  {
    hide Torn, CacheGrows, PhaseAtRisk;
    if HistoryAtRisk(s', h, group) {
      var i: nat, j: nat :| |s'.history| <= i + 1 <= j + 1 && Torn(s'.cache, h, i, j, group);
      TornShrinks(s.cache, s'.cache, h, i, j, group);
    } else {
      var k' :| PhaseAtRisk(s', h, s'.Ctl(k').phase, sp, group);
      if k' != k { PhaseRiskShrinks(s, s', h, s'.Ctl(k').phase, sp, group); }
    }
  }

  lemma QueueRisk(cfg: Config, s: State, a: Action, h: seq<Cluster>, sp: string, group: string)
    requires Enabled(cfg, s, a) && (a.Resync? || a.Dequeue? || a.Acquire? || a.Finish?)
    requires AtRisk(Apply(cfg, s, a), h, sp, group)
    ensures AtRisk(s, h, sp, group)
  {
    hide Torn, AtRisk;
    if a.Resync? && PhaseAtRisk(Apply(cfg, s, a), h, s.Ctl(a.k).phase, sp, group) {
      PhaseRiskShrinks(s, Apply(cfg, s, a), h, s.Ctl(a.k).phase, sp, group);
      PhaseRisk(s, a.k, h, sp, group);
    }
    RiskShrinks(s, Apply(cfg, s, a), a.k, h, sp, group);
  }

  lemma PhaseRisk(s: State, k: Kind, h: seq<Cluster>, sp: string, group: string)
    requires PhaseAtRisk(s, h, s.Ctl(k).phase, sp, group)
    ensures AtRisk(s, h, sp, group)
  {
  }

  lemma EventRisk(cfg: Config, s: State, e: BindingEvent, h: seq<Cluster>, sp: string, group: string)
    requires Enabled(cfg, s, Event(e)) && AtRisk(Apply(cfg, s, Event(e)), h, sp, group)
    ensures AtRisk(s, h, sp, group)
  {
    hide Torn, AtRisk, After, Accepts, Applies, PhaseAtRisk;
    var s' := Apply(cfg, s, Event(e));
    assert s'.Ctl(e.kind).phase == s.Ctl(e.kind).phase;
    if PhaseAtRisk(s', h, s.Ctl(e.kind).phase, sp, group) {
      PhaseRiskShrinks(s, s', h, s.Ctl(e.kind).phase, sp, group);
      PhaseRisk(s, e.kind, h, sp, group);
    }
    RiskShrinks(s, s', e.kind, h, sp, group);
  }

  lemma RoleBindingListRisk(cfg: Config, s: State, k: Kind, ok: bool, h: seq<Cluster>, sp: string, group: string)
    requires Enabled(cfg, s, ListRoleBindings(k, ok)) && AtRisk(Apply(cfg, s, ListRoleBindings(k, ok)), h, sp, group)
    ensures AtRisk(s, h, sp, group)
  {
    hide Torn;
    RiskShrinks(s, Apply(cfg, s, ListRoleBindings(k, ok)), k, h, sp, group);
  }

  lemma ClusterRoleBindingListRisk(cfg: Config, s: State, k: Kind, ok: bool, h: seq<Cluster>, sp: string, group: string)
    requires Enabled(cfg, s, ListClusterRoleBindings(k, ok))
    requires AtRisk(Apply(cfg, s, ListClusterRoleBindings(k, ok)), h, sp, group)
    ensures AtRisk(s, h, sp, group)
  {
    hide Torn, Candidates, AtRisk;
    var s' := Apply(cfg, s, ListClusterRoleBindings(k, ok));
    if PhaseAtRisk(s', h, s'.Ctl(k).phase, sp, group) {
      assert PhaseAtRisk(s, h, s.Ctl(k).phase, sp, group);
      PhaseRisk(s, k, h, sp, group);
    }
    RiskShrinks(s, s', k, h, sp, group);
  }

  lemma ResolveRisk(cfg: Config, s: State, k: Kind, spelling: string, ok: bool, h: seq<Cluster>, sp: string,
                    group: string)
    requires Enabled(cfg, s, Resolve(k, spelling, ok)) && AtRisk(Apply(cfg, s, Resolve(k, spelling, ok)), h, sp, group)
    ensures AtRisk(s, h, sp, group)
  {
    hide Torn, AtRisk, ToLower;
    var s' := Apply(cfg, s, Resolve(k, spelling, ok));
    if PhaseAtRisk(s', h, s'.Ctl(k).phase, sp, group) {
      TornShrinks(s.cache, s'.cache, h, s.Ctl(k).phase.g.rbAt, s.Ctl(k).phase.g.crbAt, group);
      PhaseRisk(s, k, h, sp, group);
    }
    RiskShrinks(s, s', k, h, sp, group);
  }

  lemma ListAzureRisk(cfg: Config, s: State, a: Action, h: seq<Cluster>, sp: string, group: string)
    requires Enabled(cfg, s, a) && (a.BeginAzureList? || a.ListAzure?) && AtRisk(Apply(cfg, s, a), h, sp, group)
    ensures AtRisk(s, h, sp, group)
  {
    hide Torn, AtRisk;
    var s' := Apply(cfg, s, a);
    if PhaseAtRisk(s', h, s'.Ctl(a.k).phase, sp, group) { PhaseRisk(s, a.k, h, sp, group); }
    RiskShrinks(s, s', a.k, h, sp, group);
  }

  /** The writes of a pass remove the group exactly if its pair of lists is torn. */
  lemma PassRemovesIffTorn(cfg: Config, s: State, k: Kind, h: seq<Cluster>, sp: string, group: string)
    requires Inv(cfg, s) && s.Ctl(k).phase.ListingAzure? && s.history <= h && Has(s.table, sp, group)
    requires var p := s.Ctl(k).phase; sp in p.snapshot
    ensures var p := s.Ctl(k).phase;
            Remove(sp, group) in PassWrites(p.snapshot, p.g.desired) <==> Torn(s.cache, h, p.g.rbAt, p.g.crbAt, group)
  {
    hide SpellingsOf, PassWrites, WithWrites, PassOk, NothingLost, Quiescent;
    assert PhaseOk(cfg, s, s.Ctl(k).phase);
    var p := s.Ctl(k).phase;
    PassWritesAre(p.snapshot, p.g.desired);
    assert Candidates(h, p.g.rbAt, p.g.crbAt) == Candidates(s.history, p.g.rbAt, p.g.crbAt);
  }

  lemma BeginWritesRisk(cfg: Config, s: State, k: Kind, h: seq<Cluster>, sp: string, group: string)
    requires Inv(cfg, s) && Enabled(cfg, s, BeginWrites(k)) && s.history <= h && Has(s.table, sp, group)
    requires AtRisk(Apply(cfg, s, BeginWrites(k)), h, sp, group)
    ensures AtRisk(s, h, sp, group)
  {
    hide Torn, AtRisk, PassWrites, Basics, NothingLost, Quiescent;
    var s' := Apply(cfg, s, BeginWrites(k));
    TableKeys(cfg, s);
    if PhaseAtRisk(s', h, s'.Ctl(k).phase, sp, group) {
      PassRemovesIffTorn(cfg, s, k, h, sp, group);
      PhaseRisk(s, k, h, sp, group);
    }
    RiskShrinks(s, s', k, h, sp, group);
  }

  lemma TableKeys(cfg: Config, s: State)
    requires Inv(cfg, s)
    ensures s.table.Keys == cfg.servicePrincipals
  {
  }

  lemma WriteRisk(cfg: Config, s: State, k: Kind, w: Write, ok: bool, h: seq<Cluster>, sp: string, group: string)
    requires Enabled(cfg, s, DoWrite(k, w, ok)) && AtRisk(Apply(cfg, s, DoWrite(k, w, ok)), h, sp, group)
    ensures AtRisk(s, h, sp, group)
  {
    hide Torn, AtRisk, ApplyWrite;
    var s' := Apply(cfg, s, DoWrite(k, w, ok));
    if PhaseAtRisk(s', h, s'.Ctl(k).phase, sp, group) { PhaseRisk(s, k, h, sp, group); }
    RiskShrinks(s, s', k, h, sp, group);
  }

  /** No step brings a risk that was not there. */
  lemma StepBringsNoRisk(cfg: Config, s: State, a: Action, h: seq<Cluster>, sp: string, group: string)
    requires Inv(cfg, s) && Enabled(cfg, s, a) && s.history <= h && Has(s.table, sp, group)
    requires AtRisk(Apply(cfg, s, a), h, sp, group)
    ensures AtRisk(s, h, sp, group)
  {
    hide Inv, Enabled, Apply, AtRisk;
    match a
    case Event(e) => EventRisk(cfg, s, e, h, sp, group);
    case ListRoleBindings(k, ok) => RoleBindingListRisk(cfg, s, k, ok, h, sp, group);
    case ListClusterRoleBindings(k, ok) => ClusterRoleBindingListRisk(cfg, s, k, ok, h, sp, group);
    case Resolve(k, spelling, ok) => ResolveRisk(cfg, s, k, spelling, ok, h, sp, group);
    case BeginAzureList(_) => ListAzureRisk(cfg, s, a, h, sp, group);
    case ListAzure(_, _, _) => ListAzureRisk(cfg, s, a, h, sp, group);
    case BeginWrites(k) => BeginWritesRisk(cfg, s, k, h, sp, group);
    case DoWrite(k, w, ok) => WriteRisk(cfg, s, k, w, ok, h, sp, group);
    case _ => QueueRisk(cfg, s, a, h, sp, group);
  }

  /** Only a remove of the group that a pass had still to make takes it away. */
  lemma StepLosesAtRisk(cfg: Config, s: State, a: Action, h: seq<Cluster>, sp: string, group: string)
    requires Enabled(cfg, s, a) && Has(s.table, sp, group) && !Has(Apply(cfg, s, a).table, sp, group)
    ensures AtRisk(s, h, sp, group)
  {
    hide Torn, Candidates, PassWrites, After, Accepts, Applies, ToLower;
    assert a.DoWrite? && a.w == Remove(sp, group);
    assert PhaseAtRisk(s, h, s.Ctl(a.k).phase, sp, group);
  }

  lemma {:induction false} NoRiskNoLoss(cfg: Config, s: State, actions: seq<Action>, h: seq<Cluster>, sp: string,
                                        group: string)
    requires Inv(cfg, s) && IsRun(cfg, s, actions) && Exec(cfg, s, actions).history <= h
    requires Has(s.table, sp, group) && !AtRisk(s, h, sp, group)
    ensures Has(Exec(cfg, s, actions).table, sp, group)
    decreases |actions|
  {
    hide Inv, Enabled, Apply, AtRisk, Has;
    if actions != [] {
      var s' := Apply(cfg, s, actions[0]);
      RunGrowsHistory(cfg, s, actions);
      GrowsIsPrefix(s, Exec(cfg, s, actions), h);
      StepKeepsInv(cfg, s, actions[0]);
      if !Has(s'.table, sp, group) { StepLosesAtRisk(cfg, s, actions[0], h, sp, group); }
      if AtRisk(s', h, sp, group) { StepBringsNoRisk(cfg, s, actions[0], h, sp, group); }
      NoRiskNoLoss(cfg, s', actions[1..], h, sp, group);
    }
  }

  lemma GrowsIsPrefix(s: State, s': State, h: seq<Cluster>)
    requires HistoryGrows(s, s') && s'.history <= h
    ensures s.history <= h
  {
  }

  // ---- every risk can come true --------------------------------------------------------------

  /** Some run over the versions in `h` ends without the group. */
  ghost predicate CanLose(cfg: Config, s: State, h: seq<Cluster>, sp: string, group: string) {
    exists after ::
      IsRun(cfg, s, after) && Exec(cfg, s, after).history == h && !Has(Exec(cfg, s, after).table, sp, group)
  }

  lemma StepThenLose(cfg: Config, s: State, a: Action, h: seq<Cluster>, sp: string, group: string)
    requires Enabled(cfg, s, a) && CanLose(cfg, Apply(cfg, s, a), h, sp, group)
    ensures CanLose(cfg, s, h, sp, group)
  {
    hide Enabled, Apply, Has;
    var after :| && IsRun(cfg, Apply(cfg, s, a), after) && Exec(cfg, Apply(cfg, s, a), after).history == h
                 && !Has(Exec(cfg, Apply(cfg, s, a), after).table, sp, group);
    var all := [a] + after;
    assert all[0] == a && all[1..] == after;
    assert IsRun(cfg, s, all) && Exec(cfg, s, all) == Exec(cfg, Apply(cfg, s, a), after);
  }

  /** The event that leads to the next version of `h`. */
  lemma NextEvent(cfg: Config, s: State, h: seq<Cluster>) returns (e: BindingEvent)
    requires Continues(s, h) && |s.history| < |h|
    ensures Enabled(cfg, s, Event(e))
    ensures var s' := Apply(cfg, s, Event(e));
            && Continues(s', h) && |s'.history| == |s.history| + 1
            && s'.table == s.table && s'.cache == s.cache && s'.lock == s.lock
            && forall k :: s'.Ctl(k).phase == s.Ctl(k).phase
  {
    hide Applies, After, Accepts;
    var n := |s.history|;
    assert Follows(h[n - 1], h[n]);
    e :| Applies(h[n - 1], e) && After(h[n - 1], e) == h[n];
    assert s.history == h[..n] && s.history + [h[n]] == h[..n + 1];
  }

  lemma {:induction false} LostStaysLost(cfg: Config, s: State, h: seq<Cluster>, sp: string, group: string)
    requires Continues(s, h) && !Has(s.table, sp, group)
    ensures CanLose(cfg, s, h, sp, group)
    decreases |h| - |s.history|
  {
    hide Apply, Enabled, Continues, Has;
    PrefixLength(s, h);
    if |s.history| == |h| {
      assert IsRun(cfg, s, []) && Exec(cfg, s, []) == s;
    } else {
      var e := NextEvent(cfg, s, h);
      LostStaysLost(cfg, Apply(cfg, s, Event(e)), h, sp, group);
      StepThenLose(cfg, s, Event(e), h, sp, group);
    }
  }

  lemma PrefixLength(s: State, h: seq<Cluster>)
    requires Continues(s, h)
    ensures 0 < |s.history| <= |h| && (|s.history| == |h| ==> s.history == h)
    ensures forall i, j :: 0 <= i < |s.history| && 0 <= j < |s.history| ==>
              Candidates(s.history, i, j) == Candidates(h, i, j)
  {
  }

  lemma WritingLoses(cfg: Config, s: State, k: Kind, h: seq<Cluster>, sp: string, group: string)
    requires Inv(cfg, s) && Continues(s, h)
    requires s.Ctl(k).phase.Writing? && Remove(sp, group) in s.Ctl(k).phase.todo
    ensures CanLose(cfg, s, h, sp, group)
  {
    hide Inv, CanLose;
    LostStaysLost(cfg, Apply(cfg, s, DoWrite(k, Remove(sp, group), true)), h, sp, group);
    StepThenLose(cfg, s, DoWrite(k, Remove(sp, group), true), h, sp, group);
  }

  lemma {:induction false} ListingLoses(cfg: Config, s: State, k: Kind, h: seq<Cluster>, sp: string, group: string)
    requires Inv(cfg, s) && Continues(s, h) && Has(s.table, sp, group) && s.Ctl(k).phase.ListingAzure?
    requires Torn(s.cache, h, s.Ctl(k).phase.g.rbAt, s.Ctl(k).phase.g.crbAt, group)
    ensures CanLose(cfg, s, h, sp, group)
    decreases Work(cfg, s.Ctl(k).phase)
  {
    hide Inv, CanLose, Torn, PassWrites;
    TableKeys(cfg, s);
    InvHistory(cfg, s);
    ListedKeys(cfg, s, k);
    var p := s.Ctl(k).phase;
    if p.snapshot.Keys == cfg.servicePrincipals {
      PassRemovesIffTorn(cfg, s, k, h, sp, group);
      StepKeepsInv(cfg, s, BeginWrites(k));
      WritingLoses(cfg, Apply(cfg, s, BeginWrites(k)), k, h, sp, group);
      StepThenLose(cfg, s, BeginWrites(k), h, sp, group);
    } else {
      var sp' :| sp' in cfg.servicePrincipals && sp' !in p.snapshot;
      var s' := Apply(cfg, s, ListAzure(k, sp', true));
      StepKeepsInv(cfg, s, ListAzure(k, sp', true));
      OneLessToList(cfg, s, k, sp');
      ListingLoses(cfg, s', k, h, sp, group);
      StepThenLose(cfg, s, ListAzure(k, sp', true), h, sp, group);
    }
  }

  lemma ListedKeys(cfg: Config, s: State, k: Kind)
    requires Inv(cfg, s) && s.Ctl(k).phase.ListingAzure?
    ensures s.Ctl(k).phase.snapshot.Keys <= cfg.servicePrincipals
  {
    assert PhaseOk(cfg, s, s.Ctl(k).phase);
  }

  /** Every lookup that is not in the cache fails. */
  lemma {:induction false} ResolvingLoses(cfg: Config, s: State, k: Kind, h: seq<Cluster>, sp: string, group: string)
    requires Inv(cfg, s) && Continues(s, h) && Has(s.table, sp, group) && s.Ctl(k).phase.Resolving?
    requires Torn(s.cache, h, s.Ctl(k).phase.g.rbAt, s.Ctl(k).phase.g.crbAt, group)
    ensures CanLose(cfg, s, h, sp, group)
    decreases s.Ctl(k).phase.lookups
  {
    hide Inv, CanLose, Torn, ToLower;
    InvHistory(cfg, s);
    var p := s.Ctl(k).phase;
    if p.lookups == {} {
      StepKeepsInv(cfg, s, BeginAzureList(k));
      ListingLoses(cfg, Apply(cfg, s, BeginAzureList(k)), k, h, sp, group);
      StepThenLose(cfg, s, BeginAzureList(k), h, sp, group);
    } else {
      var c :| c in p.lookups;
      var a := Resolve(k, c, c in s.cache);
      StepKeepsInv(cfg, s, a);
      var s' := Apply(cfg, s, a);
      assert s'.cache == s.cache;
      ResolvingLoses(cfg, s', k, h, sp, group);
      StepThenLose(cfg, s, a, h, sp, group);
    }
  }

  lemma {:induction false} HaveRoleBindingsLoses(cfg: Config, s: State, k: Kind, h: seq<Cluster>, j: nat, sp: string,
                                                 group: string)
    requires Inv(cfg, s) && Continues(s, h) && Has(s.table, sp, group) && s.Ctl(k).phase.HaveRoleBindings?
    requires |s.history| <= j + 1 && Torn(s.cache, h, s.Ctl(k).phase.rbAt, j, group)
    ensures CanLose(cfg, s, h, sp, group)
    decreases |h| - |s.history|
  {
    hide Inv, CanLose, Continues, Has, Candidates;
    InvHistory(cfg, s);
    PrefixLength(s, h);
    var rbAt := s.Ctl(k).phase.rbAt;
    if |s.history| == j + 1 {
      var a := ListClusterRoleBindings(k, true);
      ListedAt(cfg, s, k);
      StepKeepsInv(cfg, s, a);
      SameContinues(s, Apply(cfg, s, a), h);
      ResolvingLoses(cfg, Apply(cfg, s, a), k, h, sp, group);
      StepThenLose(cfg, s, a, h, sp, group);
    } else {
      var e := NextEvent(cfg, s, h);
      StepKeepsInv(cfg, s, Event(e));
      HaveRoleBindingsLoses(cfg, Apply(cfg, s, Event(e)), k, h, j, sp, group);
      StepThenLose(cfg, s, Event(e), h, sp, group);
    }
  }

  lemma ListedAt(cfg: Config, s: State, k: Kind)
    requires Inv(cfg, s) && s.Ctl(k).phase.HaveRoleBindings?
    ensures s.Ctl(k).phase.rbAt < |s.history|
  {
    assert PhaseOk(cfg, s, s.Ctl(k).phase);
  }

  lemma SameContinues(s: State, s': State, h: seq<Cluster>)
    requires Continues(s, h) && s'.history == s.history
    ensures Continues(s', h)
  {
  }

  lemma {:induction false} LockedLoses(cfg: Config, s: State, k: Kind, h: seq<Cluster>, i: nat, j: nat, sp: string,
                                       group: string)
    requires Inv(cfg, s) && Continues(s, h) && Has(s.table, sp, group) && s.Ctl(k).phase.Locked?
    requires |s.history| <= i + 1 <= j + 1 && Torn(s.cache, h, i, j, group)
    ensures CanLose(cfg, s, h, sp, group)
    decreases |h| - |s.history|
  {
    hide Inv, CanLose, Continues, Has, Candidates;
    InvHistory(cfg, s);
    PrefixLength(s, h);
    if |s.history| == i + 1 {
      var a := ListRoleBindings(k, true);
      StepKeepsInv(cfg, s, a);
      SameContinues(s, Apply(cfg, s, a), h);
      HaveRoleBindingsLoses(cfg, Apply(cfg, s, a), k, h, j, sp, group);
      StepThenLose(cfg, s, a, h, sp, group);
    } else {
      var e := NextEvent(cfg, s, h);
      StepKeepsInv(cfg, s, Event(e));
      LockedLoses(cfg, Apply(cfg, s, Event(e)), k, h, i, j, sp, group);
      StepThenLose(cfg, s, Event(e), h, sp, group);
    }
  }

  /** Nobody holds the mutex: a new pass starts. */
  lemma {:induction false} FreeLoses(cfg: Config, s: State, h: seq<Cluster>, i: nat, j: nat, sp: string, group: string)
    requires Inv(cfg, s) && Continues(s, h) && Has(s.table, sp, group) && s.lock == None
    requires |s.history| <= i + 1 <= j + 1 && Torn(s.cache, h, i, j, group)
    ensures CanLose(cfg, s, h, sp, group)
    decreases if s.rb.phase == Waiting then 0 else if s.rb.dirty then 1 else 2
  {
    hide Inv, CanLose, Continues, Has, Torn;
    InvHistory(cfg, s);
    InvLock(cfg, s);
    var k := RoleBindings;
    assert s.Ctl(k).phase.HoldsLock() <==> s.lock == Some(k);
    var a := if s.rb.phase == Waiting then Acquire(k) else if s.rb.dirty then Dequeue(k) else Resync(k);
    var s' := Apply(cfg, s, a);
    StepKeepsInv(cfg, s, a);
    SameContinues(s, s', h);
    if s.rb.phase == Waiting {
      LockedLoses(cfg, s', k, h, i, j, sp, group);
    } else {
      FreeLoses(cfg, s', h, i, j, sp, group);
    }
    StepThenLose(cfg, s, a, h, sp, group);
  }

  /** A step of the lock holder that changes nothing outside its pass and ends it or goes on. */
  ghost predicate PassStep(cfg: Config, s: State, a: Action) {
    && Enabled(cfg, s, a) && IsControllerStep(a)
    && var s' := Apply(cfg, s, a);
       && s'.table == s.table && s'.cache == s.cache && s'.history == s.history
       && (s'.lock == None || (s'.lock == s.lock && !Aborts(a)))
  }

  lemma FailingList(cfg: Config, s: State, k: Kind) returns (a: Action)
    requires |s.history| > 0 && PhaseOk(cfg, s, s.Ctl(k).phase)
    requires s.Ctl(k).phase.Locked? || s.Ctl(k).phase.HaveRoleBindings?
    ensures PassStep(cfg, s, a)
  {
    hide Candidates;
    a := if s.Ctl(k).phase.Locked? then ListRoleBindings(k, false) else ListClusterRoleBindings(k, false);
  }

  lemma FailingLookup(cfg: Config, s: State, k: Kind) returns (a: Action)
    requires |s.history| > 0 && s.Ctl(k).phase.Resolving?
    ensures PassStep(cfg, s, a)
  {
    hide ToLower;
    var lookups := s.Ctl(k).phase.lookups;
    if lookups == {} {
      a := BeginAzureList(k);
    } else {
      var c :| c in lookups;
      a := Resolve(k, c, c in s.cache);
    }
  }

  lemma FailingListing(cfg: Config, s: State, k: Kind) returns (a: Action)
    requires |s.history| > 0 && s.Ctl(k).phase.ListingAzure? && s.table.Keys == cfg.servicePrincipals
    requires s.Ctl(k).phase.snapshot.Keys <= cfg.servicePrincipals
    ensures PassStep(cfg, s, a)
  {
    hide PassWrites;
    var snapshot := s.Ctl(k).phase.snapshot;
    if snapshot.Keys == cfg.servicePrincipals {
      a := BeginWrites(k);
    } else {
      var sp :| sp in cfg.servicePrincipals && sp !in snapshot;
      a := ListAzure(k, sp, false);
    }
  }

  lemma FailingWrite(cfg: Config, s: State, k: Kind) returns (a: Action)
    requires |s.history| > 0 && s.Ctl(k).phase.Writing?
    ensures PassStep(cfg, s, a)
  {
    hide ApplyWrite;
    var todo := s.Ctl(k).phase.todo;
    if todo == {} {
      a := Finish(k);
    } else {
      var w :| w in todo;
      a := DoWrite(k, w, false);
    }
  }

  /** The next step of a pass in flight that only fails. */
  lemma FailingStep(cfg: Config, s: State, k: Kind) returns (a: Action)
    requires Inv(cfg, s) && s.lock == Some(k)
    ensures PassStep(cfg, s, a)
  {
    hide PhaseOk, PassOk, NothingLost, Quiescent, PassStep;
    var p := s.Ctl(k).phase;
    assert p.HoldsLock() <==> s.lock == Some(k);
    if p.Resolving? {
      a := FailingLookup(cfg, s, k);
    } else if p.ListingAzure? {
      ListedKeys(cfg, s, k);
      a := FailingListing(cfg, s, k);
    } else if p.Writing? {
      a := FailingWrite(cfg, s, k);
    } else {
      a := FailingList(cfg, s, k);
    }
  }

  /** A pass in flight ends, with failures only, before the new pass starts. */
  lemma {:induction false} HistoryRiskLoses(cfg: Config, s: State, h: seq<Cluster>, i: nat, j: nat, sp: string,
                                            group: string)
    requires Inv(cfg, s) && Continues(s, h) && Has(s.table, sp, group)
    requires |s.history| <= i + 1 <= j + 1 && Torn(s.cache, h, i, j, group)
    ensures CanLose(cfg, s, h, sp, group)
    decreases Queued(s), Ranks(s), WorkLeft(cfg, s)
  {
    hide Inv, CanLose, Continues, Has, Torn, Enabled, Apply, Queued, Ranks, WorkLeft;
    if s.lock.None? {
      FreeLoses(cfg, s, h, i, j, sp, group);
    } else {
      var a := FailingStep(cfg, s, s.lock.value);
      var s' := Apply(cfg, s, a);
      StepKeepsInv(cfg, s, a);
      SameContinues(s, s', h);
      if s'.lock.None? {
        FreeLoses(cfg, s', h, i, j, sp, group);
      } else {
        StepLowers(cfg, s, a);
        HistoryRiskLoses(cfg, s', h, i, j, sp, group);
      }
      StepThenLose(cfg, s, a, h, sp, group);
    }
  }

  lemma RiskLoses(cfg: Config, s: State, h: seq<Cluster>, sp: string, group: string)
    requires Inv(cfg, s) && Continues(s, h) && Has(s.table, sp, group) && AtRisk(s, h, sp, group)
    ensures CanLose(cfg, s, h, sp, group)
  {
    hide Inv, CanLose, Continues, Has, Torn;
    if HistoryAtRisk(s, h, group) {
      var i: nat, j: nat :| |s.history| <= i + 1 <= j + 1 && Torn(s.cache, h, i, j, group);
      HistoryRiskLoses(cfg, s, h, i, j, sp, group);
    } else {
      var k :| PhaseAtRisk(s, h, s.Ctl(k).phase, sp, group);
      match s.Ctl(k).phase
      case HaveRoleBindings(rbAt) =>
        var j: nat :| |s.history| <= j + 1 && Torn(s.cache, h, rbAt, j, group);
        HaveRoleBindingsLoses(cfg, s, k, h, j, sp, group);
      case Resolving(_, _) => ResolvingLoses(cfg, s, k, h, sp, group);
      case ListingAzure(_, _) => ListingLoses(cfg, s, k, h, sp, group);
      case Writing(_, _, _, _, _) => WritingLoses(cfg, s, k, h, sp, group);
    }
  }

  // ---- the exact condition ----------------------------------------------------------------------

  /** From any state the process can get to, and for any way the cluster can go on from
      there: an assigned group survives every run if and only if no pair of lists that a
      pass in flight holds or a later pass can take lacks a cached spelling of it, and no
      pass is already about to remove it. Failed lookups, listings and writes are at the
      discretion of the run. */
  lemma SurvivesIffNotAtRisk(cfg: Config, s0: State, before: seq<Action>, h: seq<Cluster>, sp: string, group: string)
    requires Init(cfg, s0) && IsRun(cfg, s0, before)
    requires Continues(Exec(cfg, s0, before), h) && Has(Exec(cfg, s0, before).table, sp, group)
    ensures CanLose(cfg, Exec(cfg, s0, before), h, sp, group) <==> AtRisk(Exec(cfg, s0, before), h, sp, group)
  {
    hide Inv, Continues, Has, AtRisk, Init, Enabled, Apply;
    InvAfterRun(cfg, s0, before);
    var s := Exec(cfg, s0, before);
    if AtRisk(s, h, sp, group) {
      RiskLoses(cfg, s, h, sp, group);
    } else {
      forall after | IsRun(cfg, s, after) && Exec(cfg, s, after).history == h
        ensures Has(Exec(cfg, s, after).table, sp, group)
      {
        NoRiskNoLoss(cfg, s, after, h, sp, group);
      }
    }
  }

  /** No flapping: while no pass is in flight, a group is safe from then on if and only if
      every RoleBinding list together with every later ClusterRoleBinding list will show a
      spelling of it that is cached by now. */
  lemma NoFlapping(cfg: Config, s0: State, before: seq<Action>, h: seq<Cluster>, sp: string, group: string)
    requires Init(cfg, s0) && IsRun(cfg, s0, before) && Exec(cfg, s0, before).lock == None
    requires Continues(Exec(cfg, s0, before), h) && Has(Exec(cfg, s0, before).table, sp, group)
    ensures var s := Exec(cfg, s0, before);
            CanLose(cfg, s, h, sp, group) <==>
                exists i: nat, j: nat :: |s.history| <= i + 1 <= j + 1 && Torn(s.cache, h, i, j, group)
  {
    hide Continues, Has, CanLose, Torn, NothingLost, PhaseOk, PassOk, Quiescent;
    SurvivesIffNotAtRisk(cfg, s0, before, h, sp, group);
    InvAfterRun(cfg, s0, before);
    var s := Exec(cfg, s0, before);
    assert forall k :: !s.Ctl(k).phase.HoldsLock() by {
      assert forall k :: s.Ctl(k).phase.HoldsLock() <==> s.lock == Some(k);
    }
  }

  /** In particular, while one kind of binding keeps carrying a spelling that is cached, the
      group can only be lost to a pass that is in flight by now; with the mutex free it is safe. */
  lemma OneKindCarries(cfg: Config, s0: State, before: seq<Action>, h: seq<Cluster>, sp: string, group: string,
                       kind: Kind, c: string)
    requires Init(cfg, s0) && IsRun(cfg, s0, before)
    requires Continues(Exec(cfg, s0, before), h) && Has(Exec(cfg, s0, before).table, sp, group)
    requires c in Exec(cfg, s0, before).cache && Exec(cfg, s0, before).cache[c] == Some(group)
    requires forall i :: |Exec(cfg, s0, before).history| - 1 <= i < |h| ==> c in SpellingsOf(h[i].Get(kind))
    ensures var s := Exec(cfg, s0, before);
            && (CanLose(cfg, s, h, sp, group) <==> exists k :: PhaseAtRisk(s, h, s.Ctl(k).phase, sp, group))
            && (s.lock == None ==> !CanLose(cfg, s, h, sp, group))
  {
    hide Has, CanLose, SpellingsOf, PhaseAtRisk, Init, IsRun, Exec;
    var s := Exec(cfg, s0, before);
    CarriedIsNotTorn(s, h, kind, c, group);
    SurvivesIffNotAtRisk(cfg, s0, before, h, sp, group);
    if s.lock == None { NoFlapping(cfg, s0, before, h, sp, group); }
  }

  lemma CarriedIsNotTorn(s: State, h: seq<Cluster>, kind: Kind, c: string, group: string)
    requires 0 < |s.history| && c in s.cache && s.cache[c] == Some(group)
    requires forall i :: |s.history| - 1 <= i < |h| ==> c in SpellingsOf(h[i].Get(kind))
    ensures !HistoryAtRisk(s, h, group)
  {
    hide SpellingsOf;
  }

  /** At startup nothing is cached, so every group already assigned can be lost without any
      change in the cluster: a pass whose lookups fail removes it. */
  lemma StartupCanLose(cfg: Config, s0: State, sp: string, group: string)
    requires Init(cfg, s0) && Has(s0.table, sp, group)
    ensures CanLose(cfg, s0, s0.history, sp, group)
  {
    hide Has, CanLose, SpellingsOf;
    assert IsRun(cfg, s0, []) && Exec(cfg, s0, []) == s0;
    assert Torn(s0.cache, s0.history, 0, 0, group);
    SurvivesIffNotAtRisk(cfg, s0, [], s0.history, sp, group);
  }
}
