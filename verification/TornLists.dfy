/** A concrete run of the two controllers in which a pass removes a group that some
    live binding carries at every moment: its two binding lists are not one snapshot. */
module TornLists {
  import opened Wrappers
  import opened GoStrings
  import opened Bindings
  import opened ConvergencePass
  import opened ReconcileSystem
  import opened Flapping

  const GROUP := "aaaaaaaa-aaaa-aaaa-aaaa-aaaaaaaaaaaa"
  const SP := "11111111-1111-1111-1111-111111111111"
  const KEY := NamespacedName("ns", "name")
  const CONFIG := Config({SP}, map[GROUP := Some(GROUP)])

  /** The group moves from a ClusterRoleBinding to a RoleBinding, and for a while both
      carry it. */
  const MOVING := [Cluster(map[], map[KEY := OneGroup(GROUP)]),
                   Cluster(map[KEY := OneGroup(GROUP)], map[KEY := OneGroup(GROUP)]),
                   Cluster(map[KEY := OneGroup(GROUP)], map[])]

  ghost predicate Reachable(cfg: Config, s: State) {
    exists s0, actions :: Init(cfg, s0) && IsRun(cfg, s0, actions) && Exec(cfg, s0, actions) == s
  }

  lemma {:induction false} ExecSnoc(cfg: Config, s: State, actions: seq<Action>, a: Action)
    requires IsRun(cfg, s, actions) && Enabled(cfg, Exec(cfg, s, actions), a)
    ensures IsRun(cfg, s, actions + [a])
    ensures Exec(cfg, s, actions + [a]) == Apply(cfg, Exec(cfg, s, actions), a)
    decreases |actions|
  {
    hide Enabled, Apply;
    if actions == [] {
      assert [a][1..] == [];
      assert actions + [a] == [a];
    } else {
      ExecSnoc(cfg, Apply(cfg, s, actions[0]), actions[1..], a);
      assert (actions + [a])[1..] == actions[1..] + [a];
    }
  }

  lemma ReachableStep(cfg: Config, s: State, a: Action, s': State)
    requires Reachable(cfg, s) && Enabled(cfg, s, a) && Apply(cfg, s, a) == s'
    ensures Reachable(cfg, s')
  {
    hide Enabled, Apply, Init;
    var s0, actions :| Init(cfg, s0) && IsRun(cfg, s0, actions) && Exec(cfg, s0, actions) == s;
    ExecSnoc(cfg, s0, actions, a);
  }

  function Assigned(): Table {
    map[SP := {GROUP}]
  }

  lemma GroupIsLower()
    ensures ToLower(GROUP) == GROUP && IsValidAzureUuid(GROUP)
  {
  }

  lemma AssignedWrites()
    ensures PassWrites(Assigned(), {GROUP}) == {}
    ensures PassWrites(Assigned(), {}) == {Remove(SP, GROUP)}
  {
  }

  lemma MovingFacts()
    ensures ToLower(GROUP) == GROUP
    ensures SpellingsOf(map[KEY := OneGroup(GROUP)]) == {GROUP} && SpellingsOf(map[]) == {}
    ensures ManagedNames(OneGroup(GROUP).subjects) == [GROUP]
    ensures PassWrites(Assigned(), {GROUP}) == {} && PassWrites(Assigned(), {}) == {Remove(SP, GROUP)}
    ensures forall i :: 0 <= i < 3 ==> GROUP in Candidates(MOVING, i, i)
  {
    hide PassWrites, ToLower, IsValidAzureUuid, ManagedNames;
    GroupIsLower();
    OneGroupSpellings(KEY, GROUP);
    AssignedWrites();
    assert MOVING[0].clusterRoleBindings == map[KEY := OneGroup(GROUP)];
    assert MOVING[1].roleBindings == MOVING[2].roleBindings == map[KEY := OneGroup(GROUP)];
  }

  /** A state of the run: how much of MOVING has happened, and where the controllers are. */
  function Moving(versions: nat, cache: map<string, Option<string>>, rb: Controller, crb: Controller,
                  lock: Option<Kind>, passes: seq<Pass>): State
    requires versions <= 3
  {
    State(MOVING[..versions], Assigned(), cache, rb, crb, lock, passes, false)
  }

  function FirstPass(): Pass {
    Pass(ClusterRoleBindings, Gathered(0, 0, {GROUP}, true), Assigned(), {}, Assigned())
  }

  function AfterFirstPass(): State {
    Moving(1, map[GROUP := Some(GROUP)], Controller(true, Idle), Controller(false, Idle), None, [FirstPass()])
  }

  function AfterLookup(): State {
    Moving(1, map[GROUP := Some(GROUP)], Controller(true, Idle),
           Controller(false, Resolving(FirstPass().g, {})), Some(ClusterRoleBindings), [])
  }

  lemma LookupRuns()
    ensures Reachable(CONFIG, AfterLookup())
  {
    hide PassWrites, SpellingsOf, ToLower, Reachable;
    MovingFacts();
    var queued, k, held := Controller(true, Idle), ClusterRoleBindings, Some(ClusterRoleBindings);
    var none: map<string, Option<string>> := map[];
    assert MOVING[..1][0] == MOVING[0];
    var s0 := Moving(1, none, queued, queued, None, []);
    StartIsReachable(CONFIG, s0);
    var s1 := Moving(1, none, queued, Controller(false, Waiting), None, []);
    ReachableStep(CONFIG, s0, Dequeue(k), s1);
    var s2 := Moving(1, none, queued, Controller(false, Locked), held, []);
    ReachableStep(CONFIG, s1, Acquire(k), s2);
    var s3 := Moving(1, none, queued, Controller(false, HaveRoleBindings(0)), held, []);
    ReachableStep(CONFIG, s2, ListRoleBindings(k, true), s3);
    var s4 := Moving(1, none, queued, Controller(false, Resolving(Gathered(0, 0, {}, true), {GROUP})), held, []);
    assert Candidates(s3.history, 0, 0) == {GROUP};
    ReachableStep(CONFIG, s3, ListClusterRoleBindings(k, true), s4);
    ReachableStep(CONFIG, s4, Resolve(k, GROUP, true), AfterLookup());
  }

  /** The ClusterRoleBinding controller caches the group and finds it assigned. */
  lemma FirstPassRuns()
    ensures Reachable(CONFIG, AfterFirstPass())
  {
    hide PassWrites, SpellingsOf, Reachable;
    LookupRuns();
    AssignedWrites();
    var queued, k, held := Controller(true, Idle), ClusterRoleBindings, Some(ClusterRoleBindings);
    var cached := map[GROUP := Some(GROUP)];
    var g := FirstPass().g;
    var s1 := Moving(1, cached, queued, Controller(false, ListingAzure(g, map[])), held, []);
    ReachableStep(CONFIG, AfterLookup(), BeginAzureList(k), s1);
    var s2 := Moving(1, cached, queued, Controller(false, ListingAzure(g, Assigned())), held, []);
    ReachableStep(CONFIG, s1, ListAzure(k, SP, true), s2);
    var s3 := Moving(1, cached, queued, Controller(false, Writing(g, Assigned(), {}, {}, {})), held, []);
    ReachableStep(CONFIG, s2, BeginWrites(k), s3);
    ReachableStep(CONFIG, s3, Finish(k), AfterFirstPass());
  }

  lemma StartIsReachable(cfg: Config, s: State)
    requires Init(cfg, s)
    ensures Reachable(cfg, s)
  {
    assert IsRun(cfg, s, []) && Exec(cfg, s, []) == s;
  }

  lemma MovingContinues(s: State)
    requires s.history == MOVING[..1]
    ensures Continues(s, MOVING)
  {
    var created := Created(RoleBindings, KEY, OneGroup(GROUP));
    var deleted := Deleted(ClusterRoleBindings, KEY, OneGroup(GROUP));
    assert map[][KEY := OneGroup(GROUP)] == map[KEY := OneGroup(GROUP)];
    assert Applies(MOVING[0], created) && After(MOVING[0], created) == MOVING[1];
    assert map[KEY := OneGroup(GROUP)] - {KEY} == map[];
    assert Applies(MOVING[1], deleted) && After(MOVING[1], deleted) == MOVING[2];
    assert Follows(MOVING[0], MOVING[1]) && Follows(MOVING[1], MOVING[2]);
  }

  /** The group is cached and assigned, and at every moment from then on some live binding
      carries it, yet a run removes it: RoleBindings are listed before the group has arrived
      there, and ClusterRoleBindings after it has left. */
  lemma TornListsRemoveCarriedGroup()
    ensures exists s0, before, after ::
              && Init(CONFIG, s0) && IsRun(CONFIG, s0, before) && IsRun(CONFIG, Exec(CONFIG, s0, before), after)
              && Exec(CONFIG, s0, before).cache == map[GROUP := Some(GROUP)]
              && Has(Exec(CONFIG, s0, before).table, SP, GROUP)
              && Exec(CONFIG, Exec(CONFIG, s0, before), after).history == MOVING
              && !Has(Exec(CONFIG, Exec(CONFIG, s0, before), after).table, SP, GROUP)
    ensures forall i :: 0 <= i < |MOVING| ==> GROUP in Candidates(MOVING, i, i)
  {
    hide PassWrites, SpellingsOf, ToLower, Init;
    FirstPassRuns();
    MovingFacts();
    var s := AfterFirstPass();
    var s0, before :| Init(CONFIG, s0) && IsRun(CONFIG, s0, before) && Exec(CONFIG, s0, before) == s;
    MovingContinues(s);
    assert Candidates(MOVING, 0, 2) == {};
    assert Torn(s.cache, MOVING, 0, 2, GROUP);
    assert HistoryAtRisk(s, MOVING, GROUP);
    SurvivesIffNotAtRisk(CONFIG, s0, before, MOVING, SP, GROUP);
  }

  /** The first lookup of a group fails: the binding that carries it does not keep it from
      being removed, although the directory holds the group and nothing in the cluster changes. */
  lemma FailedLookupRemovesCarriedGroup()
    ensures exists s0, after ::
              && Init(CONFIG, s0) && s0.history == MOVING[..1] && Has(s0.table, SP, GROUP) && IsRun(CONFIG, s0, after)
              && Exec(CONFIG, s0, after).history == s0.history && !Has(Exec(CONFIG, s0, after).table, SP, GROUP)
    ensures GROUP in Candidates(MOVING[..1], 0, 0) && ToLower(GROUP) in CONFIG.directory
  {
    hide SpellingsOf, ToLower;
    MovingFacts();
    var queued := Controller(true, Idle);
    var s0 := Moving(1, map[], queued, queued, None, []);
    StartupCanLose(CONFIG, s0, SP, GROUP);
    assert Candidates(MOVING[..1], 0, 0) == Candidates(MOVING, 0, 0);
  }
}
