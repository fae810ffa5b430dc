/** The RoleBinding and ClusterRoleBinding controllers as one transition system:
    their filtered, coalescing queues, the mutex they share, the two binding
    lists, group resolution through the shared cache, the Azure listing and the
    individual writes, interleaved with arbitrary binding events. */
module ReconcileSystem {
  import opened Wrappers
  import opened GoStrings
  import opened Bindings
  import opened ConvergencePass

  /** The service principals of the Azure client, and the directory: lower-cased
      object id -> the id of the group found there (None: a group without an id).
      The directory does not change; a lookup may still fail at any time. */
  datatype Config = Config(servicePrincipals: set<string>, directory: map<string, Option<string>>)

  /** What a pass has gathered. `rbAt` and `crbAt` say which version of the cluster
      each binding list returned; `allResolved` records that every group the directory
      holds was found. Looking up one it does not hold always fails. */
  datatype Gathered = Gathered(rbAt: nat, crbAt: nat, desired: set<string>, allResolved: bool)

  /** Where one controller is in reconcileDesiredState. */
  datatype Phase =
    | Idle
    | Waiting
    | Locked
    | HaveRoleBindings(rbAt: nat)
    | Resolving(g: Gathered, lookups: set<string>)
    | ListingAzure(g: Gathered, snapshot: Table)
    | Writing(g: Gathered, snapshot: Table, todo: set<Write>, done: set<Write>, failed: set<Write>)
  {
    predicate HoldsLock() { !Idle? && !Waiting? }
    predicate BeforeRoleBindingList() { Waiting? || Locked? }
    predicate BeforeClusterRoleBindingList() { Waiting? || Locked? || HaveRoleBindings? }
    predicate HasBothLists() { Resolving? || ListingAzure? || Writing? }
  }

  /** `dirty`: the single work item is queued, or was added while being processed. */
  datatype Controller = Controller(dirty: bool, phase: Phase)

  /** A pass that ran to completion. */
  datatype Pass = Pass(owner: Kind, g: Gathered, snapshot: Table, failed: set<Write>, result: Table)
  {
    predicate Clean() { g.allResolved && failed == {} }
  }

  /** `history` lists every version of the cluster, the current one last; `aborted`
      says that the latest pass returned an error instead of completing. */
  datatype State = State(history: seq<Cluster>, table: Table, cache: map<string, Option<string>>,
                         rb: Controller, crb: Controller, lock: Option<Kind>,
                         passes: seq<Pass>, aborted: bool)
  {
    function Ctl(k: Kind): Controller {
      match k case RoleBindings => rb case ClusterRoleBindings => crb
    }

    function WithCtl(k: Kind, c: Controller): State {
      match k case RoleBindings => this.(rb := c) case ClusterRoleBindings => this.(crb := c)
    }

    function WithPhase(k: Kind, p: Phase): State {
      WithCtl(k, Ctl(k).(phase := p))
    }

    function Current(): Cluster
      requires |history| > 0
    {
      history[|history| - 1]
    }

    function Holder(): Phase {
      if lock.Some? then Ctl(lock.value).phase else Idle
    }

    /** The cluster versions the latest lists returned, unless an error has
        discarded them. */
    function RbSeen(): Option<nat> {
      var p := Holder();
      if p.HaveRoleBindings? then Some(p.rbAt)
      else if p.HasBothLists() then Some(p.g.rbAt)
      else if !aborted && |passes| > 0 then Some(passes[|passes| - 1].g.rbAt) else None
    }

    function CrbSeen(): Option<nat> {
      var p := Holder();
      if p.HasBothLists() then Some(p.g.crbAt)
      else if !aborted && |passes| > 0 then Some(passes[|passes| - 1].g.crbAt) else None
    }
  }

  datatype Action =
    | Event(e: BindingEvent)
    | Resync(k: Kind)
    | Dequeue(k: Kind)
    | Acquire(k: Kind)
    | ListRoleBindings(k: Kind, ok: bool)
    | ListClusterRoleBindings(k: Kind, ok: bool)
    | Resolve(k: Kind, spelling: string, ok: bool)
    | BeginAzureList(k: Kind)
    | ListAzure(k: Kind, sp: string, ok: bool)
    | BeginWrites(k: Kind)
    | DoWrite(k: Kind, w: Write, ok: bool)
    | Finish(k: Kind)

  /** Startup: each controller has its initial work item queued, and nothing is known
      about the assignments already in Azure. */
  predicate Init(cfg: Config, s: State) {
    && |s.history| == 1 && s.table.Keys == cfg.servicePrincipals && s.cache == map[]
    && s.rb == Controller(true, Idle) && s.crb == Controller(true, Idle)
    && s.lock == None && s.passes == [] && !s.aborted
  }

  /** The spellings a pass collected from its two lists. */
  function Candidates(history: seq<Cluster>, rbAt: nat, crbAt: nat): set<string>
    requires rbAt < |history| && crbAt < |history|
  {
    SpellingsOf(history[rbAt].roleBindings) + SpellingsOf(history[crbAt].clusterRoleBindings)
  }

  predicate Enabled(cfg: Config, s: State, a: Action) {
    && |s.history| > 0
    && match a
       case Event(e) => Applies(s.Current(), e)
       case Resync(_) => true
       case Dequeue(k) => s.Ctl(k).dirty && s.Ctl(k).phase == Idle
       case Acquire(k) => s.Ctl(k).phase == Waiting && s.lock == None
       case ListRoleBindings(k, _) => s.Ctl(k).phase == Locked
       case ListClusterRoleBindings(k, _) => s.Ctl(k).phase.HaveRoleBindings? && s.Ctl(k).phase.rbAt < |s.history|
       case Resolve(k, spelling, ok) =>
         var p := s.Ctl(k).phase;
         p.Resolving? && spelling in p.lookups
         && (if spelling in s.cache then ok else ok ==> ToLower(spelling) in cfg.directory)
       case BeginAzureList(k) => s.Ctl(k).phase.Resolving? && s.Ctl(k).phase.lookups == {}
       case ListAzure(k, sp, _) =>
         var p := s.Ctl(k).phase;
         p.ListingAzure? && sp in cfg.servicePrincipals && sp !in p.snapshot && sp in s.table
       case BeginWrites(k) =>
         var p := s.Ctl(k).phase;
         p.ListingAzure? && p.snapshot.Keys == cfg.servicePrincipals
       case DoWrite(k, w, _) => s.Ctl(k).phase.Writing? && w in s.Ctl(k).phase.todo
       case Finish(k) => s.Ctl(k).phase.Writing? && s.Ctl(k).phase.todo == {}
  }

  /** An error return: the deferred unlock runs, the pass is over, and the queue takes
      the work item back. */
  function Abort(s: State, k: Kind): State {
    s.WithCtl(k, Controller(true, Idle)).(lock := None, aborted := true)
  }

  function Apply(cfg: Config, s: State, a: Action): State
    requires Enabled(cfg, s, a)
  {
    match a
    case Event(e) =>
      var s' := s.(history := s.history + [After(s.Current(), e)]);
      if Accepts(e) then s'.WithCtl(e.kind, s'.Ctl(e.kind).(dirty := true)) else s'
    case Resync(k) => s.WithCtl(k, s.Ctl(k).(dirty := true))
    case Dequeue(k) => s.WithCtl(k, Controller(false, Waiting))
    case Acquire(k) => s.WithPhase(k, Locked).(lock := Some(k))
    case ListRoleBindings(k, ok) =>
      if ok then s.WithPhase(k, HaveRoleBindings(|s.history| - 1)) else Abort(s, k)
    case ListClusterRoleBindings(k, ok) =>
      if !ok then Abort(s, k)
      else
        var rbAt, crbAt := s.Ctl(k).phase.rbAt, |s.history| - 1;
        s.WithPhase(k, Resolving(Gathered(rbAt, crbAt, {}, true), Candidates(s.history, rbAt, crbAt)))
    case Resolve(k, spelling, ok) =>
      var p := s.Ctl(k).phase;
      if !ok then
        var missing := ToLower(spelling) !in cfg.directory;
        s.WithPhase(k, Resolving(p.g.(allResolved := p.g.allResolved && missing), p.lookups - {spelling}))
      else
        var group := if spelling in s.cache then s.cache[spelling] else cfg.directory[ToLower(spelling)];
        var desired := if group.Some? then p.g.desired + {group.value} else p.g.desired;
        s.WithPhase(k, Resolving(p.g.(desired := desired), p.lookups - {spelling}))
         .(cache := s.cache[spelling := group])
    case BeginAzureList(k) => s.WithPhase(k, ListingAzure(s.Ctl(k).phase.g, map[]))
    case ListAzure(k, sp, ok) =>
      var p := s.Ctl(k).phase;
      if ok then s.WithPhase(k, ListingAzure(p.g, p.snapshot[sp := s.table[sp]])) else Abort(s, k)
    case BeginWrites(k) =>
      var p := s.Ctl(k).phase;
      s.WithPhase(k, Writing(p.g, p.snapshot, PassWrites(p.snapshot, p.g.desired), {}, {}))
    case DoWrite(k, w, ok) =>
      var Writing(g, snapshot, todo, done, failed) := s.Ctl(k).phase;
      if ok then s.WithPhase(k, Writing(g, snapshot, todo - {w}, done + {w}, failed)).(table := ApplyWrite(s.table, w))
      else s.WithPhase(k, Writing(g, snapshot, todo - {w}, done, failed + {w}))
    case Finish(k) =>
      var p := s.Ctl(k).phase;
      var pass := Pass(k, p.g, p.snapshot, p.failed, s.table);
      s.WithPhase(k, Idle).(lock := None, passes := s.passes + [pass], aborted := false)
  }

  /** A run: every action is enabled where it is taken. */
  ghost predicate IsRun(cfg: Config, s: State, actions: seq<Action>)
    decreases |actions|
  {
    actions == [] || (Enabled(cfg, s, actions[0]) && IsRun(cfg, Apply(cfg, s, actions[0]), actions[1..]))
  }

  ghost function Exec(cfg: Config, s: State, actions: seq<Action>): State
    requires IsRun(cfg, s, actions)
    decreases |actions|
  {
    if actions == [] then s else Exec(cfg, Apply(cfg, s, actions[0]), actions[1..])
  }

  // ---- the invariant -----------------------------------------------------------

  /** The groups the directory holds for a set of lower-cased spellings. */
  function DirectoryGroups(directory: map<string, Option<string>>, lowered: set<string>): set<string> {
    set l | l in lowered && l in directory && directory[l].Some? :: directory[l].value
  }

  ghost predicate CacheAgrees(cfg: Config, cache: map<string, Option<string>>) {
    forall c :: c in cache ==> ToLower(c) in cfg.directory && cfg.directory[ToLower(c)] == cache[c]
  }

  /** The groups the cache holds for a set of spellings. */
  function CachedGroups(cache: map<string, Option<string>>, spellings: set<string>): set<string> {
    set c | c in spellings && c in cache && cache[c].Some? :: cache[c].value
  }

  /** What resolving the spellings of `tried` has produced: a lookup that succeeded is
      in the cache, and one that was in the cache cannot have failed. */
  ghost predicate ResolvedSoFar(directory: map<string, Option<string>>, cache: map<string, Option<string>>,
                                tried: set<string>, g: Gathered) {
    && g.desired == CachedGroups(cache, tried)
    && (g.allResolved ==> forall c :: c in tried ==> c in cache || ToLower(c) !in directory)
  }

  ghost predicate ListsOk(s: State, rbAt: nat, crbAt: nat) {
    && rbAt <= crbAt < |s.history|
    && forall i :: 0 <= i < |s.passes| ==> s.passes[i].g.crbAt <= rbAt
  }

  ghost predicate PhaseOk(cfg: Config, s: State, p: Phase) {
    match p
    case Idle => true
    case Waiting => true
    case Locked => true
    case HaveRoleBindings(rbAt) => ListsOk(s, rbAt, rbAt)
    case Resolving(g, lookups) =>
      && ListsOk(s, g.rbAt, g.crbAt) && lookups <= Candidates(s.history, g.rbAt, g.crbAt)
      && ResolvedSoFar(cfg.directory, s.cache, Candidates(s.history, g.rbAt, g.crbAt) - lookups, g)
    case ListingAzure(g, snapshot) =>
      && ListsOk(s, g.rbAt, g.crbAt)
      && ResolvedSoFar(cfg.directory, s.cache, Candidates(s.history, g.rbAt, g.crbAt), g)
      && (forall sp :: sp in snapshot ==> sp in s.table && snapshot[sp] == s.table[sp])
    case Writing(g, snapshot, todo, done, failed) =>
      && ListsOk(s, g.rbAt, g.crbAt)
      && ResolvedSoFar(cfg.directory, s.cache, Candidates(s.history, g.rbAt, g.crbAt), g)
      && snapshot.Keys == cfg.servicePrincipals
      && todo + done + failed == PassWrites(snapshot, g.desired)
      && todo !! done && todo !! failed && done !! failed
      && s.table == WithWrites(snapshot, done)
  }

  ghost predicate PassOk(cfg: Config, s: State, r: Pass) {
    && r.g.rbAt <= r.g.crbAt < |s.history|
    && r.snapshot.Keys == cfg.servicePrincipals
    && r.failed <= PassWrites(r.snapshot, r.g.desired)
    && r.result == PassResult(r.snapshot, r.g.desired, r.failed)
    && (var groups := DirectoryGroups(cfg.directory, Lowered(Candidates(s.history, r.g.rbAt, r.g.crbAt)));
        r.g.desired <= groups && (r.g.allResolved ==> r.g.desired == groups))
  }

  /** Passes are serial: each one took both its lists after the one before it had
      taken both of its own. */
  ghost predicate PassesInOrder(passes: seq<Pass>) {
    forall i, j :: 0 <= i < j < |passes| ==> passes[i].g.crbAt <= passes[j].g.rbAt
  }

  ghost predicate LockOk(s: State) {
    forall k :: s.Ctl(k).phase.HoldsLock() <==> s.lock == Some(k)
  }

  ghost predicate Basics(cfg: Config, s: State) {
    && |s.history| > 0 && s.table.Keys == cfg.servicePrincipals && LockOk(s) && CacheAgrees(cfg, s.cache)
    && (forall k :: PhaseOk(cfg, s, s.Ctl(k).phase))
    && (forall i :: 0 <= i < |s.passes| ==> PassOk(cfg, s, s.passes[i]))
    && PassesInOrder(s.passes)
    && (s.passes != [] && !s.Holder().Writing? ==> s.table == s.passes[|s.passes| - 1].result)
  }

  function Groups(c: Cluster, k: Kind): set<string> {
    Lowered(SpellingsOf(c.Get(k)))
  }

  ghost predicate SameGroups(s: State, seen: Option<nat>, k: Kind) {
    |s.history| > 0
    && (seen.None? || (seen.value < |s.history| && Groups(s.history[seen.value], k) == Groups(s.Current(), k)))
  }

  /** Nothing is lost: if the latest list of a kind no longer shows the current
      groups, the controller watching that kind is queued or has yet to list. */
  ghost predicate NothingLost(s: State) {
    && (s.rb.dirty || s.rb.phase.BeforeRoleBindingList() || SameGroups(s, s.RbSeen(), RoleBindings))
    && (s.crb.dirty || s.crb.phase.BeforeClusterRoleBindingList() || SameGroups(s, s.CrbSeen(), ClusterRoleBindings))
  }

  ghost predicate Quiescent(s: State) {
    && !s.rb.dirty && !s.crb.dirty && s.rb.phase == Idle && s.crb.phase == Idle
  }

  /** Until a pass has completed, and after an error, there is work left. */
  predicate Unfinished(s: State) {
    s.passes == [] || s.aborted
  }

  ghost predicate Inv(cfg: Config, s: State) {
    Basics(cfg, s) && NothingLost(s) && (Unfinished(s) ==> !Quiescent(s))
  }

  // ---- every step keeps it -------------------------------------------------------

  lemma InitEstablishesInv(cfg: Config, s: State)
    requires Init(cfg, s)
    ensures Inv(cfg, s)
  {
  }

  /** The parts of the state a phase or a finished pass depends on, unchanged but
      for a history that may have grown. */
  ghost predicate HistoryGrows(s: State, s': State) {
    |s.history| <= |s'.history| && forall i :: 0 <= i < |s.history| ==> s'.history[i] == s.history[i]
  }

  ghost predicate Extends(s: State, s': State) {
    && HistoryGrows(s, s')
    && s'.table == s.table && s'.cache == s.cache && s'.passes == s.passes
  }

  lemma ExtendsKeepsPhase(cfg: Config, s: State, s': State, p: Phase)
    requires Extends(s, s') && PhaseOk(cfg, s, p)
    ensures PhaseOk(cfg, s', p)
  {
  }

  lemma HistoryKeepsPass(cfg: Config, s: State, s': State, r: Pass)
    requires HistoryGrows(s, s') && PassOk(cfg, s, r)
    ensures PassOk(cfg, s', r)
  {
  }

  /** A step that touches only one controller, the lock, and perhaps the history. */
  lemma ControllerStep(cfg: Config, s: State, s': State, k: Kind)
    requires Basics(cfg, s) && Extends(s, s')
    requires forall k' :: k' != k ==> s'.Ctl(k').phase == s.Ctl(k').phase
    requires PhaseOk(cfg, s', s'.Ctl(k).phase)
    requires s'.Ctl(k).phase.HoldsLock() <==> s'.lock == Some(k)
    requires s'.lock == s.lock || (s.lock == None && s'.lock == Some(k)) || (s.lock == Some(k) && s'.lock == None)
    requires s'.Ctl(k).phase.Writing? || !s.Ctl(k).phase.Writing?
    ensures Basics(cfg, s')
  {
    hide PhaseOk, PassOk;
    forall k' ensures PhaseOk(cfg, s', s'.Ctl(k').phase) {
      if k' != k { ExtendsKeepsPhase(cfg, s, s', s.Ctl(k').phase); }
    }
    forall i | 0 <= i < |s'.passes| ensures PassOk(cfg, s', s'.passes[i]) {
      HistoryKeepsPass(cfg, s, s', s.passes[i]);
    }
    forall k' ensures s'.Ctl(k').phase.HoldsLock() <==> s'.lock == Some(k') {
      assert s.Ctl(k').phase.HoldsLock() <==> s.lock == Some(k');
    }
  }

  lemma EventKeepsBasics(cfg: Config, s: State, e: BindingEvent)
    requires Basics(cfg, s) && Enabled(cfg, s, Event(e))
    ensures Basics(cfg, Apply(cfg, s, Event(e)))
  {
    hide PhaseOk, PassOk, After, Accepts;
    var s' := Apply(cfg, s, Event(e));
    assert Extends(s, s');
    ExtendsKeepsPhase(cfg, s, s', s.Ctl(e.kind).phase);
    ControllerStep(cfg, s, s', e.kind);
  }

  lemma NothingListed(cfg: Config, s: State)
    ensures PhaseOk(cfg, s, Idle) && PhaseOk(cfg, s, Waiting) && PhaseOk(cfg, s, Locked)
  {
  }

  lemma ResyncKeepsBasics(cfg: Config, s: State, k: Kind)
    requires Basics(cfg, s) && Enabled(cfg, s, Resync(k))
    ensures Basics(cfg, Apply(cfg, s, Resync(k)))
  {
    hide PhaseOk, PassOk, CacheAgrees;
    var s' := Apply(cfg, s, Resync(k));
    assert Extends(s, s');
    ExtendsKeepsPhase(cfg, s, s', s.Ctl(k).phase);
    assert s.Ctl(k).phase.HoldsLock() <==> s.lock == Some(k);
    ControllerStep(cfg, s, s', k);
  }

  lemma QueueKeepsBasics(cfg: Config, s: State, a: Action)
    requires Basics(cfg, s) && Enabled(cfg, s, a) && (a.Dequeue? || a.Acquire?)
    ensures Basics(cfg, Apply(cfg, s, a))
  {
    hide PhaseOk, PassOk, CacheAgrees;
    var s' := Apply(cfg, s, a);
    assert Extends(s, s');
    NothingListed(cfg, s');
    assert s.Ctl(a.k).phase.HoldsLock() <==> s.lock == Some(a.k);
    ControllerStep(cfg, s, s', a.k);
  }

  lemma RoleBindingListKeepsBasics(cfg: Config, s: State, k: Kind, ok: bool)
    requires Basics(cfg, s) && Enabled(cfg, s, ListRoleBindings(k, ok))
    ensures Basics(cfg, Apply(cfg, s, ListRoleBindings(k, ok)))
  {
    hide PassOk;
    var s' := Apply(cfg, s, ListRoleBindings(k, ok));
    assert s.Ctl(k).phase.HoldsLock() <==> s.lock == Some(k);
    forall i | 0 <= i < |s.passes| ensures s.passes[i].g.crbAt <= |s.history| - 1 {
      LastListed(cfg, s, i);
    }
    ControllerStep(cfg, s, s', k);
  }

  lemma ClusterRoleBindingListKeepsBasics(cfg: Config, s: State, k: Kind, ok: bool)
    requires Basics(cfg, s) && Enabled(cfg, s, ListClusterRoleBindings(k, ok))
    ensures Basics(cfg, Apply(cfg, s, ListClusterRoleBindings(k, ok)))
  {
    hide SpellingsOf, PassOk;
    var s' := Apply(cfg, s, ListClusterRoleBindings(k, ok));
    assert PhaseOk(cfg, s, s.Ctl(k).phase);
    assert s.Ctl(k).phase.HoldsLock() <==> s.lock == Some(k);
    ControllerStep(cfg, s, s', k);
  }

  lemma LastListed(cfg: Config, s: State, i: nat)
    requires Basics(cfg, s) && i < |s.passes|
    ensures s.passes[i].g.crbAt <= |s.history| - 1
  {
  }

  lemma ResolveKeepsBasics(cfg: Config, s: State, k: Kind, spelling: string, ok: bool)
    requires Basics(cfg, s) && Enabled(cfg, s, Resolve(k, spelling, ok))
    ensures Basics(cfg, Apply(cfg, s, Resolve(k, spelling, ok)))
  {
    hide SpellingsOf, PassOk;
    var s' := Apply(cfg, s, Resolve(k, spelling, ok));
    assert s.Ctl(k).phase.HoldsLock() <==> s.lock == Some(k);
    assert PhaseOk(cfg, s, s.Ctl(k).phase);
    var p, p' := s.Ctl(k).phase, s'.Ctl(k).phase;
    var all := Candidates(s.history, p.g.rbAt, p.g.crbAt);
    ResolveOne(cfg.directory, s.cache, all - p.lookups, p.g, spelling, s'.cache, p'.g);
    assert all - p'.lookups == (all - p.lookups) + {spelling};
    OnlyHolderChanged(cfg, s, s', k);
  }

  /** One lookup extends what has been resolved by its spelling. */
  lemma ResolveOne(directory: map<string, Option<string>>, cache: map<string, Option<string>>, tried: set<string>,
                   g: Gathered,
                   c: string, cache': map<string, Option<string>>, g': Gathered)
    requires ResolvedSoFar(directory, cache, tried, g) && c !in tried
    requires || (c !in cache && cache' == cache && g' == g.(allResolved := g'.allResolved)
                 && (g'.allResolved ==> g.allResolved && ToLower(c) !in directory))
             || (c in cache' && cache' == cache[c := cache'[c]]
                 && g' == g.(desired := if cache'[c].Some? then g.desired + {cache'[c].value} else g.desired))
    ensures ResolvedSoFar(directory, cache', tried + {c}, g')
  {
  }

  lemma BeginAzureListKeepsBasics(cfg: Config, s: State, k: Kind)
    requires Basics(cfg, s) && Enabled(cfg, s, BeginAzureList(k))
    ensures Basics(cfg, Apply(cfg, s, BeginAzureList(k)))
  {
    hide SpellingsOf, PassOk, ResolvedSoFar;
    assert PhaseOk(cfg, s, s.Ctl(k).phase);
    assert s.Ctl(k).phase.HoldsLock() <==> s.lock == Some(k);
    var all := Candidates(s.history, s.Ctl(k).phase.g.rbAt, s.Ctl(k).phase.g.crbAt);
    assert all - {} == all;
    ControllerStep(cfg, s, Apply(cfg, s, BeginAzureList(k)), k);
  }

  lemma AzureListKeepsBasics(cfg: Config, s: State, k: Kind, sp: string, ok: bool)
    requires Basics(cfg, s) && Enabled(cfg, s, ListAzure(k, sp, ok))
    ensures Basics(cfg, Apply(cfg, s, ListAzure(k, sp, ok)))
  {
    hide SpellingsOf, PassOk, ResolvedSoFar;
    assert PhaseOk(cfg, s, s.Ctl(k).phase);
    assert s.Ctl(k).phase.HoldsLock() <==> s.lock == Some(k);
    ControllerStep(cfg, s, Apply(cfg, s, ListAzure(k, sp, ok)), k);
  }

  lemma BeginWritesKeepsBasics(cfg: Config, s: State, k: Kind)
    requires Basics(cfg, s) && Enabled(cfg, s, BeginWrites(k))
    ensures Basics(cfg, Apply(cfg, s, BeginWrites(k)))
  {
    hide SpellingsOf, PassOk, ResolvedSoFar, PassWrites, WithWrites;
    assert PhaseOk(cfg, s, s.Ctl(k).phase);
    assert s.Ctl(k).phase.HoldsLock() <==> s.lock == Some(k);
    NoWritesYet(s.Ctl(k).phase.snapshot);
    assert s.Ctl(k).phase.snapshot == s.table;
    ControllerStep(cfg, s, Apply(cfg, s, BeginWrites(k)), k);
  }

  lemma WriteKeepsPhase(cfg: Config, s: State, k: Kind, w: Write, ok: bool)
    requires Basics(cfg, s) && Enabled(cfg, s, DoWrite(k, w, ok))
    ensures var s' := Apply(cfg, s, DoWrite(k, w, ok));
            PhaseOk(cfg, s', s'.Ctl(k).phase) && s'.table.Keys == cfg.servicePrincipals
  {
    hide SpellingsOf, PassWrites, WithWrites, ApplyWrite, PassOk, ResolvedSoFar;
    assert PhaseOk(cfg, s, s.Ctl(k).phase);
    var p := s.Ctl(k).phase;
    WithWritesHas(p.snapshot, p.done);
    if ok {
      WithWritesStep(p.snapshot, p.g.desired, p.done, w);
      WithWritesHas(p.snapshot, p.done + {w});
    }
  }

  lemma WriteKeepsBasics(cfg: Config, s: State, k: Kind, w: Write, ok: bool)
    requires Basics(cfg, s) && Enabled(cfg, s, DoWrite(k, w, ok))
    ensures Basics(cfg, Apply(cfg, s, DoWrite(k, w, ok)))
  {
    hide PassOk, ApplyWrite;
    var s' := Apply(cfg, s, DoWrite(k, w, ok));
    WriteKeepsPhase(cfg, s, k, w, ok);
    OnlyHolderChanged(cfg, s, s', k);
  }

  /** The lock holder may also change the table and the cache: the other controller is
      not past the lock, and finished passes do not depend on them. */
  lemma OnlyHolderChanged(cfg: Config, s: State, s': State, k: Kind)
    requires Basics(cfg, s) && s.lock == Some(k) == s'.lock
    requires s'.history == s.history && s'.passes == s.passes
    requires s'.table.Keys == cfg.servicePrincipals && CacheAgrees(cfg, s'.cache)
    requires forall k' :: k' != k ==> s'.Ctl(k').phase == s.Ctl(k').phase
    requires s'.Ctl(k).phase.HoldsLock() && PhaseOk(cfg, s', s'.Ctl(k).phase)
    requires s'.Ctl(k).phase.Writing? || (!s.Ctl(k).phase.Writing? && s'.table == s.table)
    ensures Basics(cfg, s')
  {
    hide PassOk;
    forall k' ensures PhaseOk(cfg, s', s'.Ctl(k').phase) && (s'.Ctl(k').phase.HoldsLock() <==> s'.lock == Some(k')) {
      assert s.Ctl(k').phase.HoldsLock() <==> s.lock == Some(k');
    }
    forall i | 0 <= i < |s'.passes| ensures PassOk(cfg, s', s'.passes[i]) {
      HistoryKeepsPass(cfg, s, s', s.passes[i]);
    }
  }

  /** The cache only holds what the directory holds; when no lookup failed the two
      give the same groups. */
  lemma CachedGroupsAreDirectoryGroups(cfg: Config, cache: map<string, Option<string>>, tried: set<string>)
    requires CacheAgrees(cfg, cache)
    ensures CachedGroups(cache, tried) <= DirectoryGroups(cfg.directory, Lowered(tried))
    ensures (forall c :: c in tried ==> c in cache || ToLower(c) !in cfg.directory) ==>
      CachedGroups(cache, tried) == DirectoryGroups(cfg.directory, Lowered(tried))
  {
  }

  lemma FinishKeepsBasics(cfg: Config, s: State, k: Kind)
    requires Basics(cfg, s) && Enabled(cfg, s, Finish(k))
    ensures Basics(cfg, Apply(cfg, s, Finish(k)))
  {
    hide SpellingsOf, PassWrites, PassResult, WithWrites;
    var s' := Apply(cfg, s, Finish(k));
    assert s.lock == Some(k) && PhaseOk(cfg, s, s.Ctl(k).phase);
    var p := s.Ctl(k).phase;
    AllWritesDone(p.snapshot, p.g.desired, p.failed);
    assert p.done == PassWrites(p.snapshot, p.g.desired) - p.failed;
    CachedGroupsAreDirectoryGroups(cfg, s.cache, Candidates(s.history, p.g.rbAt, p.g.crbAt));
    assert PassOk(cfg, s', s'.passes[|s.passes|]);
    forall k' ensures PhaseOk(cfg, s', s'.Ctl(k').phase) && (s'.Ctl(k').phase.HoldsLock() <==> s'.lock == Some(k')) {
      assert PhaseOk(cfg, s, s.Ctl(k').phase) && (s.Ctl(k').phase.HoldsLock() <==> s.lock == Some(k'));
    }
  }

  lemma StepKeepsBasics(cfg: Config, s: State, a: Action)
    requires Basics(cfg, s) && Enabled(cfg, s, a)
    ensures Basics(cfg, Apply(cfg, s, a))
  {
    match a
    case Event(e) => EventKeepsBasics(cfg, s, e);
    case Resync(k) => ResyncKeepsBasics(cfg, s, k);
    case Dequeue(_) => QueueKeepsBasics(cfg, s, a);
    case Acquire(_) => QueueKeepsBasics(cfg, s, a);
    case ListRoleBindings(k, ok) => RoleBindingListKeepsBasics(cfg, s, k, ok);
    case ListClusterRoleBindings(k, ok) => ClusterRoleBindingListKeepsBasics(cfg, s, k, ok);
    case Resolve(k, spelling, ok) => ResolveKeepsBasics(cfg, s, k, spelling, ok);
    case BeginAzureList(k) => BeginAzureListKeepsBasics(cfg, s, k);
    case ListAzure(k, sp, ok) => AzureListKeepsBasics(cfg, s, k, sp, ok);
    case BeginWrites(k) => BeginWritesKeepsBasics(cfg, s, k);
    case DoWrite(k, w, ok) => WriteKeepsBasics(cfg, s, k, w, ok);
    case Finish(k) => FinishKeepsBasics(cfg, s, k);
  }

  /** The filter at work: an event that is not queued changes no group. */
  lemma EventMarksOrKeeps(cfg: Config, s: State, e: BindingEvent, k: Kind)
    requires Enabled(cfg, s, Event(e))
    ensures var s' := Apply(cfg, s, Event(e));
            s'.Ctl(k).dirty || (s'.Ctl(k) == s.Ctl(k) && Groups(s'.Current(), k) == Groups(s.Current(), k))
  {
    hide SpellingsOf, Accepts;
    if !Accepts(e) {
      DroppedEventKeepsGroups(s.Current(), e);
    } else if k != e.kind {
      assert After(s.Current(), e).Get(k) == s.Current().Get(k);
    }
  }

  lemma EventKeepsNothingLost(cfg: Config, s: State, e: BindingEvent)
    requires Inv(cfg, s) && Enabled(cfg, s, Event(e))
    ensures NothingLost(Apply(cfg, s, Event(e)))
  {
    hide Basics, Groups, Accepts, After, Applies;
    var s' := Apply(cfg, s, Event(e));
    assert s'.RbSeen() == s.RbSeen() && s'.CrbSeen() == s.CrbSeen();
    assert forall i | 0 <= i < |s.history| :: s'.history[i] == s.history[i];
    EventMarksOrKeeps(cfg, s, e, RoleBindings);
    EventMarksOrKeeps(cfg, s, e, ClusterRoleBindings);
    assert s'.rb == s'.Ctl(RoleBindings) && s'.crb == s'.Ctl(ClusterRoleBindings);
  }

  /** Queueing, and moving up to the lock, changes nothing that has been seen. */
  lemma NotYetListingKeepsNothingLost(s: State, s': State, k: Kind)
    requires LockOk(s) && NothingLost(s) && |s.history| > 0
    requires s'.history == s.history && s'.passes == s.passes && s'.aborted == s.aborted
    requires forall k' :: k' != k ==> s'.Ctl(k') == s.Ctl(k')
    requires || (s'.lock == s.lock && s'.Ctl(k).phase == s.Ctl(k).phase && s'.Ctl(k).dirty)
             || (s'.lock == s.lock && s.Ctl(k).phase == Idle && s'.Ctl(k).phase == Waiting)
             || (s.lock == None && s'.lock == Some(k) && s'.Ctl(k).phase == Locked)
    ensures NothingLost(s')
  {
    hide Groups;
    assert forall k' :: s.Ctl(k').phase.HoldsLock() <==> s.lock == Some(k');
    assert s.rb == s.Ctl(RoleBindings) && s.crb == s.Ctl(ClusterRoleBindings);
    assert s'.rb == s'.Ctl(RoleBindings) && s'.crb == s'.Ctl(ClusterRoleBindings);
    assert s'.RbSeen() == s.RbSeen() && s'.CrbSeen() == s.CrbSeen();
  }

  lemma QueueKeepsNothingLost(cfg: Config, s: State, a: Action)
    requires LockOk(s) && NothingLost(s) && Enabled(cfg, s, a) && (a.Resync? || a.Dequeue? || a.Acquire?)
    ensures NothingLost(Apply(cfg, s, a))
  {
    hide NothingLost;
    NotYetListingKeepsNothingLost(s, Apply(cfg, s, a), a.k);
  }

  /** A step of the lock holder that keeps the lock: only its own two lists move
      what has been seen, and they move it to the current cluster. */
  lemma HolderStepKeepsNothingLost(s: State, s': State, k: Kind)
    requires NothingLost(s) && s.lock == Some(k) == s'.lock && |s.history| > 0
    requires s'.history == s.history && s'.passes == s.passes && s'.aborted == s.aborted
    requires s'.rb.dirty == s.rb.dirty && s'.crb.dirty == s.crb.dirty
    requires forall k' :: k' != k ==> s'.Ctl(k') == s.Ctl(k')
    requires var (p, p') := (s.Ctl(k).phase, s'.Ctl(k).phase);
             || (p == Locked && p' == HaveRoleBindings(|s.history| - 1))
             || (p.HaveRoleBindings? && p'.Resolving? && p'.g.rbAt == p.rbAt && p'.g.crbAt == |s.history| - 1)
             || (p.HasBothLists() && p'.HasBothLists() && p'.g.rbAt == p.g.rbAt && p'.g.crbAt == p.g.crbAt)
    ensures NothingLost(s')
  {
    hide Groups;
    assert s.rb == s.Ctl(RoleBindings) && s.crb == s.Ctl(ClusterRoleBindings);
    assert s'.rb == s'.Ctl(RoleBindings) && s'.crb == s'.Ctl(ClusterRoleBindings);
  }

  /** The end of a pass: an error forgets what was seen, completion records it. */
  lemma ReleaseKeepsNothingLost(s: State, s': State, k: Kind)
    requires NothingLost(s) && s.lock == Some(k) && s'.lock == None && |s.history| > 0
    requires s'.history == s.history && s'.Ctl(k).phase == Idle && (s.Ctl(k).dirty ==> s'.Ctl(k).dirty)
    requires forall k' :: k' != k ==> s'.Ctl(k') == s.Ctl(k')
    requires || s'.aborted
             || (!s'.aborted && s.Ctl(k).phase.Writing? && |s'.passes| > 0
                 && s'.passes[|s'.passes| - 1].g == s.Ctl(k).phase.g)
    ensures NothingLost(s')
  {
    hide Groups;
    assert s.rb == s.Ctl(RoleBindings) && s.crb == s.Ctl(ClusterRoleBindings);
    assert s'.rb == s'.Ctl(RoleBindings) && s'.crb == s'.Ctl(ClusterRoleBindings);
  }

  lemma RoleBindingListKeepsNothingLost(cfg: Config, s: State, k: Kind, ok: bool)
    requires LockOk(s) && NothingLost(s) && Enabled(cfg, s, ListRoleBindings(k, ok))
    ensures NothingLost(Apply(cfg, s, ListRoleBindings(k, ok)))
  {
    hide NothingLost;
    assert s.Ctl(k).phase.HoldsLock() <==> s.lock == Some(k);
    if ok {
      HolderStepKeepsNothingLost(s, Apply(cfg, s, ListRoleBindings(k, ok)), k);
    } else {
      ReleaseKeepsNothingLost(s, Apply(cfg, s, ListRoleBindings(k, ok)), k);
    }
  }

  lemma ClusterRoleBindingListKeepsNothingLost(cfg: Config, s: State, k: Kind, ok: bool)
    requires LockOk(s) && NothingLost(s) && Enabled(cfg, s, ListClusterRoleBindings(k, ok))
    ensures NothingLost(Apply(cfg, s, ListClusterRoleBindings(k, ok)))
  {
    hide NothingLost, SpellingsOf;
    assert s.Ctl(k).phase.HoldsLock() <==> s.lock == Some(k);
    if ok {
      HolderStepKeepsNothingLost(s, Apply(cfg, s, ListClusterRoleBindings(k, ok)), k);
    } else {
      ReleaseKeepsNothingLost(s, Apply(cfg, s, ListClusterRoleBindings(k, ok)), k);
    }
  }

  lemma ResolveKeepsNothingLost(cfg: Config, s: State, k: Kind, spelling: string, ok: bool)
    requires LockOk(s) && NothingLost(s) && Enabled(cfg, s, Resolve(k, spelling, ok))
    ensures NothingLost(Apply(cfg, s, Resolve(k, spelling, ok)))
  {
    hide NothingLost, ToLower;
    assert s.Ctl(k).phase.HoldsLock() <==> s.lock == Some(k);
    HolderStepKeepsNothingLost(s, Apply(cfg, s, Resolve(k, spelling, ok)), k);
  }

  lemma WriteKeepsNothingLost(cfg: Config, s: State, k: Kind, w: Write, ok: bool)
    requires LockOk(s) && NothingLost(s) && Enabled(cfg, s, DoWrite(k, w, ok))
    ensures NothingLost(Apply(cfg, s, DoWrite(k, w, ok)))
  {
    hide NothingLost, PassWrites, ApplyWrite;
    assert s.Ctl(k).phase.HoldsLock() <==> s.lock == Some(k);
    HolderStepKeepsNothingLost(s, Apply(cfg, s, DoWrite(k, w, ok)), k);
  }

  lemma AzureStepKeepsNothingLost(cfg: Config, s: State, a: Action)
    requires LockOk(s) && NothingLost(s) && Enabled(cfg, s, a)
    requires a.BeginAzureList? || a.BeginWrites? || (a.ListAzure? && a.ok)
    ensures NothingLost(Apply(cfg, s, a))
  {
    hide NothingLost, PassWrites, ApplyWrite;
    assert s.Ctl(a.k).phase.HoldsLock() <==> s.lock == Some(a.k);
    HolderStepKeepsNothingLost(s, Apply(cfg, s, a), a.k);
  }

  lemma PassEndKeepsNothingLost(cfg: Config, s: State, a: Action)
    requires LockOk(s) && NothingLost(s) && Enabled(cfg, s, a) && (a.Finish? || (a.ListAzure? && !a.ok))
    ensures NothingLost(Apply(cfg, s, a))
  {
    hide NothingLost;
    assert s.Ctl(a.k).phase.HoldsLock() <==> s.lock == Some(a.k);
    ReleaseKeepsNothingLost(s, Apply(cfg, s, a), a.k);
  }

  /** Work is only taken off a queue to start a pass, and a pass that does not complete
      goes back to the queue. */
  lemma WorkStaysQueued(s: State, s': State, k: Kind)
    requires Unfinished(s) ==> !Quiescent(s)
    requires forall k' :: k' != k ==> s'.Ctl(k') == s.Ctl(k')
    requires || !Unfinished(s') || s'.Ctl(k).dirty || s'.Ctl(k).phase != Idle
             || (s'.Ctl(k) == s.Ctl(k) && s'.passes == s.passes && s'.aborted == s.aborted)
    ensures Unfinished(s') ==> !Quiescent(s')
  {
    assert s.rb == s.Ctl(RoleBindings) && s.crb == s.Ctl(ClusterRoleBindings);
    assert s'.rb == s'.Ctl(RoleBindings) && s'.crb == s'.Ctl(ClusterRoleBindings);
  }

  lemma EventKeepsWork(cfg: Config, s: State, e: BindingEvent)
    requires Enabled(cfg, s, Event(e)) && (Unfinished(s) ==> !Quiescent(s))
    ensures Unfinished(Apply(cfg, s, Event(e))) ==> !Quiescent(Apply(cfg, s, Event(e)))
  {
    hide Quiescent, Unfinished, Accepts, After, Applies;
    WorkStaysQueued(s, Apply(cfg, s, Event(e)), e.kind);
  }

  lemma QueueKeepsWork(cfg: Config, s: State, a: Action)
    requires Enabled(cfg, s, a) && (Unfinished(s) ==> !Quiescent(s))
    requires (a.Resync? || a.Dequeue? || a.Acquire? || a.Finish?)
    ensures Unfinished(Apply(cfg, s, a)) ==> !Quiescent(Apply(cfg, s, a))
  {
    hide Quiescent;
    WorkStaysQueued(s, Apply(cfg, s, a), a.k);
  }

  lemma ListKeepsWork(cfg: Config, s: State, a: Action)
    requires Enabled(cfg, s, a) && (Unfinished(s) ==> !Quiescent(s))
    requires a.ListRoleBindings? || a.ListClusterRoleBindings? || a.ListAzure?
    ensures Unfinished(Apply(cfg, s, a)) ==> !Quiescent(Apply(cfg, s, a))
  {
    hide Quiescent, Unfinished, Candidates;
    WorkStaysQueued(s, Apply(cfg, s, a), a.k);
  }

  lemma CallKeepsWork(cfg: Config, s: State, a: Action)
    requires Enabled(cfg, s, a) && (Unfinished(s) ==> !Quiescent(s))
    requires a.Resolve? || a.BeginAzureList? || a.BeginWrites? || a.DoWrite?
    ensures Unfinished(Apply(cfg, s, a)) ==> !Quiescent(Apply(cfg, s, a))
  {
    hide Quiescent, Unfinished, PassWrites, ApplyWrite, ToLower;
    WorkStaysQueued(s, Apply(cfg, s, a), a.k);
  }

  lemma StepKeepsWork(cfg: Config, s: State, a: Action)
    requires Enabled(cfg, s, a) && (Unfinished(s) ==> !Quiescent(s))
    ensures Unfinished(Apply(cfg, s, a)) ==> !Quiescent(Apply(cfg, s, a))
  {
    hide Enabled, Apply, Quiescent, Unfinished;
    if a.Event? {
      EventKeepsWork(cfg, s, a.e);
    } else if a.Resync? || a.Dequeue? || a.Acquire? || a.Finish? {
      QueueKeepsWork(cfg, s, a);
    } else if a.ListRoleBindings? || a.ListClusterRoleBindings? || a.ListAzure? {
      ListKeepsWork(cfg, s, a);
    } else {
      CallKeepsWork(cfg, s, a);
    }
  }

  lemma StepKeepsInv(cfg: Config, s: State, a: Action)
    requires Inv(cfg, s) && Enabled(cfg, s, a)
    ensures Inv(cfg, Apply(cfg, s, a))
  {
    hide Apply, Enabled, NothingLost, Quiescent, Unfinished;
    StepKeepsBasics(cfg, s, a);
    StepKeepsWork(cfg, s, a);
    if a.Event? {
      EventKeepsNothingLost(cfg, s, a.e);
    } else if a.Resync? || a.Dequeue? || a.Acquire? {
      QueueKeepsNothingLost(cfg, s, a);
    } else if a.ListRoleBindings? {
      RoleBindingListKeepsNothingLost(cfg, s, a.k, a.ok);
    } else if a.ListClusterRoleBindings? {
      ClusterRoleBindingListKeepsNothingLost(cfg, s, a.k, a.ok);
    } else if a.Resolve? {
      ResolveKeepsNothingLost(cfg, s, a.k, a.spelling, a.ok);
    } else if a.Finish? || (a.ListAzure? && !a.ok) {
      PassEndKeepsNothingLost(cfg, s, a);
    } else if a.DoWrite? {
      WriteKeepsNothingLost(cfg, s, a.k, a.w, a.ok);
    } else {
      AzureStepKeepsNothingLost(cfg, s, a);
    }
  }

  lemma {:induction false} RunKeepsInv(cfg: Config, s: State, actions: seq<Action>)
    requires Inv(cfg, s) && IsRun(cfg, s, actions)
    ensures Inv(cfg, Exec(cfg, s, actions))
    decreases |actions|
  {
    if actions != [] {
      StepKeepsInv(cfg, s, actions[0]);
      RunKeepsInv(cfg, Apply(cfg, s, actions[0]), actions[1..]);
    }
  }

  lemma InvAfterRun(cfg: Config, s0: State, actions: seq<Action>)
    requires Init(cfg, s0) && IsRun(cfg, s0, actions)
    ensures Inv(cfg, Exec(cfg, s0, actions))
  {
    InitEstablishesInv(cfg, s0);
    RunKeepsInv(cfg, s0, actions);
  }

  // ---- no lost update --------------------------------------------------------------

  /** The directory as a way of resolving spellings. */
  function DirectoryLookup(directory: map<string, Option<string>>): string -> Option<string> {
    spelling => if ToLower(spelling) in directory then directory[ToLower(spelling)] else None
  }

  lemma DirectoryDesired(c: Cluster, directory: map<string, Option<string>>)
    ensures DesiredGroups(c, DirectoryLookup(directory))
         == DirectoryGroups(directory, Groups(c, RoleBindings) + Groups(c, ClusterRoleBindings))
  {
  }

  /** Every service principal has exactly the groups of the bindings in `c`. */
  ghost predicate InLine(cfg: Config, table: Table, c: Cluster) {
    forall sp :: sp in cfg.servicePrincipals ==>
      sp in table && table[sp] == DesiredGroups(c, DirectoryLookup(cfg.directory))
  }

  /** A live binding of either kind names a group, in some case, that the directory holds
      under this id. */
  ghost predicate IsWanted(cfg: Config, c: Cluster, g: string) {
    exists kind, n :: n in SpellingsOf(c.Get(kind))
                      && ToLower(n) in cfg.directory && cfg.directory[ToLower(n)] == Some(g)
  }

  /** No lost update, over whole runs: with both queues empty and no pass in flight, a pass
      has completed and no error is pending; and if in the latest pass no write failed and
      every group the directory holds was found, then every service principal has exactly
      the groups of the bindings as they are now, even though dropped events were never
      queued, bursts were coalesced, and that pass may have been taken by either controller. */
  lemma NoLostUpdate(cfg: Config, s0: State, actions: seq<Action>)
    requires Init(cfg, s0) && IsRun(cfg, s0, actions) && Quiescent(Exec(cfg, s0, actions))
    ensures var s := Exec(cfg, s0, actions);
            && s.passes != [] && !s.aborted && |s.history| > 0
            && (s.passes[|s.passes| - 1].Clean() ==> InLine(cfg, s.table, s.Current()))
  {
    hide Inv, Quiescent, Exec, IsRun, Init, InLine;
    InvAfterRun(cfg, s0, actions);
    QuiescentIsConverged(cfg, Exec(cfg, s0, actions));
  }

  /** In line, binding by binding: every service principal is there, with a group exactly if
      the directory holds it for a name that a live binding names. */
  lemma InLineMeans(cfg: Config, table: Table, c: Cluster)
    ensures InLine(cfg, table, c)
            <==> forall sp :: sp in cfg.servicePrincipals ==>
                   sp in table && forall g :: g in table[sp] <==> IsWanted(cfg, c, g)
  {
    hide DesiredGroups, DirectoryLookup, IsWanted;
    forall g ensures g in DesiredGroups(c, DirectoryLookup(cfg.directory)) <==> IsWanted(cfg, c, g) {
      DesiredIsWanted(cfg, c, g);
    }
  }

  lemma DesiredIsWanted(cfg: Config, c: Cluster, g: string)
    ensures g in DesiredGroups(c, DirectoryLookup(cfg.directory)) <==> IsWanted(cfg, c, g)
  {
    hide SpellingsOf, DesiredGroups, ToLower;
    var lookup := DirectoryLookup(cfg.directory);
    DesiredAre(c, lookup, g);
    if kind, n :| n in SpellingsOf(c.Get(kind)) && lookup(n) == Some(g) { assert IsWanted(cfg, c, g); }
    if kind, n :| n in SpellingsOf(c.Get(kind)) && ToLower(n) in cfg.directory && cfg.directory[ToLower(n)] == Some(g) {
      assert lookup(n) == Some(g);
    }
  }

  lemma QuiescentIsConverged(cfg: Config, s: State)
    requires Inv(cfg, s) && Quiescent(s)
    ensures s.passes != [] && !s.aborted && |s.history| > 0
    ensures s.passes[|s.passes| - 1].Clean() ==> InLine(cfg, s.table, s.Current())
  {
    hide InLine;
    if s.passes[|s.passes| - 1].Clean() { CleanIsConverged(cfg, s); }
  }

  lemma CleanIsConverged(cfg: Config, s: State)
    requires Inv(cfg, s) && Quiescent(s) && s.passes != [] && !s.aborted && s.passes[|s.passes| - 1].Clean()
    ensures InLine(cfg, s.table, s.Current())
  {
    hide PassResult, PassWrites, DirectoryGroups, SpellingsOf, DesiredGroups, DirectoryLookup;
    var last := s.passes[|s.passes| - 1];
    assert PassOk(cfg, s, last);
    assert !s.Holder().HoldsLock();
    assert s.RbSeen() == Some(last.g.rbAt) && s.CrbSeen() == Some(last.g.crbAt);
    var c := s.Current();
    assert Lowered(Candidates(s.history, last.g.rbAt, last.g.crbAt))
        == Groups(s.history[last.g.rbAt], RoleBindings) + Groups(s.history[last.g.crbAt], ClusterRoleBindings)
        == Groups(c, RoleBindings) + Groups(c, ClusterRoleBindings);
    DirectoryDesired(c, cfg.directory);
    forall sp | sp in cfg.servicePrincipals
      ensures sp in s.table && s.table[sp] == DesiredGroups(c, DirectoryLookup(cfg.directory))
    {
      assert sp in last.snapshot;
      PassBounds(last.snapshot, last.g.desired, {}, sp);
    }
  }

  // ---- one writer, a coherent snapshot, serial passes ------------------------------

  /** From its Azure listing until it unlocks, the holder knows the table exactly: it is
      the listing with the holder's own completed writes applied, nobody else is past the
      lock, and what still separates the table from the desired set is what is left to
      do or has failed. */
  lemma SnapshotCoherence(cfg: Config, s0: State, actions: seq<Action>, k: Kind)
    requires Init(cfg, s0) && IsRun(cfg, s0, actions)
    requires Exec(cfg, s0, actions).Ctl(k).phase.Writing?
    ensures var s := Exec(cfg, s0, actions);
            var p := s.Ctl(k).phase;
            && s.table == WithWrites(p.snapshot, p.done)
            && PassWrites(s.table, p.g.desired) == p.todo + p.failed
            && (forall k' :: k' != k ==> !s.Ctl(k').phase.HoldsLock())
  {
    InvAfterRun(cfg, s0, actions);
    var s := Exec(cfg, s0, actions);
    assert PhaseOk(cfg, s, s.Ctl(k).phase);
    assert s.Ctl(k).phase.HoldsLock() <==> s.lock == Some(k);
    assert forall k' :: s.Ctl(k').phase.HoldsLock() <==> s.lock == Some(k');
    var p := s.Ctl(k).phase;
    WritesLeft(p.snapshot, p.g.desired, p.done);
  }

  /** Passes are serial whoever runs them: each took both its lists no earlier than every
      earlier pass took its own, so an older view of the cluster never overwrites the
      result of a newer one, and each left exactly the effect of one pass over the table
      it listed. */
  lemma PassesAreSerial(cfg: Config, s0: State, actions: seq<Action>)
    requires Init(cfg, s0) && IsRun(cfg, s0, actions)
    ensures var s := Exec(cfg, s0, actions);
            && (forall i, j :: 0 <= i < j < |s.passes| ==>
                  s.passes[i].g.rbAt <= s.passes[i].g.crbAt <= s.passes[j].g.rbAt <= s.passes[j].g.crbAt)
            && (forall i, k :: 0 <= i < |s.passes| && s.Ctl(k).phase.HasBothLists() ==>
                  s.passes[i].g.crbAt <= s.Ctl(k).phase.g.rbAt <= s.Ctl(k).phase.g.crbAt)
            && (forall i :: 0 <= i < |s.passes| ==>
                  s.passes[i].result == PassResult(s.passes[i].snapshot, s.passes[i].g.desired, s.passes[i].failed))
  {
    hide PassWrites, PassResult, WithWrites, SpellingsOf;
    InvAfterRun(cfg, s0, actions);
    var s := Exec(cfg, s0, actions);
    assert forall i :: 0 <= i < |s.passes| ==> PassOk(cfg, s, s.passes[i]);
    forall i, k | 0 <= i < |s.passes| && s.Ctl(k).phase.HasBothLists()
      ensures s.passes[i].g.crbAt <= s.Ctl(k).phase.g.rbAt <= s.Ctl(k).phase.g.crbAt
    {
      assert PhaseOk(cfg, s, s.Ctl(k).phase);
      ListsInOrder(s, s.Ctl(k).phase.g, i);
    }
  }

  lemma ListsInOrder(s: State, g: Gathered, i: nat)
    requires ListsOk(s, g.rbAt, g.crbAt) && i < |s.passes|
    ensures s.passes[i].g.crbAt <= g.rbAt <= g.crbAt
  {
  }

  // ---- no flapping -----------------------------------------------------------------

  /** Exactly when a pass removes a group: it was listed on the service principal and
      no spelling that the pass found in its two lists and that is in the cache stands
      for it. Failed lookups and failed writes play no part. */
  lemma RemovedIffUnreferenced(cfg: Config, s0: State, actions: seq<Action>, k: Kind, sp: string, group: string)
    requires Init(cfg, s0) && IsRun(cfg, s0, actions)
    requires Exec(cfg, s0, actions).Ctl(k).phase.Writing?
    ensures var s := Exec(cfg, s0, actions);
            var p := s.Ctl(k).phase;
            && p.g.rbAt < |s.history| && p.g.crbAt < |s.history|
            && (Remove(sp, group) in p.todo + p.done + p.failed <==>
                  && sp in p.snapshot && group in p.snapshot[sp]
                  && forall c :: c in Candidates(s.history, p.g.rbAt, p.g.crbAt) && c in s.cache ==>
                       s.cache[c] != Some(group))
  {
    hide SpellingsOf, WithWrites, PassWrites;
    InvAfterRun(cfg, s0, actions);
    var s := Exec(cfg, s0, actions);
    assert PhaseOk(cfg, s, s.Ctl(k).phase);
    var p := s.Ctl(k).phase;
    PassWritesAre(p.snapshot, p.g.desired);
  }

  lemma ControllersAreNotHistory()
    ensures forall s: State, k, c :: s.WithCtl(k, c).history == s.history
  {
  }

  lemma StepGrowsHistory(cfg: Config, s: State, a: Action)
    requires Enabled(cfg, s, a)
    ensures HistoryGrows(s, Apply(cfg, s, a))
  {
    hide Candidates, PassWrites, ApplyWrite, After, Accepts, Applies, State.WithCtl;
    ControllersAreNotHistory();
  }

  lemma {:induction false} RunGrowsHistory(cfg: Config, s: State, actions: seq<Action>)
    requires IsRun(cfg, s, actions)
    ensures HistoryGrows(s, Exec(cfg, s, actions))
    decreases |actions|
  {
    hide Apply, Enabled;
    if actions != [] {
      StepGrowsHistory(cfg, s, actions[0]);
      RunGrowsHistory(cfg, Apply(cfg, s, actions[0]), actions[1..]);
    }
  }
}
