/** The full-state convergence pass as the code runs it (reconcile_state.go): the
    loops that collect and resolve candidates and the loops that apply the
    difference, proved against the functions of ConvergencePass. Every API call may
    fail; `:|` picks stand for Go's arbitrary map order. */
module StateReconciler {
  import opened Wrappers
  import opened GoStrings
  import opened Bindings
  import opened ConvergencePass
  import opened ReconcileSystem

  /** The writes a pass has made: those that succeeded and those that failed. */
  datatype Progress = Progress(done: set<Write>, failed: set<Write>) {
    function All(): set<Write> { done + failed }

    function After(w: Write, ok: bool): Progress {
      if ok then this.(done := done + {w}) else this.(failed := failed + {w})
    }
  }

  /** The spellings all live bindings of either kind ask for. */
  function ClusterSpellings(c: Cluster): set<string> {
    SpellingsOf(c.roleBindings) + SpellingsOf(c.clusterRoleBindings)
  }

  /** The Kubernetes API, as far as the pass reads it. */
  class KubeClient {
    var cluster: Cluster

    /** How many calls have failed. */
    ghost var failures: nat

    constructor (cluster: Cluster)
      ensures this.cluster == cluster
    {
      this.cluster, failures := cluster, 0;
    }

    method List(kind: Kind) returns (items: Option<seq<Binding>>)
      modifies this`failures
      ensures failures == old(failures) + if items.None? then 1 else 0
      ensures items.Some? ==> Elements(items.value) == cluster.Get(kind).Values
    {
      items := None;
      if * {
        var m, found := cluster.Get(kind), [];
        var todo := m.Keys;
        while todo != {}
          invariant todo <= m.Keys
          invariant Elements(found) == set k | k in m.Keys - todo :: m[k]
        {
          var k :| k in todo;
          assert Elements(found + [m[k]]) == Elements(found) + {m[k]};
          assert m.Keys - (todo - {k}) == (m.Keys - todo) + {k};
          found, todo := found + [m[k]], todo - {k};
        }
        assert m.Keys - {} == m.Keys;
        items := Some(found);
      }
      failures := failures + if items.None? then 1 else 0;
    }
  }

  /** The interface of the same name: an assignment table, and group lookups that repeat
      what they have returned before. */
  class AzureGroupManager {
    var table: Table
    var known: map<string, Option<string>>
    const directory: map<string, Option<string>>

    /** The lookups asked for, the listings that failed, and the writes called since the
        latest listing. */
    ghost var asked: set<string>
    ghost var failures: nat
    ghost var made: Progress

    constructor (table: Table, directory: map<string, Option<string>>)
      ensures this.table == table && this.directory == directory && known == map[]
    {
      this.table, this.directory, known := table, directory, map[];
      asked, failures, made := {}, 0, Progress({}, {});
    }

    method GetGroupByID(groupID: string) returns (ok: bool, id: Option<string>)
      modifies this`known, this`asked
      ensures asked == old(asked) + {groupID}
      ensures groupID in old(known) ==> ok && id == old(known)[groupID] && known == old(known)
      ensures !ok ==> known == old(known)
      ensures ok && groupID !in old(known) ==>
        IsUuid(groupID) && ToLower(groupID) in directory && id == directory[ToLower(groupID)]
      ensures ok ==> known == old(known)[groupID := id]
    {
      ok, id, asked := false, None, asked + {groupID};
      if groupID in known {
        ok, id := true, known[groupID];
      } else if IsUuid(groupID) && ToLower(groupID) in directory {
        if * {
          ok, id := true, directory[ToLower(groupID)];
          known := known[groupID := id];
        }
      }
    }

    method AssignGroupToServicePrincipal(sp: string, groupID: string) returns (ok: bool)
      modifies this`table, this`made
      ensures table == if ok then ApplyWrite(old(table), Assign(sp, groupID)) else old(table)
      ensures made == old(made).After(Assign(sp, groupID), ok)
    {
      ok := *;
      made := made.After(Assign(sp, groupID), ok);
      if ok && sp in table {
        table := table[sp := table[sp] + {groupID}];
      }
    }

    method RemoveGroupFromServicePrincipal(sp: string, groupID: string) returns (ok: bool)
      modifies this`table, this`made
      ensures table == if ok then ApplyWrite(old(table), Remove(sp, groupID)) else old(table)
      ensures made == old(made).After(Remove(sp, groupID), ok)
    {
      ok := *;
      made := made.After(Remove(sp, groupID), ok);
      if ok && sp in table {
        table := table[sp := table[sp] - {groupID}];
      }
    }

    method ListManagedAssignments() returns (listing: Option<Table>)
      modifies this`made, this`failures
      ensures listing.Some? ==> listing.value == table && made == Progress({}, {})
      ensures failures == old(failures) + if listing.None? then 1 else 0
    {
      listing := None;
      if * {
        listing, made := Some(table), Progress({}, {});
      }
      failures := failures + if listing.None? then 1 else 0;
    }
  }

  /** What a pass reports: the numbers and sets behind its metrics. */
  datatype Stats = Stats(groupsToAssign: set<string>, groupsToRemove: set<string>, actualAfter: set<string>,
                         assignedCount: nat, removedCount: nat)

  function GroupsIn(ws: set<Write>): set<string> {
    set w | w in ws :: w.group
  }

  /** The counters and the two sets agree with the writes made so far. */
  ghost predicate Tally(s: Stats, p: Progress) {
    && s.groupsToAssign == GroupsIn(Assigns(p.All())) && s.groupsToRemove == GroupsIn(Removes(p.All()))
    && s.assignedCount == |Assigns(p.done)| && s.removedCount == |Removes(p.done)|
  }

  lemma AddWrite(ws: set<Write>, w: Write)
    requires w !in ws
    ensures Assigns(ws + {w}) == if w.Assign? then Assigns(ws) + {w} else Assigns(ws)
    ensures Removes(ws + {w}) == if w.Remove? then Removes(ws) + {w} else Removes(ws)
    ensures w !in Assigns(ws) && w !in Removes(ws)
    ensures GroupsIn(ws + {w}) == GroupsIn(ws) + {w.group}
  {
  }

  lemma TallyStep(s: Stats, p: Progress, w: Write, ok: bool, s': Stats)
    requires Tally(s, p) && w !in p.All()
    requires s'.groupsToAssign == s.groupsToAssign + if w.Assign? then {w.group} else {}
    requires s'.groupsToRemove == s.groupsToRemove + if w.Remove? then {w.group} else {}
    requires s'.assignedCount == s.assignedCount + if ok && w.Assign? then 1 else 0
    requires s'.removedCount == s.removedCount + if ok && w.Remove? then 1 else 0
    ensures Tally(s', p.After(w, ok))
  {
    hide Assigns, Removes, GroupsIn;
    assert p.After(w, ok).All() == p.All() + {w};
    AddWrite(p.All(), w);
    AddWrite(Assigns(p.All()), w);
    AddWrite(Removes(p.All()), w);
    CountStep(p, w, ok);
  }

  lemma CountStep(p: Progress, w: Write, ok: bool)
    requires w !in p.All()
    ensures |Assigns(p.After(w, ok).done)| == |Assigns(p.done)| + if ok && w.Assign? then 1 else 0
    ensures |Removes(p.After(w, ok).done)| == |Removes(p.done)| + if ok && w.Remove? then 1 else 0
  {
    hide Assigns, Removes, GroupsIn;
    AddWrite(p.done, w);
  }

  // ---- the two inner loops ---------------------------------------------------------

  function AssignsOf(sp: string, groups: set<string>): set<Write> {
    set g | g in groups :: Assign(sp, g)
  }

  function RemovesOf(sp: string, groups: set<string>): set<Write> {
    set g | g in groups :: Remove(sp, g)
  }

  lemma WritesOfStep(sp: string, groups: set<string>, g: string)
    ensures AssignsOf(sp, groups + {g}) == AssignsOf(sp, groups) + {Assign(sp, g)}
    ensures RemovesOf(sp, groups + {g}) == RemovesOf(sp, groups) + {Remove(sp, g)}
    ensures Assign(sp, g) in AssignsOf(sp, groups) <==> g in groups
    ensures Remove(sp, g) in RemovesOf(sp, groups) <==> g in groups
  {
  }

  /** The groups of `visited` whose assign has not failed, and those whose remove has. */
  function NotFailed(sp: string, visited: set<string>, failed: set<Write>): set<string> {
    set g | g in visited && Assign(sp, g) !in failed
  }

  function FailedRemoves(sp: string, visited: set<string>, failed: set<Write>): set<string> {
    set g | g in visited && Remove(sp, g) in failed
  }

  /** Where a pass stands: the table is the listing with its successful writes applied,
      all its writes belong to the pass, and the counters agree. */
  ghost predicate Coherent(snapshot: Table, desired: set<string>, table: Table, s: Stats, p: Progress) {
    && table == WithWrites(snapshot, p.done) && p.All() <= PassWrites(snapshot, desired)
    && p.done !! p.failed && Tally(s, p)
  }

  lemma CoherentStep(snapshot: Table, desired: set<string>, table: Table, s: Stats, p: Progress, w: Write, ok: bool,
                     table': Table, s': Stats)
    requires Coherent(snapshot, desired, table, s, p)
    requires w in PassWrites(snapshot, desired) && w !in p.All()
    requires table' == if ok then ApplyWrite(table, w) else table
    requires s'.groupsToAssign == s.groupsToAssign + if w.Assign? then {w.group} else {}
    requires s'.groupsToRemove == s.groupsToRemove + if w.Remove? then {w.group} else {}
    requires s'.assignedCount == s.assignedCount + if ok && w.Assign? then 1 else 0
    requires s'.removedCount == s.removedCount + if ok && w.Remove? then 1 else 0
    ensures Coherent(snapshot, desired, table', s', p.After(w, ok))
  {
    hide PassWrites, WithWrites, ApplyWrite, Tally;
    if ok { WithWritesStep(snapshot, desired, p.done, w); }
    TallyStep(s, p, w, ok, s');
  }

  /** The first inner loop has visited `visited` of the desired groups. */
  ghost predicate Assigning(sp: string, listing: set<string>, visited: set<string>, s0: Stats, p0: Progress, s: Stats,
                            p: Progress) {
    && p.All() == p0.All() + AssignsOf(sp, visited - listing) && p0.done <= p.done && p0.failed <= p.failed
    && (forall w :: w in p.failed - p0.failed ==> w in AssignsOf(sp, visited - listing))
    && s.actualAfter == s0.actualAfter + NotFailed(sp, visited, p.failed)
  }

  lemma AssigningSkip(sp: string, listing: set<string>, visited: set<string>, g: string, s0: Stats, p0: Progress,
                      s: Stats, p: Progress)
    requires Assigning(sp, listing, visited, s0, p0, s, p) && g in listing && g !in visited
    requires forall w :: w in p0.All() ==> w.sp != sp
    ensures Assigning(sp, listing, visited + {g}, s0, p0, s.(actualAfter := s.actualAfter + {g}), p)
  {
  }

  lemma AssigningCall(sp: string, listing: set<string>, visited: set<string>, g: string, s0: Stats, p0: Progress,
                      s: Stats, p: Progress, ok: bool, s': Stats)
    requires Assigning(sp, listing, visited, s0, p0, s, p) && g !in listing && g !in visited
    requires forall w :: w in p0.All() ==> w.sp != sp
    requires s'.actualAfter == s.actualAfter + if ok then {g} else {}
    ensures Assign(sp, g) !in p.All()
    ensures Assigning(sp, listing, visited + {g}, s0, p0, s', p.After(Assign(sp, g), ok))
  {
  }

  /** The second inner loop has visited `visited` of the listed groups. */
  ghost predicate Removing(sp: string, desired: set<string>, visited: set<string>, s0: Stats, p0: Progress, s: Stats,
                           p: Progress) {
    && p.All() == p0.All() + RemovesOf(sp, visited - desired) && p0.done <= p.done && p0.failed <= p.failed
    && (forall w :: w in p.failed - p0.failed ==> w in RemovesOf(sp, visited - desired))
    && s.actualAfter == s0.actualAfter + FailedRemoves(sp, visited - desired, p.failed)
  }

  lemma RemovingSkip(sp: string, desired: set<string>, visited: set<string>, g: string, s0: Stats, p0: Progress,
                     s: Stats, p: Progress)
    requires Removing(sp, desired, visited, s0, p0, s, p) && g in desired
    ensures Removing(sp, desired, visited + {g}, s0, p0, s, p)
  {
  }

  lemma RemovingCall(sp: string, desired: set<string>, visited: set<string>, g: string, s0: Stats, p0: Progress,
                     s: Stats, p: Progress, ok: bool, s': Stats)
    requires Removing(sp, desired, visited, s0, p0, s, p) && g !in desired && g !in visited
    requires forall x :: Remove(sp, x) !in p0.All()
    requires s'.actualAfter == s.actualAfter + if ok then {} else {g}
    ensures Remove(sp, g) !in p.All()
    ensures Removing(sp, desired, visited + {g}, s0, p0, s', p.After(Remove(sp, g), ok))
  {
  }

  // ---- the outer loop ----------------------------------------------------------------

  /** The groups present on these service principals. */
  function GroupsOn(table: Table, sps: set<string>): set<string> {
    set sp, g | sp in sps && sp in table && g in table[sp] :: g
  }

  /** The pass is through with the service principals of `finished`: it has made exactly
      their writes, and `actualAfter` is what is really on them. */
  ghost predicate Finished(snapshot: Table, desired: set<string>, finished: set<string>, table: Table, s: Stats,
                           p: Progress) {
    && Coherent(snapshot, desired, table, s, p)
    && (forall w :: w in p.All() <==> w in PassWrites(snapshot, desired) && w.sp in finished)
    && s.actualAfter == GroupsOn(table, finished)
  }

  /** The groups left on a service principal by its two loops. */
  lemma GroupsLeft(snapshot: Table, desired: set<string>, sp: string, table: Table,
                   s0: Stats, p0: Progress, s1: Stats, p1: Progress, s: Stats, p: Progress)
    requires sp in snapshot && Coherent(snapshot, desired, table, s, p)
    requires Assigning(sp, snapshot[sp], desired, s0, p0, s1, p1) && Removing(sp, desired, snapshot[sp], s1, p1, s, p)
    requires forall w :: w in p0.All() ==> w.sp != sp
    ensures sp in table
    ensures table[sp] == NotFailed(sp, desired, p1.failed) + FailedRemoves(sp, snapshot[sp] - desired, p.failed)
  {
    hide PassWrites, WithWrites, Tally;
    WithWritesHas(snapshot, p.done);
    PassWritesAre(snapshot, desired);
    var listing := snapshot[sp];
    forall g
      ensures g in table[sp]
              <==> g in NotFailed(sp, desired, p1.failed) + FailedRemoves(sp, listing - desired, p.failed)
    {
      WritesOfStep(sp, desired - listing, g);
      WritesOfStep(sp, listing - desired, g);
      assert Assign(sp, g) in p.All() <==> g in desired - listing;
      assert Remove(sp, g) in p.All() <==> g in listing - desired;
      assert Assign(sp, g) in p.failed <==> Assign(sp, g) in p1.failed;
    }
  }

  lemma OtherGroupsKept(snapshot: Table, sp: string, sp': string, done0: set<Write>, done: set<Write>)
    requires sp' in snapshot && sp' != sp && done0 <= done && forall w :: w in done - done0 ==> w.sp == sp
    ensures WithWrites(snapshot, done0).Keys == WithWrites(snapshot, done).Keys == snapshot.Keys
    ensures WithWrites(snapshot, done)[sp'] == WithWrites(snapshot, done0)[sp']
  {
  }

  lemma WritesMade(snapshot: Table, desired: set<string>, sp: string,
                   s0: Stats, p0: Progress, s1: Stats, p1: Progress, s: Stats, p: Progress)
    requires sp in snapshot
    requires Assigning(sp, snapshot[sp], desired, s0, p0, s1, p1) && Removing(sp, desired, snapshot[sp], s1, p1, s, p)
    ensures p0.done <= p.done
    ensures forall w :: w in p.All() <==> w in p0.All() || (w in PassWrites(snapshot, desired) && w.sp == sp)
  {
  }

  lemma FinishedStep(snapshot: Table, desired: set<string>, finished: set<string>, sp: string, table0: Table,
                     table: Table,
                     s0: Stats, p0: Progress, s1: Stats, p1: Progress, s: Stats, p: Progress)
    requires Finished(snapshot, desired, finished, table0, s0, p0) && sp in snapshot && sp !in finished
    requires finished <= snapshot.Keys
    requires Assigning(sp, snapshot[sp], desired, s0, p0, s1, p1) && Removing(sp, desired, snapshot[sp], s1, p1, s, p)
    requires Coherent(snapshot, desired, table, s, p)
    ensures Finished(snapshot, desired, finished + {sp}, table, s, p)
  {
    hide PassWrites, WithWrites, Tally, NotFailed, FailedRemoves;
    WritesMade(snapshot, desired, sp, s0, p0, s1, p1, s, p);
    GroupsLeft(snapshot, desired, sp, table, s0, p0, s1, p1, s, p);
    WithWritesHas(snapshot, p0.done);
    forall sp' | sp' in finished ensures sp' in table0 && sp' in table && table[sp'] == table0[sp'] {
      forall w | w in p.done - p0.done ensures w.sp == sp {
        assert w in p.All() && w !in p.failed && w !in p0.failed;
      }
      OtherGroupsKept(snapshot, sp, sp', p0.done, p.done);
    }
    assert GroupsOn(table, finished + {sp}) == GroupsOn(table0, finished) + table[sp];
  }

  lemma FinishedStart(t: Table, desired: set<string>)
    ensures Finished(t, desired, {}, t, Stats({}, {}, {}, 0, 0), Progress({}, {}))
  {
    NoWritesYet(t);
    assert Assigns({}) == {} && Removes({}) == {} && GroupsIn({}) == {};
    assert Progress({}, {}).All() == {};
  }

  /** What a completed pass reports, in terms of the table it listed and the one it left. */
  ghost predicate Reports(s: Stats, before: Table, desired: set<string>, failed: set<Write>) {
    var (writes, after) := (PassWrites(before, desired), PassResult(before, desired, failed));
    && s.groupsToAssign == GroupsIn(Assigns(writes)) && s.groupsToRemove == GroupsIn(Removes(writes))
    && s.actualAfter == GroupsOn(after, after.Keys)
    && s.assignedCount == |Assigns(writes - failed)| && s.removedCount == |Removes(writes - failed)|
    && |Assignments(after)| == |Assignments(before)| + s.assignedCount - s.removedCount
  }

  /** A completed pass: exactly its writes were called, and the table and the report are
      what PassResult says for those that failed. */
  ghost predicate Converged(before: Table, desired: set<string>, made: Progress, after: Table, report: Stats) {
    && made.All() == PassWrites(before, desired) && made.done !! made.failed
    && after == PassResult(before, desired, made.failed) && Reports(report, before, desired, made.failed)
  }

  lemma FinishedEnd(snapshot: Table, desired: set<string>, table: Table, s: Stats, p: Progress)
    requires Finished(snapshot, desired, snapshot.Keys, table, s, p)
    ensures Converged(snapshot, desired, p, table, s)
  {
    hide PassWrites, WithWrites, PassResult, Assignments;
    PassWritesAre(snapshot, desired);
    forall w | w in PassWrites(snapshot, desired) ensures w.sp in snapshot {
      match w
      case Assign(sp, g) =>
      case Remove(sp, g) =>
    }
    assert p.All() == PassWrites(snapshot, desired);
    assert p.done == PassWrites(snapshot, desired) - p.failed;
    AllWritesDone(snapshot, desired, p.failed);
    AssignmentsConserved(snapshot, desired, p.done);
    WithWritesHas(snapshot, p.done);
  }

  /** A completed pass, call by call and number by number. */
  lemma ConvergedMeans(before: Table, desired: set<string>, made: Progress, after: Table, report: Stats)
    requires Converged(before, desired, made, after, report)
    ensures after.Keys == before.Keys && made.done !! made.failed
    ensures forall sp, g ::
              && (Assign(sp, g) in made.done + made.failed <==> sp in before && g in desired && g !in before[sp])
              && (Remove(sp, g) in made.done + made.failed <==> sp in before && g in before[sp] && g !in desired)
    ensures forall sp, g :: sp in before ==>
              (g in after[sp] <==> Assign(sp, g) in made.done || (g in before[sp] && Remove(sp, g) !in made.done))
    ensures forall g ::
              && (g in report.groupsToAssign <==> exists sp :: sp in before && g in desired && g !in before[sp])
              && (g in report.groupsToRemove <==> exists sp :: sp in before && g in before[sp] && g !in desired)
              && (g in report.actualAfter <==> exists sp :: sp in after && g in after[sp])
    ensures report.assignedCount == |set w | w in made.done && w.Assign?|
    ensures report.removedCount == |set w | w in made.done && w.Remove?|
  {
    hide PassWrites, PassResult, WithWrites, Assigns, Removes;
    PassWritesAre(before, desired);
    AllWritesDone(before, desired, made.failed);
    WithWritesHas(before, made.done);
    assert made.done == PassWrites(before, desired) - made.failed;
    KindsOfWrites(made.done);
    KindsOfWrites(PassWrites(before, desired));
    forall g
      ensures g in report.groupsToAssign <==> exists sp :: sp in before && g in desired && g !in before[sp]
      ensures g in report.groupsToRemove <==> exists sp :: sp in before && g in before[sp] && g !in desired
    {
      InGroups(PassWrites(before, desired), g);
    }
  }

  lemma KindsOfWrites(ws: set<Write>)
    ensures Assigns(ws) == (set w | w in ws && w.Assign?) && Removes(ws) == (set w | w in ws && w.Remove?)
  {
  }

  lemma InGroups(ws: set<Write>, g: string)
    ensures g in GroupsIn(Assigns(ws)) <==> exists sp :: Assign(sp, g) in ws
    ensures g in GroupsIn(Removes(ws)) <==> exists sp :: Remove(sp, g) in ws
  {
    if g in GroupsIn(Assigns(ws)) {
      var w :| w in Assigns(ws) && w.group == g;
      assert Assign(w.sp, g) in ws;
    }
    if sp :| Assign(sp, g) in ws { assert Assign(sp, g) in Assigns(ws); }
    if g in GroupsIn(Removes(ws)) {
      var w :| w in Removes(ws) && w.group == g;
      assert Remove(w.sp, g) in ws;
    }
    if sp :| Remove(sp, g) in ws { assert Remove(sp, g) in Removes(ws); }
  }

  /** What the bindings of both kinds ask for, name by name. */
  lemma ClusterSpellingsAre(c: Cluster, n: string)
    ensures n in ClusterSpellings(c) <==> n in SpellingsOf(c.roleBindings) || n in SpellingsOf(c.clusterRoleBindings)
    ensures n in ClusterSpellings(c)
            <==> exists kind, k :: k in c.Get(kind) && c.Get(kind)[k].deletionTimestamp in {None, Some(0)}
                                   && Subject("Group", n) in c.Get(kind)[k].subjects && IsValidAzureUuid(n)
  {
    hide SpellingsOf, IsValidAzureUuid;
    SpellingsAre(c.roleBindings, n);
    SpellingsAre(c.clusterRoleBindings, n);
    assert c.Get(RoleBindings) == c.roleBindings && c.Get(ClusterRoleBindings) == c.clusterRoleBindings;
  }

  class StateReconciler {
    const kube: KubeClient
    const azure: AzureGroupManager

    /** The mutex: held exactly while a pass runs. */
    var mu: bool

    constructor (kube: KubeClient, azure: AzureGroupManager)
      ensures this.kube == kube && this.azure == azure && !mu
    {
      this.kube, this.azure, mu := kube, azure, false;
    }

    /** resolveCandidateGroupIDs: a candidate contributes its group if and only if its
        lookup has succeeded, now or earlier, and the group has an id. */
    method ResolveCandidateGroupIDs(candidates: set<string>) returns (desired: set<string>)
      modifies azure`known, azure`asked
      ensures azure.asked == old(azure.asked) + candidates
      ensures desired == CachedGroups(azure.known, candidates)
      ensures forall g :: g in desired <==> exists c :: c in candidates && c in azure.known && azure.known[c] == Some(g)
      ensures old(azure.known).Keys <= azure.known.Keys <= old(azure.known).Keys + candidates
      ensures forall c :: c in old(azure.known) ==> azure.known[c] == old(azure.known)[c]
      ensures forall c :: c in azure.known && c !in old(azure.known) ==>
                ToLower(c) in azure.directory && azure.known[c] == azure.directory[ToLower(c)]
    {
      desired := {};
      var todo := candidates;
      while todo != {}
        invariant todo <= candidates
        invariant desired == CachedGroups(azure.known, candidates - todo)
        invariant azure.asked == old(azure.asked) + (candidates - todo)
        invariant old(azure.known).Keys <= azure.known.Keys <= old(azure.known).Keys + (candidates - todo)
        invariant forall c :: c in old(azure.known) ==> azure.known[c] == old(azure.known)[c]
        invariant forall c :: c in azure.known && c !in old(azure.known) ==>
                    ToLower(c) in azure.directory && azure.known[c] == azure.directory[ToLower(c)]
      {
        var groupID :| groupID in todo;
        ghost var before, tried := azure.known, candidates - todo;
        var ok, id := azure.GetGroupByID(groupID);
        todo := todo - {groupID};
        assert candidates - todo == tried + {groupID};
        ResolveOne(map[], before, tried, Gathered(0, 0, desired, false), groupID, azure.known,
                   Gathered(0, 0, if ok && id.Some? then desired + {id.value} else desired, false));
        if !ok || id.None? {
          continue;
        }
        desired := desired + {id.value};
      }
      assert candidates - {} == candidates;
      CachedGroupsAre(azure.known, candidates);
    }

    /** The two lists and the candidate loops of buildKubernetesDesiredGroupIDs. */
    method CollectCandidates() returns (candidates: Option<set<string>>)
      modifies kube`failures
      ensures kube.failures == old(kube.failures) + if candidates.None? then 1 else 0
      ensures candidates.Some? ==>
        candidates.value == ClusterSpellings(kube.cluster)
    {
      var roleBindings := kube.List(RoleBindings);
      if roleBindings.None? {
        return None;
      }
      var clusterRoleBindings := kube.List(ClusterRoleBindings);
      if clusterRoleBindings.None? {
        return None;
      }
      var found := AddCandidates({}, roleBindings.value, kube.cluster.roleBindings);
      found := AddCandidates(found, clusterRoleBindings.value, kube.cluster.clusterRoleBindings);
      candidates := Some(found);
    }

    method AddCandidates(found: set<string>, items: seq<Binding>, ghost m: map<NamespacedName, Binding>)
      returns (candidates: set<string>)
      requires Elements(items) == m.Values
      ensures candidates == found + SpellingsOf(m)
    {
      candidates := found;
      for i := 0 to |items|
        invariant candidates == found + set j, g | 0 <= j < i && g in Spellings(items[j]) :: g
      {
        var b := items[i];
        if !IsZero(b.deletionTimestamp) {
          continue;
        }
        var groups := ExtractGroupsFromSubjects(b.subjects);
        assert Elements(groups) == Spellings(items[i]);
        var todo := Elements(groups);
        candidates := candidates + todo;
      }
      ListedSpellings(items, m);
    }

    /** buildKubernetesDesiredGroupIDs. */
    method BuildKubernetesDesiredGroupIDs() returns (desired: Option<set<string>>)
      modifies kube`failures, azure`known, azure`asked
      ensures kube.failures == old(kube.failures) + if desired.None? then 1 else 0
      ensures desired.Some? ==>
        azure.asked == old(azure.asked) + ClusterSpellings(kube.cluster)
      ensures desired.Some? ==>
        desired.value == CachedGroups(azure.known, ClusterSpellings(kube.cluster))
      ensures desired.Some? ==>
        forall g :: g in desired.value <==>
          exists n :: n in ClusterSpellings(kube.cluster) && n in azure.known && azure.known[n] == Some(g)
    {
      hide SpellingsOf;
      var candidates := CollectCandidates();
      if candidates.None? {
        return None;
      }
      var groups := ResolveCandidateGroupIDs(candidates.value);
      desired := Some(groups);
    }

    /** The first inner loop: assign what `sp` misses. */
    method AssignMissing(sp: string, desired: set<string>, listing: set<string>, s0: Stats, ghost snapshot: Table)
      returns (s: Stats)
      requires Coherent(snapshot, desired, azure.table, s0, azure.made) && sp in snapshot && snapshot[sp] == listing
      requires forall w :: w in azure.made.All() ==> w.sp != sp
      modifies azure`table, azure`made
      ensures Coherent(snapshot, desired, azure.table, s, azure.made)
      ensures Assigning(sp, listing, desired, s0, old(azure.made), s, azure.made)
    {
      hide Coherent, Assigning, PassWrites, ApplyWrite;
      ghost var p0 := azure.made;
      s := s0;
      AssigningStart(sp, listing, s0, p0);
      PassWritesAre(snapshot, desired);
      var todo := desired;
      while todo != {}
        invariant todo <= desired && Coherent(snapshot, desired, azure.table, s, azure.made)
        invariant Assigning(sp, listing, desired - todo, s0, p0, s, azure.made)
      {
        var groupID :| groupID in todo;
        ghost var visited, table, p := desired - todo, azure.table, azure.made;
        todo := todo - {groupID};
        assert desired - todo == visited + {groupID};
        if groupID in listing {
          AssigningSkip(sp, listing, visited, groupID, s0, p0, s, p);
          CoherentIgnoresActual(snapshot, desired, azure.table, s, p, s.actualAfter + {groupID});
          s := s.(actualAfter := s.actualAfter + {groupID});
          continue;
        }
        var earlier := s;
        s := s.(groupsToAssign := s.groupsToAssign + {groupID});
        var ok := azure.AssignGroupToServicePrincipal(sp, groupID);
        if ok {
          s := s.(actualAfter := s.actualAfter + {groupID}, assignedCount := s.assignedCount + 1);
        }
        AssigningCall(sp, listing, visited, groupID, s0, p0, earlier, p, ok, s);
        CoherentStep(snapshot, desired, table, earlier, p, Assign(sp, groupID), ok, azure.table, s);
      }
      assert desired - {} == desired;
    }

    /** The second inner loop: remove what `sp` should not have. */
    method RemoveStale(sp: string, desired: set<string>, listing: set<string>, s0: Stats, ghost snapshot: Table)
      returns (s: Stats)
      requires Coherent(snapshot, desired, azure.table, s0, azure.made) && sp in snapshot && snapshot[sp] == listing
      requires forall x :: Remove(sp, x) !in azure.made.All()
      modifies azure`table, azure`made
      ensures Coherent(snapshot, desired, azure.table, s, azure.made)
      ensures Removing(sp, desired, listing, s0, old(azure.made), s, azure.made)
    {
      hide Coherent, Removing, PassWrites, ApplyWrite;
      ghost var p0 := azure.made;
      s := s0;
      RemovingStart(sp, desired, s0, p0);
      PassWritesAre(snapshot, desired);
      var todo := listing;
      while todo != {}
        invariant todo <= listing && Coherent(snapshot, desired, azure.table, s, azure.made)
        invariant Removing(sp, desired, listing - todo, s0, p0, s, azure.made)
      {
        var groupID :| groupID in todo;
        ghost var visited, table, p := listing - todo, azure.table, azure.made;
        todo := todo - {groupID};
        assert listing - todo == visited + {groupID};
        if groupID in desired {
          RemovingSkip(sp, desired, visited, groupID, s0, p0, s, p);
          continue;
        }
        var earlier := s;
        s := s.(groupsToRemove := s.groupsToRemove + {groupID});
        var ok := azure.RemoveGroupFromServicePrincipal(sp, groupID);
        if ok {
          s := s.(removedCount := s.removedCount + 1);
        } else {
          s := s.(actualAfter := s.actualAfter + {groupID});
        }
        RemovingCall(sp, desired, visited, groupID, s0, p0, earlier, p, ok, s);
        CoherentStep(snapshot, desired, table, earlier, p, Remove(sp, groupID), ok, azure.table, s);
      }
      assert listing - {} == listing;
    }

    /** The rest of reconcileDesiredState once the desired set is known. None is the error
        return of a failed listing; otherwise every write of the pass has been called, and
        the table is off by exactly those whose call failed. */
    method Converge(desired: set<string>) returns (report: Option<Stats>)
      modifies azure`table, azure`made, azure`failures
      ensures azure.failures == old(azure.failures) + if report.None? then 1 else 0
      ensures report.None? ==> azure.table == old(azure.table)
      ensures report.Some? ==> Converged(old(azure.table), desired, azure.made, azure.table, report.value)
    {
      hide Finished, Coherent, Assigning, Removing, PassWrites, PassResult, Converged, Tally;
      report := None;
      var listing := azure.ListManagedAssignments();
      if listing.None? {
        return;
      }
      var actual := listing.value;
      var s, todo := Stats({}, {}, {}, 0, 0), actual.Keys;
      FinishedStart(actual, desired);
      assert actual.Keys - todo == {};
      while todo != {}
        invariant todo <= actual.Keys && azure.failures == old(azure.failures)
        invariant Finished(actual, desired, actual.Keys - todo, azure.table, s, azure.made)
      {
        var sp :| sp in todo;
        ghost var finished, table0, s0, p0 := actual.Keys - todo, azure.table, s, azure.made;
        FinishedFacts(actual, desired, finished, sp, table0, s0, p0);
        var s1 := AssignMissing(sp, desired, actual[sp], s, actual);
        ghost var p1 := azure.made;
        NoRemovesYet(sp, actual[sp], desired, s0, p0, s1, p1);
        s := RemoveStale(sp, desired, actual[sp], s1, actual);
        FinishedStep(actual, desired, finished, sp, table0, azure.table, s0, p0, s1, p1, s, azure.made);
        todo := todo - {sp};
        assert actual.Keys - todo == finished + {sp};
      }
      assert actual.Keys - {} == actual.Keys;
      FinishedEnd(actual, desired, azure.table, s, azure.made);
      report := Some(s);
    }

    /** reconcileDesiredState as the two binding controllers run it. A completed pass has
        looked up every spelling of the listed bindings and converged on the groups found;
        an error is exactly one failed listing and leaves every assignment alone; either
        way the mutex is released. */
    method ReconcileDesiredState() returns (report: Option<Stats>, ghost desired: set<string>)
      requires !mu
      modifies this`mu, kube`failures, azure
      ensures !mu
      ensures kube.failures + azure.failures == old(kube.failures) + old(azure.failures) + if report.None? then 1 else 0
      ensures report.None? ==> azure.table == old(azure.table)
      ensures report.Some? ==>
        var spellings := ClusterSpellings(kube.cluster);
        desired == CachedGroups(azure.known, spellings) && spellings <= azure.asked
      ensures report.Some? ==> Converged(old(azure.table), desired, azure.made, azure.table, report.value)
    {
      hide Converged, SpellingsOf;
      report, desired := None, {};
      mu := true;
      var groups := BuildKubernetesDesiredGroupIDs();
      if groups.None? {
        mu := false;
        return;
      }
      desired := groups.value;
      report := Converge(groups.value);
      mu := false;
    }
  }

  lemma CachedGroupsAre(cache: map<string, Option<string>>, spellings: set<string>)
    ensures forall g :: g in CachedGroups(cache, spellings) <==>
              exists c :: c in spellings && c in cache && cache[c] == Some(g)
  {
    forall g
      ensures g in CachedGroups(cache, spellings) <==> exists c :: c in spellings && c in cache && cache[c] == Some(g)
    {
      if c :| c in spellings && c in cache && cache[c] == Some(g) { assert cache[c].value == g; }
    }
  }

  lemma FinishedFacts(snapshot: Table, desired: set<string>, finished: set<string>, sp: string, table: Table, s: Stats,
                      p: Progress)
    requires Finished(snapshot, desired, finished, table, s, p) && sp !in finished
    ensures Coherent(snapshot, desired, table, s, p)
    ensures forall w :: w in p.All() ==> w.sp != sp
  {
  }

  lemma NoRemovesYet(sp: string, listing: set<string>, desired: set<string>, s0: Stats, p0: Progress, s: Stats,
                     p: Progress)
    requires Assigning(sp, listing, desired, s0, p0, s, p) && forall w :: w in p0.All() ==> w.sp != sp
    ensures forall g :: Remove(sp, g) !in p.All()
  {
  }

  lemma AssigningStart(sp: string, listing: set<string>, s: Stats, p: Progress)
    ensures forall none: set<string> :: none == {} ==> Assigning(sp, listing, none, s, p, s, p)
  {
  }

  lemma RemovingStart(sp: string, desired: set<string>, s: Stats, p: Progress)
    ensures forall none: set<string> :: none == {} ==> Removing(sp, desired, none, s, p, s, p)
  {
  }

  lemma CoherentIgnoresActual(snapshot: Table, desired: set<string>, table: Table, s: Stats, p: Progress,
                              actual: set<string>)
    requires Coherent(snapshot, desired, table, s, p)
    ensures Coherent(snapshot, desired, table, s.(actualAfter := actual), p)
  {
  }

  /** A listing holds every binding and nothing else, so it gives the same spellings. */
  lemma ListedSpellings(items: seq<Binding>, m: map<NamespacedName, Binding>)
    requires Elements(items) == m.Values
    ensures SpellingsOf(m) == set j, g | 0 <= j < |items| && g in Spellings(items[j]) :: g
  {
    var listed := set j, g | 0 <= j < |items| && g in Spellings(items[j]) :: g;
    forall g | g in SpellingsOf(m) ensures g in listed {
      var k :| k in m && g in Spellings(m[k]);
      assert m[k] in m.Values;
      var j :| 0 <= j < |items| && items[j] == m[k];
    }
    forall g | g in listed ensures g in SpellingsOf(m) {
      var j :| 0 <= j < |items| && g in Spellings(items[j]);
      assert items[j] in Elements(items);
      var k :| k in m && m[k] == items[j];
    }
  }
}
