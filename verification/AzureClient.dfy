/** The Azure client of client.go over the row store of Graph. Any Graph call may
    fail, and a failed call leaves the store unchanged. */
module AzureClient {
  import opened Wrappers
  import opened GoStrings
  import opened ConvergencePass
  import opened AzureRows
  import opened AzureRowRefinement
  import opened GroupCache

  datatype PostOutcome = Created | AlreadyExists | PostFailed

  /** Microsoft Graph: the assignment rows of each service principal, and the directory
      of groups, keyed by lower-cased object id. */
  class Graph {
    var store: Store
    var directory: map<string, Option<string>>

    /** How many calls have failed, and how many groups have been asked for. */
    ghost var failures: nat
    ghost var lookups: nat

    constructor (store: Store, directory: map<string, Option<string>>)
      ensures this.store == store && this.directory == directory
    {
      this.store, this.directory, failures, lookups := store, directory, 0, 0;
    }

    method GetGroup(groupID: string) returns (answer: Option<Group>)
      modifies this`failures, this`lookups
      ensures failures == old(failures) + (if answer.None? then 1 else 0) && lookups == old(lookups) + 1
      ensures answer.Some? ==> ToLower(groupID) in directory && answer.value.id == directory[ToLower(groupID)]
    {
      answer := None;
      if * {
        if ToLower(groupID) in directory {
          answer := Some(Group(directory[ToLower(groupID)]));
        }
      }
      failures, lookups := failures + (if answer.None? then 1 else 0), lookups + 1;
    }

    method ListAssigned(sp: string) returns (rows: Option<seq<Row>>)
      modifies this`failures
      ensures failures == old(failures) + if rows.None? then 1 else 0
      ensures rows.Some? ==> sp in store && rows.value == store[sp]
    {
      rows := None;
      if * {
        if sp in store {
          rows := Some(store[sp]);
        }
      }
      failures := failures + if rows.None? then 1 else 0;
    }

    method Post(sp: string, principal: string, role: string) returns (outcome: PostOutcome, ghost c: Creation)
      modifies this`store, this`failures
      ensures failures == old(failures) + if outcome == PostFailed then 1 else 0
      ensures outcome == PostFailed ==> store == old(store)
      ensures outcome != PostFailed ==> sp in old(store) && c.group == principal
      ensures outcome != PostFailed ==> store == old(store)[sp := CreateRow(old(store)[sp], role, c)]
      ensures outcome != PostFailed ==> forall i :: 0 <= i < |old(store)[sp]| ==> old(store)[sp][i].id != Some(c.id)
      ensures outcome == AlreadyExists ==> store == old(store) && AlreadyAssigned(old(store)[sp], principal, role)
      ensures outcome == Created ==> !AlreadyAssigned(old(store)[sp], principal, role)
    {
      outcome := PostFailed;
      c := Creation(principal, "", 0);
      if * {
        if sp in store {
          var rows, at: nat := store[sp], *;
          var id := UnusedId(rows);
          c := Creation(principal, id, at);
          if exists r | r in rows :: r.principal == Some(principal) && r.role == Some(role) {
            outcome := AlreadyExists;
          } else {
            outcome := Created;
            var index := if at <= |rows| then at else |rows|;
            store := store[sp := rows[..index] + [Row(Some(id), Some(principal), Some(role))] + rows[index..]];
          }
        }
      }
      failures := failures + if outcome == PostFailed then 1 else 0;
    }

    method Delete(sp: string, id: string) returns (ok: bool)
      modifies this`store, this`failures
      ensures failures == old(failures) + if ok then 0 else 1
      ensures !ok ==> store == old(store)
      ensures ok ==> sp in old(store) && store == old(store)[sp := DeleteId(old(store)[sp], id)]
    {
      ok := false;
      if * {
        if sp in store {
          store := store[sp := DeleteId(store[sp], id)];
          ok := true;
        }
      }
      failures := failures + if ok then 0 else 1;
    }
  }

  /** The row is there: it was already, or it has been put in somewhere under a new id, and
      nothing else has changed. */
  ghost predicate Assigned(before: Store, sp: string, principal: Option<string>, role: Option<string>, id: string,
                           after: Store)
    requires sp in before
  {
    if exists r :: r in before[sp] && r.principal == principal && r.role == role then after == before
    else
      exists at: nat :: at <= |before[sp]|
        && after == before[sp := before[sp][..at] + [Row(Some(id), principal, role)] + before[sp][at..]]
  }

  /** The first row of the group is gone, and nothing else has changed. */
  ghost predicate Removed(before: Store, sp: string, group: string, after: Store)
    requires sp in before
  {
    var rows := before[sp];
    && ((forall r :: r in rows ==> r.principal != Some(group)) ==> after == before)
    && (IdsOk(rows) ==>
          forall i :: 0 <= i < |rows| && rows[i].principal == Some(group)
                      && (forall j :: 0 <= j < i ==> rows[j].principal != Some(group)) ==>
            after == before[sp := rows[..i] + rows[i + 1..]])
  }

  lemma CreatedOrThere(store: Store, sp: string, role: string, c: Creation)
    requires sp in store
    ensures Assigned(store, sp, Some(c.group), Some(role), c.id, store[sp := CreateRow(store[sp], role, c)])
    ensures exists r :: r in CreateRow(store[sp], role, c) && r.principal == Some(c.group) && r.role == Some(role)
  {
    var rows := store[sp];
    var at := if c.at <= |rows| then c.at else |rows|;
    assert !AlreadyAssigned(rows, c.group, role) ==>
      Row(Some(c.id), Some(c.group), Some(role)) in CreateRow(rows, role, c);
    if AlreadyAssigned(rows, c.group, role) { assert store[sp := rows] == store; }
  }

  lemma FirstRowGone(store: Store, sp: string, group: string)
    requires sp in store
    ensures Removed(store, sp, group, ApplyCall(store, "", Call(Remove(sp, group), "", 0)))
  {
    hide FirstIndex, Filter;
    var rows := store[sp];
    if forall r :: r in rows ==> r.principal != Some(group) {
      assert FirstIndex(rows, group) == |rows|;
      assert store[sp := rows] == store;
    }
    if IdsOk(rows) { RemoveDeletesFirst(rows, group); }
  }

  lemma ManagedAre(rows: seq<Row>, role: string, g: string)
    ensures g in ManagedGroups(rows, role) <==> exists r :: r in rows && r.principal == Some(g) && r.role == Some(role)
  {
    if r :| r in rows && r.principal == Some(g) && r.role == Some(role) { assert r.principal.value == g; }
  }

  class Client {
    const graph: Graph
    const servicePrincipals: seq<string>
    const appRoleID: string
    var groupCache: Cache

    /** The lookups made since the cache was last empty. */
    ghost var queries: seq<Query>

    ghost predicate Valid()
      reads this
    {
      groupCache == CacheAfter(queries)
    }

    constructor (graph: Graph, servicePrincipals: seq<string>, appRoleID: string)
      ensures this.graph == graph && this.servicePrincipals == servicePrincipals && this.appRoleID == appRoleID
      ensures Valid() && queries == []
    {
      this.graph, this.servicePrincipals, this.appRoleID := graph, servicePrincipals, appRoleID;
      groupCache, queries := map[], [];
    }

    /** GetGroupByID; None is an error. It returns the first group Graph ever returned for
        this spelling, or an error if there has been none. */
    method GetGroupByID(groupID: string) returns (group: Option<Group>)
      requires Valid()
      modifies this`groupCache, this`queries, graph`failures, graph`lookups
      ensures graph.lookups == old(graph.lookups) + if groupID in old(groupCache) || !IsUuid(groupID) then 0 else 1
      ensures group.None? ==> !IsUuid(groupID) || graph.failures == old(graph.failures) + 1
      ensures group.Some? ==> graph.failures == old(graph.failures)
      ensures Valid() && |queries| == |old(queries)| + 1 && queries[..|old(queries)|] == old(queries)
      ensures queries[|old(queries)|].key == groupID && group == FirstFound(queries, groupID)
      ensures var (answer, id) := (queries[|old(queries)|].answer, ToLower(groupID));
              answer.Some? ==> id in graph.directory && answer.value.id == graph.directory[id]
    {
      ghost var answer: Option<Group> := None;
      ghost var earlier, cache := queries, groupCache;
      if groupID in groupCache {
        group := Some(groupCache[groupID]);
      } else if !IsUuid(groupID) {
        group := None;
      } else {
        group := graph.GetGroup(groupID);
        answer := group;
        if group.Some? {
          groupCache := groupCache[groupID := group.value];
        }
      }
      assert (group, groupCache) == Lookup(cache, Query(groupID, answer));
      LookupReturnsFirstFound(earlier, Query(groupID, answer));
      queries := earlier + [Query(groupID, answer)];
    }

    /** AssignGroupToServicePrincipal: "already exists" counts as success, and either way
        the store afterwards is the one the assign call produces. */
    method AssignGroupToServicePrincipal(sp: string, groupID: string) returns (ok: bool, ghost call: Call)
      modifies graph`store, graph`failures
      ensures !ok ==> graph.store == old(graph.store)
      ensures ok <==> IsUuid(groupID) && IsUuid(sp) && IsUuid(appRoleID) && graph.failures == old(graph.failures)
      ensures ok ==> sp in old(graph.store) && call.write.Assign? && call.write.sp == sp
      ensures ok ==> ParsedUuid(groupID) == Some(call.write.group)
      ensures ok ==> graph.store == ApplyCall(old(graph.store), ParsedUuid(appRoleID).value, call)
      ensures ok ==> forall i :: 0 <= i < |old(graph.store)[sp]| ==> old(graph.store)[sp][i].id != Some(call.id)
      ensures ok ==> Assigned(old(graph.store), sp, ParsedUuid(groupID), ParsedUuid(appRoleID), call.id, graph.store)
      ensures ok ==>
        && sp in graph.store
        && exists r :: r in graph.store[sp] && r.principal == ParsedUuid(groupID) && r.role == ParsedUuid(appRoleID)
    {
      call := Call(Assign(sp, groupID), "", 0);
      var outcome := PostFailed;
      if IsUuid(groupID) && IsUuid(sp) && IsUuid(appRoleID) {
        ghost var c;
        var principal := ParsedUuid(groupID).value;
        outcome, c := graph.Post(sp, principal, ParsedUuid(appRoleID).value);
        call := Call(Assign(sp, principal), c.id, c.at);
        if outcome != PostFailed { CreatedOrThere(old(graph.store), sp, ParsedUuid(appRoleID).value, c); }
      }
      ok := outcome != PostFailed;
    }

    /** removeGroupFromServicePrincipal: scan for the first row of the principal, then
        delete that row by id. A missing row, or one without an id, is a success. */
    method RemoveGroupFromServicePrincipal(sp: string, groupID: string) returns (ok: bool)
      modifies graph`store, graph`failures
      ensures !ok ==> graph.store == old(graph.store) && graph.failures == old(graph.failures) + 1
      ensures ok ==> sp in old(graph.store)
      ensures ok ==> forall role :: graph.store == ApplyCall(old(graph.store), role, Call(Remove(sp, groupID), "", 0))
      ensures ok ==> Removed(old(graph.store), sp, groupID, graph.store)
    {
      var result := graph.ListAssigned(sp);
      if result.None? {
        return false;
      }
      var assignments := result.value;
      var assignmentID: Option<string> := None;
      var i := 0;
      while i < |assignments|
        invariant i <= |assignments| && assignmentID == None
        invariant forall j :: 0 <= j < i ==> assignments[j].principal != Some(groupID)
      {
        if assignments[i].principal.Some? && assignments[i].principal.value == groupID {
          assignmentID := assignments[i].id;
          break;
        }
        i := i + 1;
      }
      assert i == FirstIndex(assignments, groupID);
      if assignmentID == None {
        assert forall role :: ApplyCall(graph.store, role, Call(Remove(sp, groupID), "", 0)) == graph.store;
        FirstRowGone(graph.store, sp, groupID);
        return true;
      }
      FirstRowGone(graph.store, sp, groupID);
      ok := graph.Delete(sp, assignmentID.value);
    }

    /** ListManagedAssignments: every configured service principal has an entry, and each
        entry is exactly its groups with this controller's role. */
    method ListManagedAssignments() returns (listing: Option<Table>)
      modifies graph`failures
      ensures listing.None? <==> !IsUuid(appRoleID) || graph.failures == old(graph.failures) + 1
      ensures listing.Some? ==> forall sp :: sp in servicePrincipals ==> sp in graph.store
      ensures listing.Some? ==>
        var managed := map sp | sp in servicePrincipals && sp in graph.store :: graph.store[sp];
        listing.value == View(managed, ParsedUuid(appRoleID).value)
      ensures listing.Some? ==>
        forall sp, g :: (sp in listing.value <==> sp in servicePrincipals) && (sp in servicePrincipals ==>
          (g in listing.value[sp] <==>
             exists r :: r in graph.store[sp] && r.principal == Some(g) && r.role == ParsedUuid(appRoleID)))
    {
      if !IsUuid(appRoleID) {
        return None;
      }
      var role := ParsedUuid(appRoleID).value;
      var table: Table := map[];
      for n := 0 to |servicePrincipals|
        invariant table.Keys == Elements(servicePrincipals[..n]) && graph.failures == old(graph.failures)
        invariant forall sp :: sp in table ==> sp in graph.store && table[sp] == ManagedGroups(graph.store[sp], role)
      {
        var sp := servicePrincipals[n];
        var result := graph.ListAssigned(sp);
        if result.None? {
          return None;
        }
        var spAssigned: set<string> := {};
        for i := 0 to |result.value|
          invariant spAssigned == ManagedGroups(result.value[..i], role)
          invariant graph.failures == old(graph.failures)
        {
          var assignment := result.value[i];
          ManagedGroupsStep(result.value, i, role);
          if assignment.role.None? || assignment.role.value != role {
            continue;
          }
          if assignment.principal.None? {
            continue;
          }
          spAssigned := spAssigned + {assignment.principal.value};
        }
        assert result.value[..|result.value|] == result.value;
        assert servicePrincipals[..n + 1] == servicePrincipals[..n] + [sp];
        table := table[sp := spAssigned];
      }
      assert servicePrincipals[..|servicePrincipals|] == servicePrincipals;
      assert forall sp :: sp in servicePrincipals ==> sp in Elements(servicePrincipals);
      forall sp, g | sp in servicePrincipals
        ensures g in ManagedGroups(graph.store[sp], role) <==>
                  exists r :: r in graph.store[sp] && r.principal == Some(g) && r.role == Some(role)
      {
        ManagedAre(graph.store[sp], role, g);
      }
      listing := Some(table);
    }

    method ClearCache()
      modifies this`groupCache, this`queries
      ensures Valid() && queries == []
    {
      groupCache, queries := map[], [];
    }
  }

  lemma ManagedGroupsStep(rows: seq<Row>, i: nat, role: string)
    requires i < |rows|
    ensures ManagedGroups(rows[..i + 1], role)
         == ManagedGroups(rows[..i], role)
            + if HoldsRole(rows[i], role) && rows[i].principal.Some? then {rows[i].principal.value} else {}
  {
  }
}
