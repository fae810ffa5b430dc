/** When the row store of client.go behaves like the abstract table the convergence
    pass is proved about: ListManagedAssignments is the abstraction, and every create
    and remove of a pass is one abstract write. */
module AzureRowRefinement {
  import opened Wrappers
  import opened ConvergencePass
  import opened AzureRows
  import opened AzureRowPasses

  /** The rows of every service principal. */
  type Store = map<string, seq<Row>>

  /** What ListManagedAssignments returns. */
  function View(store: Store, role: string): Table {
    map sp | sp in store :: ManagedGroups(store[sp], role)
  }

  /** Nothing this controller does not own differs between two stores. */
  ghost predicate SameOtherRows(a: Store, b: Store, role: string) {
    a.Keys == b.Keys && forall sp :: sp in a ==> OtherRows(a[sp], role) == OtherRows(b[sp], role)
  }

  ghost predicate AllIdsOk(store: Store) {
    forall sp :: sp in store ==> IdsOk(store[sp])
  }

  /** One write as the client makes it; `id` and `at` are Graph's choices for a created row. */
  datatype Call = Call(write: Write, id: string, at: nat)

  function ApplyCall(store: Store, role: string, call: Call): Store {
    if call.write.sp !in store then store
    else
      var rows := store[call.write.sp];
      match call.write
      case Assign(sp, group) => store[sp := CreateRow(rows, role, Creation(group, call.id, call.at))]
      case Remove(sp, group) => store[sp := RemoveGroup(rows, group)]
  }

  /** After the first row of the group no row of it holds the role, so that deleting the
      first row is all it takes. */
  ghost predicate Removable(rows: seq<Row>, role: string, group: string) {
    forall j :: 1 <= j < |RowsOf(rows, group)| ==> !HoldsRole(RowsOf(rows, group)[j], role)
  }

  ghost predicate FreshCall(store: Store, call: Call) {
    var sp := call.write.sp;
    sp in store ==> forall i :: 0 <= i < |store[sp]| ==> store[sp][i].id != Some(call.id)
  }

  // ---- one call -----------------------------------------------------------------------------

  lemma CallKeepsIds(store: Store, role: string, call: Call)
    requires AllIdsOk(store) && FreshCall(store, call)
    ensures AllIdsOk(ApplyCall(store, role, call)) && ApplyCall(store, role, call).Keys == store.Keys
  {
    hide IdsOk, RemoveGroup, CreateRow;
    if call.write.sp in store {
      var rows := store[call.write.sp];
      if call.write.Assign? {
        CreateKeepsIds(rows, role, Creation(call.write.group, call.id, call.at));
      } else {
        RemoveDeletesFirst(rows, call.write.group);
      }
    }
  }

  /** When one call is one write on the listing: an assign always, a remove if and only if
      no later row of the group holds the role. */
  lemma CallRefinesIff(store: Store, role: string, call: Call)
    requires AllIdsOk(store) && call.write.sp in store
    ensures View(ApplyCall(store, role, call), role) == ApplyWrite(View(store, role), call.write)
            <==> (call.write.Remove? ==> Removable(store[call.write.sp], role, call.write.group))
  {
    hide IdsOk, ManagedGroups, Filter, RemoveGroup, CreateRow, HoldsRole;
    var (sp, group, rows) := (call.write.sp, call.write.group, store[call.write.sp]);
    var after := ApplyCall(store, role, call);
    assert ApplyWrite(View(store, role), call.write).Keys == View(after, role).Keys;
    assert forall sp' :: sp' in store && sp' != sp ==> View(after, role)[sp'] == View(store, role)[sp'];
    if call.write.Assign? {
      CreateSimulatesAssign(rows, role, Creation(group, call.id, call.at));
      assert View(after, role)[sp] == View(store, role)[sp] + {group};
    } else {
      RemoveEffect(rows, role, group);
      assert View(after, role)[sp] == View(store, role)[sp] - {group} <==> group !in View(after, role)[sp];
    }
  }

  /** A call touches no row of another group. */
  lemma CallKeepsRows(store: Store, role: string, call: Call, sp: string, group: string)
    requires AllIdsOk(store) && sp in store && (call.write.sp != sp || call.write.group != group)
    ensures var after := ApplyCall(store, role, call);
            sp in after && RowsOf(after[sp], group) == RowsOf(store[sp], group)
  {
    hide IdsOk, Filter, RemoveGroup, CreateRow;
    if call.write.sp == sp {
      if call.write.Assign? {
        CreateKeepsFilter(store[sp], role, Creation(call.write.group, call.id, call.at), OfPrincipal(group));
      } else {
        RemoveKeepsOthers(store[sp], call.write.group, group);
      }
    }
  }

  // ---- a whole pass ----------------------------------------------------------------------------

  function Writes(calls: seq<Call>): seq<Write> {
    if calls == [] then [] else Writes(calls[..|calls| - 1]) + [calls[|calls| - 1].write]
  }

  /** The calls of a pass, one after the other; those whose write is in `failed` fail
      and leave the store unchanged. */
  function RunCalls(store: Store, role: string, calls: seq<Call>, failed: set<Write>): Store {
    if calls == [] then store
    else
      var before := RunCalls(store, role, calls[..|calls| - 1], failed);
      var call := calls[|calls| - 1];
      if call.write in failed then before else ApplyCall(before, role, call)
  }

  /** Graph gives every created row an id that is new to its service principal. */
  ghost predicate FreshCalls(store: Store, role: string, calls: seq<Call>, failed: set<Write>) {
    calls == [] ||
    (var front := calls[..|calls| - 1];
     FreshCalls(store, role, front, failed) && FreshCall(RunCalls(store, role, front, failed), calls[|calls| - 1]))
  }

  lemma {:induction false} CallsKeepIds(store: Store, role: string, calls: seq<Call>, failed: set<Write>)
    requires AllIdsOk(store) && FreshCalls(store, role, calls, failed)
    ensures AllIdsOk(RunCalls(store, role, calls, failed)) && RunCalls(store, role, calls, failed).Keys == store.Keys
  {
    hide AllIdsOk, ApplyCall, FreshCall;
    if calls != [] {
      var front, call := calls[..|calls| - 1], calls[|calls| - 1];
      CallsKeepIds(store, role, front, failed);
      if call.write !in failed { CallKeepsIds(RunCalls(store, role, front, failed), role, call); }
    }
  }

  function Rest(own: seq<Row>): seq<Row> {
    if own == [] then [] else own[1..]
  }

  /** What becomes of the rows of one group: a remove that succeeds takes off the first, an
      assign that succeeds leaves the group managed, and nothing else touches them. */
  ghost predicate GroupAfter(before: seq<Row>, after: seq<Row>, role: string, sp: string, group: string,
                             done: set<Write>) {
    && (Remove(sp, group) in done ==> RowsOf(after, group) == Rest(RowsOf(before, group)))
    && (Assign(sp, group) in done ==> group in ManagedGroups(after, role))
    && (Remove(sp, group) !in done && Assign(sp, group) !in done ==> RowsOf(after, group) == RowsOf(before, group))
  }

  lemma {:induction false} CallsEffect(store: Store, role: string, calls: seq<Call>, failed: set<Write>, sp: string,
                                       group: string)
    requires AllIdsOk(store) && FreshCalls(store, role, calls, failed) && NoDuplicates(Writes(calls)) && sp in store
    requires Assign(sp, group) !in Writes(calls) || Remove(sp, group) !in Writes(calls)
    ensures var (after, done) := (RunCalls(store, role, calls, failed), Elements(Writes(calls)) - failed);
            sp in after && GroupAfter(store[sp], after[sp], role, sp, group, done)
  {
    hide AllIdsOk, ApplyCall, FreshCall, GroupAfter, Writes;
    if calls == [] {
      UntouchedGroup(store[sp], role, sp, group);
      NoWrites();
      assert Elements(Writes(calls)) - failed == {};
    } else {
      var front, call := calls[..|calls| - 1], calls[|calls| - 1];
      var ws, now := Writes(front), RunCalls(store, role, front, failed);
      LastWrite(calls);
      CallsEffect(store, role, front, failed, sp, group);
      CallsKeepIds(store, role, front, failed);
      var done := Elements(ws) - failed;
      if call.write in failed {
        assert Elements(Writes(calls)) - failed == done;
      } else {
        assert Elements(Writes(calls)) - failed == done + {call.write};
        OneMoreCall(store[sp], now, role, call, sp, group, done);
      }
    }
  }

  lemma NoWrites()
    ensures Writes([]) == []
  {
  }

  lemma LastWrite(calls: seq<Call>)
    requires calls != [] && NoDuplicates(Writes(calls))
    ensures var (ws, w) := (Writes(calls[..|calls| - 1]), calls[|calls| - 1].write);
            && NoDuplicates(ws) && w !in ws && (forall v :: v in ws ==> v in Writes(calls))
            && Elements(Writes(calls)) == Elements(ws) + {w}
  {
    SplitLast(Writes(calls[..|calls| - 1]), calls[|calls| - 1].write);
  }

  lemma SplitLast<T>(front: seq<T>, last: T)
    requires NoDuplicates(front + [last])
    ensures NoDuplicates(front) && last !in front && (forall v :: v in front ==> v in front + [last])
    ensures Elements(front + [last]) == Elements(front) + {last}
  {
    var all := front + [last];
    assert forall i :: 0 <= i < |front| ==> front[i] == all[i];
    assert all[|front|] == last;
  }

  lemma UntouchedGroup(rows: seq<Row>, role: string, sp: string, group: string)
    ensures GroupAfter(rows, rows, role, sp, group, {})
  {
  }

  lemma OneMoreCall(before: seq<Row>, now: Store, role: string, call: Call, sp: string, group: string, done: set<Write>)
    requires AllIdsOk(now) && sp in now && GroupAfter(before, now[sp], role, sp, group, done) && call.write !in done
    requires call.write == Assign(sp, group) ==> Remove(sp, group) !in done
    requires call.write == Remove(sp, group) ==> Assign(sp, group) !in done
    ensures sp in ApplyCall(now, role, call)
    ensures GroupAfter(before, ApplyCall(now, role, call)[sp], role, sp, group, done + {call.write})
  {
    hide IdsOk, Filter, RemoveGroup, CreateRow, ManagedGroups;
    if call.write == Remove(sp, group) {
      RemoveTakesHead(now[sp], group, OfPrincipal(group));
    } else if call.write == Assign(sp, group) {
      CreateSimulatesAssign(now[sp], role, Creation(group, call.id, call.at));
    } else {
      CallKeepsRows(now, role, call, sp, group);
      ManagedIffRow(now[sp], role, group);
      ManagedIffRow(ApplyCall(now, role, call)[sp], role, group);
    }
  }

  /** Every remove that succeeds finds a group it can remove. */
  ghost predicate AllRemovable(store: Store, role: string, done: set<Write>) {
    forall sp, g :: Remove(sp, g) in done && sp in store ==> Removable(store[sp], role, g)
  }

  /** Membership in the listing after the pass, group by group. */
  lemma ListedAfter(store: Store, role: string, desired: set<string>, after: seq<Row>, failed: set<Write>, sp: string,
                    group: string)
    requires sp in store
    requires GroupAfter(store[sp], after, role, sp, group, PassWrites(View(store, role), desired) - failed)
    ensures var done := PassWrites(View(store, role), desired) - failed;
            (group in ManagedGroups(after, role) <==> group in PassResult(View(store, role), desired, failed)[sp])
            <==> (Remove(sp, group) in done ==> Removable(store[sp], role, group))
  {
    hide PassWrites, ManagedGroups, Filter, HoldsRole;
    PassWritesAre(View(store, role), desired);
    ManagedIffRow(store[sp], role, group);
    ManagedIffRow(after, role, group);
    var own, done := RowsOf(store[sp], group), PassWrites(View(store, role), desired) - failed;
    if Remove(sp, group) in done {
      assert own != [];
      assert forall j :: 0 <= j < |own| - 1 ==> own[1..][j] == own[j + 1];
      assert forall j :: 1 <= j < |own| ==> own[j] == own[1..][j - 1];
    }
  }

  /** A whole pass on the row store, in any order and with any failures: the listing
      afterwards is the abstract pass's result if and only if, for every group a remove
      succeeds for, no row after its first holds the role. Rows of other roles survive then. */
  lemma RowPassRefinesTablePass(store: Store, role: string, desired: set<string>, calls: seq<Call>, failed: set<Write>)
    requires AllIdsOk(store) && FreshCalls(store, role, calls, failed)
    requires NoDuplicates(Writes(calls)) && Elements(Writes(calls)) == PassWrites(View(store, role), desired)
    ensures var (before, after) := (View(store, role), RunCalls(store, role, calls, failed));
            var done := PassWrites(before, desired) - failed;
            && (View(after, role) == PassResult(before, desired, failed) <==> AllRemovable(store, role, done))
            && (AllRemovable(store, role, done) ==> SameOtherRows(store, after, role))
  {
    hide AllIdsOk, PassWrites, PassResult, GroupAfter, ManagedGroups, Removable, RunCalls, FreshCalls, OtherRows;
    var after, done := RunCalls(store, role, calls, failed), PassWrites(View(store, role), desired) - failed;
    var result := PassResult(View(store, role), desired, failed);
    CallsKeepIds(store, role, calls, failed);
    ResultKeys(View(store, role), desired, failed);
    forall sp, g | sp in store
      ensures (g in View(after, role)[sp] <==> g in result[sp])
              <==> (Remove(sp, g) in done ==> Removable(store[sp], role, g))
    {
      NotBoth(View(store, role), desired, sp, g);
      assert Assign(sp, g) in Elements(Writes(calls)) <==> Assign(sp, g) in Writes(calls);
      assert Remove(sp, g) in Elements(Writes(calls)) <==> Remove(sp, g) in Writes(calls);
      CallsEffect(store, role, calls, failed, sp, g);
      ListedAfter(store, role, desired, after[sp], failed, sp, g);
    }
    if AllRemovable(store, role, done) {
      forall sp | sp in store ensures View(after, role)[sp] == result[sp] {}
      OtherRowsKept(store, role, desired, calls, failed);
    }
  }

  lemma ResultKeys(t: Table, desired: set<string>, failed: set<Write>)
    ensures PassResult(t, desired, failed).Keys == t.Keys
  {
  }

  lemma NotBoth(t: Table, desired: set<string>, sp: string, g: string)
    ensures Assign(sp, g) !in PassWrites(t, desired) || Remove(sp, g) !in PassWrites(t, desired)
  {
  }

  lemma {:induction false} OtherRowsKept(store: Store, role: string, desired: set<string>, calls: seq<Call>,
                                         failed: set<Write>)
    requires AllIdsOk(store) && FreshCalls(store, role, calls, failed)
    requires NoDuplicates(Writes(calls)) && Elements(Writes(calls)) <= PassWrites(View(store, role), desired)
    requires AllRemovable(store, role, Elements(Writes(calls)) - failed)
    ensures SameOtherRows(store, RunCalls(store, role, calls, failed), role)
  {
    hide AllIdsOk, PassWrites, ApplyCall, OtherRows, FreshCall, Removable, View;
    if calls != [] {
      var front, call := calls[..|calls| - 1], calls[|calls| - 1];
      var ws, now := Writes(front), RunCalls(store, role, front, failed);
      LastWrite(calls);
      OtherRowsKept(store, role, desired, front, failed);
      CallsKeepIds(store, role, front, failed);
      if call.write !in failed {
        if call.write.Remove? && call.write.sp in store {
          var opposite := Assign(call.write.sp, call.write.group);
          NotBoth(View(store, role), desired, call.write.sp, call.write.group);
          assert call.write in Elements(Writes(calls)) - failed;
          assert opposite in ws ==> opposite in Elements(ws);
          CallsEffect(store, role, front, failed, call.write.sp, call.write.group);
          FirstRowIsManaged(store, role, desired, call.write, now, Elements(ws) - failed);
        }
        CallKeepsOtherRows(now, role, call);
      }
    }
  }

  lemma FirstRowIsManaged(store: Store, role: string, desired: set<string>, w: Write, now: Store, done: set<Write>)
    requires w.Remove? && w.sp in store && w.sp in now && w in PassWrites(View(store, role), desired)
    requires Removable(store[w.sp], role, w.group) && w !in done && Assign(w.sp, w.group) !in done
    requires GroupAfter(store[w.sp], now[w.sp], role, w.sp, w.group, done)
    ensures var own := RowsOf(now[w.sp], w.group); own != [] && HoldsRole(own[0], role)
  {
    hide PassWrites, ManagedGroups, Filter, HoldsRole;
    PassWritesAre(View(store, role), desired);
    ManagedIffRow(store[w.sp], role, w.group);
  }

  lemma CallKeepsOtherRows(store: Store, role: string, call: Call)
    requires AllIdsOk(store)
    requires call.write.Remove? && call.write.sp in store ==>
      var own := RowsOf(store[call.write.sp], call.write.group); own != [] && HoldsRole(own[0], role)
    ensures SameOtherRows(store, ApplyCall(store, role, call), role)
  {
    hide IdsOk, Filter, RemoveGroup, CreateRow, ManagedGroups, HoldsRole, OtherRows;
    if call.write.sp in store {
      var rows := store[call.write.sp];
      if call.write.Assign? {
        CreateSimulatesAssign(rows, role, Creation(call.write.group, call.id, call.at));
      } else {
        RemoveEffect(rows, role, call.write.group);
      }
    }
  }

  // ---- when rows are unique ---------------------------------------------------------------------

  /** No principal has two rows with the same role. */
  ghost predicate UniqueRoles(rows: seq<Row>) {
    forall i, j :: 0 <= i < j < |rows| && rows[i].principal.Some? && rows[i].principal == rows[j].principal
      ==> rows[i].role != rows[j].role
  }

  /** If (principal, role) is unique, a managed group is removable if and only if Azure lists
      its managed row first; a principal without rows of other roles always is. */
  lemma UniqueRowsRemovable(rows: seq<Row>, role: string, group: string)
    requires UniqueRoles(rows) && group in ManagedGroups(rows, role)
    ensures RowsOf(rows, group) != []
    ensures Removable(rows, role, group) <==> HoldsRole(RowsOf(rows, group)[0], role)
    ensures (forall i :: 0 <= i < |rows| && rows[i].principal == Some(group) ==> HoldsRole(rows[i], role)) ==>
      Removable(rows, role, group)
  {
    hide Filter, FirstIndex, HoldsRole, ManagedGroups;
    ManagedIffRow(rows, role, group);
    FirstRowOf(rows, group);
    if HoldsRole(RowsOf(rows, group)[0], role) { FirstIsOnlyManaged(rows, role, group); }
  }

  /** With unique roles, no later row of the group repeats the role of the first. */
  lemma FirstIsOnlyManaged(rows: seq<Row>, role: string, group: string)
    requires UniqueRoles(rows)
    requires var i := FirstIndex(rows, group); i < |rows| && HoldsRole(rows[i], role)
    ensures var own := RowsOf(rows, group);
            forall j :: 1 <= j < |own| ==> !HoldsRole(own[j], role)
  {
    hide Filter, FirstIndex;
    FirstRowOf(rows, group);
    var i, own := FirstIndex(rows, group), RowsOf(rows, group);
    forall j | 1 <= j < |own| ensures !HoldsRole(own[j], role) {
      assert own[j] == own[1..][j - 1] && own[1..] == Filter(rows[i + 1..], OfPrincipal(group));
      FilterHas(rows[i + 1..], OfPrincipal(group), own[j]);
      var k :| 0 <= k < |rows[i + 1..]| && rows[i + 1..][k] == own[j];
      assert rows[i + 1 + k] == own[j];
    }
  }
}
