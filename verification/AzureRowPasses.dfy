/** Whole passes on the row table: what they do to rows of other roles, that repeated
    passes reach the desired set on any table, and when the row table behaves like the
    abstract one. */
module AzureRowPasses {
  import opened Wrappers
  import opened AzureRows

  // ---- one service principal ------------------------------------------------------

  function CreateAll(rows: seq<Row>, role: string, cs: seq<Creation>): seq<Row> {
    if cs == [] then rows else CreateRow(CreateAll(rows, role, cs[..|cs| - 1]), role, cs[|cs| - 1])
  }

  function RemoveAll(rows: seq<Row>, groups: seq<string>): seq<Row> {
    if groups == [] then rows else RemoveGroup(RemoveAll(rows, groups[..|groups| - 1]), groups[|groups| - 1])
  }

  /** Graph gives each created row an id no present row has. */
  ghost predicate FreshIds(rows: seq<Row>, role: string, cs: seq<Creation>) {
    cs == [] || (FreshIds(rows, role, cs[..|cs| - 1])
                 && var now := CreateAll(rows, role, cs[..|cs| - 1]);
                    forall i :: 0 <= i < |now| ==> now[i].id != Some(cs[|cs| - 1].id))
  }

  function GroupsOf(cs: seq<Creation>): seq<string> {
    if cs == [] then [] else GroupsOf(cs[..|cs| - 1]) + [cs[|cs| - 1].group]
  }

  lemma GroupsOfSplit(cs: seq<Creation>)
    requires cs != []
    ensures Elements(GroupsOf(cs)) == Elements(GroupsOf(cs[..|cs| - 1])) + {cs[|cs| - 1].group}
  {
  }

  lemma {:induction false} CreateAllEffect(rows: seq<Row>, role: string, cs: seq<Creation>)
    requires IdsOk(rows) && FreshIds(rows, role, cs)
    ensures var after := CreateAll(rows, role, cs);
            && IdsOk(after)
            && ManagedGroups(after, role) == ManagedGroups(rows, role) + Elements(GroupsOf(cs))
            && OtherRows(after, role) == OtherRows(rows, role)
  {
    hide IdsOk, ManagedGroups, OtherRows, CreateRow;
    if cs == [] {
      assert Elements(GroupsOf(cs)) == {};
    } else {
      var front, c := cs[..|cs| - 1], cs[|cs| - 1];
      CreateAllEffect(rows, role, front);
      CreateKeepsIds(CreateAll(rows, role, front), role, c);
      CreateSimulatesAssign(CreateAll(rows, role, front), role, c);
      GroupsOfSplit(cs);
    }
  }

  lemma CreateKeepsFilter(rows: seq<Row>, role: string, c: Creation, p: Condition)
    requires !Holds(p, Row(Some(c.id), Some(c.group), Some(role)))
    ensures Filter(CreateRow(rows, role, c), p) == Filter(rows, p)
  {
    hide Filter, AlreadyAssigned, Holds;
    var at := if c.at <= |rows| then c.at else |rows|;
    FilterMiddle(rows[..at], Row(Some(c.id), Some(c.group), Some(role)), rows[at..], p);
    FilterConcat(rows[..at], rows[at..], p);
    assert rows == rows[..at] + rows[at..];
  }

  lemma {:induction false} CreateAllKeepsFilter(rows: seq<Row>, role: string, cs: seq<Creation>, p: Condition)
    requires forall c :: c in cs ==> !Holds(p, Row(Some(c.id), Some(c.group), Some(role)))
    ensures Filter(CreateAll(rows, role, cs), p) == Filter(rows, p)
  {
    hide Filter, CreateRow;
    if cs != [] {
      CreateAllKeepsFilter(rows, role, cs[..|cs| - 1], p);
      CreateKeepsFilter(CreateAll(rows, role, cs[..|cs| - 1]), role, cs[|cs| - 1], p);
    }
  }

  lemma {:induction false} InGroupsOf(cs: seq<Creation>, c: Creation)
    requires c in cs
    ensures c.group in GroupsOf(cs)
  {
    if c != cs[|cs| - 1] {
      assert cs == cs[..|cs| - 1] + [cs[|cs| - 1]];
      InGroupsOf(cs[..|cs| - 1], c);
    }
  }

  /** Creating rows for other groups leaves a group's own rows alone. */
  lemma CreateAllKeepsRowsOf(rows: seq<Row>, role: string, cs: seq<Creation>, group: string)
    requires group !in GroupsOf(cs)
    ensures RowsOf(CreateAll(rows, role, cs), group) == RowsOf(rows, group)
  {
    forall c | c in cs ensures c.group != group { InGroupsOf(cs, c); }
    CreateAllKeepsFilter(rows, role, cs, OfPrincipal(group));
  }

  lemma {:induction false} RemoveAllEffect(rows: seq<Row>, groups: seq<string>)
    requires IdsOk(rows) && NoDuplicates(groups)
    ensures var after := RemoveAll(rows, groups);
            && IdsOk(after)
            && forall g :: RowsOf(after, g)
                 == if g in groups && RowsOf(rows, g) != [] then RowsOf(rows, g)[1..] else RowsOf(rows, g)
  {
    hide IdsOk, RowsOf, RemoveGroup;
    if groups != [] {
      var front, last := groups[..|groups| - 1], groups[|groups| - 1];
      assert groups == front + [last];
      var before := RemoveAll(rows, front);
      RemoveAllEffect(rows, front);
      RemoveDeletesFirst(before, last);
      RemoveTakesHead(before, last, OfPrincipal(last));
      forall g | g != last ensures RowsOf(RemoveGroup(before, last), g) == RowsOf(before, g) {
        RemoveKeepsOthers(before, last, g);
      }
    }
  }

  /** A row condition loses one row for every removed group whose first row met it. */
  lemma {:induction false} RemoveAllFilter(rows: seq<Row>, groups: seq<string>, p: Condition)
    requires IdsOk(rows) && NoDuplicates(groups)
    ensures |Filter(RemoveAll(rows, groups), p)| == |Filter(rows, p)| - Hits(rows, groups, p)
    ensures Hits(rows, groups, p) == 0 ==> Filter(RemoveAll(rows, groups), p) == Filter(rows, p)
  {
    hide IdsOk, Filter, RemoveGroup, Holds;
    if groups != [] {
      var front, last := groups[..|groups| - 1], groups[|groups| - 1];
      assert groups == front + [last];
      RemoveAllFilter(rows, front, p);
      RemoveAllEffect(rows, front);
      RemoveTakesHead(RemoveAll(rows, front), last, p);
    }
  }

  /** The first row listed for this group meets the condition. */
  predicate Hit(rows: seq<Row>, group: string, p: Condition) {
    RowsOf(rows, group) != [] && Holds(p, RowsOf(rows, group)[0])
  }

  function Hits(rows: seq<Row>, groups: seq<string>, p: Condition): nat {
    if groups == [] then 0
    else Hits(rows, groups[..|groups| - 1], p) + if Hit(rows, groups[|groups| - 1], p) then 1 else 0
  }

  lemma {:induction false} HitsAre(rows: seq<Row>, groups: seq<string>, p: Condition)
    ensures Hits(rows, groups, p) == 0 <==> forall i :: 0 <= i < |groups| ==> !Hit(rows, groups[i], p)
    ensures (forall i :: 0 <= i < |groups| ==> Hit(rows, groups[i], p)) ==> Hits(rows, groups, p) == |groups|
  {
    hide Hit;
    if groups != [] {
      var front := groups[..|groups| - 1];
      HitsAre(rows, front, p);
      assert forall i :: 0 <= i < |front| ==> front[i] == groups[i];
    }
  }

  /** The successful calls of one pass on one service principal: the assigns, in the
      order of the first loop, then the removes, in the order of the second. */
  datatype Plan = Plan(creations: seq<Creation>, removes: seq<string>)

  function PassRows(rows: seq<Row>, role: string, plan: Plan): seq<Row> {
    RemoveAll(CreateAll(rows, role, plan.creations), plan.removes)
  }

  /** The promise that rows of other roles are never touched: a pass keeps it if and
      only if, for no group it removes, the first row Azure lists for that group is one
      of another role. Any subset of the calls may have failed. */
  lemma OtherRolesUntouchedIff(rows: seq<Row>, role: string, plan: Plan)
    requires IdsOk(rows) && FreshIds(rows, role, plan.creations) && NoDuplicates(plan.removes)
    requires forall g :: g in plan.removes ==> g !in GroupsOf(plan.creations)
    ensures OtherRows(PassRows(rows, role, plan), role) == OtherRows(rows, role)
            <==> forall i :: 0 <= i < |plan.removes| ==> !Hit(rows, plan.removes[i], OtherRole(role))
  {
    hide IdsOk, Filter, RowsOf, Holds;
    var created := CreateAll(rows, role, plan.creations);
    CreateAllEffect(rows, role, plan.creations);
    RemoveAllFilter(created, plan.removes, OtherRole(role));
    HitsAre(created, plan.removes, OtherRole(role));
    forall g | g in plan.removes ensures RowsOf(created, g) == RowsOf(rows, g) {
      CreateAllKeepsRowsOf(rows, role, plan.creations, g);
    }
  }

  const OTHER := Row(Some("1"), Some("g"), Some("other"))
  const OWN := Row(Some("2"), Some("g"), Some("managed"))

  lemma RemoveHitsOther()
    ensures PassRows([OTHER, OWN], "managed", Plan([], ["g"])) == [OWN]
  {
    hide RemoveGroup;
    assert [OTHER, OWN][0].principal == Some("g");
    assert ["g"][..0] == [];
    assert RemoveAll([OTHER, OWN], []) == [OTHER, OWN];
    RemoveDeletesFirst([OTHER, OWN], "g");
    assert FirstIndex([OTHER, OWN], "g") == 0;
  }

  /** The promise is broken by a stale group that holds two roles: the pass deletes the
      row of the other role, and the group is still managed afterwards. */
  lemma OtherRoleRowDeleted()
    ensures exists rows, plan ::
              && IdsOk(rows) && ManagedGroups(rows, "managed") == {"g"} && plan == Plan([], ["g"])
              && OtherRows(rows, "managed") != [] && OtherRows(PassRows(rows, "managed", plan), "managed") == []
              && ManagedGroups(PassRows(rows, "managed", plan), "managed") == {"g"}
  {
    hide Filter, PassRows;
    RemoveHitsOther();
    var rows := [OTHER, OWN];
    assert IdsOk(rows);
    assert OWN in rows && OWN in [OWN] && OWN.principal.value == "g";
    assert ManagedGroups(rows, "managed") == {"g"} && ManagedGroups([OWN], "managed") == {"g"};
    FilterAll([OTHER], OtherRole("managed"));
    FilterNone([OWN], OtherRole("managed"));
    FilterConcat([OTHER], [OWN], OtherRole("managed"));
    assert rows == [OTHER] + [OWN];
    assert PassRows(rows, "managed", Plan([], ["g"])) == [OWN];
  }

  // ---- repeated passes ------------------------------------------------------------

  /** The calls a fully successful pass makes for the listing of `rows`. */
  ghost predicate ValidPlan(rows: seq<Row>, role: string, desired: set<string>, plan: Plan) {
    && FreshIds(rows, role, plan.creations)
    && Elements(GroupsOf(plan.creations)) == desired - ManagedGroups(rows, role)
    && NoDuplicates(plan.removes) && Elements(plan.removes) == ManagedGroups(rows, role) - desired
  }

  /** The rows, of any role, that belong to undesired principals. */
  function UndesiredRows(rows: seq<Row>, desired: set<string>): nat {
    |Filter(rows, UndesiredPrincipal(desired))|
  }

  /** A fully successful pass, on any table: every desired group is managed, and one row
      of an undesired principal is gone for every stale group the pass found. */
  lemma PassProgress(rows: seq<Row>, role: string, desired: set<string>, plan: Plan)
    requires IdsOk(rows) && ValidPlan(rows, role, desired, plan)
    ensures var after := PassRows(rows, role, plan);
            && IdsOk(after)
            && desired <= ManagedGroups(after, role) <= ManagedGroups(rows, role) + desired
            && UndesiredRows(after, desired) == UndesiredRows(rows, desired) - |plan.removes|
            && (plan.removes == [] <==> ManagedGroups(rows, role) <= desired)
  {
    hide IdsOk, Filter, ManagedGroups, RemoveAll, CreateAll;
    var created, after := CreateAll(rows, role, plan.creations), PassRows(rows, role, plan);
    var undesired := UndesiredPrincipal(desired);
    CreateAllEffect(rows, role, plan.creations);
    RemoveAllEffect(created, plan.removes);
    RemoveAllFilter(created, plan.removes, undesired);
    forall c | c in plan.creations ensures c.group in desired {
      InGroupsOf(plan.creations, c);
      assert c.group in Elements(GroupsOf(plan.creations));
    }
    CreateAllKeepsFilter(rows, role, plan.creations, undesired);
    forall i | 0 <= i < |plan.removes| ensures Hit(created, plan.removes[i], undesired) {
      var g := plan.removes[i];
      assert g in Elements(plan.removes);
      ManagedIffRow(created, role, g);
      FilterHas(created, OfPrincipal(g), RowsOf(created, g)[0]);
    }
    HitsAre(created, plan.removes, undesired);
    forall g ensures g in ManagedGroups(after, role) ==> g in ManagedGroups(created, role)
             ensures g in desired ==> g in ManagedGroups(after, role) {
      ManagedIffRow(after, role, g);
      ManagedIffRow(created, role, g);
      assert g in plan.removes <==> g in Elements(plan.removes);
    }
    assert plan.removes == [] <==> Elements(plan.removes) == {} by {
      if plan.removes != [] { assert plan.removes[0] in Elements(plan.removes); }
    }
    if ManagedGroups(rows, role) - desired == {} {
      forall g | g in ManagedGroups(rows, role) ensures g in desired {
        assert g !in ManagedGroups(rows, role) - desired;
      }
    }
  }

  function Passes(rows: seq<Row>, role: string, plans: seq<Plan>): seq<Row>
    decreases |plans|
  {
    if plans == [] then rows else Passes(PassRows(rows, role, plans[0]), role, plans[1..])
  }

  ghost predicate ValidPlans(rows: seq<Row>, role: string, desired: set<string>, plans: seq<Plan>)
    decreases |plans|
  {
    plans == [] || (ValidPlan(rows, role, desired, plans[0])
                    && ValidPlans(PassRows(rows, role, plans[0]), role, desired, plans[1..]))
  }

  /** Once nothing is stale, the next pass makes the listing equal to the desired set and
      every later pass keeps it so. */
  lemma {:induction false} ConvergedStays(rows: seq<Row>, role: string, desired: set<string>, plans: seq<Plan>)
    requires IdsOk(rows) && ValidPlans(rows, role, desired, plans)
    requires ManagedGroups(rows, role) <= desired
    ensures ManagedGroups(Passes(rows, role, plans), role)
         == if plans == [] then ManagedGroups(rows, role) else desired
    decreases |plans|
  {
    hide IdsOk, ManagedGroups, PassRows, ValidPlan;
    if plans != [] {
      PassProgress(rows, role, desired, plans[0]);
      ConvergedStays(PassRows(rows, role, plans[0]), role, desired, plans[1..]);
    }
  }

  /** Whatever the table holds, more passes than there are rows of undesired principals
      make the managed listing equal to the desired set. */
  lemma {:induction false} RepeatedPassesConverge(rows: seq<Row>, role: string, desired: set<string>, plans: seq<Plan>)
    requires IdsOk(rows) && ValidPlans(rows, role, desired, plans)
    requires |plans| > UndesiredRows(rows, desired)
    ensures ManagedGroups(Passes(rows, role, plans), role) == desired
    decreases |plans|
  {
    hide IdsOk, ManagedGroups, PassRows, ValidPlan, UndesiredRows;
    PassProgress(rows, role, desired, plans[0]);
    if plans[0].removes == [] {
      ConvergedStays(rows, role, desired, plans);
    } else {
      RepeatedPassesConverge(PassRows(rows, role, plans[0]), role, desired, plans[1..]);
    }
  }
}
