/** Reconcilers that share a service principal, row by row: with the same app role they
    fight over its listing, with different roles they meet only where a remove deletes a
    row of the other's role (cmd/main.go with client.go). */
module SharedPrincipals {
  import opened Wrappers
  import opened AzureRows
  import opened AzureRowPasses
  import opened AzureRowRefinement

  /** One reconciler and its Azure target: its service principals and its app role. */
  datatype Reconciler = Reconciler(sps: set<string>, role: string, desired: set<string>)

  ghost predicate Satisfied(store: Store, r: Reconciler) {
    forall sp :: sp in r.sps && sp in store ==> ManagedGroups(store[sp], r.role) == r.desired
  }

  /** `after` is `before` after a pass of `r` in which no call fails. */
  ghost predicate PassOf(r: Reconciler, before: Store, after: Store) {
    before.Keys == after.Keys && forall sp :: sp in before ==> PassOn(r, sp, before[sp], after[sp])
  }

  ghost predicate PassOn(r: Reconciler, sp: string, before: seq<Row>, after: seq<Row>) {
    if sp !in r.sps then after == before
    else exists plan :: ValidPlan(before, r.role, r.desired, plan) && after == PassRows(before, r.role, plan)
  }

  /** The first row of the group holds the role, and no later one does. */
  ghost predicate OnlyFirst(rows: seq<Row>, group: string, role: string) {
    RowsOf(rows, group) != [] && HoldsRole(RowsOf(rows, group)[0], role) && Removable(rows, role, group)
  }

  // ---- what a pass does to another role -----------------------------------------------------

  lemma ListingIsByRole(a: seq<Row>, b: seq<Row>, role: string)
    requires Filter(a, OfRole(role)) == Filter(b, OfRole(role))
    ensures ManagedGroups(a, role) == ManagedGroups(b, role)
  {
    hide Filter;
    forall g ensures g in ManagedGroups(a, role) <==> g in ManagedGroups(b, role) {
      if r :| r in a && HoldsRole(r, role) && r.principal.Some? && r.principal.value == g {
        FilterHas(a, OfRole(role), r);
        FilterHas(b, OfRole(role), r);
      }
      if r :| r in b && HoldsRole(r, role) && r.principal.Some? && r.principal.value == g {
        FilterHas(a, OfRole(role), r);
        FilterHas(b, OfRole(role), r);
      }
    }
  }

  /** The creates of a pass leave the rows and the listing of another role alone, and the
      rows of every group it removes. */
  lemma CreatesKeepOtherRole(rows: seq<Row>, role: string, desired: set<string>, plan: Plan, other: string)
    requires IdsOk(rows) && ValidPlan(rows, role, desired, plan) && other != role
    ensures var created := CreateAll(rows, role, plan.creations);
            && IdsOk(created) && Filter(created, OfRole(other)) == Filter(rows, OfRole(other))
            && ManagedGroups(created, other) == ManagedGroups(rows, other)
            && forall g :: g in plan.removes ==> RowsOf(created, g) == RowsOf(rows, g)
  {
    hide IdsOk, Filter, ManagedGroups, RowsOf;
    CreateAllEffect(rows, role, plan.creations);
    CreateAllKeepsFilter(rows, role, plan.creations, OfRole(other));
    ListingIsByRole(CreateAll(rows, role, plan.creations), rows, other);
    forall g | g in plan.removes ensures RowsOf(CreateAll(rows, role, plan.creations), g) == RowsOf(rows, g) {
      assert g in Elements(plan.removes);
      assert g in GroupsOf(plan.creations) <==> g in Elements(GroupsOf(plan.creations));
      CreateAllKeepsRowsOf(rows, role, plan.creations, g);
    }
  }

  /** One reconciler's prune deletes a row of the other's role exactly when the first row
      of a group it removes holds that role. */
  lemma PruneSparesOtherRoleIff(rows: seq<Row>, role: string, desired: set<string>, plan: Plan, other: string)
    requires IdsOk(rows) && ValidPlan(rows, role, desired, plan) && other != role
    ensures Filter(PassRows(rows, role, plan), OfRole(other)) == Filter(rows, OfRole(other))
            <==> forall i :: 0 <= i < |plan.removes| ==> !Hit(rows, plan.removes[i], OfRole(other))
  {
    hide IdsOk, Filter, ManagedGroups, RowsOf, Holds;
    CreatesKeepOtherRole(rows, role, desired, plan, other);
    var created := CreateAll(rows, role, plan.creations);
    RemoveAllFilter(created, plan.removes, OfRole(other));
    HitsAre(created, plan.removes, OfRole(other));
  }

  /** The listing of another role after a pass: what it was, less the removed groups whose
      only row of that role is their first row. */
  lemma OtherListingAfter(rows: seq<Row>, role: string, desired: set<string>, plan: Plan, other: string, group: string)
    requires IdsOk(rows) && ValidPlan(rows, role, desired, plan) && other != role
    ensures group in ManagedGroups(PassRows(rows, role, plan), other)
            <==> group in ManagedGroups(rows, other) && !(group in plan.removes && OnlyFirst(rows, group, other))
  {
    hide IdsOk, Filter, ManagedGroups, HoldsRole, ValidPlan;
    CreatesKeepOtherRole(rows, role, desired, plan, other);
    var created, after := CreateAll(rows, role, plan.creations), PassRows(rows, role, plan);
    PlanRemoves(rows, role, desired, plan);
    RemoveAllEffect(created, plan.removes);
    ManagedIffRow(created, other, group);
    ManagedIffRow(after, other, group);
    var own := RowsOf(rows, group);
    if group in plan.removes && own != [] {
      assert forall j :: 0 <= j < |own| - 1 ==> own[1..][j] == own[j + 1];
      assert forall j :: 1 <= j < |own| ==> own[j] == own[1..][j - 1];
    }
  }

  lemma PlanRemoves(rows: seq<Row>, role: string, desired: set<string>, plan: Plan)
    requires ValidPlan(rows, role, desired, plan)
    ensures NoDuplicates(plan.removes)
    ensures forall g :: g in plan.removes <==> g in ManagedGroups(rows, role) && g !in desired
  {
    forall g ensures g in plan.removes <==> g in ManagedGroups(rows, role) && g !in desired {
      assert g in plan.removes <==> g in Elements(plan.removes);
    }
  }

  // ---- two reconcilers ------------------------------------------------------------------------

  /** A pass of `r` removes the group. */
  predicate Pruned(rows: seq<Row>, r: Reconciler, group: string) {
    group in ManagedGroups(rows, r.role) && group !in r.desired
  }

  /** On this service principal a pass of `b` leaves the groups of `a` as they are. */
  ghost predicate Compatible(rows: seq<Row>, a: Reconciler, b: Reconciler) {
    if a.role == b.role then a.desired == b.desired
    else forall g :: g in a.desired && Pruned(rows, b, g) ==> !OnlyFirst(rows, g, a.role)
  }

  lemma CompatibleIff(rows: seq<Row>, after: seq<Row>, a: Reconciler, b: Reconciler, sp: string)
    requires IdsOk(rows) && sp in b.sps && PassOn(b, sp, rows, after)
    requires ManagedGroups(rows, a.role) == a.desired && ManagedGroups(after, b.role) == b.desired
    ensures ManagedGroups(after, a.role) == a.desired <==> Compatible(rows, a, b)
  {
    hide IdsOk, ManagedGroups, OnlyFirst, ValidPlan, PassRows;
    if a.role != b.role {
      var plan :| ValidPlan(rows, b.role, b.desired, plan) && after == PassRows(rows, b.role, plan);
      PlanRemoves(rows, b.role, b.desired, plan);
      forall g
        ensures g in ManagedGroups(after, a.role)
                <==> g in a.desired && !(Pruned(rows, b, g) && OnlyFirst(rows, g, a.role))
      {
        OtherListingAfter(rows, b.role, b.desired, plan, a.role, g);
      }
    }
  }

  /** When sharing a service principal is harmless: if `a` is satisfied and a clean pass of
      `b` satisfies `b`, then both are if and only if on every service principal they share
      they have the same role and want the same groups, or have different roles and `b`
      removes no group of `a` whose only row of `a`'s role is listed first. */
  lemma SharedPrincipalsFight(before: Store, after: Store, a: Reconciler, b: Reconciler)
    requires AllIdsOk(before) && Satisfied(before, a) && PassOf(b, before, after) && Satisfied(after, b)
    ensures Satisfied(after, a)
            <==> forall sp :: sp in a.sps && sp in b.sps && sp in before ==> Compatible(before[sp], a, b)
  {
    hide IdsOk, ManagedGroups, Compatible, PassOn;
    forall sp | sp in a.sps && sp in before
      ensures ManagedGroups(after[sp], a.role) == a.desired <==> (sp in b.sps ==> Compatible(before[sp], a, b))
    {
      if sp in b.sps {
        CompatibleIff(before[sp], after[sp], a, b, sp);
      } else {
        ElsewhereUnchanged(b, sp, before[sp], after[sp]);
      }
    }
  }

  lemma ElsewhereUnchanged(r: Reconciler, sp: string, before: seq<Row>, after: seq<Row>)
    requires sp !in r.sps && PassOn(r, sp, before, after)
    ensures after == before
  {
  }
}
