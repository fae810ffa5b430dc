/** The app role assignments of one service principal as Azure stores them, row by
    row, and the operations of client.go on them. ListManagedAssignments sees the
    groups that hold the managed role; create absorbs "already exists"; remove
    deletes the first row of a principal, whatever its role. */
module AzureRows {
  import opened Wrappers

  /** Any field of a row Graph returns may be nil. */
  datatype Row = Row(id: Option<string>, principal: Option<string>, role: Option<string>)

  /** Graph gives every row an id, and no two rows the same one. */
  ghost predicate IdsOk(rows: seq<Row>) {
    && (forall i :: 0 <= i < |rows| ==> rows[i].id.Some?)
    && (forall i, j :: 0 <= i < j < |rows| ==> rows[i].id != rows[j].id)
  }

  // ---- rows that satisfy a condition ------------------------------------------

  datatype Condition =
    | OtherRole(managed: string)
    | OfRole(role: string)
    | OtherId(id: string)
    | OfPrincipal(group: string)
    | UndesiredPrincipal(desired: set<string>)

  predicate Holds(p: Condition, r: Row) {
    match p
    case OtherRole(managed) => r.role != Some(managed)
    case OfRole(role) => r.role == Some(role)
    case OtherId(id) => r.id != Some(id)
    case OfPrincipal(group) => r.principal == Some(group)
    case UndesiredPrincipal(desired) => r.principal.Some? && r.principal.value !in desired
  }

  function Filter(rows: seq<Row>, p: Condition): seq<Row> {
    if rows == [] then []
    else Filter(rows[..|rows| - 1], p) + if Holds(p, rows[|rows| - 1]) then [rows[|rows| - 1]] else []
  }

  lemma {:induction false} FilterConcat(a: seq<Row>, b: seq<Row>, p: Condition)
    ensures Filter(a + b, p) == Filter(a, p) + Filter(b, p)
  {
    hide Holds;
    if b == [] {
      assert a + b == a;
    } else {
      assert (a + b)[..|a + b| - 1] == a + b[..|b| - 1];
      FilterConcat(a, b[..|b| - 1], p);
    }
  }

  lemma {:induction false} FilterAll(rows: seq<Row>, p: Condition)
    requires forall i :: 0 <= i < |rows| ==> Holds(p, rows[i])
    ensures Filter(rows, p) == rows
  {
    hide Holds;
    if rows != [] {
      FilterAll(rows[..|rows| - 1], p);
      assert rows == rows[..|rows| - 1] + [rows[|rows| - 1]];
    }
  }

  /** A row in the middle contributes itself or nothing. */
  lemma FilterMiddle(a: seq<Row>, r: Row, b: seq<Row>, p: Condition)
    ensures Filter(a + [r] + b, p) == Filter(a, p) + (if Holds(p, r) then [r] else []) + Filter(b, p)
  {
    hide Holds;
    FilterConcat(a + [r], b, p);
    assert (a + [r])[..|a|] == a;
  }

  function Without(rows: seq<Row>, i: nat): seq<Row>
    requires i < |rows|
  {
    rows[..i] + rows[i + 1..]
  }

  lemma FilterWithout(rows: seq<Row>, i: nat, p: Condition)
    requires i < |rows|
    ensures Filter(rows, p)
         == Filter(rows[..i], p) + (if Holds(p, rows[i]) then [rows[i]] else []) + Filter(rows[i + 1..], p)
    ensures Filter(Without(rows, i), p) == Filter(rows[..i], p) + Filter(rows[i + 1..], p)
  {
    hide Holds, Filter;
    FilterConcat(rows[..i], rows[i + 1..], p);
    FilterMiddle(rows[..i], rows[i], rows[i + 1..], p);
    assert rows == rows[..i] + [rows[i]] + rows[i + 1..];
  }

  // ---- the operations -----------------------------------------------------------

  predicate HoldsRole(r: Row, role: string) {
    r.role == Some(role)
  }

  /** The groups ListManagedAssignments reports. */
  function ManagedGroups(rows: seq<Row>, role: string): set<string> {
    set r | r in rows && HoldsRole(r, role) && r.principal.Some? :: r.principal.value
  }

  /** The rows this controller does not own. */
  function OtherRows(rows: seq<Row>, role: string): seq<Row> {
    Filter(rows, OtherRole(role))
  }

  /** Where removeGroupFromServicePrincipal stops scanning: the first row of the
      principal, or the end. */
  function FirstIndex(rows: seq<Row>, group: string): (i: nat)
    ensures i <= |rows| && (i < |rows| ==> rows[i].principal == Some(group))
    ensures forall j :: 0 <= j < i ==> rows[j].principal != Some(group)
  {
    if rows == [] then 0
    else if rows[0].principal == Some(group) then 0
    else
      assert forall j :: 1 <= j < |rows| ==> rows[j] == rows[1..][j - 1];
      1 + FirstIndex(rows[1..], group)
  }

  /** Graph's delete by assignment id. */
  function DeleteId(rows: seq<Row>, id: string): seq<Row> {
    Filter(rows, OtherId(id))
  }

  function RemoveGroup(rows: seq<Row>, group: string): seq<Row> {
    var i := FirstIndex(rows, group);
    if i < |rows| && rows[i].id.Some? then DeleteId(rows, rows[i].id.value) else rows
  }

  predicate AlreadyAssigned(rows: seq<Row>, group: string, role: string) {
    exists r :: r in rows && r.principal == Some(group) && r.role == Some(role)
  }

  /** A create call: the group, and the id and listing position Graph gives the row. */
  datatype Creation = Creation(group: string, id: string, at: nat)

  function CreateRow(rows: seq<Row>, role: string, c: Creation): seq<Row> {
    if AlreadyAssigned(rows, c.group, role) then rows
    else
      var at := if c.at <= |rows| then c.at else |rows|;
      rows[..at] + [Row(Some(c.id), Some(c.group), Some(role))] + rows[at..]
  }

  /** An id longer than every id in use. */
  function UnusedId(rows: seq<Row>): (id: string)
    ensures forall i :: 0 <= i < |rows| && rows[i].id.Some? ==> |rows[i].id.value| < |id|
  {
    if rows == [] then "0"
    else
      var id := UnusedId(rows[..|rows| - 1]);
      var last := rows[|rows| - 1].id;
      if last.Some? then id + last.value + "0" else id
  }

  /** Removing deletes exactly one row: the first one of the principal. */
  lemma RemoveDeletesFirst(rows: seq<Row>, group: string)
    requires IdsOk(rows)
    ensures var i := FirstIndex(rows, group);
            && RemoveGroup(rows, group) == (if i < |rows| then Without(rows, i) else rows)
            && IdsOk(RemoveGroup(rows, group))
  {
    hide DeleteId, FirstIndex;
    var i := FirstIndex(rows, group);
    if i < |rows| { DeleteDeletesOne(rows, i); }
  }

  lemma DeleteDeletesOne(rows: seq<Row>, i: nat)
    requires IdsOk(rows) && i < |rows|
    ensures DeleteId(rows, rows[i].id.value) == Without(rows, i)
  {
    hide Filter;
    var p := OtherId(rows[i].id.value);
    FilterMiddle(rows[..i], rows[i], rows[i + 1..], p);
    assert rows == rows[..i] + [rows[i]] + rows[i + 1..];
    FilterAll(rows[..i], p);
    FilterAll(rows[i + 1..], p);
  }

  lemma CreateKeepsIds(rows: seq<Row>, role: string, c: Creation)
    requires IdsOk(rows) && forall i :: 0 <= i < |rows| ==> rows[i].id != Some(c.id)
    ensures IdsOk(CreateRow(rows, role, c))
  {
  }

  /** Creating simulates the abstract assign on every table, and touches no other row. */
  lemma CreateSimulatesAssign(rows: seq<Row>, role: string, c: Creation)
    ensures ManagedGroups(CreateRow(rows, role, c), role) == ManagedGroups(rows, role) + {c.group}
    ensures OtherRows(CreateRow(rows, role, c), role) == OtherRows(rows, role)
  {
    if !AlreadyAssigned(rows, c.group, role) {
      CreatedRows(rows, role, c);
    }
  }

  lemma CreatedRows(rows: seq<Row>, role: string, c: Creation)
    requires !AlreadyAssigned(rows, c.group, role)
    ensures ManagedGroups(CreateRow(rows, role, c), role) == ManagedGroups(rows, role) + {c.group}
    ensures OtherRows(CreateRow(rows, role, c), role) == OtherRows(rows, role)
  {
    hide Filter, AlreadyAssigned;
    var at := if c.at <= |rows| then c.at else |rows|;
    var row := Row(Some(c.id), Some(c.group), Some(role));
    FilterMiddle(rows[..at], row, rows[at..], OtherRole(role));
    FilterConcat(rows[..at], rows[at..], OtherRole(role));
    assert rows == rows[..at] + rows[at..];
    var rows' := CreateRow(rows, role, c);
    assert forall r :: r in rows' <==> r in rows || r == row;
    assert row.principal.value == c.group;
  }

  /** The rows of one principal, in listing order. */
  function RowsOf(rows: seq<Row>, group: string): seq<Row> {
    Filter(rows, OfPrincipal(group))
  }

  lemma {:induction false} FilterNone(rows: seq<Row>, p: Condition)
    requires forall i :: 0 <= i < |rows| ==> !Holds(p, rows[i])
    ensures Filter(rows, p) == []
  {
    hide Holds;
    if rows != [] { FilterNone(rows[..|rows| - 1], p); }
  }

  lemma FirstRowOf(rows: seq<Row>, group: string)
    ensures var i := FirstIndex(rows, group);
            if i < |rows| then RowsOf(rows, group) == [rows[i]] + Filter(rows[i + 1..], OfPrincipal(group))
            else RowsOf(rows, group) == []
  {
    hide Filter, FirstIndex;
    var i := FirstIndex(rows, group);
    if i < |rows| {
      FilterWithout(rows, i, OfPrincipal(group));
      FilterNone(rows[..i], OfPrincipal(group));
    } else {
      FilterNone(rows, OfPrincipal(group));
    }
  }

  /** Removing a group takes the head off its rows and leaves every other principal's
      rows, and every row of a role it does not hit, as they were. */
  lemma RemoveTakesHead(rows: seq<Row>, group: string, p: Condition)
    requires IdsOk(rows)
    ensures var (own, after) := (RowsOf(rows, group), RemoveGroup(rows, group));
            && RowsOf(after, group) == (if own == [] then [] else own[1..])
            && |Filter(after, p)| == |Filter(rows, p)| - (if own != [] && Holds(p, own[0]) then 1 else 0)
            && (own == [] || !Holds(p, own[0]) ==> Filter(after, p) == Filter(rows, p))
  {
    hide Filter, FirstIndex, RemoveGroup, Holds, IdsOk;
    RemoveDeletesFirst(rows, group);
    FirstRowOf(rows, group);
    var i := FirstIndex(rows, group);
    if i < |rows| {
      OwnRowsWithout(rows, group, i);
      FilterWithout(rows, i, p);
    }
  }

  lemma OwnRowsWithout(rows: seq<Row>, group: string, i: nat)
    requires i == FirstIndex(rows, group) && i < |rows|
    ensures RowsOf(rows, group) != [] && RowsOf(rows[..i] + rows[i + 1..], group) == RowsOf(rows, group)[1..]
  {
    hide Filter, FirstIndex;
    FirstRowOf(rows, group);
    FilterWithout(rows, i, OfPrincipal(group));
    FilterNone(rows[..i], OfPrincipal(group));
  }

  lemma {:induction false} FilterHas(rows: seq<Row>, p: Condition, r: Row)
    ensures r in Filter(rows, p) <==> r in rows && Holds(p, r)
  {
    hide Holds;
    if rows != [] {
      FilterHas(rows[..|rows| - 1], p, r);
      assert rows == rows[..|rows| - 1] + [rows[|rows| - 1]];
    }
  }

  lemma ManagedIffRow(rows: seq<Row>, role: string, group: string)
    ensures var own := RowsOf(rows, group);
            group in ManagedGroups(rows, role) <==> exists j :: 0 <= j < |own| && HoldsRole(own[j], role)
  {
    hide Filter;
    if group in ManagedGroups(rows, role) {
      var r :| r in rows && HoldsRole(r, role) && r.principal.Some? && r.principal.value == group;
      FilterHas(rows, OfPrincipal(group), r);
      var j :| 0 <= j < |RowsOf(rows, group)| && RowsOf(rows, group)[j] == r;
    }
    if j :| 0 <= j < |RowsOf(rows, group)| && HoldsRole(RowsOf(rows, group)[j], role) {
      FilterHas(rows, OfPrincipal(group), RowsOf(rows, group)[j]);
      assert Some(group).value == group;
    }
  }

  /** The exact effect of one remove. Rows of other roles survive if and only if the
      first row of the principal is a managed one, and the group stops being managed if
      and only if no later row of it is. */
  lemma RemoveEffect(rows: seq<Row>, role: string, group: string)
    requires IdsOk(rows)
    ensures var (own, after) := (RowsOf(rows, group), RemoveGroup(rows, group));
            && (OtherRows(after, role) == OtherRows(rows, role) <==> own == [] || HoldsRole(own[0], role))
            && (group !in ManagedGroups(after, role) <==> forall j :: 1 <= j < |own| ==> !HoldsRole(own[j], role))
            && (forall g :: g != group ==> (g in ManagedGroups(after, role) <==> g in ManagedGroups(rows, role)))
  {
    hide Filter, ManagedGroups, RemoveGroup, HoldsRole;
    var own, after := RowsOf(rows, group), RemoveGroup(rows, group);
    RemoveTakesHead(rows, group, OtherRole(role));
    HoldsOtherRole(role);
    ManagedIffRow(after, role, group);
    if own != [] {
      assert forall j :: 0 <= j < |own| - 1 ==> own[1..][j] == own[j + 1];
      assert forall j :: 1 <= j < |own| ==> own[j] == own[1..][j - 1];
    }
    forall g | g != group ensures g in ManagedGroups(after, role) <==> g in ManagedGroups(rows, role) {
      RemoveKeepsOthers(rows, group, g);
      ManagedIffRow(rows, role, g);
      ManagedIffRow(after, role, g);
    }
  }

  lemma HoldsOtherRole(role: string)
    ensures forall r :: Holds(OtherRole(role), r) <==> !HoldsRole(r, role)
  {
  }

  lemma RemoveKeepsOthers(rows: seq<Row>, group: string, g: string)
    requires IdsOk(rows) && g != group
    ensures RowsOf(RemoveGroup(rows, group), g) == RowsOf(rows, g)
  {
    hide Filter, RemoveGroup;
    RemoveTakesHead(rows, group, OfPrincipal(g));
    FirstRowOf(rows, group);
  }
}
