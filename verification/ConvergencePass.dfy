/** One convergence pass on the abstract table (service principal -> groups):
    the writes it issues and what it leaves behind, whatever the iteration order
    and whichever writes fail (the diff loops of reconcile_state.go). */
module ConvergencePass {
  import opened Wrappers

  type Table = map<string, set<string>>

  datatype Write = Assign(sp: string, group: string) | Remove(sp: string, group: string)

  /** The effect of one successful write. */
  function ApplyWrite(t: Table, w: Write): Table {
    if w.sp !in t then t
    else
      match w
      case Assign(sp, group) => t[sp := t[sp] + {group}]
      case Remove(sp, group) => t[sp := t[sp] - {group}]
  }

  /** The writes the diff loops issue for a listing `actual`. It is also the
      symmetric difference between `actual` and "every service principal has
      exactly the desired groups", one write per difference. */
  function PassWrites(actual: Table, desired: set<string>): set<Write> {
    (set sp, g | sp in actual && g in desired - actual[sp] :: Assign(sp, g))
    + (set sp, g | sp in actual && g in actual[sp] - desired :: Remove(sp, g))
  }

  lemma PassWritesAre(actual: Table, desired: set<string>)
    ensures forall sp, g :: Assign(sp, g) in PassWrites(actual, desired)
                            <==> sp in actual && g in desired && g !in actual[sp]
    ensures forall sp, g :: Remove(sp, g) in PassWrites(actual, desired)
                            <==> sp in actual && g in actual[sp] && g !in desired
  {
  }

  /** The groups of `sp` after a pass over `actual`, when exactly the writes in
      `failed` fail: what was right stays, a missing group is there unless its
      assign failed, and a stale group is there only if its remove failed. */
  function GroupsAfter(sp: string, actual: set<string>, desired: set<string>, failed: set<Write>): set<string> {
    actual * desired
    + (set g | g in desired - actual && Assign(sp, g) !in failed)
    + (set g | g in actual - desired && Remove(sp, g) in failed)
  }

  function PassResult(actual: Table, desired: set<string>, failed: set<Write>): Table {
    map sp | sp in actual :: GroupsAfter(sp, actual[sp], desired, failed)
  }

  /** `t` with every write of `done` applied. */
  function WithWrites(t: Table, done: set<Write>): Table {
    map sp | sp in t ::
      (set g | g in t[sp] && Remove(sp, g) !in done)
      + (set w | w in done && w.Assign? && w.sp == sp :: w.group)
  }

  lemma WithWritesHas(t: Table, done: set<Write>)
    ensures WithWrites(t, done).Keys == t.Keys
    ensures forall sp, g :: sp in t ==>
      (g in WithWrites(t, done)[sp] <==> Assign(sp, g) in done || (g in t[sp] && Remove(sp, g) !in done))
  {
  }

  /** Applying one more write of the pass is one more element of `done`. */
  lemma WithWritesStep(t: Table, desired: set<string>, done: set<Write>, w: Write)
    requires done <= PassWrites(t, desired) && w in PassWrites(t, desired)
    ensures ApplyWrite(WithWrites(t, done), w) == WithWrites(t, done + {w})
  {
    PassWritesAre(t, desired);
    WithWritesHas(t, done);
    WithWritesHas(t, done + {w});
    var a, b := ApplyWrite(WithWrites(t, done), w), WithWrites(t, done + {w});
    assert a.Keys == b.Keys;
    forall sp | sp in t ensures a[sp] == b[sp] {
      assert forall g :: g in a[sp] <==> g in b[sp];
    }
  }

  lemma NoWritesYet(t: Table)
    ensures WithWrites(t, {}) == t
  {
    WithWritesHas(t, {});
    forall sp | sp in t ensures WithWrites(t, {})[sp] == t[sp] {
      assert forall g :: g in WithWrites(t, {})[sp] <==> g in t[sp];
    }
  }

  lemma AllWritesDone(t: Table, desired: set<string>, failed: set<Write>)
    ensures WithWrites(t, PassWrites(t, desired) - failed) == PassResult(t, desired, failed)
  {
    var a, b := WithWrites(t, PassWrites(t, desired) - failed), PassResult(t, desired, failed);
    PassWritesAre(t, desired);
    WithWritesHas(t, PassWrites(t, desired) - failed);
    forall sp | sp in t ensures a[sp] == b[sp] {
      assert forall g :: g in a[sp] <==> g in b[sp];
    }
  }

  // ---- any order, any failures -------------------------------------------------

  /** The writes of `ws`, issued one after the other. */
  function RunWrites(t: Table, ws: seq<Write>, failed: set<Write>): Table {
    if ws == [] then t
    else
      var before := RunWrites(t, ws[..|ws| - 1], failed);
      var w := ws[|ws| - 1];
      if w in failed then before else ApplyWrite(before, w)
  }

  lemma {:induction false} RunWritesIsWithWrites(t: Table, desired: set<string>, ws: seq<Write>, failed: set<Write>)
    requires NoDuplicates(ws) && Elements(ws) <= PassWrites(t, desired)
    ensures RunWrites(t, ws, failed) == WithWrites(t, Elements(ws) - failed)
  {
    if ws == [] {
      NoWritesYet(t);
      assert Elements(ws) - failed == {};
    } else {
      var front, w := ws[..|ws| - 1], ws[|ws| - 1];
      assert ws == front + [w];
      assert Elements(ws) == Elements(front) + {w};
      RunWritesIsWithWrites(t, desired, front, failed);
      if w in failed {
        assert Elements(ws) - failed == Elements(front) - failed;
      } else {
        WithWritesStep(t, desired, Elements(front) - failed, w);
        assert Elements(ws) - failed == (Elements(front) - failed) + {w};
      }
    }
  }

  /** The exact effect of one pass, for every order in which its writes can be
      issued and every pattern of failures. */
  lemma PassEffect(actual: Table, desired: set<string>, ws: seq<Write>, failed: set<Write>)
    requires NoDuplicates(ws) && Elements(ws) == PassWrites(actual, desired)
    ensures RunWrites(actual, ws, failed) == PassResult(actual, desired, failed)
  {
    RunWritesIsWithWrites(actual, desired, ws, failed);
    AllWritesDone(actual, desired, failed);
  }

  /** Between what must stay and what may appear, and every deviation from the
      desired set is owed to a write that failed. */
  lemma PassBounds(actual: Table, desired: set<string>, failed: set<Write>, sp: string)
    requires sp in actual
    ensures var result := PassResult(actual, desired, failed)[sp];
            && actual[sp] * desired <= result <= actual[sp] + desired
            && (forall g :: g in desired && g !in result ==> Assign(sp, g) in failed * PassWrites(actual, desired))
            && (forall g :: g in result && g !in desired ==> Remove(sp, g) in failed * PassWrites(actual, desired))
            && (result == desired <==> forall w | w in failed * PassWrites(actual, desired) :: w.sp != sp)
  {
  }

  // ---- the convergence measure ---------------------------------------------------

  /** How far `t` is from the desired set: the summed size, over the service
      principals, of the symmetric difference. */
  function Distance(t: Table, desired: set<string>): nat {
    |PassWrites(t, desired)|
  }

  /** A successful write of the pass removes exactly itself from the difference. */
  lemma WriteShrinksDifference(t: Table, desired: set<string>, w: Write)
    requires w in PassWrites(t, desired)
    ensures PassWrites(ApplyWrite(t, w), desired) == PassWrites(t, desired) - {w}
    ensures Distance(ApplyWrite(t, w), desired) == Distance(t, desired) - 1
  {
    var t' := ApplyWrite(t, w);
    PassWritesAre(t, desired);
    PassWritesAre(t', desired);
    forall v ensures v in PassWrites(t', desired) <==> v in PassWrites(t, desired) && v != w {
      match v
      case Assign(sp, g) =>
      case Remove(sp, g) =>
    }
    assert PassWrites(t, desired) == PassWrites(t', desired) + {w};
  }

  lemma {:induction false} DifferenceDuringPass(t: Table, desired: set<string>, ws: seq<Write>, failed: set<Write>)
    requires NoDuplicates(ws) && Elements(ws) <= PassWrites(t, desired)
    ensures PassWrites(RunWrites(t, ws, failed), desired) == PassWrites(t, desired) - (Elements(ws) - failed)
  {
    hide PassWrites, ApplyWrite, Distance;
    if ws == [] {
      assert Elements(ws) - failed == {};
    } else {
      var front, w := ws[..|ws| - 1], ws[|ws| - 1];
      assert ws == front + [w];
      assert Elements(ws) == Elements(front) + {w};
      DifferenceDuringPass(t, desired, front, failed);
      if w in failed {
        assert Elements(ws) - failed == Elements(front) - failed;
      } else {
        WriteShrinksDifference(RunWrites(t, front, failed), desired, w);
        assert Elements(ws) - failed == (Elements(front) - failed) + {w};
      }
    }
  }

  /** What is left of the difference once the writes of `done` have been made. */
  lemma WritesLeft(t: Table, desired: set<string>, done: set<Write>)
    requires done <= PassWrites(t, desired)
    ensures PassWrites(WithWrites(t, done), desired) == PassWrites(t, desired) - done
  {
  }

  /** At every intermediate write of a pass, in any order and with any failures,
      the distance is the starting distance minus the writes that succeeded. */
  lemma DistanceDuringPass(t: Table, desired: set<string>, ws: seq<Write>, failed: set<Write>)
    requires NoDuplicates(ws) && Elements(ws) <= PassWrites(t, desired)
    ensures Distance(RunWrites(t, ws, failed), desired) == Distance(t, desired) - |Elements(ws) - failed|
  {
    DifferenceDuringPass(t, desired, ws, failed);
    var all, gone := PassWrites(t, desired), Elements(ws) - failed;
    assert all == (all - gone) + gone;
  }

  /** Distance zero means converged everywhere, and then a pass writes nothing. */
  lemma ZeroDistance(t: Table, desired: set<string>)
    ensures Distance(t, desired) == 0 <==> PassWrites(t, desired) == {}
    ensures PassWrites(t, desired) == {} <==> forall sp | sp in t :: t[sp] == desired
  {
    PassWritesAre(t, desired);
    if PassWrites(t, desired) == {} {
      forall sp | sp in t ensures t[sp] == desired {
        forall g ensures g in t[sp] <==> g in desired {
          assert Assign(sp, g) !in PassWrites(t, desired) && Remove(sp, g) !in PassWrites(t, desired);
        }
      }
    }
    if forall sp | sp in t :: t[sp] == desired {
      forall w ensures w !in PassWrites(t, desired) {
        match w
        case Assign(sp, g) =>
        case Remove(sp, g) =>
      }
    }
  }

  // ---- bookkeeping ---------------------------------------------------------------

  /** All assignments in a table, one pair each. */
  function Assignments(t: Table): set<(string, string)> {
    set sp, g | sp in t && g in t[sp] :: (sp, g)
  }

  lemma AssignmentsAre(t: Table)
    ensures forall sp, g :: (sp, g) in Assignments(t) <==> sp in t && g in t[sp]
  {
  }

  function Assigns(ws: set<Write>): set<Write> {
    set w | w in ws && w.Assign?
  }

  function Removes(ws: set<Write>): set<Write> {
    set w | w in ws && w.Remove?
  }

  lemma AssignmentsStep(t: Table, w: Write)
    requires w.sp in t
    requires match w case Assign(sp, g) => g !in t[sp] case Remove(sp, g) => g in t[sp]
    ensures |Assignments(ApplyWrite(t, w))| == |Assignments(t)| + if w.Assign? then 1 else -1
  {
    hide Assignments;
    var t' := ApplyWrite(t, w);
    AssignmentsAre(t);
    AssignmentsAre(t');
    var pair := (w.sp, w.group);
    forall p: (string, string) | p != pair ensures p in Assignments(t') <==> p in Assignments(t) {
      assert p == (p.0, p.1);
    }
    if w.Assign? {
      assert Assignments(t') == Assignments(t) + {pair};
    } else {
      assert Assignments(t) == Assignments(t') + {pair};
    }
  }

  /** Conservation: a pass changes the number of assignments by exactly the
      number of its successful assigns minus its successful removes. */
  lemma {:induction false} AssignmentsConserved(t: Table, desired: set<string>, done: set<Write>)
    requires done <= PassWrites(t, desired)
    ensures |Assignments(WithWrites(t, done))| == |Assignments(t)| + |Assigns(done)| - |Removes(done)|
  {
    hide PassWrites, WithWrites, ApplyWrite, Assignments;
    if done == {} {
      NoWritesYet(t);
      assert Assigns(done) == {} && Removes(done) == {};
    } else {
      var w :| w in done;
      var rest := done - {w};
      assert done == rest + {w};
      AssignmentsConserved(t, desired, rest);
      WithWritesStep(t, desired, rest, w);
      WithWritesHas(t, rest);
      PassWritesAre(t, desired);
      AssignmentsStep(WithWrites(t, rest), w);
      if w.Assign? {
        assert Assigns(done) == Assigns(rest) + {w} && Removes(done) == Removes(rest);
      } else {
        assert Removes(done) == Removes(rest) + {w} && Assigns(done) == Assigns(rest);
      }
    }
  }
}
