/** The Kubernetes reconciler and the Argo CD target reconcilers side by side
    (cmd/main.go): each has its own mutex and its own service principals, so their
    listings and writes interleave freely on one table. */
module TargetIsolation {
  import opened Wrappers
  import opened ConvergencePass

  /** One StateReconciler: its service principals and the desired set of its pass. */
  datatype Reconciler = Reconciler(sps: set<string>, desired: set<string>)

  /** What reconciler `owner` does to the table: list one service principal, seeing
      `groups` there, or make one successful write. Failed calls change nothing. */
  datatype Step = Listed(owner: nat, sp: string, groups: set<string>) | Wrote(owner: nat, write: Write)
  {
    function Sp(): string {
      if Listed? then sp else write.sp
    }
  }

  /** Every step is taken by a reconciler on one of its own service principals. */
  ghost predicate Owned(rs: seq<Reconciler>, trace: seq<Step>) {
    forall k :: 0 <= k < |trace| ==> trace[k].owner < |rs| && trace[k].Sp() in rs[trace[k].owner].sps
  }

  ghost predicate Disjoint(rs: seq<Reconciler>) {
    forall i, j :: 0 <= i < j < |rs| ==> rs[i].sps !! rs[j].sps
  }

  function Run(t: Table, trace: seq<Step>): Table {
    if trace == [] then t
    else
      var before, step := Run(t, trace[..|trace| - 1]), trace[|trace| - 1];
      if step.Wrote? then ApplyWrite(before, step.write) else before
  }

  /** Every listing returned what was in the table at that moment. */
  ghost predicate Consistent(t: Table, trace: seq<Step>) {
    trace == []
    || (Consistent(t, trace[..|trace| - 1])
        && var now, step := Run(t, trace[..|trace| - 1]), trace[|trace| - 1];
           step.Listed? ==> step.sp in now && now[step.sp] == step.groups)
  }

  /** The steps of one reconciler, in its own order. */
  function Alone(trace: seq<Step>, i: nat): seq<Step> {
    if trace == [] then []
    else Alone(trace[..|trace| - 1], i) + if trace[|trace| - 1].owner == i then [trace[|trace| - 1]] else []
  }

  /** The reconcilers below `n` one after the other, each taking the steps it took in `trace`. */
  function Sequential(trace: seq<Step>, n: nat): seq<Step> {
    if n == 0 then [] else Sequential(trace, n - 1) + Alone(trace, n - 1)
  }

  lemma {:induction false} RunKeepsKeys(t: Table, trace: seq<Step>)
    ensures Run(t, trace).Keys == t.Keys
  {
    if trace != [] { RunKeepsKeys(t, trace[..|trace| - 1]); }
  }

  lemma {:induction false} AloneIsOwn(rs: seq<Reconciler>, trace: seq<Step>, i: nat)
    requires Owned(rs, trace)
    ensures Owned(rs, Alone(trace, i)) && forall k :: 0 <= k < |Alone(trace, i)| ==> Alone(trace, i)[k].owner == i
  {
    if trace != [] { AloneIsOwn(rs, trace[..|trace| - 1], i); }
  }

  /** A step elsewhere leaves a service principal alone. */
  lemma StepElsewhere(t: Table, step: Step, sp: string)
    requires sp in t && step.Sp() != sp
    ensures step.Wrote? ==> sp in ApplyWrite(t, step.write) && ApplyWrite(t, step.write)[sp] == t[sp]
  {
  }

  /** On its own service principals, a reconciler finds the table as if it had run alone. */
  lemma {:induction false} LocalTable(rs: seq<Reconciler>, t: Table, trace: seq<Step>, i: nat, sp: string)
    requires Owned(rs, trace) && Disjoint(rs) && i < |rs| && sp in rs[i].sps && sp in t
    ensures sp in Run(t, trace) && sp in Run(t, Alone(trace, i))
    ensures Run(t, trace)[sp] == Run(t, Alone(trace, i))[sp]
  {
    hide ApplyWrite, Disjoint;
    RunKeepsKeys(t, trace);
    RunKeepsKeys(t, Alone(trace, i));
    if trace != [] {
      var front, step := trace[..|trace| - 1], trace[|trace| - 1];
      LocalTable(rs, t, front, i, sp);
      RunKeepsKeys(t, front);
      RunKeepsKeys(t, Alone(front, i));
      if step.owner == i {
        assert (Alone(front, i) + [step])[..|Alone(front, i)|] == Alone(front, i);
        if step.Wrote? { SameWriteSameGroups(Run(t, front), Run(t, Alone(front, i)), step.write, sp); }
      } else {
        assert Alone(trace, i) == Alone(front, i);
        OwnersDiffer(rs, step.owner, i, step.Sp(), sp);
        StepElsewhere(Run(t, front), step, sp);
      }
    }
  }

  lemma SameWriteSameGroups(a: Table, b: Table, w: Write, sp: string)
    requires sp in a && sp in b && a[sp] == b[sp] && a.Keys == b.Keys
    ensures sp in ApplyWrite(a, w) && sp in ApplyWrite(b, w) && ApplyWrite(a, w)[sp] == ApplyWrite(b, w)[sp]
  {
  }

  lemma OwnersDiffer(rs: seq<Reconciler>, i: nat, j: nat, a: string, b: string)
    requires Disjoint(rs) && i < |rs| && j < |rs| && i != j && a in rs[i].sps && b in rs[j].sps
    ensures a != b
  {
  }

  /** Running alone, a reconciler would have listed exactly what it listed in the
      interleaving, so it would have made the same decisions. */
  lemma {:induction false} ListsTheSameAlone(rs: seq<Reconciler>, t: Table, trace: seq<Step>, i: nat)
    requires Owned(rs, trace) && Disjoint(rs) && i < |rs| && Consistent(t, trace)
    ensures Consistent(t, Alone(trace, i))
  {
    hide ApplyWrite, Disjoint;
    if trace != [] {
      var front, step := trace[..|trace| - 1], trace[|trace| - 1];
      ListsTheSameAlone(rs, t, front, i);
      if step.owner == i {
        assert (Alone(front, i) + [step])[..|Alone(front, i)|] == Alone(front, i);
        if step.Listed? {
          RunKeepsKeys(t, front);
          LocalTable(rs, t, front, i, step.sp);
        }
      } else {
        assert Alone(trace, i) == Alone(front, i);
      }
    }
  }

  lemma {:induction false} AloneOfConcat(a: seq<Step>, b: seq<Step>, i: nat)
    ensures Alone(a + b, i) == Alone(a, i) + Alone(b, i)
  {
    if b == [] {
      assert a + b == a;
    } else {
      assert (a + b)[..|a + b| - 1] == a + b[..|b| - 1];
      AloneOfConcat(a, b[..|b| - 1], i);
    }
  }

  lemma {:induction false} AloneOfOwn(steps: seq<Step>, owner: nat, i: nat)
    requires forall k :: 0 <= k < |steps| ==> steps[k].owner == owner
    ensures Alone(steps, i) == if i == owner then steps else []
  {
    if steps != [] {
      AloneOfOwn(steps[..|steps| - 1], owner, i);
      assert steps == steps[..|steps| - 1] + [steps[|steps| - 1]];
    }
  }

  lemma NoSteps(rs: seq<Reconciler>, i: nat)
    ensures Owned(rs, []) && Alone([], i) == []
  {
  }

  lemma OwnedConcat(rs: seq<Reconciler>, a: seq<Step>, b: seq<Step>)
    requires Owned(rs, a) && Owned(rs, b)
    ensures Owned(rs, a + b)
  {
  }

  lemma {:induction false} SequentialHasAll(rs: seq<Reconciler>, trace: seq<Step>, n: nat, i: nat)
    requires Owned(rs, trace)
    ensures Owned(rs, Sequential(trace, n))
    ensures Alone(Sequential(trace, n), i) == if i < n then Alone(trace, i) else []
  {
    hide Alone, Owned;
    if n == 0 {
      NoSteps(rs, i);
    } else {
      SequentialHasAll(rs, trace, n - 1, i);
      AloneIsOwn(rs, trace, n - 1);
      OwnedConcat(rs, Sequential(trace, n - 1), Alone(trace, n - 1));
      AloneOfConcat(Sequential(trace, n - 1), Alone(trace, n - 1), i);
      AloneOfOwn(Alone(trace, n - 1), n - 1, i);
    }
  }

  lemma {:induction false} UntouchedElsewhere(rs: seq<Reconciler>, t: Table, trace: seq<Step>, sp: string)
    requires Owned(rs, trace) && sp in t && forall i :: 0 <= i < |rs| ==> sp !in rs[i].sps
    ensures sp in Run(t, trace) && Run(t, trace)[sp] == t[sp]
  {
    hide ApplyWrite;
    if trace != [] {
      UntouchedElsewhere(rs, t, trace[..|trace| - 1], sp);
      StepElsewhere(Run(t, trace[..|trace| - 1]), trace[|trace| - 1], sp);
    }
  }

  /** The reconcilers below `n` in full, then the first `m` steps of reconciler `n`. */
  lemma {:induction false} SequentialListsTheSame(rs: seq<Reconciler>, t: Table, trace: seq<Step>, n: nat, m: nat)
    requires Owned(rs, trace) && Disjoint(rs) && Consistent(t, trace) && n < |rs| && m <= |Alone(trace, n)|
    ensures Consistent(t, Sequential(trace, n) + Alone(trace, n)[..m])
    decreases n, m
  {
    hide Disjoint, Alone, ApplyWrite, Run;
    var before, own := Sequential(trace, n), Alone(trace, n);
    if m == 0 {
      assert before + own[..m] == before;
      if n > 0 {
        SequentialListsTheSame(rs, t, trace, n - 1, |Alone(trace, n - 1)|);
        assert Alone(trace, n - 1)[..|Alone(trace, n - 1)|] == Alone(trace, n - 1);
      }
    } else {
      var front, step := before + own[..m - 1], own[m - 1];
      SequentialListsTheSame(rs, t, trace, n, m - 1);
      assert before + own[..m] == front + [step];
      assert (front + [step])[..|front|] == front;
      if step.Listed? {
        AloneListed(rs, t, trace, n, m - 1);
        SequentialFront(rs, trace, n, m - 1);
        RunKeepsKeys(t, front);
        RunKeepsKeys(t, own[..m - 1]);
        LocalTable(rs, t, front, n, step.sp);
      }
    }
  }

  /** What reconciler `n` alone has in the table when it lists. */
  lemma AloneListed(rs: seq<Reconciler>, t: Table, trace: seq<Step>, n: nat, m: nat)
    requires Owned(rs, trace) && Disjoint(rs) && Consistent(t, trace) && n < |rs| && m < |Alone(trace, n)|
    requires Alone(trace, n)[m].Listed?
    ensures var own := Alone(trace, n);
            own[m].sp in Run(t, own[..m]) && Run(t, own[..m])[own[m].sp] == own[m].groups && own[m].sp in rs[n].sps
  {
    hide Disjoint, Alone, Run;
    var own := Alone(trace, n);
    ListsTheSameAlone(rs, t, trace, n);
    AloneIsOwn(rs, trace, n);
    assert own == own[..m + 1] + own[m + 1..];
    ConsistentPrefix(t, own[..m + 1], own[m + 1..]);
    assert own[..m + 1][..m] == own[..m];
    assert own[m].Sp() in rs[own[m].owner].sps;
  }

  lemma SequentialFront(rs: seq<Reconciler>, trace: seq<Step>, n: nat, m: nat)
    requires Owned(rs, trace) && n < |rs| && m <= |Alone(trace, n)|
    ensures var front := Sequential(trace, n) + Alone(trace, n)[..m];
            Owned(rs, front) && Alone(front, n) == Alone(trace, n)[..m]
  {
    hide Alone;
    AloneIsOwn(rs, trace, n);
    SequentialHasAll(rs, trace, n, n);
    OwnedConcat(rs, Sequential(trace, n), Alone(trace, n)[..m]);
    AloneOfConcat(Sequential(trace, n), Alone(trace, n)[..m], n);
    AloneOfOwn(Alone(trace, n)[..m], n, n);
  }

  /** Target isolation: with pairwise disjoint service principals, every interleaving of
      any number of reconcilers ends in the table reached by running them one after the
      other, and run that way every listing returns what it returned in the interleaving. */
  lemma InterleavingIsSequential(rs: seq<Reconciler>, t: Table, trace: seq<Step>)
    requires Owned(rs, trace) && Disjoint(rs)
    ensures Run(t, trace) == Run(t, Sequential(trace, |rs|))
    ensures Consistent(t, trace) ==> Consistent(t, Sequential(trace, |rs|))
  {
    if Consistent(t, trace) && |rs| > 0 {
      var n := |rs| - 1;
      SequentialListsTheSame(rs, t, trace, n, |Alone(trace, n)|);
      assert Alone(trace, n)[..|Alone(trace, n)|] == Alone(trace, n);
    }
    SameTable(rs, t, trace);
  }

  lemma SameTable(rs: seq<Reconciler>, t: Table, trace: seq<Step>)
    requires Owned(rs, trace) && Disjoint(rs)
    ensures Run(t, trace) == Run(t, Sequential(trace, |rs|))
  {
    hide Run, Alone, Sequential, Disjoint;
    var order := Sequential(trace, |rs|);
    RunKeepsKeys(t, trace);
    RunKeepsKeys(t, order);
    SequentialHasAll(rs, trace, |rs|, 0);
    forall sp | sp in t ensures Run(t, trace)[sp] == Run(t, order)[sp] {
      if i :| 0 <= i < |rs| && sp in rs[i].sps {
        SequentialHasAll(rs, trace, |rs|, i);
        LocalTable(rs, t, trace, i, sp);
        LocalTable(rs, t, order, i, sp);
      } else {
        UntouchedElsewhere(rs, t, trace, sp);
        UntouchedElsewhere(rs, t, order, sp);
      }
    }
  }

  // ---- complete passes ---------------------------------------------------------------

  function WritesIn(steps: seq<Step>): seq<Write> {
    if steps == [] then []
    else WritesIn(steps[..|steps| - 1]) + if steps[|steps| - 1].Wrote? then [steps[|steps| - 1].write] else []
  }

  function Listing(steps: seq<Step>): Table {
    if steps == [] then map[]
    else
      var step := steps[|steps| - 1];
      if step.Listed? then Listing(steps[..|steps| - 1])[step.sp := step.groups] else Listing(steps[..|steps| - 1])
  }

  /** These steps are one whole pass of `r`: it lists each of its service principals,
      then makes the writes for that listing, in any order, except those in `failed`. */
  ghost predicate IsPass(r: Reconciler, lists: seq<Step>, writes: seq<Step>, failed: set<Write>) {
    && (forall k :: 0 <= k < |lists| ==> lists[k].Listed?) && (forall k :: 0 <= k < |writes| ==> writes[k].Wrote?)
    && Listing(lists).Keys == r.sps
    && NoDuplicates(WritesIn(writes)) && Elements(WritesIn(writes)) == PassWrites(Listing(lists), r.desired) - failed
  }

  lemma {:induction false} ListsReadTheTable(t: Table, lists: seq<Step>)
    requires Consistent(t, lists) && forall k :: 0 <= k < |lists| ==> lists[k].Listed?
    ensures Run(t, lists) == t && forall sp :: sp in Listing(lists) ==> sp in t && Listing(lists)[sp] == t[sp]
  {
    if lists != [] { ListsReadTheTable(t, lists[..|lists| - 1]); }
  }

  lemma {:induction false} ConsistentPrefix(t: Table, a: seq<Step>, b: seq<Step>)
    requires Consistent(t, a + b)
    ensures Consistent(t, a)
  {
    if b != [] {
      assert (a + b)[..|a + b| - 1] == a + b[..|b| - 1];
      ConsistentPrefix(t, a, b[..|b| - 1]);
    } else {
      assert a + b == a;
    }
  }

  /** Writing after listing is RunWrites, on the part of the table that was listed. */
  lemma {:induction false} WritesRun(t: Table, part: Table, lists: seq<Step>, writes: seq<Step>, sp: string)
    requires Run(t, lists) == t && (forall k :: 0 <= k < |writes| ==> writes[k].Wrote?)
    requires sp in part && sp in t && part[sp] == t[sp] && part.Keys <= t.Keys
    requires forall k :: 0 <= k < |writes| ==> writes[k].write.sp in part
    ensures sp in Run(t, lists + writes) && sp in RunWrites(part, WritesIn(writes), {})
    ensures Run(t, lists + writes)[sp] == RunWrites(part, WritesIn(writes), {})[sp]
    ensures RunWrites(part, WritesIn(writes), {}).Keys == part.Keys
  {
    RunKeepsKeys(t, lists + writes);
    if writes == [] {
      assert lists + writes == lists;
    } else {
      var front, w := writes[..|writes| - 1], writes[|writes| - 1].write;
      assert (lists + writes)[..|lists + writes| - 1] == lists + front;
      RunKeepsKeys(t, lists + front);
      WritesRun(t, part, lists, front, sp);
      assert WritesIn(writes) == WritesIn(front) + [w];
      assert (WritesIn(front) + [w])[..|WritesIn(front)|] == WritesIn(front);
    }
  }

  lemma {:induction false} WritesInHas(writes: seq<Step>, k: nat)
    requires k < |writes| && writes[k].Wrote?
    ensures writes[k].write in Elements(WritesIn(writes))
  {
    if k < |writes| - 1 { WritesInHas(writes[..|writes| - 1], k); }
  }

  /** Each reconciler converges to its own desired set: in any interleaving in which the
      steps of reconciler `i` are one pass, its service principals end with exactly the
      effect of that pass on what they held at the start, whatever the others do. */
  lemma PassInParallel(rs: seq<Reconciler>, t: Table, trace: seq<Step>, i: nat,
                       lists: seq<Step>, writes: seq<Step>, failed: set<Write>, sp: string)
    requires Owned(rs, trace) && Disjoint(rs) && Consistent(t, trace) && i < |rs|
    requires Alone(trace, i) == lists + writes && IsPass(rs[i], lists, writes, failed) && sp in rs[i].sps
    ensures sp in t && sp in Run(t, trace)
    ensures Run(t, trace)[sp] == GroupsAfter(sp, t[sp], rs[i].desired, failed)
  {
    hide Run, RunWrites, Alone, Disjoint, PassWrites, GroupsAfter, WithWrites, WritesIn;
    var part, ws := Listing(lists), WritesIn(writes);
    ListsTheSameAlone(rs, t, trace, i);
    ConsistentPrefix(t, lists, writes);
    ListsReadTheTable(t, lists);
    PassWritesAre(part, rs[i].desired);
    forall k | 0 <= k < |writes| ensures writes[k].write.sp in part {
      WritesInHas(writes, k);
      match writes[k].write
      case Assign(_, _) =>
      case Remove(_, _) =>
    }
    LocalTable(rs, t, trace, i, sp);
    WritesRun(t, part, lists, writes, sp);
    RunWritesIsWithWrites(part, rs[i].desired, ws, {});
    assert Elements(ws) - {} == PassWrites(part, rs[i].desired) - failed;
    AllWritesDone(part, rs[i].desired, failed);
  }
}
