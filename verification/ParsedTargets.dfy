/** Grouping goes by spelling, while the Azure client parses every identifier as a UUID
    (cmd/main.go with client.go): when the targets are the Azure targets, and what two
    targets for one Azure target do to each other. */
module ParsedTargets {
  import opened Wrappers
  import opened GoStrings
  import opened ConvergencePass
  import opened ArgoCD
  import opened ServicePrincipals
  import opened TargetGrouping
  import opened TargetDesired
  import opened AzureRows
  import opened AzureRowRefinement
  import opened SharedPrincipals

  /** What the client makes of the configured identifiers; None stands for one that is not a
      UUID, with which every call fails. */
  datatype AzureTarget = AzureTarget(principals: set<Option<string>>, role: Option<string>)

  function AzureTargetOf(servicePrincipals: string, appRoleID: string): AzureTarget {
    AzureTarget(set t | t in Tokens(servicePrincipals) :: ParsedUuid(t), ParsedUuid(TrimSpace(appRoleID)))
  }

  function InstanceAzure(x: Instance): AzureTarget { AzureTargetOf(x.servicePrincipals, x.appRoleID) }
  function TargetAzure(t: Target): AzureTarget { AzureTargetOf(t.servicePrincipals, t.appRoleID) }

  /** What KeyIff says decides whether two instances share a target. */
  ghost predicate SpelledAlike(a: Instance, b: Instance) {
    SameTarget(a, b) || Overlaps(a, b) || Overlaps(b, a)
  }

  lemma WriterNamesTarget(x: Instance, t: Target)
    requires WritesTo(x, t)
    ensures InstanceAzure(x) == TargetAzure(t)
  {
    hide Tokens, TrimSpace, ParsedUuid;
    TrimSpaceIdempotent(x.appRoleID);
  }

  lemma FirstNamesTarget(x: Instance, t: Target)
    requires t.servicePrincipals == x.Principals() && t.appRoleID == x.Role()
    ensures WritesTo(x, t) && InstanceAzure(x) == TargetAzure(t)
  {
    hide Tokens, TrimSpace, ParsedUuid, Parse, Join;
    CanonicalTokens(x);
    WriterNamesTarget(x, t);
  }

  // ---- when targets are Azure targets ---------------------------------------------------------

  /** The instances of every target are exactly those that name its Azure target. */
  ghost predicate GroupedByAzure(instances: seq<Instance>) {
    forall k, i :: 0 <= k < |Targets(instances)| && 0 <= i < |instances| ==>
      (i in Groups(instances)[k] <==> InstanceAzure(instances[i]) == TargetAzure(Targets(instances)[k]))
  }

  ghost predicate SpelledByAzure(instances: seq<Instance>) {
    forall x, y :: x in instances && y in instances ==> (InstanceAzure(x) == InstanceAzure(y) <==> SpelledAlike(x, y))
  }

  lemma GroupedIffAlike(instances: seq<Instance>, k: nat, i: nat) returns (first: nat)
    requires k < |Targets(instances)| && i < |instances|
    ensures first < |instances| && first in Groups(instances)[k]
    ensures InstanceAzure(instances[first]) == TargetAzure(Targets(instances)[k])
    ensures i in Groups(instances)[k] <==> SpelledAlike(instances[first], instances[i])
  {
    hide Targets, Groups, Instance.Key, Instance.Role, Instance.Principals, Tokens, Overlaps, SameTarget, InstanceAzure,
         TargetAzure, TargetOf;
    GroupingIsStablePartition(instances);
    var t, at := Targets(instances)[k], Groups(instances);
    ConfiguredByFirst(instances, t, at[k]);
    first := at[k][0];
    assert first in at[k];
    FirstNamesTarget(instances[first], t);
    KeyIff(instances[first], instances[i]);
    assert InSome(at, i);
  }

  /** Exactly when grouping by spelling is grouping by Azure target: any two instances name
      the same Azure target if and only if they are spelled alike. */
  lemma GroupedByAzureIff(instances: seq<Instance>)
    ensures GroupedByAzure(instances) <==> SpelledByAzure(instances)
  {
    hide Targets, Groups, InstanceAzure, TargetAzure, SpelledAlike, TargetOf, InSome, TogetherIffSameKey;
    GroupingIsStablePartition(instances);
    if SpelledByAzure(instances) {
      forall k, i | 0 <= k < |Targets(instances)| && 0 <= i < |instances|
        ensures i in Groups(instances)[k] <==> InstanceAzure(instances[i]) == TargetAzure(Targets(instances)[k])
      {
        var first := GroupedIffAlike(instances, k, i);
        assert instances[first] in instances && instances[i] in instances;
      }
    }
    if GroupedByAzure(instances) {
      forall x, y | x in instances && y in instances
        ensures InstanceAzure(x) == InstanceAzure(y) <==> SpelledAlike(x, y)
      {
        var i :| 0 <= i < |instances| && instances[i] == x;
        var j :| 0 <= j < |instances| && instances[j] == y;
        GroupedTogether(instances, i, j);
      }
    }
  }

  lemma GroupedTogether(instances: seq<Instance>, i: nat, j: nat)
    requires GroupedByAzure(instances) && i < |instances| && j < |instances|
    ensures InstanceAzure(instances[i]) == InstanceAzure(instances[j]) <==> SpelledAlike(instances[i], instances[j])
  {
    hide Targets, Groups, Instance.Key, InstanceAzure, TargetAzure, Overlaps, SameTarget, TargetOf;
    GroupingIsStablePartition(instances);
    var at := Groups(instances);
    assert InSome(at, i) && InSome(at, j);
    var k :| 0 <= k < |at| && i in at[k];
    KeyIff(instances[i], instances[j]);
    assert j in at[k] <==> InstanceAzure(instances[j]) == TargetAzure(Targets(instances)[k]);
  }

  lemma TwoKeysTwoTargets(a: Instance, b: Instance)
    requires a.Key() != b.Key()
    ensures |Targets([a, b])| == 2
  {
    hide Instance.Key, TargetFor, Dedup;
    assert Keys([a, b]) == [a.Key()] + [b.Key()];
    DedupEmpty<string>();
    DedupSnoc([], a.Key());
    assert [] + [a.Key()] == [a.Key()];
    DedupSnoc([a.Key()], b.Key());
  }

  /** Two instances get one target if and only if they are spelled alike, whatever the
      client would make of them. */
  lemma OneTargetIffAlike(a: Instance, b: Instance)
    ensures |Targets([a, b])| == if SpelledAlike(a, b) then 1 else 2
  {
    hide Targets, Instance.Key, Overlaps, SameTarget;
    KeyIff(a, b);
    if a.Key() == b.Key() { OneKeyOneTarget(a, b); } else { TwoKeysTwoTargets(a, b); }
  }

  const PRINCIPAL := "11111111-1111-1111-1111-111111111111"
  const UPPER := "AAAAAAAA-AAAA-AAAA-AAAA-AAAAAAAAAAAA"

  /** Grouping can split a target: these instances have one service principal and one role,
      whose id one of them writes in upper and the other in lower case, and get two targets. */
  lemma CaseSplitsTarget()
    ensures exists a, b :: InstanceAzure(a) == InstanceAzure(b) && InstanceAzure(a).role.Some?
                           && Tokens(a.servicePrincipals) == Tokens(b.servicePrincipals) && |Targets([a, b])| == 2
  {
    hide Tokens, Instance.Key, Targets, TrimSpace, ToLower;
    assert IsValidAzureUuid(UPPER);
    var lower := ToLower(UPPER);
    SampleIds(lower);
    var a, b := Plain(PRINCIPAL, UPPER), Plain(PRINCIPAL, lower);
    PlainKey(PRINCIPAL, UPPER);
    PlainKey(PRINCIPAL, lower);
    TrimSpaceOfTrimmed(UPPER);
    TrimSpaceOfTrimmed(lower);
    assert a.Key()[|PRINCIPAL| + 1] == 'A' && b.Key()[|PRINCIPAL| + 1] == 'a';
    TwoKeysTwoTargets(a, b);
  }

  lemma SampleIds(lower: string)
    requires lower == ToLower(UPPER)
    ensures Trimmed(UPPER) && Trimmed(lower) && Trimmed(PRINCIPAL) && ',' !in PRINCIPAL
    ensures UPPER[0] == 'A' && |lower| == 36 && lower[0] == 'a'
    ensures ParsedUuid(lower) == ParsedUuid(UPPER) == Some(lower)
  {
    UpperIsUuid();
    hide IsValidAzureUuid;
    LowerUuid(UPPER);
  }

  lemma UpperIsUuid()
    ensures IsValidAzureUuid(UPPER)
  {
  }

  // ---- two targets for one Azure target ---------------------------------------------------------

  /** The reconciler of a target, by what its client makes of the identifiers. */
  function ReconcilerOf(t: Target, desired: set<string>): Reconciler
    requires TargetAzure(t).role.Some?
  {
    var ids := TargetAzure(t).principals;
    Reconciler(set p | p in ids && p.Some? :: p.value, TargetAzure(t).role.value, desired)
  }

  ghost predicate Reaches(store: Store, t: Target) {
    exists sp :: sp in store && Some(sp) in TargetAzure(t).principals
  }

  /** Two targets for one Azure target keep undoing each other: on rows with which the
      second reconciler is satisfied, the first is too if and only if both want the same
      groups, or none of their service principals exists. */
  lemma SplitTargetsFight(a: Target, b: Target, c: ArgoCluster, lookup: string -> Option<string>, store: Store)
    requires TargetAzure(a) == TargetAzure(b) && TargetAzure(a).role.Some?
    requires Satisfied(store, ReconcilerOf(b, TargetDesired.TargetDesired(c, b, lookup)))
    ensures Satisfied(store, ReconcilerOf(a, TargetDesired.TargetDesired(c, a, lookup)))
            <==> TargetDesired.TargetDesired(c, a, lookup) == TargetDesired.TargetDesired(c, b, lookup)
                 || !Reaches(store, a)
  {
    hide TargetAzure, ManagedGroups, TargetDesired.TargetDesired;
    var wanted := TargetDesired.TargetDesired(c, a, lookup);
    var (x, y) := (ReconcilerOf(a, wanted), ReconcilerOf(b, TargetDesired.TargetDesired(c, b, lookup)));
    assert x.sps == y.sps && x.role == y.role;
    assert forall sp :: sp in x.sps <==> Some(sp) in TargetAzure(a).principals;
  }

  /** And one prunes what the other is satisfied with: on every service principal of theirs,
      exactly the groups wanted by the first target alone. */
  lemma SplitTargetsPrune(a: Target, b: Target, c: ArgoCluster, lookup: string -> Option<string>, store: Store,
                          sp: string, group: string)
    requires TargetAzure(a) == TargetAzure(b) && TargetAzure(a).role.Some?
    requires sp in store && Some(sp) in TargetAzure(a).principals
    requires Satisfied(store, ReconcilerOf(a, TargetDesired.TargetDesired(c, a, lookup)))
    ensures var (x, y) := (TargetDesired.TargetDesired(c, a, lookup), TargetDesired.TargetDesired(c, b, lookup));
            Remove(sp, group) in PassWrites(View(store, TargetAzure(b).role.value), y) <==> group in x && group !in y
  {
    hide TargetAzure, ManagedGroups, TargetDesired.TargetDesired, PassWrites;
    PassWritesAre(View(store, TargetAzure(b).role.value), TargetDesired.TargetDesired(c, b, lookup));
    assert sp in ReconcilerOf(a, TargetDesired.TargetDesired(c, a, lookup)).sps;
  }

  // ---- canonical identifiers --------------------------------------------------------------------

  predicate Canonical(id: string) {
    ParsedUuid(id) == Some(id)
  }

  predicate CanonicalInstance(x: Instance) {
    Canonical(x.Role()) && forall t :: t in Tokens(x.servicePrincipals) ==> Canonical(t)
  }

  lemma CanonicalHasNoSeparator(id: string)
    requires Canonical(id)
    ensures '|' !in id
  {
    hide ToLower;
    ParsedUuidIsCanonical(id);
  }

  lemma CanonicalPrincipals(x: Instance)
    requires CanonicalInstance(x)
    ensures '|' !in x.Principals()
  {
    hide Parse, Join, Tokens, Canonical, TrimSpace;
    if '|' in x.Principals() {
      JoinCharacters(Parse(x.servicePrincipals), '|');
      var t :| t in Parse(x.servicePrincipals) && '|' in t;
      ParseIsCanonical(x.servicePrincipals);
      assert t in Elements(Parse(x.servicePrincipals));
      CanonicalHasNoSeparator(t);
    }
  }

  lemma OverlapHasSeparator(a: Instance, b: Instance)
    requires Overlaps(a, b)
    ensures '|' in b.Principals()
  {
    hide Instance.Principals, Instance.Role;
    var x :| b.Principals() == a.Principals() + "|" + x && a.Role() == x + "|" + b.Role();
    assert b.Principals()[|a.Principals()|] == '|';
  }

  lemma CanonicalDoNotOverlap(a: Instance, b: Instance)
    requires CanonicalInstance(b)
    ensures !Overlaps(a, b)
  {
    hide Instance.Principals, Instance.Role, CanonicalInstance, Overlaps;
    CanonicalPrincipals(b);
    if Overlaps(a, b) { OverlapHasSeparator(a, b); }
  }

  lemma CanonicalTokenSets(s: set<string>, t: set<string>)
    requires forall x :: x in s + t ==> Canonical(x)
    ensures (set x | x in s :: ParsedUuid(x)) == (set x | x in t :: ParsedUuid(x)) <==> s == t
  {
    hide ParsedUuid;
    var p, q := set x | x in s :: ParsedUuid(x), set x | x in t :: ParsedUuid(x);
    assert forall x :: x in s + t ==> ParsedUuid(x) == Some(x);
    assert forall x :: x in s <==> x in s && ParsedUuid(x) in p;
    if p == q {
      forall x ensures x in s <==> x in t {
        if x in s { assert ParsedUuid(x) in q; }
        if x in t { assert ParsedUuid(x) in p; }
      }
    }
  }

  /** If every identifier is written as the client would write it, instances name the same
      Azure target exactly when they are spelled alike. */
  lemma CanonicalAreAlike(instances: seq<Instance>)
    requires forall x :: x in instances ==> CanonicalInstance(x)
    ensures Separable(instances) && SpelledByAzure(instances)
  {
    hide CanonicalInstance, Overlaps, Tokens, TrimSpace;
    forall x, y | x in instances && y in instances
      ensures !Overlaps(x, y) && (InstanceAzure(x) == InstanceAzure(y) <==> SpelledAlike(x, y))
    {
      CanonicalDoNotOverlap(x, y);
      CanonicalDoNotOverlap(y, x);
      CanonicalSame(x, y);
    }
  }

  lemma CanonicalSame(x: Instance, y: Instance)
    requires CanonicalInstance(x) && CanonicalInstance(y)
    ensures InstanceAzure(x) == InstanceAzure(y) <==> SameTarget(x, y)
  {
    hide Tokens, TrimSpace, ParsedUuid;
    CanonicalTokenSets(Tokens(x.servicePrincipals), Tokens(y.servicePrincipals));
    assert ParsedUuid(x.Role()) == Some(x.Role()) && ParsedUuid(y.Role()) == Some(y.Role());
  }

  /** Grouping by Azure target: each target wants the union over exactly the instances that
      name its Azure target, and its reconciler removes no group that one of them wants. */
  lemma AzureTargetWantsTheUnion(instances: seq<Instance>, k: nat, c: ArgoCluster, lookup: string -> Option<string>)
    requires SpelledByAzure(instances) && k < |Targets(instances)|
    ensures var t := Targets(instances)[k];
            && (forall g :: g in TargetDesired.TargetDesired(c, t, lookup) <==>
                  exists x :: x in instances && InstanceAzure(x) == TargetAzure(t)
                              && g in InstanceDesired(c, x, lookup))
            && (forall actual, sp, g, x :: x in instances && InstanceAzure(x) == TargetAzure(t)
                                           && g in InstanceDesired(c, x, lookup) ==>
                  Remove(sp, g) !in PassWrites(actual, TargetDesired.TargetDesired(c, t, lookup)))
  {
    hide Targets, Groups, InstanceAzure, TargetAzure, InstanceDesired, TargetDesired.TargetDesired, PassWrites,
         SpelledByAzure;
    GroupingIsStablePartition(instances);
    GroupedByAzureIff(instances);
    var t, at := Targets(instances)[k], Groups(instances)[k];
    assert TargetOf(instances, t, at);
    TargetDesiredIs(instances, t, at, c, lookup);
    forall g
      ensures g in TargetDesired.TargetDesired(c, t, lookup)
              <==> exists x :: x in instances && InstanceAzure(x) == TargetAzure(t)
                               && g in InstanceDesired(c, x, lookup)
    {
      if j :| 0 <= j < |at| && g in InstanceDesired(c, instances[at[j]], lookup) {
        assert at[j] in at && instances[at[j]] in instances;
      }
      if x :| x in instances && InstanceAzure(x) == TargetAzure(t) && g in InstanceDesired(c, x, lookup) {
        var i :| 0 <= i < |instances| && instances[i] == x;
        var j :| 0 <= j < |at| && at[j] == i;
      }
    }
    forall actual ensures forall sp, g :: Remove(sp, g) in PassWrites(actual, TargetDesired.TargetDesired(c, t, lookup))
                                          ==> g !in TargetDesired.TargetDesired(c, t, lookup)
    {
      PassWritesAre(actual, TargetDesired.TargetDesired(c, t, lookup));
    }
  }
}
