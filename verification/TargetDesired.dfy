/** What a grouping key tells apart, and what a target's reconciler wants: the union
    of the desired sets of its instances (cmd/main.go with argocd_controller.go). */
module TargetDesired {
  import opened Wrappers
  import opened GoStrings
  import opened Bindings
  import opened ConvergencePass
  import opened ArgoCD
  import opened ServicePrincipals
  import opened TargetGrouping

  // ---- the key -----------------------------------------------------------------------------

  /** The instances name the same service principals and the same role. */
  predicate SameTarget(a: Instance, b: Instance) {
    Tokens(a.servicePrincipals) == Tokens(b.servicePrincipals) && a.Role() == b.Role()
  }

  /** The separator inside `b`'s service principals is read as the one of `a`. */
  ghost predicate Overlaps(a: Instance, b: Instance) {
    exists x: string :: b.Principals() == a.Principals() + "|" + x && a.Role() == x + "|" + b.Role()
  }

  lemma SplitAtSeparator(s: string, r: string, s': string, r': string)
    requires s + "|" + r == s' + "|" + r' && |s| < |s'|
    ensures var x := s'[|s| + 1..]; s' == s + "|" + x && r == x + "|" + r'
  {
    var whole, x := s + "|" + r, s'[|s| + 1..];
    assert s' == whole[..|s'|] && s == whole[..|s|] && whole[|s|] == '|';
    assert s' == s + [whole[|s|]] + x;
    assert r == whole[|s| + 1..] && r' == whole[|s'| + 1..];
    assert r == whole[|s| + 1..|s'|] + [whole[|s'|]] + whole[|s'| + 1..];
    assert whole[|s| + 1..|s'|] == x;
  }

  lemma SamePrincipals(a: Instance, b: Instance)
    ensures a.Principals() == b.Principals() <==> Tokens(a.servicePrincipals) == Tokens(b.servicePrincipals)
  {
    hide Parse, Join, Tokens;
    ReparseIsStable(a.servicePrincipals);
    ReparseIsStable(b.servicePrincipals);
    ParseDependsOnTokens(a.servicePrincipals, b.servicePrincipals);
  }

  lemma OverlapHasSameKey(a: Instance, b: Instance)
    requires Overlaps(a, b)
    ensures a.Key() == b.Key()
  {
  }

  /** Exactly when two instances are grouped: they have the same target, or a separator
      inside one's identifiers makes them look alike. */
  lemma KeyIff(a: Instance, b: Instance)
    ensures a.Key() == b.Key() <==> SameTarget(a, b) || Overlaps(a, b) || Overlaps(b, a)
  {
    hide Instance.Principals, Instance.Role, Tokens, Overlaps;
    SamePrincipals(a, b);
    if Overlaps(a, b) { OverlapHasSameKey(a, b); }
    if Overlaps(b, a) { OverlapHasSameKey(b, a); }
    if a.Key() == b.Key() {
      if |a.Principals()| < |b.Principals()| {
        SplitAtSeparator(a.Principals(), a.Role(), b.Principals(), b.Role());
        OverlapWitness(a, b, b.Principals()[|a.Principals()| + 1..]);
      } else if |b.Principals()| < |a.Principals()| {
        SplitAtSeparator(b.Principals(), b.Role(), a.Principals(), a.Role());
        OverlapWitness(b, a, a.Principals()[|b.Principals()| + 1..]);
      } else {
        assert a.Principals() == a.Key()[..|a.Principals()|] == b.Principals();
        assert a.Role() == a.Key()[|a.Principals()| + 1..] == b.Role();
      }
    }
  }

  lemma OverlapWitness(a: Instance, b: Instance, x: string)
    requires b.Principals() == a.Principals() + "|" + x && a.Role() == x + "|" + b.Role()
    ensures Overlaps(a, b)
  {
  }

  /** No two of the instances overlap. */
  ghost predicate Separable(instances: seq<Instance>) {
    forall a, b :: a in instances && b in instances ==> !Overlaps(a, b)
  }

  lemma {:induction false} SplitCharacters(s: string)
    ensures forall p, c :: p in Split(s) && c in p ==> c in s
  {
    if s != [] {
      SplitCharacters(s[1..]);
      var rest := Split(s[1..]);
      forall p, c | p in Split(s) && c in p ensures c in s {
        if p in rest { assert c in s[1..]; }
        if s[0] != ',' && p == [s[0]] + rest[0] && c != s[0] { assert c in rest[0] && rest[0] in rest; }
      }
    }
  }

  lemma {:induction false} JoinCharacters(parts: seq<string>, c: char)
    requires c in Join(parts) && c != ','
    ensures exists p :: p in parts && c in p
  {
    if |parts| > 1 && c !in parts[0] {
      assert c in Join(parts[1..]);
      JoinCharacters(parts[1..], c);
    }
  }

  lemma PrincipalsCharacters(x: Instance, c: char)
    requires c in x.Principals() && c != ','
    ensures c in x.servicePrincipals
  {
    hide Join, Split, TrimSpace, Parse;
    JoinCharacters(Parse(x.servicePrincipals), c);
    var t :| t in Parse(x.servicePrincipals) && c in t;
    ParseIsCanonical(x.servicePrincipals);
    assert t in Elements(Parse(x.servicePrincipals));
    var p :| p in Split(x.servicePrincipals) && TrimSpace(p) != "" && TrimSpace(p) == t;
    TrimSpaceTrims(p);
    SplitCharacters(x.servicePrincipals);
  }

  /** Identifiers without the separator are separable; it is enough that either all the
      service principals or all the roles are free of it. */
  lemma SeparatorFree(instances: seq<Instance>)
    requires || (forall x :: x in instances ==> '|' !in x.servicePrincipals)
             || (forall x :: x in instances ==> '|' !in x.appRoleID)
    ensures Separable(instances)
  {
    hide Instance.Principals, TrimSpace;
    forall a, b | a in instances && b in instances && Overlaps(a, b) ensures false {
      var x :| b.Principals() == a.Principals() + "|" + x && a.Role() == x + "|" + b.Role();
      assert b.Principals()[|a.Principals()|] == '|' && a.Role()[|x|] == '|';
      PrincipalsCharacters(b, '|');
      TrimSpaceTrims(a.appRoleID);
    }
  }

  lemma OneToken(t: string)
    requires t != "" && Trimmed(t) && ',' !in t
    ensures Tokens(t) == {t} && Join(Parse(t)) == t
  {
    hide TrimSpace, Trimmed, Split, Parse;
    SplitFirst(t, "");
    TrimSpaceOfTrimmed(t);
    ParseIsCanonical(t);
    var list := Parse(t);
    assert t in Elements(list);
    if |list| > 1 {
      assert list[0] in Elements(list) && list[1] in Elements(list);
      LessIsTotal(t, t);
    }
    assert list == [t];
  }

  lemma OneKeyOneTarget(a: Instance, b: Instance)
    requires a.Key() == b.Key()
    ensures |Targets([a, b])| == 1
  {
    hide Instance.Key, TargetFor, Dedup;
    assert Keys([a, b]) == [a.Key()] + [b.Key()];
    DedupEmpty<string>();
    DedupSnoc([], a.Key());
    assert [] + [a.Key()] == [a.Key()];
    DedupSnoc([a.Key()], b.Key());
  }

  /** An instance with one service principal. */
  function Plain(principal: string, role: string): Instance {
    Instance("argocd", "argocd", "", "argocd-rbac-cm", false, principal, role)
  }

  lemma PlainKey(principal: string, role: string)
    requires principal != "" && Trimmed(principal) && Trimmed(role) && ',' !in principal
    ensures Tokens(Plain(principal, role).servicePrincipals) == {principal}
    ensures Plain(principal, role).Key() == principal + "|" + role
  {
    hide Tokens, Parse, Join, TrimSpace, Trimmed;
    OneToken(principal);
    TrimSpaceOfTrimmed(role);
  }

  /** Without that the grouping can join two targets: these instances have different
      service principals and different roles, and get one target. */
  lemma KeyCollision()
    ensures exists a, b :: !SameTarget(a, b) && |Targets([a, b])| == 1
  {
    hide Tokens, Instance.Key, Instance.Role, Targets;
    var a, b := Plain("x", "y|z"), Plain("x|y", "z");
    PlainKey("x", "y|z");
    PlainKey("x|y", "z");
    assert "x" + "|" + "y|z" == "x|y" + "|" + "z";
    OneKeyOneTarget(a, b);
    assert "x" in Tokens(a.servicePrincipals) && "x" !in Tokens(b.servicePrincipals);
  }

  // ---- the client of a target ------------------------------------------------------------------

  datatype ClientResult =
    | Client(servicePrincipals: seq<string>, appRoleID: string)
    | NoServicePrincipals
    | NoAppRole

  /** It is an error exactly if there is no service principal or the role is blank; otherwise
      the client has every token of the list, once each, and the role without its spaces. */
  lemma ClientIs(servicePrincipals: string, appRoleID: string)
    ensures var (r, role) := (NewArgoCDAzureClient(servicePrincipals, appRoleID), TrimSpace(appRoleID));
            && (r.NoServicePrincipals? <==> Tokens(servicePrincipals) == {})
            && (r.NoAppRole? <==> Tokens(servicePrincipals) != {} && AllIn(appRoleID, SPACES))
            && (r.Client? ==> Elements(r.servicePrincipals) == Tokens(servicePrincipals)
                              && Increasing(r.servicePrincipals) && r.appRoleID == role)
  {
    hide Parse, Tokens, TrimSpace, Increasing;
    ParseIsCanonical(servicePrincipals);
    NoElements(Parse(servicePrincipals));
    TrimSpaceIff(appRoleID, "");
    if AllIn(appRoleID, SPACES) { assert appRoleID == appRoleID + "" + "" && AllIn("", SPACES); }
    if TrimSpace(appRoleID) == "" { assert AllIn(appRoleID, SPACES); }
  }

  /** newArgoCDAzureClient, up to the credentials. */
  function NewArgoCDAzureClient(servicePrincipals: string, appRoleID: string): ClientResult {
    if Parse(servicePrincipals) == [] then NoServicePrincipals
    else if TrimSpace(appRoleID) == "" then NoAppRole
    else Client(Parse(servicePrincipals), TrimSpace(appRoleID))
  }

  /** The instance is configured for the Azure target of `t`. */
  predicate WritesTo(x: Instance, t: Target) {
    Tokens(x.servicePrincipals) == Tokens(t.servicePrincipals) && x.Role() == t.appRoleID
  }

  lemma TrimSpaceIdempotent(s: string)
    ensures TrimSpace(TrimSpace(s)) == TrimSpace(s)
  {
    hide TrimSpace, Trimmed;
    TrimSpaceTrims(s);
    TrimSpaceOfTrimmed(TrimSpace(s));
  }

  /** The client parses the target's strings again and arrives at what every instance
      configured for that target would give, in errors too. */
  lemma ClientIsTheInstances(x: Instance, t: Target)
    requires WritesTo(x, t)
    ensures NewArgoCDAzureClient(t.servicePrincipals, t.appRoleID)
         == NewArgoCDAzureClient(x.servicePrincipals, x.appRoleID)
  {
    hide Parse, Tokens, TrimSpace;
    ParseDependsOnTokens(x.servicePrincipals, t.servicePrincipals);
    TrimSpaceIdempotent(x.appRoleID);
  }

  // ---- the desired set of a target ---------------------------------------------------------------

  /** Each target's instances are exactly those configured for its Azure target. */
  lemma GroupedIffConfigured(instances: seq<Instance>, k: nat, i: nat)
    requires Separable(instances) && k < |Targets(instances)| && i < |instances|
    ensures i in Groups(instances)[k] <==> WritesTo(instances[i], Targets(instances)[k])
  {
    hide Targets, Groups, Instance.Key, Instance.Role, Instance.Principals, Tokens, Overlaps, TargetOf;
    GroupingIsStablePartition(instances);
    var t, at := Targets(instances)[k], Groups(instances);
    ConfiguredByFirst(instances, t, at[k]);
    var first := instances[at[k][0]];
    assert first in instances && instances[i] in instances;
    assert at[k][0] in at[k];
    SamePrincipals(first, instances[i]);
    CanonicalTokens(first);
    KeyIff(first, instances[i]);
    assert InSome(at, i);
  }

  lemma CanonicalTokens(x: Instance)
    ensures Tokens(x.Principals()) == Tokens(x.servicePrincipals)
  {
    hide Tokens, Parse, Join;
    ReparseIsStable(x.servicePrincipals);
  }

  function InstanceDesired(c: ArgoCluster, x: Instance, lookup: string -> Option<string>): set<string> {
    Resolved(SourceCandidates(c, x.Source()), lookup)
  }

  function TargetDesired(c: ArgoCluster, t: Target, lookup: string -> Option<string>): set<string> {
    Resolved(ArgoCandidates(c, t.sources), lookup)
  }

  lemma TargetDesiredIs(instances: seq<Instance>, t: Target, at: seq<nat>, c: ArgoCluster,
                        lookup: string -> Option<string>)
    requires TargetOf(instances, t, at)
    ensures forall g :: g in TargetDesired(c, t, lookup) <==>
              exists j :: 0 <= j < |at| && g in InstanceDesired(c, instances[at[j]], lookup)
  {
    hide SourceCandidates, ArgoCandidates;
    CandidatesAre(c, t.sources);
    forall g
      ensures g in TargetDesired(c, t, lookup)
              <==> exists j :: 0 <= j < |at| && g in InstanceDesired(c, instances[at[j]], lookup)
    {
      if g in TargetDesired(c, t, lookup) {
        var spelling :|
          spelling in ArgoCandidates(c, t.sources) && lookup(spelling).Some? && lookup(spelling).value == g;
        var s :| s in t.sources && spelling in SourceCandidates(c, s);
        var j :| 0 <= j < |t.sources| && t.sources[j] == s;
        assert s == instances[at[j]].Source();
        assert g in InstanceDesired(c, instances[at[j]], lookup);
      }
      if j :| 0 <= j < |at| && g in InstanceDesired(c, instances[at[j]], lookup) {
        var spelling :|
          spelling in SourceCandidates(c, t.sources[j]) && lookup(spelling).Some? && lookup(spelling).value == g;
        assert t.sources[j] in t.sources && t.sources[j] == instances[at[j]].Source();
      }
    }
  }

  /** What an instance wants: unless its resource is missing or being deleted, the groups that
      the policies of its ConfigMap grant roles to, and those of the projects in its namespace
      if it has them enabled. */
  lemma InstanceWants(c: ArgoCluster, x: Instance, lookup: string -> Option<string>, g: string)
    ensures var owner, cm := NamespacedName(x.namespace, x.resourceName), NamespacedName(x.namespace, x.configMapName);
            g in InstanceDesired(c, x, lookup)
            <==> && (x.resourceName == "" || (c.argoCDInstalled && owner in c.resources
                                              && c.resources[owner].deletionTimestamp in {None, Some(0)}))
                 && exists n :: lookup(n) == Some(g)
                                && ((cm in c.configMaps && n in ConfigMapCandidates(c.configMaps[cm]))
                                    || (x.appProjectsEnabled && n in ProjectCandidates(c, x.namespace)))
  {
    hide ConfigMapCandidates, ProjectCandidates, SourceCandidates;
    forall n { SourceCandidatesAre(c, x.Source(), n); }
    if n :| n in SourceCandidates(c, x.Source()) && lookup(n) == Some(g) { assert lookup(n).value == g; }
  }

  /** Group-by then union: what a target's reconciler wants is the union of what exactly
      the instances configured for that target want. */
  lemma TargetWantsTheUnion(instances: seq<Instance>, k: nat, c: ArgoCluster, lookup: string -> Option<string>)
    requires Separable(instances) && k < |Targets(instances)|
    ensures var t := Targets(instances)[k];
            forall g :: g in TargetDesired(c, t, lookup) <==>
                exists x :: x in instances && WritesTo(x, t) && g in InstanceDesired(c, x, lookup)
  {
    hide Targets, Groups, WritesTo, InstanceDesired, TargetDesired, Separable;
    GroupingIsStablePartition(instances);
    var t, at := Targets(instances)[k], Groups(instances)[k];
    assert TargetOf(instances, t, at);
    TargetDesiredIs(instances, t, at, c, lookup);
    forall g
      ensures g in TargetDesired(c, t, lookup)
              <==> exists x :: x in instances && WritesTo(x, t) && g in InstanceDesired(c, x, lookup)
    {
      if j :| 0 <= j < |at| && g in InstanceDesired(c, instances[at[j]], lookup) {
        assert at[j] in at;
        GroupedIffConfigured(instances, k, at[j]);
        assert instances[at[j]] in instances;
      }
      if x :| x in instances && WritesTo(x, t) && g in InstanceDesired(c, x, lookup) {
        var i :| 0 <= i < |instances| && instances[i] == x;
        GroupedIffConfigured(instances, k, i);
        var j :| 0 <= j < |at| && at[j] == i;
      }
    }
  }

  /** Instances sharing a target do not prune each other: no pass of the target's
      reconciler, over any listing, removes a group one of its instances wants. */
  lemma SharersDoNotPrune(instances: seq<Instance>, k: nat, x: Instance, c: ArgoCluster,
                          lookup: string -> Option<string>,
                          actual: Table, sp: string, group: string)
    requires Separable(instances) && k < |Targets(instances)|
    requires x in instances && WritesTo(x, Targets(instances)[k]) && group in InstanceDesired(c, x, lookup)
    ensures Remove(sp, group) !in PassWrites(actual, TargetDesired(c, Targets(instances)[k], lookup))
  {
    hide Targets, WritesTo, InstanceDesired, TargetDesired, Separable, PassWrites;
    TargetWantsTheUnion(instances, k, c, lookup);
    PassWritesAre(actual, TargetDesired(c, Targets(instances)[k], lookup));
  }
}
