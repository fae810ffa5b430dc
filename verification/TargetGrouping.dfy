/** Argo CD target grouping of cmd/main.go: instances that write to the same Azure
    target share one reconciler, whose desired set is the union of theirs. */
module TargetGrouping {
  import opened Wrappers
  import opened GoStrings
  import opened ArgoCD
  import opened ServicePrincipals

  /** A decoded entry of ARGOCD_INSTANCES. */
  datatype Instance = Instance(name: string, namespace: string, resourceName: string, configMapName: string,
                               appProjectsEnabled: bool, servicePrincipals: string, appRoleID: string)
  {
    function Source(): Source { ArgoCD.Source(namespace, resourceName, configMapName, appProjectsEnabled) }
    function Principals(): string { Join(Parse(servicePrincipals)) }
    function Role(): string { TrimSpace(appRoleID) }
    function Key(): string { Principals() + "|" + Role() }
  }

  datatype Target = Target(name: string, servicePrincipals: string, appRoleID: string, sources: seq<Source>)

  /** argoCDTargetConfig: the loop appends to `Sources` of the shared object. */
  class TargetConfig {
    const name: string
    const servicePrincipals: string
    const appRoleID: string
    var sources: seq<Source>

    constructor (name: string, servicePrincipals: string, appRoleID: string)
      ensures Value() == Target(name, servicePrincipals, appRoleID, [])
    {
      this.name, this.servicePrincipals, this.appRoleID, sources := name, servicePrincipals, appRoleID, [];
    }

    function Value(): Target
      reads this
    {
      Target(name, servicePrincipals, appRoleID, sources)
    }
  }

  // ---- the groups as values ------------------------------------------------------------

  function Keys(instances: seq<Instance>): (keys: seq<string>)
    ensures |keys| == |instances| && forall i :: 0 <= i < |keys| ==> keys[i] == instances[i].Key()
  {
    seq(|instances|, i requires 0 <= i < |instances| => instances[i].Key())
  }

  /** The positions of the instances with this key, in order. */
  function Positions(instances: seq<Instance>, key: string): (at: seq<nat>)
    ensures forall j :: 0 <= j < |at| ==> at[j] < |instances| && instances[at[j]].Key() == key
  {
    if instances == [] then []
    else
      var last := |instances| - 1;
      Positions(instances[..last], key) + if instances[last].Key() == key then [last] else []
  }

  function SourcesAt(instances: seq<Instance>, at: seq<nat>): (sources: seq<Source>)
    requires forall j :: 0 <= j < |at| ==> at[j] < |instances|
    ensures |sources| == |at| && forall j :: 0 <= j < |at| ==> sources[j] == instances[at[j]].Source()
  {
    seq(|at|, j requires 0 <= j < |at| => instances[at[j]].Source())
  }

  /** The target for a key: named and configured by its first instance. */
  function TargetFor(instances: seq<Instance>, key: string): Target {
    var at := Positions(instances, key);
    if at == [] then Target("", "", "", [])
    else Target(instances[at[0]].name, instances[at[0]].Principals(), instances[at[0]].Role(), SourcesAt(instances, at))
  }

  function TargetsFor(instances: seq<Instance>, keys: seq<string>): seq<Target> {
    seq(|keys|, k requires 0 <= k < |keys| => TargetFor(instances, keys[k]))
  }

  /** argoCDTargets, as a value. */
  function Targets(instances: seq<Instance>): seq<Target> {
    TargetsFor(instances, Dedup(Keys(instances)))
  }

  lemma {:induction false} PositionsAre(instances: seq<Instance>, key: string)
    ensures var at := Positions(instances, key);
            && (forall i, j :: 0 <= i < j < |at| ==> at[i] < at[j])
            && (forall i :: 0 <= i < |instances| ==> (i in at <==> instances[i].Key() == key))
  {
    hide Instance.Key;
    if instances != [] {
      var last := |instances| - 1;
      PositionsAre(instances[..last], key);
      var front := Positions(instances[..last], key);
      assert forall j :: 0 <= j < |front| ==> front[j] in front;
    }
  }

  lemma PositionsStep(instances: seq<Instance>, i: nat, key: string)
    requires i < |instances|
    ensures Positions(instances[..i + 1], key)
         == Positions(instances[..i], key) + if instances[i].Key() == key then [i] else []
    ensures Keys(instances[..i + 1]) == Keys(instances[..i]) + [instances[i].Key()]
  {
    hide Instance.Key;
    assert instances[..i + 1][..i] == instances[..i];
  }

  lemma KeyHasPosition(instances: seq<Instance>, key: string)
    ensures key in Keys(instances) <==> Positions(instances, key) != []
  {
    hide Instance.Key, Positions;
    PositionsAre(instances, key);
    if j :| 0 <= j < |instances| && Keys(instances)[j] == key { assert j in Positions(instances, key); }
    if Positions(instances, key) != [] { assert Keys(instances)[Positions(instances, key)[0]] == key; }
  }

  /** One more instance changes the target of its own key only. */
  lemma TargetStep(instances: seq<Instance>, i: nat, key: string)
    requires i < |instances|
    ensures var x := instances[i];
            var (before, after) := (TargetFor(instances[..i], key), TargetFor(instances[..i + 1], key));
            if x.Key() != key then after == before
            else if key in Keys(instances[..i]) then after == before.(sources := before.sources + [x.Source()])
            else after == Target(x.name, x.Principals(), x.Role(), [x.Source()])
  {
    hide Positions, Parse, Join, TrimSpace, Keys;
    PositionsStep(instances, i, key);
    KeyHasPosition(instances[..i], key);
    var x, at, at' := instances[i], Positions(instances[..i], key), Positions(instances[..i + 1], key);
    assert SourcesAt(instances[..i + 1], at')
        == SourcesAt(instances[..i], at) + if x.Key() == key then [x.Source()] else [];
  }

  // ---- the loop -------------------------------------------------------------------------

  /** The target of every key seen so far. */
  function Grouped(instances: seq<Instance>): map<string, Target> {
    map k | k in Elements(Keys(instances)) :: TargetFor(instances, k)
  }

  /** One more instance: a source of the target that has its key, or a new target. */
  function WithInstance(targets: map<string, Target>, x: Instance): map<string, Target> {
    targets[x.Key() :=
      if x.Key() in targets then targets[x.Key()].(sources := targets[x.Key()].sources + [x.Source()])
      else Target(x.name, x.Principals(), x.Role(), [x.Source()])]
  }

  /** The instance's target gets one source more, configured as the instance is, and keeps
      what it had; a new one is named and configured by it; no other target changes. */
  lemma WithInstanceIs(targets: map<string, Target>, x: Instance)
    ensures var key := Join(Parse(x.servicePrincipals)) + "|" + TrimSpace(x.appRoleID);
            var after := WithInstance(targets, x);
            && after.Keys == targets.Keys + {key} && (forall k :: k in targets && k != key ==> after[k] == targets[k])
            && |after[key].sources| > 0 && SourceOf(after[key].sources[|after[key].sources| - 1], x)
            && if key in targets then
                 after[key] == targets[key].(sources := after[key].sources)
                 && after[key].sources[..|after[key].sources| - 1] == targets[key].sources
               else
                 && after[key].name == x.name && after[key].servicePrincipals == Join(Parse(x.servicePrincipals))
                 && after[key].appRoleID == TrimSpace(x.appRoleID) && |after[key].sources| == 1
  {
    hide Parse, Join, TrimSpace;
  }

  lemma GroupedStep(instances: seq<Instance>, i: nat)
    requires i < |instances|
    ensures Grouped(instances[..i + 1]) == WithInstance(Grouped(instances[..i]), instances[i])
  {
    hide TargetFor, Positions, Parse, Join, TrimSpace;
    var x, earlier := instances[i], Keys(instances[..i]);
    PositionsStep(instances, i, x.Key());
    assert Elements(earlier + [x.Key()]) == Elements(earlier) + {x.Key()};
    forall k ensures k in Elements(earlier) <==> k in earlier {}
    forall k | k in Elements(earlier + [x.Key()])
      ensures k == x.Key() || TargetFor(instances[..i + 1], k) == TargetFor(instances[..i], k)
    {
      TargetStep(instances, i, k);
    }
    TargetStep(instances, i, x.Key());
  }

  ghost function Values(byKey: map<string, TargetConfig>): map<string, Target>
    reads byKey.Values
  {
    map k | k in byKey :: byKey[k].Value()
  }

  /** No object is shared between two keys. */
  ghost predicate Separate(byKey: map<string, TargetConfig>) {
    forall k, k' :: k in byKey && k' in byKey && k != k' ==> byKey[k] != byKey[k']
  }

  lemma KeysStep(instances: seq<Instance>, i: nat)
    requires i < |instances|
    ensures var (key, keys) := (instances[i].Key(), Dedup(Keys(instances[..i])));
            Dedup(Keys(instances[..i + 1])) == if key in Grouped(instances[..i]) then keys else keys + [key]
  {
    hide Dedup, TargetFor, Parse, Join, TrimSpace;
    var key, earlier := instances[i].Key(), Keys(instances[..i]);
    assert Keys(instances[..i + 1]) == earlier + [key];
    DedupSnoc(earlier, key);
    DedupKeepsElements(earlier);
    assert key in Dedup(earlier) <==> key in Elements(Dedup(earlier));
  }

  /** The body of the grouping loop. */
  method AddInstance(targetsByKey: map<string, TargetConfig>, keys: seq<string>, x: Instance)
    returns (byKey: map<string, TargetConfig>, newKeys: seq<string>)
    requires Separate(targetsByKey)
    modifies targetsByKey.Values
    ensures Separate(byKey) && fresh(byKey.Values - targetsByKey.Values)
    ensures Values(byKey) == WithInstance(old(Values(targetsByKey)), x)
    ensures newKeys == if x.Key() in targetsByKey then keys else keys + [x.Key()]
  {
    hide Parse, Join, TrimSpace;
    byKey, newKeys := targetsByKey, keys;
    var servicePrincipals, appRoleID := Join(Parse(x.servicePrincipals)), TrimSpace(x.appRoleID);
    var key := servicePrincipals + "|" + appRoleID;
    if key !in byKey {
      var target := new TargetConfig(x.name, servicePrincipals, appRoleID);
      byKey := byKey[key := target];
      newKeys := newKeys + [key];
      assert byKey.Values <= targetsByKey.Values + {target};
    }
    var target := byKey[key];
    assert target in byKey.Values;
    var source := ArgoCD.Source(x.namespace, x.resourceName, x.configMapName, x.appProjectsEnabled);
    target.sources := target.sources + [source];
    assert key !in targetsByKey ==> target.sources == [x.Source()];
  }

  /** argoCDTargets. */
  method ArgoCDTargets(instances: seq<Instance>) returns (targets: seq<Target>)
    ensures targets == Targets(instances)
  {
    hide Dedup, TargetFor, Grouped, Keys, TargetsFor, WithInstance, Instance.Key;
    var targetsByKey: map<string, TargetConfig>, keys := map[], [];
    NothingGrouped(instances);
    for i := 0 to |instances|
      invariant keys == Dedup(Keys(instances[..i])) && Values(targetsByKey) == Grouped(instances[..i])
      invariant Separate(targetsByKey) && fresh(targetsByKey.Values)
    {
      GroupedStep(instances, i);
      KeysStep(instances, i);
      assert instances[i].Key() in targetsByKey <==> instances[i].Key() in Values(targetsByKey);
      targetsByKey, keys := AddInstance(targetsByKey, keys, instances[i]);
    }
    assert instances[..|instances|] == instances;
    AllGrouped(instances);
    targets := [];
    for k := 0 to |keys|
      invariant |targets| == k && forall j :: 0 <= j < k ==> targets[j] == TargetFor(instances, keys[j])
    {
      assert keys[k] in Values(targetsByKey);
      targets := targets + [targetsByKey[keys[k]].Value()];
    }
    AllTargets(instances, targets);
  }

  lemma AllTargets(instances: seq<Instance>, targets: seq<Target>)
    requires |targets| == |Dedup(Keys(instances))|
    requires forall j :: 0 <= j < |targets| ==> targets[j] == TargetFor(instances, Dedup(Keys(instances))[j])
    ensures targets == Targets(instances)
  {
  }

  lemma NothingGrouped(instances: seq<Instance>)
    ensures Dedup(Keys(instances[..0])) == [] && Grouped(instances[..0]) == map[]
  {
  }

  lemma AllGrouped(instances: seq<Instance>)
    ensures forall k :: 0 <= k < |Dedup(Keys(instances))| ==>
              var key := Dedup(Keys(instances))[k];
              key in Grouped(instances) && Grouped(instances)[key] == TargetFor(instances, key)
  {
    hide TargetFor, Dedup;
    DedupKeepsElements(Keys(instances));
    forall k | 0 <= k < |Dedup(Keys(instances))| ensures Dedup(Keys(instances))[k] in Elements(Keys(instances)) {
      assert Dedup(Keys(instances))[k] in Elements(Dedup(Keys(instances)));
    }
  }

  // ---- a stable partition ------------------------------------------------------------------

  /** `at[k]` lists the instances of the k-th target: every instance is in exactly one of
      the lists, two instances share a list if and only if they share a key, each list is in
      input order, the lists are in the order of their first instances, and each target has
      the sources of its instances, in order, and the configuration of the first. */
  ghost predicate StablePartition(instances: seq<Instance>, targets: seq<Target>, at: seq<seq<nat>>) {
    && |at| == |targets|
    && (forall k :: 0 <= k < |at| ==> TargetOf(instances, targets[k], at[k]))
    && (forall i: nat :: i < |instances| ==> InSome(at, i))
    && TogetherIffSameKey(instances, at)
    && (forall k, k' :: 0 <= k < k' < |at| ==> StartsBefore(at[k], at[k']))
  }

  ghost predicate StartsBefore(a: seq<nat>, b: seq<nat>) {
    a != [] && b != [] && a[0] < b[0]
  }

  ghost predicate TogetherIffSameKey(instances: seq<Instance>, at: seq<seq<nat>>) {
    forall k, k', i, i' :: 0 <= k < |at| && 0 <= k' < |at| && i in at[k] && i' in at[k'] ==>
      i < |instances| && i' < |instances| && (k == k' <==> instances[i].Key() == instances[i'].Key())
  }

  ghost predicate InSome(at: seq<seq<nat>>, i: nat) {
    exists k :: 0 <= k < |at| && i in at[k]
  }

  ghost predicate TargetOf(instances: seq<Instance>, t: Target, at: seq<nat>) {
    && at != []
    && (forall i, j :: 0 <= i < j < |at| ==> at[i] < at[j]) && (forall j :: 0 <= j < |at| ==> at[j] < |instances|)
    && |t.sources| == |at| && (forall j :: 0 <= j < |at| ==> SourceOf(t.sources[j], instances[at[j]]))
    && t.name == instances[at[0]].name && t.servicePrincipals == Join(Parse(instances[at[0]].servicePrincipals))
    && t.appRoleID == TrimSpace(instances[at[0]].appRoleID)
  }

  /** The source is configured as the instance is. */
  predicate SourceOf(source: Source, x: Instance) {
    && source.namespace == x.namespace && source.resourceName == x.resourceName
    && source.configMapName == x.configMapName && source.appProjectsEnabled == x.appProjectsEnabled
  }

  lemma ConfiguredByFirst(instances: seq<Instance>, t: Target, at: seq<nat>)
    requires TargetOf(instances, t, at)
    ensures at != [] && at[0] < |instances|
    ensures t.servicePrincipals == instances[at[0]].Principals() && t.appRoleID == instances[at[0]].Role()
  {
  }

  function Groups(instances: seq<Instance>): seq<seq<nat>> {
    var keys := Dedup(Keys(instances));
    seq(|keys|, k requires 0 <= k < |keys| => Positions(instances, keys[k]))
  }

  lemma TargetForOf(instances: seq<Instance>, key: string)
    requires key in Keys(instances)
    ensures TargetOf(instances, TargetFor(instances, key), Positions(instances, key))
  {
    hide Positions, Instance.Key, Keys, Parse, Join, TrimSpace;
    PositionsAre(instances, key);
    KeyHasPosition(instances, key);
  }

  lemma KeysOfTargets(instances: seq<Instance>)
    ensures var keys := Dedup(Keys(instances));
            && NoDuplicates(keys)
            && (forall k :: 0 <= k < |keys| ==> keys[k] in Keys(instances))
            && (forall i :: 0 <= i < |instances| ==> instances[i].Key() in keys)
  {
    hide Dedup, Instance.Key;
    var all, keys := Keys(instances), Dedup(Keys(instances));
    DedupKeepsElements(all);
    forall k | 0 <= k < |keys| ensures keys[k] in all { assert keys[k] in Elements(keys); }
    forall i | 0 <= i < |instances| ensures instances[i].Key() in keys { assert all[i] in Elements(all); }
  }

  lemma FirstSeenOrder(instances: seq<Instance>, j: nat, k: nat)
    requires j < k < |Dedup(Keys(instances))|
    ensures var keys := Dedup(Keys(instances));
            StartsBefore(Positions(instances, keys[j]), Positions(instances, keys[k]))
  {
    hide Dedup, Positions, Instance.Key;
    var all, keys := Keys(instances), Dedup(Keys(instances));
    DedupIsFirstOccurrenceOrder(all, k);
    var i :| 0 <= i < |all| && all[i] == keys[k] && all[i] !in all[..i] && Dedup(all[..i]) == keys[..k];
    DedupKeepsElements(all[..i]);
    assert keys[..k][j] in Elements(all[..i]);
    var h :| 0 <= h < i && all[..i][h] == keys[j];
    PositionsAre(instances, keys[j]);
    PositionsAre(instances, keys[k]);
    FirstIsLeast(Positions(instances, keys[j]), h);
    FirstIsLeast(Positions(instances, keys[k]), i);
    var b := Positions(instances, keys[k])[0];
    TakeHas(all, b, i);
  }

  lemma TakeHas<T>(s: seq<T>, b: nat, i: nat)
    requires b < |s| && i <= |s|
    ensures b < i ==> s[b] in s[..i]
  {
  }

  lemma FirstIsLeast(s: seq<nat>, x: nat)
    requires x in s && forall i, j :: 0 <= i < j < |s| ==> s[i] < s[j]
    ensures s[0] <= x
  {
  }

  ghost predicate GroupIs(instances: seq<Instance>, key: string, at: seq<nat>) {
    forall i: nat :: i in at <==> i < |instances| && instances[i].Key() == key
  }

  lemma GroupOfKey(instances: seq<Instance>, key: string)
    ensures GroupIs(instances, key, Positions(instances, key))
  {
    hide Positions, Instance.Key;
    PositionsAre(instances, key);
  }

  lemma InSomeGroup(instances: seq<Instance>, i: nat)
    requires i < |instances|
    ensures InSome(Groups(instances), i)
  {
    hide Dedup, Positions, Instance.Key;
    var keys := Dedup(Keys(instances));
    KeysOfTargets(instances);
    assert instances[i].Key() in keys;
    var k :| 0 <= k < |keys| && keys[k] == instances[i].Key();
    GroupOfKey(instances, keys[k]);
    assert i in Groups(instances)[k];
  }

  lemma GroupsAreByKey(instances: seq<Instance>)
    ensures TogetherIffSameKey(instances, Groups(instances))
  {
    hide Dedup, Positions, Instance.Key;
    var at := Groups(instances);
    KeysOfTargets(instances);
    forall k, k', i, i' | 0 <= k < |at| && 0 <= k' < |at| && i in at[k] && i' in at[k']
      ensures i < |instances| && i' < |instances| && (k == k' <==> instances[i].Key() == instances[i'].Key())
    {
      GroupOfKey(instances, Dedup(Keys(instances))[k]);
      GroupOfKey(instances, Dedup(Keys(instances))[k']);
    }
  }

  /** argoCDTargets is a stable partition of the instances by key. */
  lemma GroupingIsStablePartition(instances: seq<Instance>)
    ensures StablePartition(instances, Targets(instances), Groups(instances))
  {
    hide Dedup, Positions, TargetFor, Instance.Key, TargetOf, InSome, TogetherIffSameKey;
    KeysOfTargets(instances);
    var at := Groups(instances);
    forall k | 0 <= k < |at| ensures TargetOf(instances, Targets(instances)[k], at[k]) {
      TargetForOf(instances, Dedup(Keys(instances))[k]);
    }
    forall i: nat | i < |instances| ensures InSome(at, i) {
      InSomeGroup(instances, i);
    }
    GroupsAreByKey(instances);
    forall j, k | 0 <= j < k < |at| ensures StartsBefore(at[j], at[k]) {
      FirstSeenOrder(instances, j, k);
    }
  }
}
