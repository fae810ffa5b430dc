/** RBAC bindings, the groups they name, and the predicate that decides which
    binding events reach the work queue (binding_events.go, and the extraction
    half of reconcile_state.go). */
module Bindings {
  import opened Wrappers
  import opened GoStrings

  datatype Subject = Subject(kind: string, name: string)

  /** `deletionTimestamp` is a metav1.Time that may be nil, which is None, and the zero
      instant is 0. */
  datatype Binding = Binding(subjects: seq<Subject>, deletionTimestamp: Option<int>)

  datatype NamespacedName = NamespacedName(namespace: string, name: string)

  datatype Kind = RoleBindings | ClusterRoleBindings

  datatype Cluster = Cluster(roleBindings: map<NamespacedName, Binding>,
                             clusterRoleBindings: map<NamespacedName, Binding>)
  {
    function Get(kind: Kind): map<NamespacedName, Binding> {
      match kind
      case RoleBindings => roleBindings
      case ClusterRoleBindings => clusterRoleBindings
    }

    function Set(kind: Kind, m: map<NamespacedName, Binding>): Cluster {
      match kind
      case RoleBindings => this.(roleBindings := m)
      case ClusterRoleBindings => this.(clusterRoleBindings := m)
    }
  }

  /** metav1.Time.IsZero: nil or the zero instant. */
  predicate IsZero(timestamp: Option<int>) {
    timestamp.None? || timestamp.value == 0
  }

  // ---- extraction ------------------------------------------------------------

  predicate IsCandidate(s: Subject) {
    s.kind == "Group" && !HasPrefix(s.name, "system:") && !HasPrefix(s.name, "kubeadm:")
    && IsValidAzureUuid(s.name)
  }

  /** The spellings a list of subjects contributes, in order, with repeats. */
  function CandidateNames(subjects: seq<Subject>): seq<string> {
    if subjects == [] then []
    else
      var last := subjects[|subjects| - 1];
      CandidateNames(subjects[..|subjects| - 1]) + if IsCandidate(last) then [last.name] else []
  }

  lemma {:induction false} CandidateNamesElements(subjects: seq<Subject>)
    ensures Elements(CandidateNames(subjects)) == set s | s in subjects && IsCandidate(s) :: s.name
  {
    if subjects != [] {
      var front, last := subjects[..|subjects| - 1], subjects[|subjects| - 1];
      CandidateNamesElements(front);
      assert subjects == front + [last];
      assert Elements(CandidateNames(subjects))
          == Elements(CandidateNames(front)) + if IsCandidate(last) then {last.name} else {};
    }
  }

  lemma CandidateNamesStep(subjects: seq<Subject>, i: nat)
    requires i < |subjects|
    ensures Dedup(CandidateNames(subjects[..i + 1]))
         == var groups := Dedup(CandidateNames(subjects[..i]));
            if IsCandidate(subjects[i]) && subjects[i].name !in groups then groups + [subjects[i].name] else groups
  {
    var names := CandidateNames(subjects[..i]);
    assert subjects[..i + 1][..i] == subjects[..i];
    if IsCandidate(subjects[i]) {
      assert CandidateNames(subjects[..i + 1]) == names + [subjects[i].name];
      DedupSnoc(names, subjects[i].name);
    } else {
      assert CandidateNames(subjects[..i + 1]) == names;
    }
  }

  /** The candidates are the UUIDs among the names of the Group subjects. */
  lemma CandidateNamesAre(subjects: seq<Subject>)
    ensures forall s :: IsCandidate(s) <==> s.kind == "Group" && IsValidAzureUuid(s.name)
    ensures forall n :: n in CandidateNames(subjects) <==> Subject("Group", n) in subjects && IsValidAzureUuid(n)
  {
    hide IsValidAzureUuid, HasPrefix;
    CandidateNamesElements(subjects);
    forall s: Subject | IsValidAzureUuid(s.name)
      ensures !HasPrefix(s.name, "system:") && !HasPrefix(s.name, "kubeadm:")
    {
      ReservedPrefixesAreNotUuids(s.name);
    }
    forall n
      ensures n in CandidateNames(subjects) <==> IsCandidate(Subject("Group", n)) && Subject("Group", n) in subjects
    {
      assert n in CandidateNames(subjects) <==> n in Elements(CandidateNames(subjects));
    }
  }

  lemma GroupsAre(subjects: seq<Subject>)
    ensures forall n :: n in Dedup(CandidateNames(subjects)) <==> Subject("Group", n) in subjects && IsValidAzureUuid(n)
  {
    hide IsValidAzureUuid, CandidateNames, Dedup;
    CandidateNamesAre(subjects);
    DedupKeepsElements(CandidateNames(subjects));
    var names := CandidateNames(subjects);
    assert forall n :: (n in Dedup(names) <==> n in Elements(Dedup(names))) && (n in names <==> n in Elements(names));
  }

  /** The i-th subject is the first to name the j-th group: before it, exactly the groups
      before the j-th are named. */
  ghost predicate NamedFirst(subjects: seq<Subject>, i: nat, groups: seq<string>, j: nat) {
    && i < |subjects| && j < |groups| && subjects[i] == Subject("Group", groups[j])
    && forall n :: n in groups[..j] <==> Subject("Group", n) in subjects[..i] && IsValidAzureUuid(n)
  }

  /** The groups come in the order in which they are first named. */
  lemma {:induction false} GroupsInOrder(subjects: seq<Subject>, j: nat) returns (i: nat)
    requires j < |Dedup(CandidateNames(subjects))|
    ensures NamedFirst(subjects, i, Dedup(CandidateNames(subjects)), j)
  {
    hide IsValidAzureUuid, HasPrefix, IsCandidate, CandidateNames, Dedup;
    var groups := Dedup(CandidateNames(subjects));
    if subjects == [] {
      NoGroups();
    } else {
      var last := |subjects| - 1;
      var front := subjects[..last];
      assert subjects[..|subjects|] == subjects;
      CandidateNamesStep(subjects, last);
      var earlier := Dedup(CandidateNames(front));
      if j < |earlier| {
        i := GroupsInOrder(front, j);
        assert subjects[..i] == front[..i] && groups[..j] == earlier[..j];
      } else {
        i := last;
        GroupsAre(front);
        CandidateNamesAre(front);
        assert groups[..j] == earlier;
      }
    }
  }

  lemma NoGroups()
    ensures Dedup(CandidateNames([])) == []
  {
  }

  /** extractGroupsFromSubjects. */
  method ExtractGroupsFromSubjects(subjects: seq<Subject>) returns (groups: seq<string>)
    ensures groups == Dedup(CandidateNames(subjects))
    ensures NoDuplicates(groups)
    ensures Elements(groups) == set s | s in subjects && IsCandidate(s) :: s.name
    ensures forall n :: n in groups <==> Subject("Group", n) in subjects && IsValidAzureUuid(n)
  {
    hide IsValidAzureUuid, HasPrefix, Dedup;
    CandidateNamesElements(subjects);
    DedupKeepsElements(CandidateNames(subjects));
    GroupsAre(subjects);
    assert subjects[..0] == [];
    DedupEmpty<string>();
    groups := [];
    var seen: set<string> := {};
    for i := 0 to |subjects|
      invariant groups == Dedup(CandidateNames(subjects[..i]))
      invariant seen == Elements(groups)
    {
      CandidateNamesStep(subjects, i);
      var subject := subjects[i];
      if subject.kind != "Group" {
        continue;
      }
      var groupID := subject.name;
      if HasPrefix(groupID, "system:") {
        continue;
      }
      if HasPrefix(groupID, "kubeadm:") {
        continue;
      }
      if !IsValidAzureUuid(groupID) {
        continue;
      }
      if groupID !in seen {
        groups := groups + [groupID];
        seen := seen + {groupID};
      }
    }
    assert subjects[..|subjects|] == subjects;
  }

  /** The spellings one binding asks for; a binding being deleted asks for none. */
  function Spellings(b: Binding): set<string> {
    if IsZero(b.deletionTimestamp) then set s | s in b.subjects && IsCandidate(s) :: s.name else {}
  }

  /** The spellings all bindings of one kind ask for. */
  function SpellingsOf(bindings: map<NamespacedName, Binding>): set<string> {
    set k, g | k in bindings && g in Spellings(bindings[k]) :: g
  }

  function Lowered(spellings: set<string>): set<string> {
    set s | s in spellings :: ToLower(s)
  }

  // ---- the event filter ------------------------------------------------------

  /** managedGroupSubjects as a value: lower-cased, in order, with repeats. */
  function ManagedNames(subjects: seq<Subject>): seq<string> {
    if subjects == [] then []
    else
      var last := subjects[|subjects| - 1];
      ManagedNames(subjects[..|subjects| - 1])
      + if last.kind == "Group" && IsValidAzureUuid(last.name) then [ToLower(last.name)] else []
  }

  /** The filter looks at exactly the lower-cased candidates, although it has no
      check for the reserved prefixes. */
  lemma {:induction false} ManagedNamesAreLoweredCandidates(subjects: seq<Subject>)
    ensures Elements(ManagedNames(subjects)) == Lowered(Elements(CandidateNames(subjects)))
    ensures |ManagedNames(subjects)| > 0 <==> Elements(CandidateNames(subjects)) != {}
  {
    hide IsValidAzureUuid, ToLower, HasPrefix;
    if subjects != [] {
      var front, last := subjects[..|subjects| - 1], subjects[|subjects| - 1];
      ManagedNamesAreLoweredCandidates(front);
      if IsValidAzureUuid(last.name) { ReservedPrefixesAreNotUuids(last.name); }
      var names := CandidateNames(front);
      if IsCandidate(last) {
        assert CandidateNames(subjects) == names + [last.name];
        assert Elements(names + [last.name]) == Elements(names) + {last.name};
        assert Elements(ManagedNames(front) + [ToLower(last.name)])
            == Elements(ManagedNames(front)) + {ToLower(last.name)};
        assert Lowered(Elements(names) + {last.name}) == Lowered(Elements(names)) + {ToLower(last.name)};
      } else {
        assert CandidateNames(subjects) == names;
      }
    }
  }

  /** The binding names this group, in some case. */
  ghost predicate Names(b: Binding, lowered: string) {
    exists n :: Subject("Group", n) in b.subjects && IsValidAzureUuid(n) && ToLower(n) == lowered
  }

  lemma NamesAre(b: Binding)
    ensures forall n :: n in ManagedNames(b.subjects) <==> Names(b, n)
  {
    hide IsValidAzureUuid, ToLower, ManagedNames, CandidateNames;
    ManagedNamesAreLoweredCandidates(b.subjects);
    CandidateNamesAre(b.subjects);
    forall n ensures n in ManagedNames(b.subjects) <==> Names(b, n) {
      assert n in ManagedNames(b.subjects) <==> n in Elements(ManagedNames(b.subjects));
    }
  }

  method ManagedGroupSubjects(b: Binding) returns (groups: seq<string>)
    ensures groups == ManagedNames(b.subjects)
    ensures Elements(groups) == Lowered(Elements(CandidateNames(b.subjects)))
    ensures forall n :: n in groups <==> Names(b, n)
  {
    NamesAre(b);
    groups := [];
    for i := 0 to |b.subjects|
      invariant groups == ManagedNames(b.subjects[..i])
    {
      var s := b.subjects[i];
      assert b.subjects[..i + 1][..i] == b.subjects[..i];
      if s.kind == "Group" && IsValidAzureUuid(s.name) {
        groups := groups + [ToLower(s.name)];
      }
    }
    assert b.subjects[..|b.subjects|] == b.subjects;
    ManagedNamesAreLoweredCandidates(b.subjects);
  }

  /** sameStringSet: its length comparison at the end does decide set equality,
      because everything in `other` was found in `set`. */
  method SameStringSet(a: seq<string>, b: seq<string>) returns (same: bool)
    ensures same <==> Elements(a) == Elements(b)
  {
    var seen: set<string> := {};
    for i := 0 to |a|
      invariant seen == Elements(a[..i])
    {
      assert a[..i + 1] == a[..i] + [a[i]];
      seen := seen + {a[i]};
    }
    assert a[..|a|] == a;
    var other: set<string> := {};
    for i := 0 to |b|
      invariant other == Elements(b[..i]) && other <= seen
    {
      if b[i] !in seen {
        assert b[i] in Elements(b);
        return false;
      }
      assert b[..i + 1] == b[..i] + [b[i]];
      other := other + {b[i]};
    }
    assert b[..|b|] == b;
    SubsetOfSameSize(other, seen);
    same := |seen| == |other|;
  }

  lemma SubsetOfSameSize<T>(small: set<T>, large: set<T>)
    requires small <= large
    ensures |small| == |large| <==> small == large
  {
    assert large == small + (large - small);
    assert |large| == |small| + |large - small|;
    if |large - small| == 0 { assert large - small == {}; }
  }

  datatype BindingEvent =
    | Created(kind: Kind, key: NamespacedName, obj: Binding)
    | Updated(kind: Kind, key: NamespacedName, oldObj: Binding, newObj: Binding)
    | Deleted(kind: Kind, key: NamespacedName, obj: Binding)

  /** `e` is a change this cluster can undergo. */
  predicate Applies(c: Cluster, e: BindingEvent) {
    match e
    case Created(kind, key, _) => key !in c.Get(kind)
    case Updated(kind, key, oldObj, _) => key in c.Get(kind) && c.Get(kind)[key] == oldObj
    case Deleted(kind, key, obj) => key in c.Get(kind) && c.Get(kind)[key] == obj
  }

  function After(c: Cluster, e: BindingEvent): Cluster
    requires Applies(c, e)
  {
    match e
    case Created(kind, key, obj) => c.Set(kind, c.Get(kind)[key := obj])
    case Updated(kind, key, _, newObj) => c.Set(kind, c.Get(kind)[key := newObj])
    case Deleted(kind, key, _) => c.Set(kind, c.Get(kind) - {key})
  }

  /** An event changes one binding of its kind, and nothing else. */
  lemma OnlyOneBindingChanges(c: Cluster, e: BindingEvent, kind: Kind, key: NamespacedName)
    requires Applies(c, e)
    ensures var (m, m') := (c.Get(kind), After(c, e).Get(kind));
            if kind != e.kind || key != e.key then (key in m' <==> key in m) && (key in m ==> m'[key] == m[key])
            else match e
                 case Created(_, _, obj) => key !in m && key in m' && m'[key] == obj
                 case Updated(_, _, oldObj, newObj) => key in m && m[key] == oldObj && key in m' && m'[key] == newObj
                 case Deleted(_, _, obj) => key in m && m[key] == obj && key !in m'
    ensures c.Get(RoleBindings) == c.roleBindings && c.Get(ClusterRoleBindings) == c.clusterRoleBindings
  {
  }

  /** Whatever becomes of one binding is an event. */
  lemma AnyChangeIsAnEvent(c: Cluster, kind: Kind, key: NamespacedName, b: Option<Binding>) returns (e: BindingEvent)
    requires b.None? ==> key in c.Get(kind)
    ensures Applies(c, e) && e.kind == kind && e.key == key
    ensures After(c, e).Get(kind) == if b.Some? then c.Get(kind)[key := b.value] else c.Get(kind) - {key}
  {
    var m := c.Get(kind);
    e := if b.None? then Deleted(kind, key, m[key])
         else if key in m then Updated(kind, key, m[key], b.value) else Created(kind, key, b.value);
  }

  predicate HasManagedNames(b: Binding) {
    |ManagedNames(b.subjects)| > 0
  }

  /** bindingGroupPredicate as a value. */
  predicate Accepts(e: BindingEvent) {
    match e
    case Created(_, _, obj) => HasManagedNames(obj)
    case Deleted(_, _, obj) => HasManagedNames(obj)
    case Updated(_, _, oldObj, newObj) =>
      if oldObj.deletionTimestamp != newObj.deletionTimestamp then
        HasManagedNames(oldObj) || HasManagedNames(newObj)
      else
        Elements(ManagedNames(oldObj.subjects)) != Elements(ManagedNames(newObj.subjects))
  }

  /** What the filter lets through: a binding that comes or goes and names a group, a change
      of the deletion timestamp of one that did or does, and any other update after which the
      binding does not name the same groups up to case. */
  lemma AcceptsIff(e: BindingEvent)
    ensures Accepts(e) <==>
            match e
            case Created(_, _, obj) => exists n :: Names(obj, n)
            case Deleted(_, _, obj) => exists n :: Names(obj, n)
            case Updated(_, _, oldObj, newObj) =>
              if oldObj.deletionTimestamp == newObj.deletionTimestamp
              then exists n :: Names(oldObj, n) != Names(newObj, n)
              else exists n :: Names(oldObj, n) || Names(newObj, n)
  {
    hide ManagedNames, Names;
    match e {
      case Created(_, _, obj) => SomeName(obj);
      case Deleted(_, _, obj) => SomeName(obj);
      case Updated(_, _, oldObj, newObj) =>
        SomeName(oldObj);
        SomeName(newObj);
        NamesAre(oldObj);
        NamesAre(newObj);
        var (a, b) := (ManagedNames(oldObj.subjects), ManagedNames(newObj.subjects));
        assert forall n :: (n in Elements(a) <==> n in a) && (n in Elements(b) <==> n in b);
    }
  }

  lemma SomeName(b: Binding)
    ensures HasManagedNames(b) <==> exists n :: Names(b, n)
  {
    hide ManagedNames, Names;
    NamesAre(b);
    if HasManagedNames(b) { assert ManagedNames(b.subjects)[0] in ManagedNames(b.subjects); }
  }

  method BindingGroupPredicate(e: BindingEvent) returns (accept: bool)
    ensures accept <==> Accepts(e)
  {
    match e {
      case Created(_, _, obj) =>
        var groups := ManagedGroupSubjects(obj);
        accept := |groups| > 0;
      case Deleted(_, _, obj) =>
        var groups := ManagedGroupSubjects(obj);
        accept := |groups| > 0;
      case Updated(_, _, oldObj, newObj) =>
        var oldGroups := ManagedGroupSubjects(oldObj);
        var newGroups := ManagedGroupSubjects(newObj);
        if oldObj.deletionTimestamp != newObj.deletionTimestamp {
          accept := |oldGroups| > 0 || |newGroups| > 0;
        } else {
          var same := SameStringSet(oldGroups, newGroups);
          accept := !same;
        }
    }
  }

  // ---- the bindings that count -----------------------------------------------

  /** A spelling is asked for if some binding names it that has no deletion timestamp or a
      zero one. */
  lemma SpellingsAre(bindings: map<NamespacedName, Binding>, n: string)
    ensures n in SpellingsOf(bindings)
            <==> exists k :: k in bindings && bindings[k].deletionTimestamp in {None, Some(0)}
                             && Subject("Group", n) in bindings[k].subjects && IsValidAzureUuid(n)
  {
    hide IsValidAzureUuid, IsCandidate;
    CandidateNamesAre([]);
    forall k | k in bindings
      ensures n in Spellings(bindings[k])
              <==> bindings[k].deletionTimestamp in {None, Some(0)} && IsCandidate(Subject("Group", n))
                   && Subject("Group", n) in bindings[k].subjects
    {
      assert forall s :: IsCandidate(s) && s.name == n ==> s == Subject("Group", n);
    }
  }

  /** A binding that is being deleted might as well be gone. */
  lemma DeletingIsIgnored(bindings: map<NamespacedName, Binding>, key: NamespacedName, t: int)
    requires key in bindings && bindings[key].deletionTimestamp == Some(t) && t != 0
    ensures SpellingsOf(bindings) == SpellingsOf(bindings - {key})
  {
    hide SpellingsOf, IsValidAzureUuid;
    forall n ensures n in SpellingsOf(bindings) <==> n in SpellingsOf(bindings - {key}) {
      SpellingsAre(bindings, n);
      SpellingsAre(bindings - {key}, n);
      if n in SpellingsOf(bindings) {
        var k :| k in bindings && bindings[k].deletionTimestamp in {None, Some(0)}
                 && Subject("Group", n) in bindings[k].subjects && IsValidAzureUuid(n);
        assert k in bindings - {key};
      }
    }
  }

  // ---- soundness of the filter -----------------------------------------------

  /** What a binding contributes, up to case, is what the filter compares. */
  lemma SpellingsMatchFilter(b: Binding)
    ensures Lowered(Spellings(b))
         == if IsZero(b.deletionTimestamp) then Elements(ManagedNames(b.subjects)) else {}
    ensures !HasManagedNames(b) ==> Spellings(b) == {}
  {
    CandidateNamesElements(b.subjects);
    ManagedNamesAreLoweredCandidates(b.subjects);
  }

  lemma LoweredWithout(m: map<NamespacedName, Binding>, key: NamespacedName)
    requires key in m
    ensures Lowered(SpellingsOf(m)) == Lowered(SpellingsOf(m - {key})) + Lowered(Spellings(m[key]))
    ensures SpellingsOf(m) == SpellingsOf(m - {key}) + Spellings(m[key])
  {
    forall g | g in SpellingsOf(m) ensures g in SpellingsOf(m - {key}) + Spellings(m[key]) {
      var k :| k in m && g in Spellings(m[k]);
      if k != key { assert k in m - {key} && g in Spellings((m - {key})[k]); }
    }
    assert SpellingsOf(m) == SpellingsOf(m - {key}) + Spellings(m[key]);
  }

  /** A dropped event leaves the candidate groups of both kinds the same up to case. */
  lemma DroppedEventKeepsGroups(c: Cluster, e: BindingEvent)
    requires Applies(c, e) && !Accepts(e)
    ensures forall kind :: Lowered(SpellingsOf(After(c, e).Get(kind))) == Lowered(SpellingsOf(c.Get(kind)))
  {
    hide SpellingsOf, Spellings, ManagedNames, ToLower;
    var m, m' := c.Get(e.kind), After(c, e).Get(e.kind);
    match e {
      case Created(_, key, obj) =>
        assert m' - {key} == m;
        LoweredWithout(m', key);
        SpellingsMatchFilter(obj);
      case Deleted(_, key, obj) =>
        LoweredWithout(m, key);
        SpellingsMatchFilter(obj);
      case Updated(_, key, oldObj, newObj) =>
        assert m' - {key} == m - {key};
        LoweredWithout(m, key);
        LoweredWithout(m', key);
        SpellingsMatchFilter(oldObj);
        SpellingsMatchFilter(newObj);
    }
  }

  // ---- the desired set, for any way of resolving a spelling -------------------

  /** The group ids a set of spellings resolves to; None is a lookup that failed
      or found a group without an id, and contributes nothing. */
  function Resolved(spellings: set<string>, lookup: string -> Option<string>): set<string> {
    set s | s in spellings && lookup(s).Some? :: lookup(s).value
  }

  function DesiredGroups(c: Cluster, lookup: string -> Option<string>): set<string> {
    Resolved(SpellingsOf(c.roleBindings) + SpellingsOf(c.clusterRoleBindings), lookup)
  }

  /** A group is desired exactly if a spelling of it that some live binding names resolves to it. */
  lemma DesiredAre(c: Cluster, lookup: string -> Option<string>, g: string)
    ensures g in DesiredGroups(c, lookup)
            <==> exists kind, n :: n in SpellingsOf(c.Get(kind)) && lookup(n) == Some(g)
  {
    hide SpellingsOf;
    if n :| n in SpellingsOf(c.roleBindings) && lookup(n) == Some(g) {
      assert n in SpellingsOf(c.Get(RoleBindings));
    } else if n :| n in SpellingsOf(c.clusterRoleBindings) && lookup(n) == Some(g) {
      assert n in SpellingsOf(c.Get(ClusterRoleBindings));
    }
    if kind, n :| n in SpellingsOf(c.Get(kind)) && lookup(n) == Some(g) {
      assert n in SpellingsOf(c.roleBindings) + SpellingsOf(c.clusterRoleBindings) && lookup(n).value == g;
    }
  }

  /** What a cluster asks for does not change when a binding that is being deleted goes. */
  lemma DeletingBindingIsIgnored(c: Cluster, kind: Kind, key: NamespacedName, t: int, lookup: string -> Option<string>)
    requires key in c.Get(kind) && c.Get(kind)[key].deletionTimestamp == Some(t) && t != 0
    ensures var c' := c.Set(kind, c.Get(kind) - {key});
            && (forall k :: SpellingsOf(c'.Get(k)) == SpellingsOf(c.Get(k)))
            && DesiredGroups(c', lookup) == DesiredGroups(c, lookup)
  {
    hide SpellingsOf;
    DeletingIsIgnored(c.Get(kind), key, t);
  }

  /** Spellings that differ only in case resolve alike. */
  ghost predicate IgnoresCase(lookup: string -> Option<string>) {
    forall s, t :: IsValidAzureUuid(s) && IsValidAzureUuid(t) && ToLower(s) == ToLower(t) ==> lookup(s) == lookup(t)
  }

  ghost predicate FilterIsSound(lookup: string -> Option<string>) {
    forall c, e :: Applies(c, e) && !Accepts(e) ==> DesiredGroups(After(c, e), lookup) == DesiredGroups(c, lookup)
  }

  lemma SameLoweredSameResolved(a: set<string>, b: set<string>, lookup: string -> Option<string>)
    requires IgnoresCase(lookup) && Lowered(a) == Lowered(b)
    requires forall g :: g in a + b ==> IsValidAzureUuid(g)
    ensures Resolved(a, lookup) <= Resolved(b, lookup)
  {
    forall s | s in a && lookup(s).Some? ensures lookup(s).value in Resolved(b, lookup) {
      assert ToLower(s) in Lowered(b);
      var t :| t in b && ToLower(t) == ToLower(s);
      assert lookup(t) == lookup(s);
    }
  }

  lemma SpellingsAreUuids(m: map<NamespacedName, Binding>)
    ensures forall g :: g in SpellingsOf(m) ==> IsValidAzureUuid(g)
  {
  }

  lemma DroppedEventKeepsDesired(lookup: string -> Option<string>, c: Cluster, e: BindingEvent)
    requires IgnoresCase(lookup) && Applies(c, e) && !Accepts(e)
    ensures DesiredGroups(After(c, e), lookup) == DesiredGroups(c, lookup)
  {
    hide SpellingsOf, After, Applies, Accepts, IsValidAzureUuid, ToLower, IgnoresCase, Resolved;
    var c' := After(c, e);
    DroppedEventKeepsGroups(c, e);
    SpellingsAreUuids(c.roleBindings);
    SpellingsAreUuids(c.clusterRoleBindings);
    SpellingsAreUuids(c'.roleBindings);
    SpellingsAreUuids(c'.clusterRoleBindings);
    assert Lowered(SpellingsOf(c'.Get(RoleBindings))) == Lowered(SpellingsOf(c.Get(RoleBindings)));
    assert Lowered(SpellingsOf(c'.Get(ClusterRoleBindings))) == Lowered(SpellingsOf(c.Get(ClusterRoleBindings)));
    var a := SpellingsOf(c.roleBindings) + SpellingsOf(c.clusterRoleBindings);
    var b := SpellingsOf(c'.roleBindings) + SpellingsOf(c'.clusterRoleBindings);
    assert Lowered(a) == Lowered(SpellingsOf(c.roleBindings)) + Lowered(SpellingsOf(c.clusterRoleBindings));
    assert Lowered(b) == Lowered(SpellingsOf(c'.roleBindings)) + Lowered(SpellingsOf(c'.clusterRoleBindings));
    SameLoweredSameResolved(a, b, lookup);
    SameLoweredSameResolved(b, a, lookup);
  }

  /** A binding that renames its one group from `s` to `t`. */
  function Renaming(s: string, t: string): (Cluster, BindingEvent) {
    var key := NamespacedName("ns", "name");
    (Cluster(map[key := OneGroup(s)], map[]), Updated(RoleBindings, key, OneGroup(s), OneGroup(t)))
  }

  /** A binding of one group. */
  function OneGroup(group: string): Binding {
    Binding([Subject("Group", group)], None)
  }

  lemma OneGroupSpellings(key: NamespacedName, group: string)
    requires IsValidAzureUuid(group)
    ensures SpellingsOf(map[key := OneGroup(group)]) == {group}
    ensures ManagedNames(OneGroup(group).subjects) == [ToLower(group)]
  {
    ReservedPrefixesAreNotUuids(group);
    assert OneGroup(group).subjects[..0] == [];
    assert Subject("Group", group) in OneGroup(group).subjects && IsCandidate(Subject("Group", group));
    assert Spellings(OneGroup(group)) == {group};
    assert group in Spellings(map[key := OneGroup(group)][key]);
  }

  lemma RenamingDesired(s: string, t: string, lookup: string -> Option<string>)
    requires IsValidAzureUuid(s) && IsValidAzureUuid(t) && ToLower(s) == ToLower(t)
    ensures var (c, e) := Renaming(s, t);
            && Applies(c, e) && !Accepts(e)
            && DesiredGroups(c, lookup) == Resolved({s}, lookup)
            && DesiredGroups(After(c, e), lookup) == Resolved({t}, lookup)
  {
    var (c, e) := Renaming(s, t);
    var key := NamespacedName("ns", "name");
    OneGroupSpellings(key, s);
    OneGroupSpellings(key, t);
    assert After(c, e).roleBindings == map[key := OneGroup(t)];
    assert SpellingsOf(map[]) == {};
  }

  /** The filter may drop an event exactly when group lookup ignores case: it
      compares lower-cased names while the desired set is built from the names as
      spelled. */
  lemma FilterSoundness(lookup: string -> Option<string>)
    ensures FilterIsSound(lookup) <==> IgnoresCase(lookup)
  {
    if IgnoresCase(lookup) {
      forall c, e | Applies(c, e) && !Accepts(e)
        ensures DesiredGroups(After(c, e), lookup) == DesiredGroups(c, lookup)
      {
        DroppedEventKeepsDesired(lookup, c, e);
      }
    } else {
      var s, t :| IsValidAzureUuid(s) && IsValidAzureUuid(t) && ToLower(s) == ToLower(t) && lookup(s) != lookup(t);
      RenamingDesired(s, t, lookup);
      var (c, e) := Renaming(s, t);
      assert DesiredGroups(After(c, e), lookup) != DesiredGroups(c, lookup) by {
        assert lookup(s).Some? ==> lookup(s).value in Resolved({s}, lookup);
        assert lookup(t).Some? ==> lookup(t).value in Resolved({t}, lookup);
      }
    }
  }
}
