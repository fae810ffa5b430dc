/** The group cache of client.go: a map from the spelling of a group's object id to
    the group Graph returned for it, filled on success and never expired. */
module GroupCache {
  import opened Wrappers
  import opened GoStrings

  /** A group as Graph returns it; its id may be nil. */
  datatype Group = Group(id: Option<string>)

  type Cache = map<string, Group>

  /** One lookup: the spelling asked for, and what Graph answers about it at that
      moment (None is an error) if it is asked. */
  datatype Query = Query(key: string, answer: Option<Group>)

  /** GetGroupByID without a cache: validate, then ask Graph. */
  function Uncached(q: Query): Option<Group> {
    if IsUuid(q.key) then q.answer else None
  }

  /** GetGroupByID: the cache is consulted before the key is validated. */
  function Lookup(cache: Cache, q: Query): (Option<Group>, Cache) {
    if q.key in cache then (Some(cache[q.key]), cache)
    else if !IsUuid(q.key) || q.answer.None? then (None, cache)
    else (q.answer, cache[q.key := q.answer.value])
  }

  /** The same with the validation moved in front. */
  function LookupValidatingFirst(cache: Cache, q: Query): (Option<Group>, Cache) {
    if IsUuid(q.key) then Lookup(cache, q) else (None, cache)
  }

  /** The cache after a sequence of lookups that started from an empty one. */
  function CacheAfter(queries: seq<Query>): Cache {
    if queries == [] then map[]
    else Lookup(CacheAfter(queries[..|queries| - 1]), queries[|queries| - 1]).1
  }

  /** The first group Graph returned for this key, if it ever returned one. */
  function FirstFound(queries: seq<Query>, key: string): Option<Group> {
    if queries == [] then None
    else
      var earlier := FirstFound(queries[..|queries| - 1], key);
      var q := queries[|queries| - 1];
      if earlier.Some? || q.key != key then earlier else Uncached(q)
  }

  /** The cache holds exactly the keys that have ever been found, each with the first
      group found for it; uuid.Parse accepts all of them. */
  lemma {:induction false} CacheHoldsFirstFound(queries: seq<Query>)
    ensures forall key :: key in CacheAfter(queries) <==> FirstFound(queries, key).Some?
    ensures forall key :: key in CacheAfter(queries) ==> FirstFound(queries, key) == Some(CacheAfter(queries)[key])
    ensures forall key :: key in CacheAfter(queries) ==> IsUuid(key)
  {
    hide IsUuid;
    if queries != [] {
      CacheHoldsFirstFound(queries[..|queries| - 1]);
    }
  }

  /** Whatever the directory does meanwhile, a lookup returns the first group Graph ever
      returned for that spelling, this lookup's own answer included. */
  lemma LookupReturnsFirstFound(queries: seq<Query>, q: Query)
    ensures Lookup(CacheAfter(queries), q).0 == FirstFound(queries + [q], q.key)
    ensures Lookup(CacheAfter(queries), q).1 == CacheAfter(queries + [q])
  {
    hide IsUuid;
    CacheHoldsFirstFound(queries);
    assert (queries + [q])[..|queries|] == queries;
  }

  /** The first answer: Graph gave it when asked for this very spelling, which uuid.Parse
      accepts, and had given none for it before. */
  lemma {:induction false} FirstFoundIff(queries: seq<Query>, key: string, group: Group)
    ensures FirstFound(queries, key) == Some(group)
            <==> && ParsedUuid(key).Some?
                 && exists i :: 0 <= i < |queries| && queries[i] == Query(key, Some(group))
                                && forall j :: 0 <= j < i && queries[j].key == key ==> queries[j].answer == None
  {
    hide ParsedUuid;
    if queries != [] {
      var last := |queries| - 1;
      var front := queries[..last];
      FirstFoundIff(front, key, group);
      assert forall i :: 0 <= i < last ==> front[i] == queries[i];
      if FirstFound(front, key) == None && ParsedUuid(key).Some? { NoneFound(front, key); }
      if FirstFound(front, key).Some? {
        FirstFoundIff(front, key, FirstFound(front, key).value);
        var i :| 0 <= i < |front| && front[i] == Query(key, FirstFound(front, key));
        assert queries[i].key == key && queries[i].answer.Some?;
      }
    }
  }

  lemma {:induction false} NoneFound(queries: seq<Query>, key: string)
    requires FirstFound(queries, key) == None && ParsedUuid(key).Some?
    ensures forall j :: 0 <= j < |queries| && queries[j].key == key ==> queries[j].answer == None
  {
    hide ParsedUuid;
    if queries != [] {
      NoneFound(queries[..|queries| - 1], key);
      assert forall j :: 0 <= j < |queries| - 1 ==> queries[..|queries| - 1][j] == queries[j];
    }
  }

  /** In every cache the code can build, looking in the cache before validating the key
      changes nothing. */
  lemma ValidationOrderIrrelevant(queries: seq<Query>, q: Query)
    ensures Lookup(CacheAfter(queries), q) == LookupValidatingFirst(CacheAfter(queries), q)
  {
  }

  /** Every answer is the one this directory would give. */
  ghost predicate AnsweredBy(queries: seq<Query>, directory: string -> Option<Group>) {
    forall i :: 0 <= i < |queries| ==> queries[i].answer == directory(queries[i].key)
  }

  /** Against an unchanging directory the cache is invisible. */
  lemma CacheIsInvisible(queries: seq<Query>, q: Query, directory: string -> Option<Group>)
    requires AnsweredBy(queries + [q], directory)
    ensures Lookup(CacheAfter(queries), q).0 == Uncached(q)
  {
    hide IsUuid;
    CacheHoldsFirstFound(queries);
    assert (queries + [q])[|queries|] == q;
    if q.key in CacheAfter(queries) {
      FirstFoundIff(queries, q.key, FirstFound(queries, q.key).value);
      var i :| 0 <= i < |queries| && queries[i] == Query(q.key, FirstFound(queries, q.key));
      assert (queries + [q])[i] == queries[i];
    }
  }
}
