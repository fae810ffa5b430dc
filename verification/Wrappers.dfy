/** Types and sequence helpers shared by every module. */
module Wrappers {

  datatype Option<+T> = None | Some(value: T)

  function Elements<T>(s: seq<T>): set<T> {
    set x | x in s
  }

  ghost predicate NoDuplicates<T>(s: seq<T>) {
    forall i, j :: 0 <= i < j < |s| ==> s[i] != s[j]
  }

  /** `s` with every element kept only where it first occurs: what a Go loop
      over a `seen` map leaves behind. */
  function Dedup<T(==)>(s: seq<T>): seq<T> {
    if s == [] then []
    else
      var front := Dedup(s[..|s| - 1]);
      if s[|s| - 1] in front then front else front + [s[|s| - 1]]
  }

  lemma {:induction false} DedupKeepsElements<T>(s: seq<T>)
    ensures NoDuplicates(Dedup(s))
    ensures Elements(Dedup(s)) == Elements(s)
  {
    if s != [] {
      var front, last := s[..|s| - 1], s[|s| - 1];
      DedupKeepsElements(front);
      assert s == front + [last];
      assert Elements(s) == Elements(front) + {last};
      assert last in Dedup(front) <==> last in Elements(Dedup(front));
      assert Elements(Dedup(front) + [last]) == Elements(Dedup(front)) + {last};
    }
  }

  lemma DedupEmpty<T>()
    ensures Dedup<T>([]) == []
  {
  }

  /** One more loop iteration: the step every `seen`-map loop takes. */
  lemma DedupSnoc<T>(s: seq<T>, x: T)
    ensures Dedup(s + [x]) == if x in Dedup(s) then Dedup(s) else Dedup(s) + [x]
  {
  }

  /** The order `Dedup` keeps is that of first occurrences: whatever precedes
      its j-th element is exactly the Dedup of what precedes that element in `s`. */
  lemma {:induction false} DedupIsFirstOccurrenceOrder<T>(s: seq<T>, j: nat)
    requires j < |Dedup(s)|
    ensures exists i :: 0 <= i < |s| && s[i] == Dedup(s)[j]
                        && s[i] !in s[..i] && Dedup(s[..i]) == Dedup(s)[..j]
  {
    var front := s[..|s| - 1];
    if j < |Dedup(front)| {
      DedupIsFirstOccurrenceOrder(front, j);
      var i :| 0 <= i < |front| && front[i] == Dedup(front)[j]
               && front[i] !in front[..i] && Dedup(front[..i]) == Dedup(front)[..j];
      assert s[..i] == front[..i] && s[i] == front[i];
      assert Dedup(s)[..j] == Dedup(front)[..j];
    } else {
      DedupKeepsElements(front);
      var i := |s| - 1;
      assert Dedup(s)[..j] == Dedup(front);
      assert s[i] in Elements(front) <==> s[i] in front;
      assert s[i] in Elements(Dedup(front)) <==> s[i] in Dedup(front);
      assert s[..i] == front;
    }
  }
}
