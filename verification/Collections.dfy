// Optional values, and sequences and sets in general.
module Collections {
  datatype Option<+T> = None | Some(value: T)

  function Or<T>(value: Option<T>, default_: T): T {
    match value
    case Some(v) => v
    case None => default_
  }

  ghost predicate Distinct<T>(s: seq<T>) {
    forall i, j :: 0 <= i < j < |s| ==> s[i] != s[j]
  }

  lemma DistinctAppend<T>(s: seq<T>, t: seq<T>)
    requires Distinct(s) && Distinct(t) && forall v :: v in t ==> v !in s
    ensures Distinct(s + t)
  {
    forall i, j | 0 <= i < j < |s + t| ensures (s + t)[i] != (s + t)[j] {
      if i < |s| <= j {
        assert (s + t)[j] in t && (s + t)[i] in s;
      }
    }
  }

  lemma DistinctFront<T>(s: seq<T>, x: T)
    requires Distinct(s + [x])
    ensures Distinct(s) && x !in s
  {
    var longer := s + [x];
    forall i, j | 0 <= i < j < |s| ensures s[i] != s[j] {
      assert longer[i] != longer[j];
    }
    forall i | 0 <= i < |s| ensures s[i] != x {
      assert longer[i] != longer[|s|];
    }
  }

  // Every non-empty set has a member.
  lemma Member<T>(s: set<T>) returns (v: T)
    requires s != {}
    ensures v in s
  {
    v :| v in s;
  }
}
