/** What several of the models use. */
module Options {
  datatype Option<T> = None | Some(value: T)
}

/** Finite sets and how many elements they have. */
module Sets {
  lemma Outside(s: set<int>, u: set<int>) returns (t: int)
    requires !(s <= u)
    ensures t in s && t !in u
  {
    assert (forall x :: x in s ==> x in u) ==> s <= u;
    t :| t in s && t !in u;
  }

  lemma {:induction false} SubsetCount<T>(a: set<T>, b: set<T>)
    requires a <= b
    ensures |a| <= |b|
  {
    if a != {} {
      var e :| e in a;
      SubsetCount(a - {e}, b - {e});
    }
  }

  lemma {:induction false} SmallerSet<T>(a: set<T>, b: set<T>, x: T)
    requires a <= b && x in b && x !in a
    ensures |a| < |b|
  {
    SubsetCount(a, b - {x});
  }

  lemma {:induction false} SameCount<T>(a: set<T>, b: set<T>)
    requires a <= b && |a| == |b|
    ensures a == b
  {
    assert b == a + (b - a) && |b| == |a| + |b - a|;
  }
}

/** The limits of yacc, and the tables that are filled without changing a cell in use. */
module YaccSizes {
  const NTBASE := 4096     // nonterminals are numbered from here
  const NTERMS := 511
  const NNONTERM := 600
  const NSTATES := 2000
  const ACTSIZE := 40000
  const WSETSIZE := 350

  /** Cells that are not zero have stayed as they were. */
  ghost predicate Kept(a0: seq<int>, a1: seq<int>) {
    |a1| == |a0| && forall c :: 0 <= c < |a0| && a0[c] != 0 ==> a1[c] == a0[c]
  }
}
