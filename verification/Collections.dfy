// Finite sets, listed and counted.
module Collections {
  datatype Option<T> = None | Some(value: T)

  // The members of a set, each once.
  method Listing<T(==)>(s: set<T>) returns (q: seq<T>)
    ensures |q| == |s| && (forall x :: x in q <==> x in s)
    ensures forall i, j :: 0 <= i < j < |q| ==> q[i] != q[j]
  {
    q := [];
    var todo := s;
    while todo != {}
      invariant |q| + |todo| == |s|
      invariant forall x :: x in s <==> x in q || x in todo
      invariant forall x :: x in q ==> x !in todo
      invariant forall i, j :: 0 <= i < j < |q| ==> q[i] != q[j]
      decreases |todo|
    {
      var x :| x in todo;
      q := q + [x];
      todo := todo - {x};
    }
  }

  lemma SelfUnion<T>(s: set<T>, x: T)
    requires x in s
    ensures s == s + {x}
  {
  }

  lemma Fewer<T>(all: set<T>, seen: set<T>, p: T)
    requires p in all && p !in seen
    ensures |all - (seen + {p})| < |all - seen|
  {
    assert all - seen == (all - (seen + {p})) + {p};
  }

  lemma Within<T>(a: set<T>, b: set<T>)
    requires forall x :: x in a ==> x in b
    ensures a <= b
  {
  }

  // There are no more multiples of 4 than words.
  lemma {:induction false} FewWords(es: set<int>, words: nat)
    requires forall e :: e in es ==> 0 <= e < 4 * words && e % 4 == 0
    ensures |es| <= words
  {
    if words > 0 {
      FewWords(es - {4 * (words - 1)}, words - 1);
      OneFewer(es, 4 * (words - 1));
    } else if es != {} {
      var e := Member(es);
    }
  }

  lemma OneFewer<T>(s: set<T>, x: T)
    ensures |s| <= |s - {x}| + 1
  {
    if x in s { assert s == (s - {x}) + {x}; } else { assert s == s - {x}; }
  }

  lemma Member<T>(s: set<T>) returns (x: T)
    requires s != {}
    ensures x in s
  {
    x :| x in s;
  }

  lemma LessLeft<T>(all: set<T>, seen: set<T>, more: set<T>)
    requires more <= all && !(more <= seen)
    ensures |all - (seen + more)| < |all - seen|
  {
    var x :| x in more && x !in seen;
    Subset(all - (seen + more), all - seen - {x});
    assert all - seen == (all - seen - {x}) + {x};
  }

  lemma Subset<T>(a: set<T>, b: set<T>)
    requires a <= b
    ensures |a| <= |b|
  {
    assert b == a + (b - a);
  }
}
