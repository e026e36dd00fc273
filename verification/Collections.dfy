/** Lists without repetitions and counting, used by several parts. */
module Collections {
  predicate NoDup<T(==)>(s: seq<T>) {
    forall i, j :: 0 <= i < j < |s| ==> s[i] != s[j]
  }

  function Elements<T>(s: seq<T>): set<T> {
    set a | a in s
  }

  lemma {:induction false} ElementsCount<T>(s: seq<T>)
    ensures |Elements(s)| <= |s|
    ensures NoDup(s) ==> |Elements(s)| == |s|
  {
    if s != [] {
      ElementsCount(s[1..]);
      assert Elements(s) == Elements(s[1..]) + {s[0]};
    }
  }

  lemma {:induction false} ElementsAtMost<T>(s: seq<T>)
    ensures |Elements(s)| <= |s|
  {
    if s != [] {
      ElementsAtMost(s[1..]);
      assert Elements(s) == {s[0]} + Elements(s[1..]);
    }
  }

  lemma AppendNoDup<T>(s: seq<T>, a: T)
    requires NoDup(s) && a !in s
    ensures NoDup(s + [a])
  {
    var t := s + [a];
    assert forall i :: 0 <= i < |s| ==> t[i] == s[i] && t[i] in s;
  }

  lemma SubsetCount<T>(a: set<T>, b: set<T>)
    requires a <= b
    ensures |a| <= |b|
  {
    assert b == a + (b - a);
  }

  lemma Singleton<T>(s: set<T>, a: T, b: T)
    requires |s| == 1 && a in s && b in s
    ensures a == b && s == {a}
  {
    assert |s - {a}| == 0;
    assert s == {a};
  }

  lemma {:induction false} InjectionBound<A, B>(s: set<A>, t: set<B>, f: A -> B)
    requires forall a :: a in s ==> f(a) in t
    requires forall a, b :: a in s && b in s && f(a) == f(b) ==> a == b
    ensures |s| <= |t|
  {
    if s != {} {
      var a :| a in s;
      InjectionBound(s - {a}, t - {f(a)}, f);
    }
  }

  ghost function Pairs<A, B>(s: set<A>, t: set<B>): set<(A, B)> {
    set a, b | a in s && b in t :: (a, b)
  }

  lemma RowCount<A, B>(a: A, t: set<B>)
    ensures |Pairs({a}, t)| == |t|
  {
    InjectionBound(Pairs({a}, t), t, (k: (A, B)) => k.1);
    InjectionBound(t, Pairs({a}, t), (b: B) => (a, b));
  }

  lemma RowApart<A, B>(s: set<A>, a: A, t: set<B>)
    requires a in s
    ensures |Pairs(s, t)| == |Pairs(s - {a}, t)| + |Pairs({a}, t)|
  {
    assert Pairs(s, t) == Pairs(s - {a}, t) + Pairs({a}, t) && Pairs(s - {a}, t) !! Pairs({a}, t);
  }

  lemma OneMore(a: int, b: int)
    ensures (a + 1) * b == a * b + b
  {
  }

  lemma {:induction false} PairsCount<A, B>(s: set<A>, t: set<B>)
    ensures |Pairs(s, t)| == |s| * |t|
  {
    if s == {} {
      assert Pairs(s, t) == {};
    } else {
      hide Pairs;
      var a :| a in s;
      PairsCount(s - {a}, t);
      RowApart(s, a, t);
      RowCount(a, t);
      OneMore(|s - {a}|, |t|);
    }
  }
}
