/** Sums of a measure over the elements of a finite set. */
module Sums {

  ghost function Sum<T(!new)>(s: set<T>, f: T --> nat): nat
    requires forall x :: x in s ==> f.requires(x)
    decreases |s|
  {
    if s == {} then 0 else
      var x :| x in s;
      f(x) + Sum(s - {x}, f)
  }

  /** Any element may be taken out first. */
  lemma {:induction false} SumTake<T(!new)>(s: set<T>, x: T, f: T --> nat)
    requires forall y :: y in s ==> f.requires(y)
    requires x in s
    ensures Sum(s, f) == f(x) + Sum(s - {x}, f)
    decreases |s|
  {
    var y :| y in s && Sum(s, f) == f(y) + Sum(s - {y}, f);
    if y != x {
      SumTake(s - {y}, x, f);
      SumTake(s - {x}, y, f);
      assert s - {y} - {x} == s - {x} - {y};
    }
  }

  lemma {:induction false} SumUnion<T(!new)>(s: set<T>, t: set<T>, f: T --> nat)
    requires forall y :: y in s + t ==> f.requires(y)
    requires s !! t
    ensures Sum(s + t, f) == Sum(s, f) + Sum(t, f)
    decreases |s|
  {
    if s == {} {
      assert s + t == t;
    } else {
      var x :| x in s;
      SumTake(s, x, f);
      SumTake(s + t, x, f);
      assert s + t - {x} == (s - {x}) + t;
      SumUnion(s - {x}, t, f);
    }
  }

  lemma SumSubset<T(!new)>(s: set<T>, t: set<T>, f: T --> nat)
    requires forall y :: y in t ==> f.requires(y)
    requires s <= t
    ensures Sum(s, f) <= Sum(t, f)
  {
    SumUnion(s, t - s, f);
    assert s + (t - s) == t;
  }

  lemma {:induction false} SumAgree<T(!new)>(s: set<T>, f: T --> nat, g: T --> nat)
    requires forall y :: y in s ==> f.requires(y) && g.requires(y) && f(y) == g(y)
    ensures Sum(s, f) == Sum(s, g)
    decreases |s|
  {
    if s != {} {
      var x :| x in s;
      SumTake(s, x, f);
      SumTake(s, x, g);
      SumAgree(s - {x}, f, g);
    }
  }

  lemma {:induction false} SumAtLeastSize<T(!new)>(s: set<T>, f: T --> nat)
    requires forall y :: y in s ==> f.requires(y) && f(y) >= 1
    ensures |s| <= Sum(s, f)
    decreases |s|
  {
    if s != {} {
      var x :| x in s;
      SumTake(s, x, f);
      SumAtLeastSize(s - {x}, f);
    }
  }

  /** Putting one element in, or counting it differently. */
  lemma SumPut<T(!new)>(s: set<T>, x: T, f: T -> nat, g: T -> nat)
    requires forall y :: y in s && y != x ==> f(y) == g(y)
    ensures Sum(s + {x}, g) == Sum(s - {x}, f) + g(x)
    ensures x in s ==> Sum(s, f) == Sum(s - {x}, f) + f(x)
    ensures x !in s ==> Sum(s, f) == Sum(s - {x}, f)
    ensures Sum(s - {x}, g) == Sum(s - {x}, f)
  {
    SumWith(s, x, g);
    SumAgree(s - {x}, f, g);
    if x in s {
      SumTake(s, x, f);
    } else {
      assert s - {x} == s;
    }
  }

  lemma SumWith<T(!new)>(s: set<T>, x: T, g: T -> nat)
    ensures Sum(s + {x}, g) == Sum(s - {x}, g) + g(x)
  {
    SumTake(s + {x}, x, g);
    assert s + {x} - {x} == s - {x};
  }

  /** If one element is put in, taken out or recounted, the sums differ by what it counts. */
  lemma SumMove<T(!new)>(s: set<T>, x: T, s': set<T>, f: T -> nat, g: T -> nat)
    requires s' == s + {x} || s' == s - {x} || s' == s
    requires forall y :: y in s && y != x ==> f(y) == g(y)
    requires (x !in s ==> f(x) == 0) && (x !in s' ==> g(x) == 0)
    ensures Sum(s', g) + f(x) == Sum(s, f) + g(x)
  {
    SumPut(s, x, f, g);
    if x in s {
      assert s + {x} == s;
    } else {
      assert s - {x} == s;
    }
  }

  lemma Element<T(!new)>(s: set<T>) returns (x: T)
    requires s != {}
    ensures x in s
  {
    x :| x in s;
  }
}
