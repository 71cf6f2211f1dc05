/** Sums of a quantity over a list, as used to add up permits and remaining work. */
module Sums {
  function Sum<T>(f: T -> nat, s: seq<T>): nat {
    if s == [] then 0 else Sum(f, s[..|s| - 1]) + f(s[|s| - 1])
  }

  lemma {:induction false} SumUpdate<T>(f: T -> nat, s: seq<T>, i: nat, x: T)
    requires i < |s|
    ensures Sum(f, s[i := x]) + f(s[i]) == Sum(f, s) + f(x)
  {
    var n := |s| - 1;
    if i < n {
      assert s[i := x][..n] == s[..n][i := x];
      SumUpdate(f, s[..n], i, x);
    } else {
      assert s[i := x][..n] == s[..n];
    }
  }

  lemma {:induction false} SumPart<T>(f: T -> nat, s: seq<T>, i: nat)
    requires i < |s|
    ensures f(s[i]) <= Sum(f, s)
  {
    if i < |s| - 1 {
      SumPart(f, s[..|s| - 1], i);
    }
  }

  lemma {:induction false} SumPair<T>(f: T -> nat, s: seq<T>, i: nat, j: nat)
    requires i < j < |s|
    ensures f(s[i]) + f(s[j]) <= Sum(f, s)
  {
    var n := |s| - 1;
    if j < n {
      SumPair(f, s[..n], i, j);
    } else {
      SumPart(f, s[..n], i);
    }
  }

  /** A sum is positive exactly when some part is. */
  lemma {:induction false} SumPositive<T>(f: T -> nat, s: seq<T>)
    ensures Sum(f, s) > 0 <==> exists i :: 0 <= i < |s| && f(s[i]) > 0
  {
    if s != [] {
      var n := |s| - 1;
      SumPositive(f, s[..n]);
      if i :| 0 <= i < n && f(s[..n][i]) > 0 {
        assert f(s[i]) > 0;
      }
      if i :| 0 <= i < |s| && f(s[i]) > 0 {
        assert i < n ==> f(s[..n][i]) > 0;
      }
    }
  }

  lemma {:induction false} SumBound<T>(f: T -> nat, s: seq<T>)
    requires forall i :: 0 <= i < |s| ==> f(s[i]) <= 1
    ensures Sum(f, s) <= |s|
  {
    if s != [] {
      SumBound(f, s[..|s| - 1]);
    }
  }

  lemma {:induction false} SumBelow<T>(f: T -> nat, s: seq<T>, i: nat)
    requires forall j :: 0 <= j < |s| ==> f(s[j]) <= 1
    requires i < |s| && f(s[i]) == 0
    ensures Sum(f, s) < |s|
  {
    var n := |s| - 1;
    if i < n {
      SumBelow(f, s[..n], i);
    } else {
      SumBound(f, s[..n]);
    }
  }

  lemma {:induction false} SumConcat<T>(f: T -> nat, a: seq<T>, b: seq<T>)
    ensures Sum(f, a + b) == Sum(f, a) + Sum(f, b)
  {
    if b == [] {
      assert a + b == a;
    } else {
      var n := |b| - 1;
      assert (a + b)[..|a| + n] == a + b[..n];
      SumConcat(f, a, b[..n]);
    }
  }

  function Without<T>(s: seq<T>, i: nat): (r: seq<T>)
    requires i < |s|
    ensures |r| == |s| - 1
  {
    s[..i] + s[i + 1..]
  }

  lemma SumWithout<T>(f: T -> nat, s: seq<T>, i: nat)
    requires i < |s|
    ensures Sum(f, Without(s, i)) + f(s[i]) == Sum(f, s)
  {
    SumConcat(f, s[..i], s[i + 1..]);
    SumConcat(f, s[..i + 1], s[i + 1..]);
    assert s == s[..i + 1] + s[i + 1..];
    assert s[..i + 1][..i] == s[..i];
  }

  lemma SumSplice<T>(f: T -> nat, s: seq<T>, i: nat, pieces: seq<T>)
    requires i < |s|
    ensures Sum(f, s[..i] + pieces + s[i + 1..]) + f(s[i]) == Sum(f, s) + Sum(f, pieces)
  {
    SumWithout(f, s, i);
    SumConcat(f, s[..i], s[i + 1..]);
    SumConcat(f, s[..i], pieces);
    SumConcat(f, s[..i] + pieces, s[i + 1..]);
  }

  lemma SumTwo<T>(f: T -> nat, s: seq<T>)
    requires |s| == 2
    ensures Sum(f, s) == f(s[0]) + f(s[1])
  {
    var one := s[..1];
    assert one[..0] == [] && Sum(f, one) == f(s[0]);
  }
}
