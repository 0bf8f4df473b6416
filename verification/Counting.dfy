/** Counting the elements of a sequence that satisfy a predicate. */
module Counting {
  function One(b: bool): nat {
    if b then 1 else 0
  }

  function Count<T>(s: seq<T>, p: T -> bool): nat {
    if s == [] then 0 else One(p(s[0])) + Count(s[1..], p)
  }

  lemma {:induction false} CountConcat<T>(a: seq<T>, b: seq<T>, p: T -> bool)
    ensures Count(a + b, p) == Count(a, p) + Count(b, p)
  {
    if a == [] {
      assert a + b == b;
    } else {
      assert (a + b)[1..] == a[1..] + b;
      CountConcat(a[1..], b, p);
    }
  }

  lemma CountAppend<T>(s: seq<T>, x: T, p: T -> bool)
    ensures Count(s + [x], p) == Count(s, p) + One(p(x))
  {
    CountConcat(s, [x], p);
  }

  lemma CountRemove<T>(s: seq<T>, k: nat, p: T -> bool)
    requires k < |s|
    ensures Count(s[..k] + s[k + 1..], p) == Count(s, p) - One(p(s[k]))
  {
    assert s == s[..k] + ([s[k]] + s[k + 1..]);
    CountConcat(s[..k], [s[k]] + s[k + 1..], p);
    CountConcat([s[k]], s[k + 1..], p);
    CountConcat(s[..k], s[k + 1..], p);
  }

  lemma CountUpdate<T>(s: seq<T>, k: nat, x: T, p: T -> bool)
    requires k < |s|
    ensures Count(s[k := x], p) == Count(s, p) - One(p(s[k])) + One(p(x))
  {
    assert s[k := x] == s[..k] + ([x] + s[k + 1..]);
    assert s == s[..k] + ([s[k]] + s[k + 1..]);
    CountConcat(s[..k], [x] + s[k + 1..], p);
    CountConcat(s[..k], [s[k]] + s[k + 1..], p);
    CountConcat([x], s[k + 1..], p);
    CountConcat([s[k]], s[k + 1..], p);
  }

  lemma {:induction false} CountSome<T>(s: seq<T>, p: T -> bool)
    ensures Count(s, p) > 0 <==> exists k :: 0 <= k < |s| && p(s[k])
  {
    if s != [] {
      CountSome(s[1..], p);
      if Count(s[1..], p) > 0 {
        var k :| 0 <= k < |s[1..]| && p(s[1..][k]);
        assert p(s[k + 1]);
      }
      if k :| 0 <= k < |s| && p(s[k]) {
        assert k > 0 ==> s[1..][k - 1] == s[k];
      }
    }
  }

  /** Two positions that satisfy p make the count at least two. */
  lemma CountTwo<T>(s: seq<T>, p: T -> bool, j: nat, k: nat)
    requires j < k < |s| && p(s[j]) && p(s[k])
    ensures Count(s, p) >= 2
  {
    CountRemove(s, j, p);
    var r := s[..j] + s[j + 1..];
    assert r[k - 1] == s[k];
    CountSome(r, p);
  }

  // ---------- sums ----------

  function Sum<T>(s: seq<T>, f: T -> nat): nat {
    if s == [] then 0 else f(s[0]) + Sum(s[1..], f)
  }

  lemma {:induction false} SumConcat<T>(a: seq<T>, b: seq<T>, f: T -> nat)
    ensures Sum(a + b, f) == Sum(a, f) + Sum(b, f)
  {
    if a == [] {
      assert a + b == b;
    } else {
      assert (a + b)[1..] == a[1..] + b;
      SumConcat(a[1..], b, f);
    }
  }

  lemma SumUpdate<T>(s: seq<T>, k: nat, x: T, f: T -> nat)
    requires k < |s|
    ensures Sum(s[k := x], f) == Sum(s, f) - f(s[k]) + f(x)
  {
    assert s[k := x] == s[..k] + ([x] + s[k + 1..]);
    assert s == s[..k] + ([s[k]] + s[k + 1..]);
    SumConcat(s[..k], [x] + s[k + 1..], f);
    SumConcat(s[..k], [s[k]] + s[k + 1..], f);
    SumConcat([x], s[k + 1..], f);
    SumConcat([s[k]], s[k + 1..], f);
  }

  lemma {:induction false} SumZero<T>(s: seq<T>, f: T -> nat)
    ensures Sum(s, f) == 0 <==> forall k :: 0 <= k < |s| ==> f(s[k]) == 0
  {
    if s != [] {
      SumZero(s[1..], f);
      assert forall k :: 1 <= k < |s| ==> s[1..][k - 1] == s[k];
      assert (forall k :: 0 <= k < |s| ==> f(s[k]) == 0) ==> forall k :: 0 <= k < |s[1..]| ==> f(s[1..][k]) == 0;
    }
  }
}
