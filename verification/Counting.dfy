/** Counting the elements of a sequence that satisfy a predicate. */
module Counting {
  import opened GapRuns

  function Count<T>(s: seq<T>, p: T -> bool): (n: nat)
    ensures n <= |s|
  {
    if s == [] then 0 else Count(Init(s), p) + if p(Last(s)) then 1 else 0
  }

  lemma {:induction false} CountPositive<T>(s: seq<T>, p: T -> bool)
    ensures Count(s, p) == 0 <==> forall x :: x in s ==> !p(x)
  {
    if s != [] {
      CountPositive(Init(s), p);
      var last := Last(s);
      assert last in s;
      assert forall x :: x in s ==> x in Init(s) || x == last;
      assert forall x :: x in Init(s) ==> x in s;
    }
  }

  lemma CountSnoc<T>(s: seq<T>, x: T, p: T -> bool)
    ensures Count(s + [x], p) == Count(s, p) + if p(x) then 1 else 0
  {
    assert Init(s + [x]) == s;
  }

  /** The first element that counts. */
  lemma {:induction false} FirstCounted<T>(s: seq<T>, p: T -> bool) returns (i: nat)
    requires Count(s, p) > 0
    ensures i < |s| && p(s[i]) && forall j :: 0 <= j < i ==> !p(s[j])
  {
    if Count(Init(s), p) > 0 {
      i := FirstCounted(Init(s), p);
      assert forall j :: 0 <= j < |Init(s)| ==> Init(s)[j] == s[j];
    } else {
      i := |s| - 1;
      CountPositive(Init(s), p);
      assert forall j :: 0 <= j < i ==> s[j] == Init(s)[j] && Init(s)[j] in Init(s);
    }
  }

  /** What satisfies a stronger predicate is no more. */
  lemma {:induction false} CountWeaker<T>(s: seq<T>, p: T -> bool, q: T -> bool)
    requires forall x :: x in s && p(x) ==> q(x)
    ensures Count(s, p) <= Count(s, q)
  {
    if s != [] {
      assert Last(s) in s;
      assert forall x :: x in Init(s) ==> x in s;
      CountWeaker(Init(s), p, q);
    }
  }

  lemma {:induction false} CountConcat<T>(a: seq<T>, b: seq<T>, p: T -> bool)
    ensures Count(a + b, p) == Count(a, p) + Count(b, p)
  {
    if b == [] {
      assert a + b == a;
    } else {
      assert Init(a + b) == a + Init(b);
      CountConcat(a, Init(b), p);
    }
  }
}
