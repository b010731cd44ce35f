/** Cutting a sequence into its maximal runs of neighbouring elements. Episodes are runs of anomalous
    decisions; prepared segments are runs of source rows. */
module GapRuns {

  /** Decides whether an element continues the run its predecessor ends. */
  type Near<!T> = (T, T) -> bool

  predicate Step<T>(s: seq<T>, i: nat, near: Near<T>)
    requires i + 1 < |s|
  {
    near(s[i], s[i + 1])
  }

  /** A non-empty sequence without a gap. */
  predicate IsRun<T>(s: seq<T>, near: Near<T>) {
    s != [] && forall i: nat :: i + 1 < |s| ==> Step(s, i, near)
  }

  function Last<T>(s: seq<T>): T
    requires s != []
  {
    s[|s| - 1]
  }

  function Init<T>(s: seq<T>): seq<T>
    requires s != []
  {
    s[..|s| - 1]
  }

  /** An element joins the newest run or opens the next one. */
  function Extend<T>(runs: seq<seq<T>>, x: T, near: Near<T>): seq<seq<T>> {
    if runs != [] && Last(runs) != [] && near(Last(Last(runs)), x)
    then Init(runs) + [Last(runs) + [x]]
    else runs + [[x]]
  }

  function Runs<T>(s: seq<T>, near: Near<T>): seq<seq<T>> {
    if s == [] then [] else Extend(Runs(Init(s), near), Last(s), near)
  }

  /** One more element of `s`, by whether it is near the end of the newest run. */
  lemma NextRun<T>(s: seq<T>, i: nat, closed: seq<seq<T>>, open: seq<T>, near: Near<T>)
    requires i < |s| && open != [] && Runs(s[..i], near) == closed + [open]
    ensures Runs(s[..i + 1], near) ==
            if near(Last(open), s[i]) then closed + [open + [s[i]]] else closed + [open] + [[s[i]]]
  {
    assert Init(s[..i + 1]) == s[..i];
    assert Init(closed + [open]) == closed;
  }

  function Flatten<T>(parts: seq<seq<T>>): seq<T> {
    if parts == [] then [] else Flatten(Init(parts)) + Last(parts)
  }

  predicate NonEmpty<T>(parts: seq<seq<T>>) {
    forall i :: 0 <= i < |parts| ==> parts[i] != []
  }

  /** The runs follow one another with a gap between. */
  predicate Apart<T>(runs: seq<seq<T>>, i: nat, near: Near<T>)
    requires i + 1 < |runs|
  {
    runs[i] != [] && runs[i + 1] != [] ==> !near(Last(runs[i]), runs[i + 1][0])
  }

  /** A cut of `s` into runs that nothing could lengthen. */
  ghost predicate MaximalRuns<T>(runs: seq<seq<T>>, s: seq<T>, near: Near<T>) {
    && Flatten(runs) == s
    && (forall r :: r in runs ==> IsRun(r, near))
    && (forall i: nat :: i + 1 < |runs| ==> Apart(runs, i, near))
  }

  lemma FlattenSnoc<T>(parts: seq<seq<T>>, p: seq<T>)
    ensures Flatten(parts + [p]) == Flatten(parts) + p
  {
    assert Init(parts + [p]) == parts;
  }

  lemma SplitAt<T>(s: seq<T>, k: nat)
    requires k < |s|
    ensures s[..k + 1] == s[..k] + [s[k]]
    ensures s == s[..k] + [s[k]] + s[k + 1..]
  {
  }

  /** Slices taken one after the other rebuild what they were taken from. */
  lemma SlicesJoin<T>(before: seq<T>, s: seq<T>, start: nat, end: nat)
    requires start <= end <= |s|
    ensures before + s[..start] + s[start..end] == before + s[..end]
    ensures before + s[..0] == before && before + s[..|s|] == before + s
  {
  }

  lemma {:induction false} FlattenAppend<T>(a: seq<seq<T>>, b: seq<seq<T>>)
    ensures Flatten(a + b) == Flatten(a) + Flatten(b)
  {
    if b == [] {
      assert a + b == a;
    } else {
      var front, last := Init(b), Last(b);
      FlattenAppend(a, front);
      FlattenSnoc(a + front, last);
      assert b == front + [last];
      assert a + b == a + front + [last];
    }
  }

  lemma RunSnoc<T>(r: seq<T>, x: T, near: Near<T>)
    requires IsRun(r, near) && near(Last(r), x)
    ensures IsRun(r + [x], near)
  {
    forall i: nat | i + 1 < |r + [x]|
      ensures Step(r + [x], i, near)
    {
      if i + 1 < |r| {
        assert Step(r, i, near);
      }
    }
  }

  lemma ApartSnoc<T>(runs: seq<seq<T>>, r: seq<T>, near: Near<T>)
    requires forall i: nat :: i + 1 < |runs| ==> Apart(runs, i, near)
    requires runs != [] && Last(runs) != [] && r != [] ==> !near(Last(Last(runs)), r[0])
    ensures forall i: nat :: i + 1 < |runs + [r]| ==> Apart(runs + [r], i, near)
  {
    forall i: nat | i + 1 < |runs + [r]|
      ensures Apart(runs + [r], i, near)
    {
      if i + 1 < |runs| {
        assert Apart(runs, i, near);
      }
    }
  }

  lemma ApartInit<T>(runs: seq<seq<T>>, near: Near<T>)
    requires runs != []
    requires forall i: nat :: i + 1 < |runs| ==> Apart(runs, i, near)
    ensures forall i: nat :: i + 1 < |Init(runs)| ==> Apart(Init(runs), i, near)
  {
    forall i: nat | i + 1 < |Init(runs)|
      ensures Apart(Init(runs), i, near)
    {
      assert Apart(runs, i, near);
    }
  }

  lemma JoinMaximal<T>(runs: seq<seq<T>>, s: seq<T>, x: T, near: Near<T>)
    requires MaximalRuns(runs, s, near)
    requires runs != [] && Last(runs) != [] && near(Last(Last(runs)), x)
    ensures MaximalRuns(Init(runs) + [Last(runs) + [x]], s + [x], near)
  {
    var front, r := Init(runs), Last(runs);
    assert r in runs;
    RunSnoc(r, x, near);
    FlattenSnoc(front, r + [x]);
    assert Flatten(front) + (r + [x]) == Flatten(front) + r + [x];
    ApartInit(runs, near);
    if front != [] {
      assert Last(front) in runs;
      assert Apart(runs, |front| - 1, near);
    }
    ApartSnoc(front, r + [x], near);
  }

  /** Adding one element keeps the runs maximal. */
  lemma ExtendMaximal<T>(runs: seq<seq<T>>, s: seq<T>, x: T, near: Near<T>)
    requires MaximalRuns(runs, s, near)
    ensures MaximalRuns(Extend(runs, x, near), s + [x], near)
  {
    if runs != [] {
      assert Last(runs) in runs;
    }
    if runs != [] && near(Last(Last(runs)), x) {
      JoinMaximal(runs, s, x, near);
    } else {
      FlattenSnoc(runs, [x]);
      ApartSnoc(runs, [x], near);
    }
  }

  lemma {:induction false} RunsAreMaximal<T>(s: seq<T>, near: Near<T>)
    ensures MaximalRuns(Runs(s, near), s, near)
    ensures NonEmpty(Runs(s, near))
  {
    if s != [] {
      RunsAreMaximal(Init(s), near);
      ExtendMaximal(Runs(Init(s), near), Init(s), Last(s), near);
    }
  }

  lemma RunInit<T>(r: seq<T>, near: Near<T>)
    requires IsRun(r, near) && |r| > 1
    ensures IsRun(Init(r), near) && near(Last(Init(r)), Last(r))
  {
    forall i: nat | i + 1 < |Init(r)|
      ensures Step(Init(r), i, near)
    {
      assert Step(r, i, near);
    }
    var k: nat := |r| - 2;
    assert Step(r, k, near);
  }

  /** Dropping a newest run of one element. */
  lemma DropRun<T>(runs: seq<seq<T>>, s: seq<T>, near: Near<T>)
    requires MaximalRuns(runs, s, near) && runs != [] && |Last(runs)| == 1
    ensures s != [] && MaximalRuns(Init(runs), Init(s), near)
    ensures Extend(Init(runs), Last(s), near) == runs
  {
    var front, r := Init(runs), Last(runs);
    ApartInit(runs, near);
    assert Flatten(front) == Init(s) && r == [Last(s)];
    if front != [] {
      assert Last(front) in runs;
      assert Apart(runs, |front| - 1, near);
    }
  }

  /** Dropping the last element of a longer run. */
  lemma ShortenRun<T>(runs: seq<seq<T>>, s: seq<T>, near: Near<T>)
    requires MaximalRuns(runs, s, near) && runs != [] && |Last(runs)| > 1
    ensures s != [] && MaximalRuns(Init(runs) + [Init(Last(runs))], Init(s), near)
    ensures Extend(Init(runs) + [Init(Last(runs))], Last(s), near) == runs
  {
    var front, r := Init(runs), Last(runs);
    assert r in runs;
    RunInit(r, near);
    ApartInit(runs, near);
    FlattenSnoc(front, Init(r));
    assert r == Init(r) + [Last(r)] && runs == front + [r];
    assert Flatten(front) + Init(r) == Init(s);
    if front != [] {
      assert Last(front) in runs;
      assert Apart(runs, |front| - 1, near);
    }
    ApartSnoc(front, Init(r), near);
    assert Init(front + [Init(r)]) == front;
  }

  lemma RunsAreNotEmpty<T>(runs: seq<seq<T>>, near: Near<T>)
    requires runs != [] && forall r :: r in runs ==> IsRun(r, near)
    ensures Flatten(runs) != []
  {
    assert Last(runs) in runs;
  }

  /** There is only one way to cut a sequence into maximal runs. */
  lemma {:induction false} MaximalRunsUnique<T>(runs: seq<seq<T>>, s: seq<T>, near: Near<T>)
    requires MaximalRuns(runs, s, near)
    ensures runs == Runs(s, near)
    decreases |s|
  {
    if s == [] {
      if runs != [] {
        RunsAreNotEmpty(runs, near);
      }
    } else {
      assert Last(runs) in runs;
      if |Last(runs)| == 1 {
        DropRun(runs, s, near);
        MaximalRunsUnique(Init(runs), Init(s), near);
      } else {
        ShortenRun(runs, s, near);
        MaximalRunsUnique(Init(runs) + [Init(Last(runs))], Init(s), near);
      }
    }
  }

  // ---------------------------------------------------------------- positions

  function TotalLength<T>(parts: seq<seq<T>>): nat {
    if parts == [] then 0 else TotalLength(Init(parts)) + |Last(parts)|
  }

  lemma {:induction false} LengthsAddUp<T>(parts: seq<seq<T>>)
    ensures TotalLength(parts) == |Flatten(parts)|
  {
    if parts != [] {
      LengthsAddUp(Init(parts));
    }
  }

  /** Every element of every part is an element of the whole, and conversely. */
  lemma {:induction false} FlattenElements<T>(parts: seq<seq<T>>, x: T)
    ensures x in Flatten(parts) <==> exists p :: p in parts && x in p
  {
    if parts != [] {
      var front, p := Init(parts), Last(parts);
      FlattenElements(front, x);
      assert p in parts && forall q :: q in front ==> q in parts;
      assert forall q :: q in parts ==> q in front || q == p;
    }
  }
}
