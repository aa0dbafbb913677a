/**
 * Number series as the analytics module handles them in Python lists:
 * totals, the "mean or 0 when empty" average, and in-place reversal.
 */
module Series {

  /** `sum(s)`. */
  function Total(s: seq<real>): real
  {
    if s == [] then 0.0 else Total(s[..|s| - 1]) + s[|s| - 1]
  }

  /** `sum(s) / len(s) if s else 0`. */
  function Mean(s: seq<real>): real
  {
    if |s| == 0 then 0.0 else Total(s) / |s| as real
  }

  /** The list after Python's `s.reverse()`. */
  function Reversed<T>(s: seq<T>): (r: seq<T>)
    ensures |r| == |s|
    ensures forall k :: 0 <= k < |s| ==> r[k] == s[|s| - 1 - k]
  {
    if s == [] then [] else [s[|s| - 1]] + Reversed(s[..|s| - 1])
  }

  lemma {:induction false} TotalAppend(a: seq<real>, b: seq<real>)
    ensures Total(a + b) == Total(a) + Total(b)
  {
    if b == [] {
      assert a + b == a;
    } else {
      assert (a + b)[..|a + b| - 1] == a + b[..|b| - 1];
      TotalAppend(a, b[..|b| - 1]);
    }
  }

  /** Reversing a list does not change its total, hence not its mean. */
  lemma {:induction false} TotalReversed(s: seq<real>)
    ensures Total(Reversed(s)) == Total(s)
    ensures Mean(Reversed(s)) == Mean(s)
  {
    if s != [] {
      var init, last := s[..|s| - 1], s[|s| - 1];
      TotalReversed(init);
      TotalAppend([last], Reversed(init));
      assert Total([last]) == last by {
        assert [last][..0] == [];
      }
    }
  }

  lemma {:induction false} TotalAtMost(s: seq<real>, hi: real)
    requires forall k :: 0 <= k < |s| ==> s[k] <= hi
    ensures Total(s) <= |s| as real * hi
  {
    if s != [] {
      TotalAtMost(s[..|s| - 1], hi);
    }
  }

  lemma {:induction false} TotalAtLeast(s: seq<real>, lo: real)
    requires forall k :: 0 <= k < |s| ==> lo <= s[k]
    ensures |s| as real * lo <= Total(s)
  {
    if s != [] {
      TotalAtLeast(s[..|s| - 1], lo);
    }
  }

  /** The mean of a non-empty list is at least any lower bound on its elements. */
  lemma MeanAtLeast(s: seq<real>, lo: real)
    requires |s| > 0
    requires forall k :: 0 <= k < |s| ==> lo <= s[k]
    ensures lo <= Mean(s)
  {
    TotalAtLeast(s, lo);
    var n := |s| as real;
    assert Mean(s) * n == Total(s);
  }

  /** The mean of a non-empty list is at most any upper bound on its elements. */
  lemma MeanAtMost(s: seq<real>, hi: real)
    requires |s| > 0
    requires forall k :: 0 <= k < |s| ==> s[k] <= hi
    ensures Mean(s) <= hi
  {
    TotalAtMost(s, hi);
    var n := |s| as real;
    assert Mean(s) * n == Total(s);
  }

  /** The mean of a non-empty list lies between any bounds on its elements. */
  lemma MeanBetween(s: seq<real>, lo: real, hi: real)
    requires |s| > 0
    requires forall k :: 0 <= k < |s| ==> lo <= s[k] <= hi
    ensures lo <= Mean(s) <= hi
  {
    MeanAtLeast(s, lo);
    MeanAtMost(s, hi);
  }

  /** Adding `c` to every element adds `|s| * c` to the total. */
  lemma {:induction false} TotalShifted(s: seq<real>, t: seq<real>, c: real)
    requires |t| == |s|
    requires forall k :: 0 <= k < |s| ==> t[k] == s[k] + c
    ensures Total(t) == Total(s) + |s| as real * c
  {
    if s != [] {
      TotalShifted(s[..|s| - 1], t[..|t| - 1], c);
    }
  }

  /** Adding `c` to every element of a non-empty list adds `c` to its mean. */
  lemma MeanShifted(s: seq<real>, t: seq<real>, c: real)
    requires |t| == |s| > 0
    requires forall k :: 0 <= k < |s| ==> t[k] == s[k] + c
    ensures Mean(t) == Mean(s) + c
  {
    TotalShifted(s, t, c);
    var n := |s| as real;
    assert Mean(t) * n == Total(t);
    assert Mean(s) * n == Total(s);
    assert (Mean(t) - Mean(s) - c) * n == 0.0;
  }
}
