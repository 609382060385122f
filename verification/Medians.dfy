/** The median of a sample, and why it resists outliers. */
module Medians {
  import opened Common
  import opened SlidingLog

  predicate Ascending(s: seq<real>) {
    forall i, j :: 0 <= i <= j < |s| ==> s[i] <= s[j]
  }

  function Insert(x: real, s: seq<real>): seq<real> {
    if s == [] || x <= s[0] then [x] + s else [s[0]] + Insert(x, s[1..])
  }

  function Sort(s: seq<real>): seq<real> {
    if s == [] then [] else Insert(s[0], Sort(s[1..]))
  }

  function Median(offsets: seq<real>): real
    requires offsets != []
  {
    SortIsAscendingPermutation(offsets);
    var t, n := Sort(offsets), |offsets|;
    if n % 2 == 1 then t[n / 2] else (t[n / 2 - 1] + t[n / 2]) / 2.0
  }

  function Least(s: seq<real>): real
    requires s != []
  {
    if |s| == 1 then s[0]
    else var m := Least(s[..|s| - 1]); if s[|s| - 1] < m then s[|s| - 1] else m
  }

  function Greatest(s: seq<real>): real
    requires s != []
  {
    if |s| == 1 then s[0]
    else var m := Greatest(s[..|s| - 1]); if s[|s| - 1] > m then s[|s| - 1] else m
  }

  lemma {:induction false} InsertPermutes(x: real, s: seq<real>)
    ensures multiset(Insert(x, s)) == multiset(s) + multiset{x}
  {
    if s != [] && x > s[0] {
      InsertPermutes(x, s[1..]);
      assert s == [s[0]] + s[1..];
    }
  }

  lemma {:induction false} InsertAscends(x: real, s: seq<real>)
    requires Ascending(s)
    ensures Ascending(Insert(x, s))
    ensures Insert(x, s)[0] == if s == [] || x <= s[0] then x else s[0]
  {
    if s != [] && x > s[0] {
      InsertAscends(x, s[1..]);
    }
  }

  lemma {:induction false} SortPermutes(s: seq<real>)
    ensures multiset(Sort(s)) == multiset(s)
  {
    if s != [] {
      SortPermutes(s[1..]);
      InsertPermutes(s[0], Sort(s[1..]));
      assert s == [s[0]] + s[1..];
    }
  }

  lemma {:induction false} SortAscends(s: seq<real>)
    ensures Ascending(Sort(s))
  {
    if s != [] {
      SortAscends(s[1..]);
      InsertAscends(s[0], Sort(s[1..]));
    }
  }

  lemma SortIsAscendingPermutation(s: seq<real>)
    ensures multiset(Sort(s)) == multiset(s) && |Sort(s)| == |s|
    ensures Ascending(Sort(s))
  {
    SortPermutes(s);
    SortAscends(s);
    assert |Sort(s)| == |multiset(Sort(s))| == |multiset(s)| == |s|;
  }

  // The order of the sample does not matter

  lemma HeadIsLeast(s: seq<real>, t: seq<real>)
    requires Ascending(s) && s != [] && t != [] && multiset(s) == multiset(t)
    ensures s[0] <= t[0]
  {
    assert t[0] in multiset(s);
    assert t[0] in s;
  }

  lemma TailMultiset(s: seq<real>)
    requires s != []
    ensures multiset(s[1..]) == multiset(s) - multiset{s[0]}
  {
    assert s == [s[0]] + s[1..];
  }

  lemma {:induction false} AscendingIsUnique(s: seq<real>, t: seq<real>)
    requires Ascending(s) && Ascending(t) && multiset(s) == multiset(t)
    ensures s == t
  {
    assert |multiset(s)| == |s| && |multiset(t)| == |t|;
    if s != [] {
      HeadIsLeast(s, t);
      HeadIsLeast(t, s);
      TailMultiset(s);
      TailMultiset(t);
      AscendingIsUnique(s[1..], t[1..]);
      assert s == [s[0]] + s[1..] && t == [t[0]] + t[1..];
    }
  }

  lemma {:induction false} ExtremesOf(s: seq<real>)
    requires s != []
    ensures Least(s) in s && Greatest(s) in s
    ensures forall x :: x in s ==> Least(s) <= x <= Greatest(s)
  {
    if |s| > 1 {
      ExtremesOf(s[..|s| - 1]);
      assert s == s[..|s| - 1] + [s[|s| - 1]];
    }
  }

  lemma ExtremesIgnoreOrder(s: seq<real>, t: seq<real>)
    requires s != [] && t != [] && multiset(s) == multiset(t)
    ensures Least(s) == Least(t) && Greatest(s) == Greatest(t)
  {
    ExtremesOf(s);
    ExtremesOf(t);
    forall x ensures x in s <==> x in t {
      assert x in s <==> x in multiset(s);
      assert x in t <==> x in multiset(t);
    }
  }

  lemma MedianIgnoresOrder(s: seq<real>, t: seq<real>)
    requires s != [] && t != [] && multiset(s) == multiset(t)
    ensures Median(s) == Median(t)
  {
    assert |multiset(s)| == |s| && |multiset(t)| == |t|;
    SortIsAscendingPermutation(s);
    SortIsAscendingPermutation(t);
    AscendingIsUnique(Sort(s), Sort(t));
  }

  /** In any ascending arrangement of the sample the median is the middle element, or lies
      halfway between the two in the middle. */
  lemma MedianIsInTheMiddle(s: seq<real>, t: seq<real>)
    requires s != [] && Ascending(t) && multiset(s) == multiset(t)
    ensures |t| == |s|
    ensures |s| % 2 == 1 ==> Median(s) == t[|s| / 2]
    ensures |s| % 2 == 0 ==> Median(s) - t[|s| / 2 - 1] == t[|s| / 2] - Median(s)
  {
    assert |multiset(s)| == |s| && |multiset(t)| == |t|;
    SortIsAscendingPermutation(s);
    AscendingIsUnique(Sort(s), t);
  }

  // A majority decides the median

  lemma {:induction false} CountSplit(s: seq<real>, k: nat, lo: real, hi: real)
    requires k <= |s|
    ensures CountIn(s, lo, hi) == CountIn(s[..k], lo, hi) + CountIn(s[k..], lo, hi)
  {
    if k < |s| {
      var n := |s| - 1;
      CountSplit(s[..n], k, lo, hi);
      assert s[..n][..k] == s[..k] && s[..n][k..] == s[k..][..|s[k..]| - 1];
    } else {
      assert s[..k] == s;
    }
  }

  lemma {:induction false} CountAtMostLength(s: seq<real>, lo: real, hi: real)
    ensures CountIn(s, lo, hi) <= |s|
  {
    if s != [] {
      CountAtMostLength(s[..|s| - 1], lo, hi);
    }
  }

  lemma CountJoin(front: seq<real>, back: seq<real>, lo: real, hi: real)
    ensures CountIn(front + back, lo, hi) == CountIn(front, lo, hi) + CountIn(back, lo, hi)
  {
    CountSplit(front + back, |front|, lo, hi);
    assert (front + back)[..|front|] == front && (front + back)[|front|..] == back;
  }

  lemma CountWithout(front: seq<real>, x: real, back: seq<real>, lo: real, hi: real)
    ensures CountIn(front + [x] + back, lo, hi) ==
      CountIn(front + back, lo, hi) + (if lo <= x <= hi then 1 else 0)
  {
    CountJoin(front, back, lo, hi);
    CountJoin(front + [x], back, lo, hi);
    CountSnoc(front, x, lo, hi);
  }

  lemma {:induction false} CountOfReordered(s: seq<real>, t: seq<real>, lo: real, hi: real)
    requires multiset(s) == multiset(t)
    ensures CountIn(s, lo, hi) == CountIn(t, lo, hi)
  {
    assert |multiset(s)| == |s| && |multiset(t)| == |t|;
    if s != [] {
      var n := |s| - 1;
      var front, back := MatchLast(s, t);
      CountOfReordered(s[..n], front + back, lo, hi);
      CountWithout(front, s[n], back, lo, hi);
    }
  }

  lemma UpperMiddle(t: seq<real>, lo: real, hi: real)
    requires Ascending(t) && t != [] && 2 * CountIn(t, lo, hi) > |t|
    ensures t[|t| / 2] <= hi
  {
    var upper := |t| / 2;
    CountSplit(t, upper, lo, hi);
    CountAtMostLength(t[..upper], lo, hi);
    if t[upper] > hi {
      CountNone(t[upper..], lo, hi);
    }
  }

  lemma LowerMiddle(t: seq<real>, lo: real, hi: real)
    requires Ascending(t) && t != [] && 2 * CountIn(t, lo, hi) > |t|
    ensures lo <= t[(|t| - 1) / 2]
  {
    var lower := (|t| - 1) / 2;
    CountSplit(t, lower + 1, lo, hi);
    CountAtMostLength(t[lower + 1..], lo, hi);
    if t[lower] < lo {
      CountNone(t[..lower + 1], lo, hi);
    }
  }

  /** When strictly more than half of a sample lies in an interval, so does its median. */
  lemma MajorityHoldsTheMedian(offsets: seq<real>, lo: real, hi: real)
    requires 2 * CountIn(offsets, lo, hi) > |offsets|
    ensures offsets != [] && lo <= Median(offsets) <= hi
  {
    CountAtMostLength(offsets, lo, hi);
    var t := Sort(offsets);
    SortIsAscendingPermutation(offsets);
    CountOfReordered(offsets, t, lo, hi);
    UpperMiddle(t, lo, hi);
    LowerMiddle(t, lo, hi);
    assert t[(|t| - 1) / 2] <= t[|t| / 2];
  }

  // A constant added to the sample is added to what is read off it

  function Shift(s: seq<real>, c: real): seq<real> {
    seq(|s|, i requires 0 <= i < |s| => s[i] + c)
  }

  lemma ShiftSnoc(s: seq<real>, x: real, c: real)
    ensures Shift(s + [x], c) == Shift(s, c) + [x + c]
  {
  }

  lemma {:induction false} InsertShift(x: real, s: seq<real>, c: real)
    ensures Insert(x + c, Shift(s, c)) == Shift(Insert(x, s), c)
  {
    if s != [] && x > s[0] {
      InsertShift(x, s[1..], c);
      assert Shift(s, c)[1..] == Shift(s[1..], c);
      assert Shift([s[0]] + Insert(x, s[1..]), c) == [s[0] + c] + Shift(Insert(x, s[1..]), c);
      assert Shift(s, c)[0] == s[0] + c;
      assert Insert(x + c, Shift(s, c)) == [s[0] + c] + Insert(x + c, Shift(s, c)[1..]);
    } else {
      assert Shift([x] + s, c) == [x + c] + Shift(s, c);
      assert s != [] ==> Shift(s, c)[0] == s[0] + c;
    }
  }

  lemma {:induction false} SortShift(s: seq<real>, c: real)
    ensures Sort(Shift(s, c)) == Shift(Sort(s), c)
  {
    if s != [] {
      var t := Shift(s, c);
      assert t[1..] == Shift(s[1..], c) && t[0] == s[0] + c;
      SortShift(s[1..], c);
      InsertShift(s[0], Sort(s[1..]), c);
      assert Sort(t) == Insert(t[0], Sort(t[1..]));
    }
  }

  lemma MedianShift(s: seq<real>, c: real)
    requires s != []
    ensures Median(Shift(s, c)) == Median(s) + c
  {
    SortShift(s, c);
    SortIsAscendingPermutation(s);
  }

  lemma {:induction false} ExtremesShift(s: seq<real>, c: real)
    requires s != []
    ensures Least(Shift(s, c)) == Least(s) + c && Greatest(Shift(s, c)) == Greatest(s) + c
  {
    if |s| > 1 {
      ExtremesShift(s[..|s| - 1], c);
      assert Shift(s, c)[..|s| - 1] == Shift(s[..|s| - 1], c);
    }
  }
}
