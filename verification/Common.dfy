/** Small datatypes and counting facts shared by every module. */
module Common {
  datatype Option<+T> = None | Some(value: T)

  /** The floor every configured limit and capacity gets: the least number that is neither
      below one nor below the configured one. */
  function AtLeastOne(n: int): (r: int)
    ensures 1 <= r && n <= r && (r == 1 || r == n)
  {
    if n > 1 then n else 1
  }

  lemma OneMore(before: set<nat>, after: set<nat>, n: nat, more: bool)
    requires n !in before && forall i :: i in after <==> i in before || (more && i == n)
    ensures |after| == |before| + if more then 1 else 0
  {
    assert after == before + if more then {n} else {};
  }

  /** Positions in ascending order. */
  predicate Increasing(at: seq<nat>) {
    forall i, j :: 0 <= i < j < |at| ==> at[i] < at[j]
  }

  /** No more keys than slot numbers, when different keys hold different numbers. */
  lemma {:induction false} Pigeonhole(keys: set<nat>, slot: map<nat, nat>, n: nat)
    requires keys <= slot.Keys
    requires forall k :: k in keys ==> slot[k] < n
    requires forall j, k :: j in keys && k in keys && slot[j] == slot[k] ==> j == k
    ensures |keys| <= n
  {
    if n == 0 {
      assert keys == {} by {
        if k :| k in keys { assert slot[k] < n; }
      }
    } else if k :| k in keys && slot[k] == n - 1 {
      Pigeonhole(keys - {k}, slot, n - 1);
    } else {
      Pigeonhole(keys, slot, n - 1);
    }
  }

  /** As many keys as slot numbers, when different numbers belong to different keys. */
  lemma {:induction false} Surjection(keys: set<nat>, owner: map<nat, nat>, n: nat)
    requires forall i: nat :: i < n ==> i in owner && owner[i] in keys
    requires forall i: nat, j: nat :: i < n && j < n && owner[i] == owner[j] ==> i == j
    ensures |keys| >= n
  {
    if n > 0 {
      Surjection(keys - {owner[n - 1]}, owner, n - 1);
    }
  }

  lemma CancelOne<T>(a: multiset<T>, b: multiset<T>, x: T)
    requires a + multiset{x} == b + multiset{x}
    ensures a == b
  {
    forall y ensures a[y] == b[y] {
      assert (a + multiset{x})[y] == (b + multiset{x})[y];
    }
  }

  /** Two orderings of the same elements: the last of the first is found in the second,
      and the rest are orderings of the same elements again. */
  lemma MatchLast<T>(s: seq<T>, t: seq<T>) returns (front: seq<T>, back: seq<T>)
    requires s != [] && multiset(s) == multiset(t)
    ensures t == front + [s[|s| - 1]] + back
    ensures multiset(s[..|s| - 1]) == multiset(front + back)
  {
    var n, x := |s| - 1, s[|s| - 1];
    assert x in multiset(t);
    var k :| 0 <= k < |t| && t[k] == x;
    front, back := t[..k], t[k + 1..];
    assert t == front + [x] + back;
    assert s == s[..n] + [x];
    CancelOne(multiset(s[..n]), multiset(front + back), x);
  }

  /** `picked` are the marked values, in order: `at` says where each stands. */
  ghost predicate Picks<T>(marks: seq<Option<T>>, picked: seq<T>, at: seq<nat>) {
    && Increasing(at) && |at| == |picked|
    && (forall k: nat :: k in at <==> k < |marks| && marks[k].Some?)
    && (forall j :: 0 <= j < |at| ==> at[j] < |marks| && marks[at[j]] == Some(picked[j]))
  }

  lemma PicksSnoc<T>(marks: seq<Option<T>>, picked: seq<T>, at: seq<nat>, m: Option<T>)
    requires Picks(marks, picked, at)
    ensures if m.Some? then Picks(marks + [m], picked + [m.value], at + [|marks|]) else Picks(marks + [m], picked, at)
  {
    assert forall j :: 0 <= j < |at| ==> at[j] in at;
  }
}
