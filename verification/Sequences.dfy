/** Filtering and counting, which several parts do in loops of their own. */
module Sequences {
  function Filter<T(!new)>(s: seq<T>, p: T -> bool): seq<T> {
    if s == [] then [] else (if p(s[0]) then [s[0]] else []) + Filter(s[1..], p)
  }

  /** `a` is what stands in `s` at the positions `at`, in order. */
  ghost predicate Picks<T(!new)>(s: seq<T>, at: seq<nat>, a: seq<T>) {
    && |at| == |a|
    && (forall i, j :: 0 <= i < j < |at| ==> at[i] < at[j])
    && forall i :: 0 <= i < |at| ==> at[i] < |s| && a[i] == s[at[i]]
  }

  /** Filter keeps what stands at exactly the positions where `p` holds, in order. */
  lemma {:induction false} FilterPicks<T(!new)>(s: seq<T>, p: T -> bool) returns (at: seq<nat>)
    ensures Picks(s, at, Filter(s, p))
    ensures forall i: nat :: i < |s| ==> (i in at <==> p(s[i]))
  {
    at := [];
    if s != [] {
      var rest := FilterPicks(s[1..], p);
      PicksLater(s, rest, Filter(s[1..], p));
      at := Later(rest);
      if p(s[0]) {
        PicksFirst(s, at, Filter(s[1..], p));
        at := [0] + at;
      }
      forall i: nat | i < |s| ensures i in at <==> p(s[i]) {
        assert i > 0 ==> s[i] == s[1..][i - 1];
      }
    }
  }

  lemma PicksLater<T(!new)>(s: seq<T>, at: seq<nat>, a: seq<T>)
    requires s != [] && Picks(s[1..], at, a)
    ensures Picks(s, Later(at), a)
    ensures forall i: nat :: i in Later(at) <==> i > 0 && i - 1 in at
  {
    forall i: nat ensures i in Later(at) <==> i > 0 && i - 1 in at {
      if i > 0 && i - 1 in at {
        var k :| 0 <= k < |at| && at[k] == i - 1;
        assert Later(at)[k] == i;
      }
    }
  }

  lemma PicksFirst<T(!new)>(s: seq<T>, at: seq<nat>, a: seq<T>)
    requires s != [] && Picks(s, at, a) && 0 !in at
    ensures Picks(s, [0] + at, [s[0]] + a)
  {
    forall i | 0 <= i < |at| ensures at[i] > 0 {
      assert at[i] in at;
    }
  }

  function Later(at: seq<nat>): seq<nat> {
    seq(|at|, i requires 0 <= i < |at| => at[i] + 1)
  }

  lemma {:induction false} FilterSnoc<T(!new)>(s: seq<T>, x: T, p: T -> bool)
    ensures Filter(s + [x], p) == if p(x) then Filter(s, p) + [x] else Filter(s, p)
  {
    if s == [] {
      assert [x][1..] == [];
    } else {
      FilterSnoc(s[1..], x, p);
      assert (s + [x])[1..] == s[1..] + [x];
      var front := if p(s[0]) then [s[0]] else [];
      assert (front + Filter(s[1..], p)) + [x] == front + (Filter(s[1..], p) + [x]);
    }
  }

  lemma {:induction false} FilterHas<T(!new)>(s: seq<T>, p: T -> bool)
    ensures forall x :: x in Filter(s, p) <==> x in s && p(x)
  {
    if s != [] {
      FilterHas(s[1..], p);
      assert forall x :: x in s <==> x == s[0] || x in s[1..];
    }
  }

  /** How many numbers below `n` have the property. */
  ghost function NumberOf(n: nat, p: nat -> bool): nat {
    |set i: nat | i < n && p(i)|
  }

  lemma NumberOfNext(n: nat, p: nat -> bool)
    ensures NumberOf(n + 1, p) == NumberOf(n, p) + if p(n) then 1 else 0
    ensures NumberOf(0, p) == 0
  {
    var s := set i: nat | i < n && p(i);
    assert (set i: nat | i < n + 1 && p(i)) == if p(n) then s + {n} else s;
    assert (set i: nat | i < 0 && p(i)) == {};
  }
}
