/** Stock facts about sequences. */
module Sequences {
  predicate Distinct<T(==)>(s: seq<T>) {
    forall i, j :: 0 <= i < j < |s| ==> s[i] != s[j]
  }

  /** The first occurrence taken out. */
  function Without<T(==)>(s: seq<T>, id: T): (r: seq<T>)
    ensures id in s ==> |r| == |s| - 1
  {
    if s == [] then []
    else if s[0] == id then s[1..]
    else [s[0]] + Without(s[1..], id)
  }

  function Min(a: nat, b: nat): nat { if a < b then a else b }

  /** The last `n` elements. */
  function Last<T>(s: seq<T>, n: nat): seq<T> {
    if |s| > n then s[|s| - n..] else s
  }

  lemma {:induction false} WithoutMembers<T>(s: seq<T>, id: T, x: T)
    ensures x in Without(s, id) ==> x in s
    ensures x in s && x != id ==> x in Without(s, id)
  {
    if s != [] && s[0] != id {
      WithoutMembers(s[1..], id, x);
      assert s == [s[0]] + s[1..];
    }
  }

  lemma {:induction false} WithoutIsDistinct<T>(s: seq<T>, id: T)
    requires Distinct(s)
    ensures Distinct(Without(s, id)) && id !in Without(s, id)
    ensures |Without(s, id)| == if id in s then |s| - 1 else |s|
  {
    if s != [] && s[0] != id {
      WithoutIsDistinct(s[1..], id);
      WithoutMembers(s[1..], id, s[0]);
      assert s == [s[0]] + s[1..];
    }
  }

  lemma {:induction false} WithoutAppend<T>(a: seq<T>, b: seq<T>, id: T)
    ensures Without(a + b, id) == if id in a then Without(a, id) + b else a + Without(b, id)
  {
    if a == [] {
      assert a + b == b && a + Without(b, id) == Without(b, id);
    } else {
      var head, tail := [a[0]], a[1..];
      assert a == head + tail;
      assert (a + b)[0] == a[0] && (a + b)[1..] == tail + b;
      if a[0] != id {
        WithoutAppend(tail, b, id);
        Regroup(head, Without(tail, id), b);
        Regroup(head, tail, Without(b, id));
      }
    }
  }

  lemma {:induction false} Regroup<T>(a: seq<T>, b: seq<T>, c: seq<T>)
    ensures (a + b) + c == a + (b + c)
  {}

  lemma {:induction false} WithoutAbsent<T>(s: seq<T>, id: T)
    requires id !in s
    ensures Without(s, id) == s
  {
    if s != [] { WithoutAbsent(s[1..], id); }
  }

  lemma {:induction false} LastOfLonger<T>(a: seq<T>, b: seq<T>, n: nat)
    requires n <= |b|
    ensures Last(a + b, n) == Last(b, n)
  {
    assert (a + b)[|a + b| - n..] == b[|b| - n..];
    assert b[0..] == b && (a + b)[0..] == a + b;
  }
}
