/** Small shared vocabulary: optional values, results, and lists as Python builds them. */
module Prelude {
  datatype Option<+T> = None | Some(value: T)

  datatype Result<+T, +E> = Ok(value: T) | Err(error: E)

  function Last<T>(s: seq<T>): T
    requires s != []
  {
    s[|s| - 1]
  }

  /** Everything but the last element. */
  function Front<T>(s: seq<T>): seq<T>
    requires s != []
  {
    s[..|s| - 1]
  }

  function Concat<T>(parts: seq<seq<T>>): seq<T> {
    if parts == [] then [] else Concat(Front(parts)) + Last(parts)
  }

  lemma Associate<T>(a: seq<T>, b: seq<T>, c: seq<T>)
    ensures (a + b) + c == a + (b + c)
  {
  }

  /** Moving the k-th element of b over to the part already consumed. */
  lemma Consume<T>(a: seq<T>, b: seq<T>, k: nat)
    requires k < |b|
    ensures (a + b[..k]) + [b[k]] == a + b[..k + 1]
    ensures (a + b[..k + 1]) + b[k + 1..] == a + b
  {
  }

  lemma ConcatSnoc<T>(a: seq<seq<T>>, x: seq<T>)
    ensures Concat(a + [x]) == Concat(a) + x
  {
    assert Front(a + [x]) == a;
  }

  lemma {:induction false} ConcatAppend<T>(a: seq<seq<T>>, b: seq<seq<T>>)
    ensures Concat(a + b) == Concat(a) + Concat(b)
  {
    if b == [] {
      assert a + b == a;
    } else {
      var f, x := Front(b), Last(b);
      assert a + b == (a + f) + [x];
      ConcatSnoc(a + f, x);
      ConcatAppend(a, f);
      assert (Concat(a) + Concat(f)) + x == Concat(a) + (Concat(f) + x);
    }
  }

  lemma ConcatCons<T>(first: seq<T>, rest: seq<seq<T>>)
    ensures Concat([first] + rest) == first + Concat(rest)
  {
    ConcatAppend([first], rest);
    ConcatSnoc([], first);
    assert [] + [first] == [first];
  }

  /** The elements of s that satisfy p, in order. */
  function Filter<T(!new)>(s: seq<T>, p: T -> bool): (r: seq<T>)
    ensures forall x :: x in r <==> x in s && p(x)
    ensures |r| <= |s|
  {
    if s == [] then []
    else Filter(Front(s), p) + if p(Last(s)) then [Last(s)] else []
  }

  lemma {:induction false} FilterAppend<T(!new)>(a: seq<T>, b: seq<T>, p: T -> bool)
    ensures Filter(a + b, p) == Filter(a, p) + Filter(b, p)
  {
    if b == [] {
      assert a + b == a;
    } else {
      var f, last := Front(b), Last(b);
      assert Front(a + b) == a + f && Last(a + b) == last;
      FilterAppend(a, f, p);
      Associate(Filter(a, p), Filter(f, p), if p(last) then [last] else []);
    }
  }

  ghost function Positions<T(!new)>(s: seq<T>, p: T -> bool): set<int> {
    set i | 0 <= i < |s| && p(s[i])
  }

  lemma PositionsSnoc<T(!new)>(f: seq<T>, x: T, p: T -> bool)
    ensures Positions(f + [x], p) == Positions(f, p) + if p(x) then {|f|} else {}
  {
    var all := f + [x];
    assert all[|f|] == x && forall i :: 0 <= i < |f| ==> all[i] == f[i];
  }

  /** How many elements of s satisfy p, told by their positions. */
  lemma {:induction false} FilterCounts<T(!new)>(s: seq<T>, p: T -> bool)
    ensures |Filter(s, p)| == |Positions(s, p)|
  {
    if s == [] {
    } else {
      FilterCounts(Front(s), p);
      PositionsSnoc(Front(s), Last(s), p);
      assert s == Front(s) + [Last(s)];
    }
  }

  /** The position of the first element that satisfies p. */
  function IndexWhere<T>(s: seq<T>, p: T -> bool): (r: Option<nat>)
    ensures r.Some? ==> r.value < |s| && p(s[r.value])
    ensures r.Some? ==> forall i :: 0 <= i < r.value ==> !p(s[i])
    ensures r.None? ==> forall i :: 0 <= i < |s| ==> !p(s[i])
  {
    if s == [] then None
    else
      var earlier := IndexWhere(Front(s), p);
      if earlier.Some? then earlier else if p(Last(s)) then Some(|s| - 1) else None
  }

  /** The first n elements, or all if there are no more. */
  function AtMost<T>(s: seq<T>, n: nat): (r: seq<T>)
    ensures r <= s && |r| <= n && (r == s || |r| == n)
  {
    if |s| <= n then s else s[..n]
  }

  ghost predicate NoDup<T>(s: seq<T>) {
    forall i, j :: 0 <= i < j < |s| ==> s[i] != s[j]
  }
}
