/**
 * Sequences used as database tables: the three query shapes the routes use
 * (`deleteMany` keeps the rows a filter rejects, `findFirst` takes the first
 * row that matches, `update`/`updateMany` rewrites the rows that match) and
 * the pairwise relation that states a uniqueness constraint of a table.
 */
module Seqs {
  import opened Wrappers

  /** The elements of `s` that satisfy `p`, in their original order. */
  function Filter<T(!new)>(s: seq<T>, p: T -> bool): (r: seq<T>)
    ensures |r| <= |s|
    ensures forall x :: x in r <==> x in s && p(x)
  {
    if s == [] then []
    else if p(s[0]) then [s[0]] + Filter(s[1..], p)
    else Filter(s[1..], p)
  }

  /** Filtering distributes over concatenation. */
  lemma {:induction false} FilterAppend<T(!new)>(a: seq<T>, b: seq<T>, p: T -> bool)
    ensures Filter(a + b, p) == Filter(a, p) + Filter(b, p)
  {
    if a == [] {
      assert a + b == b;
    } else {
      assert (a + b)[0] == a[0];
      assert (a + b)[1..] == a[1..] + b;
      FilterAppend(a[1..], b, p);
    }
  }

  /** A filter that keeps everything `q` keeps does not change what `q` then selects. */
  lemma {:induction false} FilterNarrow<T(!new)>(s: seq<T>, p: T -> bool, q: T -> bool)
    requires forall x :: q(x) ==> p(x)
    ensures Filter(Filter(s, p), q) == Filter(s, q)
  {
    if s != [] {
      FilterNarrow(s[1..], p, q);
      if p(s[0]) {
        assert Filter(s, p) == [s[0]] + Filter(s[1..], p);
        assert ([s[0]] + Filter(s[1..], p))[1..] == Filter(s[1..], p);
      }
    }
  }

  /** A filter that rejects nothing returns its input. */
  lemma {:induction false} FilterKeepsAll<T(!new)>(s: seq<T>, p: T -> bool)
    requires forall x :: x in s ==> p(x)
    ensures Filter(s, p) == s
  {
    if s != [] {
      assert forall x :: x in s[1..] ==> x in s;
      FilterKeepsAll(s[1..], p);
      assert [s[0]] + s[1..] == s;
    }
  }

  /** Two filters can be applied in either order. */
  lemma {:induction false} FilterCommute<T(!new)>(s: seq<T>, p: T -> bool, q: T -> bool)
    ensures Filter(Filter(s, p), q) == Filter(Filter(s, q), p)
  {
    if s != [] {
      FilterCommute(s[1..], p, q);
      if p(s[0]) {
        assert Filter(s, p) == [s[0]] + Filter(s[1..], p);
        assert ([s[0]] + Filter(s[1..], p))[1..] == Filter(s[1..], p);
      }
      if q(s[0]) {
        assert Filter(s, q) == [s[0]] + Filter(s[1..], q);
        assert ([s[0]] + Filter(s[1..], q))[1..] == Filter(s[1..], q);
      }
    }
  }

  /** A filter that every element fails returns the empty sequence. */
  lemma FilterNone<T(!new)>(s: seq<T>, p: T -> bool)
    requires forall x :: x in s ==> !p(x)
    ensures Filter(s, p) == []
  {
  }

  /**
   * Rewriting elements that a filter `q` rejects, into elements `q` still
   * rejects, does not change what `q` selects.
   */
  lemma {:induction false} FilterUpdateOutside<T(!new)>(s: seq<T>, p: T -> bool, f: T -> T, q: T -> bool)
    requires forall x :: x in s && p(x) ==> !q(x) && !q(f(x))
    ensures Filter(UpdateWhere(s, p, f), q) == Filter(s, q)
  {
    if s != [] {
      var u := UpdateWhere(s, p, f);
      assert u[1..] == UpdateWhere(s[1..], p, f);
      assert forall x :: x in s[1..] ==> x in s;
      FilterUpdateOutside(s[1..], p, f, q);
    }
  }

  /** The index of the first element of `s` that satisfies `p`, if any. */
  function FirstIndex<T(!new)>(s: seq<T>, p: T -> bool): (r: Option<nat>)
    ensures r.Some? ==> r.value < |s| && p(s[r.value])
    ensures r.Some? ==> forall j :: 0 <= j < r.value ==> !p(s[j])
    ensures r.None? ==> forall x :: x in s ==> !p(x)
  {
    if s == [] then None
    else if p(s[0]) then Some(0)
    else match FirstIndex(s[1..], p)
      case None => None
      case Some(i) => Some(i + 1)
  }

  /** `s` with every element that satisfies `p` replaced by its image under `f`. */
  function UpdateWhere<T(!new)>(s: seq<T>, p: T -> bool, f: T -> T): (r: seq<T>)
    ensures |r| == |s|
    ensures forall i :: 0 <= i < |s| ==> r[i] == if p(s[i]) then f(s[i]) else s[i]
  {
    if s == [] then []
    else [if p(s[0]) then f(s[0]) else s[0]] + UpdateWhere(s[1..], p, f)
  }

  /** Every two elements, the earlier first, are related by `R`. */
  ghost predicate Pairwise<T(!new)>(s: seq<T>, R: (T, T) -> bool)
  {
    forall i, j :: 0 <= i < j < |s| ==> R(s[i], s[j])
  }

  /** Removing elements keeps a pairwise relation. */
  lemma {:induction false} PairwiseFilter<T(!new)>(s: seq<T>, R: (T, T) -> bool, p: T -> bool)
    requires Pairwise(s, R)
    ensures Pairwise(Filter(s, p), R)
  {
    if s != [] {
      assert Pairwise(s[1..], R) by {
        forall i, j | 0 <= i < j < |s[1..]| ensures R(s[1..][i], s[1..][j]) {
          assert s[1..][i] == s[i + 1] && s[1..][j] == s[j + 1];
        }
      }
      PairwiseFilter(s[1..], R, p);
      if p(s[0]) {
        var t := Filter(s[1..], p);
        forall y | y in t ensures R(s[0], y) {
          var k :| 0 <= k < |s[1..]| && s[1..][k] == y;
          assert s[k + 1] == y;
        }
        PairwiseCons(s[0], t, R);
      }
    }
  }

  /** Prefixing an element related to every later one keeps a pairwise relation. */
  lemma PairwiseCons<T(!new)>(x: T, t: seq<T>, R: (T, T) -> bool)
    requires Pairwise(t, R)
    requires forall y :: y in t ==> R(x, y)
    ensures Pairwise([x] + t, R)
  {
    var s := [x] + t;
    forall i, j | 0 <= i < j < |s| ensures R(s[i], s[j]) {
      if i == 0 {
        assert s[j] == t[j - 1];
        assert s[j] in t;
      } else {
        assert s[i] == t[i - 1] && s[j] == t[j - 1];
      }
    }
  }

  /** Appending an element that every earlier one relates to keeps a pairwise relation. */
  lemma PairwiseSnoc<T(!new)>(t: seq<T>, x: T, R: (T, T) -> bool)
    requires Pairwise(t, R)
    requires forall y :: y in t ==> R(y, x)
    ensures Pairwise(t + [x], R)
  {
    var s := t + [x];
    forall i, j | 0 <= i < j < |s| ensures R(s[i], s[j]) {
      assert s[i] == t[i];
      if j == |t| {
        assert s[i] in t;
      } else {
        assert s[j] == t[j];
      }
    }
  }

  /** Two pairwise-related sequences, every element of the first related to every one of the second. */
  lemma PairwiseConcat<T(!new)>(a: seq<T>, b: seq<T>, R: (T, T) -> bool)
    requires Pairwise(a, R) && Pairwise(b, R)
    requires forall x, y :: x in a && y in b ==> R(x, y)
    ensures Pairwise(a + b, R)
  {
    var s := a + b;
    forall i, j | 0 <= i < j < |s| ensures R(s[i], s[j]) {
      if j < |a| {
        assert s[i] == a[i] && s[j] == a[j];
      } else if i < |a| {
        assert s[i] == a[i] && s[j] == b[j - |a|];
        assert s[i] in a && s[j] in b;
      } else {
        assert s[i] == b[i - |a|] && s[j] == b[j - |a|];
      }
    }
  }

  /** `le` orders every two elements one way or the other. */
  ghost predicate Total<T(!new)>(le: (T, T) -> bool)
  {
    forall a, b :: le(a, b) || le(b, a)
  }

  /** Every element is related by `le` to the next one. */
  predicate SortedBy<T>(s: seq<T>, le: (T, T) -> bool)
  {
    forall i :: 0 < i < |s| ==> le(s[i - 1], s[i])
  }

  ghost predicate Transitive<T(!new)>(le: (T, T) -> bool)
  {
    forall a, b, c :: le(a, b) && le(b, c) ==> le(a, c)
  }

  /** Under a transitive order, neighbours in order puts every earlier element before every later one. */
  lemma {:induction false} SortedByAll<T(!new)>(s: seq<T>, le: (T, T) -> bool, i: int, j: int)
    requires Transitive(le) && SortedBy(s, le)
    requires 0 <= i < j < |s|
    ensures le(s[i], s[j])
    decreases j - i
  {
    if i + 1 < j {
      SortedByAll(s, le, i + 1, j);
      assert le(s[i], s[i + 1]);
    }
  }

  /** `x` inserted into a sorted list, before the first element it precedes. */
  function InsertBy<T(!new)>(x: T, s: seq<T>, le: (T, T) -> bool): (r: seq<T>)
    requires Total(le) && SortedBy(s, le)
    ensures SortedBy(r, le) && multiset(r) == multiset(s) + multiset{x}
    ensures r[0] == x || (s != [] && r[0] == s[0])
  {
    if s == [] then [x]
    else if le(x, s[0]) then [x] + s
    else
      var rest := InsertBy(x, s[1..], le);
      InsertAfterHead(x, s, rest, le);
      [s[0]] + rest
  }

  /** The step of `InsertBy` that keeps the head in front of the rest with `x` inserted. */
  lemma InsertAfterHead<T(!new)>(x: T, s: seq<T>, rest: seq<T>, le: (T, T) -> bool)
    requires Total(le) && SortedBy(s, le) && s != [] && !le(x, s[0])
    requires SortedBy(rest, le) && multiset(rest) == multiset(s[1..]) + multiset{x}
    requires rest[0] == x || (|s| > 1 && rest[0] == s[1])
    ensures SortedBy([s[0]] + rest, le) && multiset([s[0]] + rest) == multiset(s) + multiset{x}
  {
    assert le(s[0], x);
    assert s == [s[0]] + s[1..];
    var t := [s[0]] + rest;
    forall i | 0 < i < |t| ensures le(t[i - 1], t[i]) {
      if i > 1 {
        assert t[i - 1] == rest[i - 2] && t[i] == rest[i - 1];
      }
    }
  }

  /** An `orderBy`: an insertion sort into the order `le`. */
  function SortBy<T(!new)>(s: seq<T>, le: (T, T) -> bool): (r: seq<T>)
    requires Total(le)
    ensures SortedBy(r, le) && multiset(r) == multiset(s)
  {
    if s == [] then []
    else
      assert s == [s[0]] + s[1..];
      InsertBy(s[0], SortBy(s[1..], le), le)
  }
}
