/** Queries over in-memory tables. A table is the sequence of its rows in
    stored order; `query(...).filter(p).all()` is `Filter` and
    `query(...).filter(p).first()` is `Find`. */
module Tables {
  import opened Common

  /** The rows of `s` that satisfy `p`, in stored order. */
  function Filter<T>(s: seq<T>, p: T -> bool): (r: seq<T>)
    ensures |r| <= |s|
    ensures forall i :: 0 <= i < |r| ==> r[i] in s && p(r[i])
    ensures forall i :: 0 <= i < |s| && p(s[i]) ==> s[i] in r
  {
    if s == [] then []
    else if p(s[0]) then [s[0]] + Filter(s[1..], p)
    else Filter(s[1..], p)
  }

  /** Filtering distributes over concatenation: the result keeps stored order. */
  lemma {:induction false} FilterAppend<T>(a: seq<T>, b: seq<T>, p: T -> bool)
    ensures Filter(a + b, p) == Filter(a, p) + Filter(b, p)
  {
    if a == [] {
      assert a + b == b;
    } else {
      assert (a + b)[1..] == a[1..] + b;
      FilterAppend(a[1..], b, p);
    }
  }

  /** A row appended to the table appears last in the filtered result exactly when it matches. */
  lemma FilterSnoc<T>(s: seq<T>, x: T, p: T -> bool)
    ensures Filter(s + [x], p) == if p(x) then Filter(s, p) + [x] else Filter(s, p)
  {
    FilterAppend(s, [x], p);
    assert [x][1..] == [];
  }

  /** When every row matches, the filter returns the table unchanged. */
  lemma {:induction false} FilterAll<T>(s: seq<T>, p: T -> bool)
    requires forall i :: 0 <= i < |s| ==> p(s[i])
    ensures Filter(s, p) == s
  {
    if s != [] {
      FilterAll(s[1..], p);
    }
  }

  /** Filtering twice is filtering once by the conjunction. */
  lemma {:induction false} FilterFilter<T>(s: seq<T>, p: T -> bool, q: T -> bool, pq: T -> bool)
    requires forall i :: 0 <= i < |s| ==> pq(s[i]) == (p(s[i]) && q(s[i]))
    ensures Filter(Filter(s, p), q) == Filter(s, pq)
  {
    if s != [] {
      FilterFilter(s[1..], p, q, pq);
    }
  }

  /** `i` is the last index of `s` whose row satisfies `p`. */
  ghost predicate LastMatch<T>(s: seq<T>, p: T -> bool, i: int)
  {
    0 <= i < |s| && p(s[i]) && forall k :: i < k < |s| ==> !p(s[k])
  }

  /** The filter's last row is the row at the last matching index. */
  lemma {:induction false} FilterLastAt<T>(s: seq<T>, p: T -> bool, i: int)
    requires LastMatch(s, p, i)
    ensures Filter(s, p) != [] && Filter(s, p)[|Filter(s, p)| - 1] == s[i]
  {
    var n := |s| - 1;
    var init := s[..n];
    assert s == init + [s[n]];
    FilterSnoc(init, s[n], p);
    if i < n {
      assert LastMatch(init, p, i);
      FilterLastAt(init, p, i);
    }
  }

  /** A matching row at `j` means there is a last matching index. */
  lemma {:induction false} LastMatchFrom<T>(s: seq<T>, p: T -> bool, j: int) returns (i: int)
    requires 0 <= j < |s| && p(s[j])
    ensures LastMatch(s, p, i)
    decreases |s| - j
  {
    if LastMatch(s, p, j) {
      i := j;
    } else {
      var k :| j < k < |s| && p(s[k]);
      i := LastMatchFrom(s, p, k);
    }
  }

  /** A non-empty filter result ends with the row at the last matching index. */
  lemma FilterLastMatchExists<T>(s: seq<T>, p: T -> bool)
    requires Filter(s, p) != []
    ensures exists i :: LastMatch(s, p, i) && s[i] == Filter(s, p)[|Filter(s, p)| - 1]
  {
    var r := Filter(s, p);
    assert r[0] in s;
    var j :| 0 <= j < |s| && s[j] == r[0];
    var i := LastMatchFrom(s, p, j);
    FilterLastAt(s, p, i);
  }

  /** The first row of `s` that satisfies `p`, if any. */
  function Find<T>(s: seq<T>, p: T -> bool): (r: Option<T>)
    ensures r.None? <==> forall i :: 0 <= i < |s| ==> !p(s[i])
    ensures r.Some? ==> r.value in s && p(r.value)
  {
    if s == [] then None
    else if p(s[0]) then Some(s[0])
    else
      var r := Find(s[1..], p);
      assert forall i :: 1 <= i < |s| ==> s[i] == s[1..][i - 1];
      r
  }

  /** `i` is the first index of `s` whose row satisfies `p`. */
  ghost predicate FirstMatch<T>(s: seq<T>, p: T -> bool, i: int)
  {
    0 <= i < |s| && p(s[i]) && forall k :: 0 <= k < i ==> !p(s[k])
  }

  /** `Find` returns the row at the first matching index. */
  lemma {:induction false} FindFirst<T>(s: seq<T>, p: T -> bool, i: int)
    requires FirstMatch(s, p, i)
    ensures Find(s, p) == Some(s[i])
  {
    if i > 0 {
      assert FirstMatch(s[1..], p, i - 1) by {
        forall k | 0 <= k < i - 1 ensures !p(s[1..][k]) {
          assert s[1..][k] == s[k + 1];
        }
      }
      FindFirst(s[1..], p, i - 1);
    }
  }

  /** `Find` finds a row exactly when it stands at the first matching index. */
  lemma {:induction false} FindFirstMatch<T>(s: seq<T>, p: T -> bool, x: T)
    ensures Find(s, p) == Some(x) <==> exists i :: FirstMatch(s, p, i) && s[i] == x
  {
    if exists i :: FirstMatch(s, p, i) && s[i] == x {
      var i :| FirstMatch(s, p, i) && s[i] == x;
      FindFirst(s, p, i);
    }
    if Find(s, p) == Some(x) && s != [] && !p(s[0]) {
      FindFirstMatch(s[1..], p, x);
      var j :| FirstMatch(s[1..], p, j) && s[1..][j] == x;
      assert FirstMatch(s, p, j + 1);
    } else if Find(s, p) == Some(x) {
      assert FirstMatch(s, p, 0);
    }
  }

  /** Searching a concatenation searches the second part only when the first has no match. */
  lemma {:induction false} FindAppend<T>(a: seq<T>, b: seq<T>, p: T -> bool)
    ensures Find(a + b, p) == if Find(a, p).Some? then Find(a, p) else Find(b, p)
  {
    if a == [] {
      assert a + b == b;
    } else {
      assert (a + b)[1..] == a[1..] + b;
      FindAppend(a[1..], b, p);
    }
  }
}
