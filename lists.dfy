/** List operations the queries and pages share: JavaScript `filter`, counting, SQL DISTINCT,
    and ORDER BY as a stable sort on lexicographically compared integer keys. */
module Lists {
  import opened Wrappers

  /** `s.filter(p)`: the elements satisfying `p`, in their original order. */
  function Filter<T(!new)>(s: seq<T>, p: T -> bool): (r: seq<T>)
    ensures |r| <= |s|
    ensures forall x :: x in r <==> x in s && p(x)
    ensures multiset(r) <= multiset(s)
  {
    if |s| == 0 then []
    else
      assert s == [s[0]] + s[1..];
      if p(s[0]) then [s[0]] + Filter(s[1..], p)
      else Filter(s[1..], p)
  }

  /** Number of elements satisfying `p`. */
  function Count<T>(s: seq<T>, p: T -> bool): nat {
    if |s| == 0 then 0
    else (if p(s[0]) then 1 else 0) + Count(s[1..], p)
  }

  /** Filtering keeps exactly as many elements as satisfy the predicate. */
  lemma {:induction false} FilterLength<T(!new)>(s: seq<T>, p: T -> bool)
    ensures |Filter(s, p)| == Count(s, p)
  {
    if |s| > 0 {
      FilterLength(s[1..], p);
    }
  }

  /** Filtering distributes over concatenation. */
  lemma {:induction false} FilterAppend<T(!new)>(a: seq<T>, b: seq<T>, p: T -> bool)
    ensures Filter(a + b, p) == Filter(a, p) + Filter(b, p)
  {
    if |a| == 0 {
      assert a + b == b;
    } else {
      assert (a + b)[1..] == a[1..] + b;
      FilterAppend(a[1..], b, p);
    }
  }

  /** No element occurs twice. */
  predicate Distinct<T(==)>(s: seq<T>) {
    forall i, j :: 0 <= i < j < |s| ==> s[i] != s[j]
  }

  /** SELECT DISTINCT: every element once, at its last occurrence (`Dedupe([a, b, a]) == [b, a]`). */
  function Dedupe<T(==,!new)>(s: seq<T>): (r: seq<T>)
    ensures Distinct(r)
    ensures forall x :: x in r <==> x in s
    ensures |r| <= |s|
  {
    if |s| == 0 then []
    else
      var rest := Dedupe(s[1..]);
      if s[0] in rest then rest else [s[0]] + rest
  }

  /** `a` precedes or equals `b` in lexicographic order. */
  predicate LexLe(a: seq<int>, b: seq<int>) {
    |a| == 0 || (|b| > 0 && (a[0] < b[0] || (a[0] == b[0] && LexLe(a[1..], b[1..]))))
  }

  /** Any two keys are comparable. */
  lemma {:induction false} LexTotal(a: seq<int>, b: seq<int>)
    ensures LexLe(a, b) || LexLe(b, a)
  {
    if |a| > 0 && |b| > 0 && a[0] == b[0] {
      LexTotal(a[1..], b[1..]);
    }
  }

  /** The order is transitive. */
  lemma {:induction false} LexTrans(a: seq<int>, b: seq<int>, c: seq<int>)
    requires LexLe(a, b) && LexLe(b, c)
    ensures LexLe(a, c)
  {
    if |a| > 0 && a[0] == b[0] && b[0] == c[0] {
      LexTrans(a[1..], b[1..], c[1..]);
    }
  }

  /** Every pair of elements is in key order. */
  predicate SortedBy<T>(s: seq<T>, key: T -> seq<int>) {
    forall i, j :: 0 <= i < j < |s| ==> LexLe(key(s[i]), key(s[j]))
  }

  /** A sorted list stays sorted when an element no greater than all of it is put in front. */
  lemma PrependSorted<T>(h: T, t: seq<T>, key: T -> seq<int>)
    requires SortedBy(t, key)
    requires forall k :: 0 <= k < |t| ==> LexLe(key(h), key(t[k]))
    ensures SortedBy([h] + t, key)
  {
    var r := [h] + t;
    forall i, j | 0 <= i < j < |r| ensures LexLe(key(r[i]), key(r[j])) {
      if i > 0 {
        assert r[i] == t[i - 1] && r[j] == t[j - 1];
      } else {
        assert r[j] == t[j - 1];
      }
    }
  }

  /** Puts `x` before the first element whose key is not smaller: later equal keys stay after it. */
  function Insert<T>(x: T, s: seq<T>, key: T -> seq<int>): (r: seq<T>)
    requires SortedBy(s, key)
    ensures SortedBy(r, key)
    ensures multiset(r) == multiset(s) + multiset{x}
    ensures |r| == |s| + 1
    ensures forall k :: 0 <= k < |r| ==> r[k] == x || r[k] in s
  {
    if |s| == 0 then [x]
    else if LexLe(key(x), key(s[0])) then
      assert forall k :: 0 <= k < |s| ==> LexLe(key(x), key(s[k])) by {
        forall k | 0 < k < |s| ensures LexLe(key(x), key(s[k])) {
          LexTrans(key(x), key(s[0]), key(s[k]));
        }
      }
      PrependSorted(x, s, key);
      [x] + s
    else
      var rest := Insert(x, s[1..], key);
      LexTotal(key(x), key(s[0]));
      assert forall k :: 0 <= k < |rest| ==> LexLe(key(s[0]), key(rest[k])) by {
        forall k | 0 <= k < |rest| ensures LexLe(key(s[0]), key(rest[k])) {
          if rest[k] != x {
            var m :| 0 <= m < |s[1..]| && s[1..][m] == rest[k];
            assert s[m + 1] == rest[k];
          }
        }
      }
      PrependSorted(s[0], rest, key);
      assert s == [s[0]] + s[1..];
      [s[0]] + rest
  }

  /** ORDER BY key: a stable insertion sort. */
  function SortBy<T>(s: seq<T>, key: T -> seq<int>): (r: seq<T>)
    ensures SortedBy(r, key)
    ensures multiset(r) == multiset(s)
    ensures |r| == |s|
  {
    if |s| == 0 then []
    else
      assert s == [s[0]] + s[1..];
      Insert(s[0], SortBy(s[1..], key), key)
  }

  /** A string's key: its character codes, so that names order lexicographically. */
  function CharCodes(s: string): (r: seq<int>)
    ensures |r| == |s|
    ensures forall i :: 0 <= i < |s| ==> r[i] == s[i] as int
  {
    seq(|s|, i requires 0 <= i < |s| => s[i] as int)
  }

  /** `rows[0]` of a SELECT ... WHERE p without ORDER BY: the first row satisfying `p`, if any. */
  function Find<T(!new)>(rows: seq<T>, p: T -> bool): (r: Option<T>)
    ensures r.None? <==> forall k :: 0 <= k < |rows| ==> !p(rows[k])
    ensures r.Some? ==> r.value in rows && p(r.value)
  {
    if |rows| == 0 then None
    else if p(rows[0]) then Some(rows[0])
    else Find(rows[1..], p)
  }

  /** Appending a row only matters to Find when no earlier row matches. */
  lemma {:induction false} FindAppend<T(!new)>(rows: seq<T>, x: T, p: T -> bool)
    ensures Find(rows + [x], p) == if Find(rows, p).Some? then Find(rows, p)
                                   else if p(x) then Some(x) else None
  {
    if |rows| > 0 {
      assert (rows + [x])[1..] == rows[1..] + [x];
      FindAppend(rows[1..], x, p);
    }
  }

  /** Filtering with a test every element fails gives nothing. */
  lemma {:induction false} FilterNone<T(!new)>(s: seq<T>, p: T -> bool)
    requires forall k :: 0 <= k < |s| ==> !p(s[k])
    ensures Filter(s, p) == []
  {
    if |s| > 0 {
      FilterNone(s[1..], p);
    }
  }

  /** Filtering with a test every element passes keeps everything. */
  lemma {:induction false} FilterAll<T(!new)>(s: seq<T>, p: T -> bool)
    requires forall k :: 0 <= k < |s| ==> p(s[k])
    ensures Filter(s, p) == s
  {
    if |s| > 0 {
      FilterAll(s[1..], p);
    }
  }

  /** A test and its negation split a list in two: every element lands in exactly one part. */
  lemma FilterComplement<T(!new)>(s: seq<T>, p: T -> bool, q: T -> bool)
    requires forall x :: q(x) == !p(x)
    ensures |Filter(s, p)| + |Filter(s, q)| == |s|
    ensures multiset(Filter(s, p)) + multiset(Filter(s, q)) == multiset(s)
  {
    FilterComplementParts(s, p, q);
    assert |multiset(Filter(s, p)) + multiset(Filter(s, q))| == |multiset(s)|;
  }

  lemma {:induction false} FilterComplementParts<T(!new)>(s: seq<T>, p: T -> bool, q: T -> bool)
    requires forall x :: q(x) == !p(x)
    ensures multiset(Filter(s, p)) + multiset(Filter(s, q)) == multiset(s)
  {
    if |s| > 0 {
      var x, rest := s[0], s[1..];
      FilterComplementParts(rest, p, q);
      assert s == [x] + rest;
      assert multiset(s) == multiset{x} + multiset(rest);
      if p(x) {
        assert Filter(s, p) == [x] + Filter(rest, p);
        assert multiset(Filter(s, p)) == multiset{x} + multiset(Filter(rest, p));
        assert Filter(s, q) == Filter(rest, q);
      } else {
        assert Filter(s, p) == Filter(rest, p);
        assert Filter(s, q) == [x] + Filter(rest, q);
        assert multiset(Filter(s, q)) == multiset{x} + multiset(Filter(rest, q));
      }
    }
  }

  /** Filtering a list without repeats leaves a list without repeats. */
  lemma {:induction false} FilterDistinct<T(!new)>(s: seq<T>, p: T -> bool)
    requires Distinct(s)
    ensures Distinct(Filter(s, p))
  {
    if |s| > 0 {
      var x, rest := s[0], s[1..];
      assert Distinct(rest);
      FilterDistinct(rest, p);
      if p(x) {
        assert x !in rest;
        assert x !in Filter(rest, p);
        assert Filter(s, p) == [x] + Filter(rest, p);
      }
    }
  }

  /** A filter by a stronger test absorbs a filter by a weaker one. */
  lemma {:induction false} FilterFilter<T(!new)>(s: seq<T>, weak: T -> bool, strong: T -> bool)
    requires forall x :: strong(x) ==> weak(x)
    ensures Filter(Filter(s, weak), strong) == Filter(s, strong)
  {
    if |s| > 0 {
      FilterFilter(s[1..], weak, strong);
    }
  }

  /** `UPDATE ... SET f WHERE hit`: every row satisfying `hit` is rewritten by `f`, in place. */
  function UpdateWhere<T>(rows: seq<T>, hit: T -> bool, f: T -> T): (r: seq<T>)
    ensures |r| == |rows|
    ensures forall k :: 0 <= k < |r| ==> r[k] == if hit(rows[k]) then f(rows[k]) else rows[k]
  {
    if |rows| == 0 then []
    else [if hit(rows[0]) then f(rows[0]) else rows[0]] + UpdateWhere(rows[1..], hit, f)
  }

  /** An UPDATE that does not change whether a row matches `p` leaves Find on the same row,
      now updated. */
  lemma {:induction false} FindAfterUpdate<T(!new)>(rows: seq<T>, hit: T -> bool, f: T -> T, p: T -> bool)
    requires forall x :: p(f(x)) == p(x)
    ensures Find(UpdateWhere(rows, hit, f), p)
              == match Find(rows, p)
                 case None => None
                 case Some(x) => Some(if hit(x) then f(x) else x)
  {
    if |rows| > 0 {
      var r := UpdateWhere(rows, hit, f);
      assert r[1..] == UpdateWhere(rows[1..], hit, f);
      if !p(rows[0]) {
        FindAfterUpdate(rows[1..], hit, f, p);
      }
    }
  }

  /** The rows of a join that keeps or drops each element and maps the kept ones, in order. */
  function Collect<A(!new), B(!new)>(s: seq<A>, f: A -> Option<B>): (r: seq<B>)
    ensures |r| <= |s|
    ensures forall y :: y in r <==> exists k :: 0 <= k < |s| && f(s[k]) == Some(y)
  {
    if |s| == 0 then []
    else
      var rest := Collect(s[1..], f);
      assert forall k :: 0 < k < |s| ==> s[k] == s[1..][k - 1];
      match f(s[0])
      case Some(y) => [y] + rest
      case None => rest
  }

  /** An element is collected exactly when some input maps to it. */
  lemma CollectMember<A(!new), B(!new)>(s: seq<A>, f: A -> Option<B>, y: B)
    ensures y in Collect(s, f) <==> exists x :: x in s && f(x) == Some(y)
  {
    if y in Collect(s, f) {
      var k :| 0 <= k < |s| && f(s[k]) == Some(y);
      assert s[k] in s;
    }
    if exists x :: x in s && f(x) == Some(y) {
      var x :| x in s && f(x) == Some(y);
      var k :| 0 <= k < |s| && s[k] == x;
    }
  }

  /** One element's rows after another's, as a join with a one-to-many table produces them. */
  function FlatMap<A(!new), B(!new)>(s: seq<A>, f: A -> seq<B>): (r: seq<B>)
    ensures forall y :: y in r <==> exists k :: 0 <= k < |s| && y in f(s[k])
  {
    if |s| == 0 then []
    else
      assert forall k :: 0 < k < |s| ==> s[k] == s[1..][k - 1];
      f(s[0]) + FlatMap(s[1..], f)
  }

  /** SQL LIMIT n: the first n rows, or all of them. */
  function Take<T>(s: seq<T>, n: nat): (r: seq<T>)
    ensures |r| == if n < |s| then n else |s|
    ensures r == s[..|r|]
  {
    if n < |s| then s[..n] else s
  }

  /** A list without repeats holds each element at most once. */
  lemma {:induction false} DistinctCount<T>(s: seq<T>, x: T)
    requires Distinct(s)
    ensures multiset(s)[x] <= 1
  {
    if |s| > 0 {
      assert s == [s[0]] + s[1..];
      assert Distinct(s[1..]);
      DistinctCount(s[1..], x);
      if s[0] == x {
        assert x !in s[1..];
      }
    }
  }

  /** A rearrangement of a list without repeats has no repeats. */
  lemma PermutationDistinct<T>(s: seq<T>, r: seq<T>)
    requires Distinct(s) && multiset(r) == multiset(s)
    ensures Distinct(r)
  {
    forall i, j | 0 <= i < j < |r| ensures r[i] != r[j] {
      RepeatCount(r, i, j);
      DistinctCount(s, r[i]);
    }
  }

  /** An element at two positions occurs at least twice. */
  lemma RepeatCount<T>(r: seq<T>, i: nat, j: nat)
    requires i < j < |r|
    ensures r[i] == r[j] ==> multiset(r)[r[i]] >= 2
  {
    assert r == r[..j] + [r[j]] + r[j + 1..];
    assert r[i] in r[..j];
  }

  /** LIMIT after ORDER BY keeps the best rows: every row cut off ranks no earlier than every
      row kept. */
  lemma TakeSortedKeepsBest<T>(s: seq<T>, key: T -> seq<int>, n: nat)
    requires SortedBy(s, key)
    ensures forall x, y :: x in s && x !in Take(s, n) && y in Take(s, n) ==> LexLe(key(y), key(x))
  {
    var r := Take(s, n);
    forall x, y | x in s && x !in r && y in r ensures LexLe(key(y), key(x)) {
      var i :| 0 <= i < |r| && r[i] == y;
      var j :| 0 <= j < |s| && s[j] == x;
      assert s[i] == y;
    }
  }

  /** SELECT DISTINCT ... ORDER BY key LIMIT n: the n best distinct rows, in key order. */
  function TopBy<T(==,!new)>(s: seq<T>, key: T -> seq<int>, n: nat): (r: seq<T>)
    ensures |r| == if n < |Dedupe(s)| then n else |Dedupe(s)|
    ensures SortedBy(r, key)
    ensures Distinct(r)
    ensures forall x :: x in r ==> x in s
    ensures |Dedupe(s)| <= n ==> forall x :: x in s ==> x in r
    ensures forall x, y :: x in s && x !in r && y in r ==> LexLe(key(y), key(x))
  {
    var distinct := Dedupe(s);
    var ranked := SortBy(distinct, key);
    SameMembers(distinct, ranked);
    PermutationDistinct(distinct, ranked);
    TakeSortedKeepsBest(ranked, key, n);
    Take(ranked, n)
  }

  /** A rearrangement holds the same elements. */
  lemma SameMembers<T>(s: seq<T>, r: seq<T>)
    requires multiset(r) == multiset(s)
    ensures forall x :: x in r <==> x in s
  {
    assert forall x :: x in r <==> x in multiset(r);
    assert forall x :: x in s <==> x in multiset(s);
  }

  /** In a list sorted by a key, the first components of the keys never decrease. */
  lemma {:induction false} SortedFirstComponent<T>(s: seq<T>, key: T -> seq<int>, i: nat, j: nat)
    requires SortedBy(s, key)
    requires i < j < |s| && |key(s[i])| > 0 && |key(s[j])| > 0
    ensures key(s[i])[0] <= key(s[j])[0]
  {
    assert LexLe(key(s[i]), key(s[j]));
  }

  /** Elements with the same first key component are ordered by the second. */
  lemma SortedSecondComponent<T>(s: seq<T>, key: T -> seq<int>, i: nat, j: nat)
    requires SortedBy(s, key)
    requires i < j < |s| && |key(s[i])| > 1 && |key(s[j])| > 1
    requires key(s[i])[0] == key(s[j])[0]
    ensures key(s[i])[1] <= key(s[j])[1]
  {
    assert LexLe(key(s[i]), key(s[j]));
    assert LexLe(key(s[i])[1..], key(s[j])[1..]);
  }
}
