// Generic sequence operations standing for the JavaScript array methods the
// source uses: `filter`, `reduce` into a sum or a count, `slice`/`limit`,
// deletion by index through `filter((_, i) => i !== index)`, and the stable
// `Array.prototype.sort` with a comparator.

module Seqs {

  // ---------------------------------------------------------------- filter

  /** `s.filter(p)`: the elements satisfying p, in their original order. */
  function Filter<T>(s: seq<T>, p: T -> bool): (r: seq<T>)
    ensures |r| <= |s|
    ensures forall x :: x in r ==> x in s && p(x)
    decreases |s|
  {
    if s == [] then []
    else (if p(s[0]) then [s[0]] else []) + Filter(s[1..], p)
  }

  lemma {:induction false} FilterComplete<T>(s: seq<T>, p: T -> bool, x: T)
    requires x in s && p(x)
    ensures x in Filter(s, p)
    decreases |s|
  {
    if s[0] != x {
      FilterComplete(s[1..], p, x);
    }
  }

  lemma {:induction false} FilterAppend<T>(a: seq<T>, b: seq<T>, p: T -> bool)
    ensures Filter(a + b, p) == Filter(a, p) + Filter(b, p)
    decreases |a|
  {
    if a == [] {
      assert a + b == b;
    } else {
      assert (a + b)[0] == a[0];
      assert (a + b)[1..] == a[1..] + b;
      FilterAppend(a[1..], b, p);
    }
  }

  /** r is obtained from s by deleting elements, keeping the order of the rest. */
  predicate IsSubsequence<T(==)>(r: seq<T>, s: seq<T>)
    decreases |s|
  {
    if r == [] then true
    else if s == [] then false
    else if r[0] == s[0] then IsSubsequence(r[1..], s[1..])
    else IsSubsequence(r, s[1..])
  }

  lemma {:induction false} SubsequenceOfTail<T>(r: seq<T>, s: seq<T>)
    requires s != [] && IsSubsequence(r, s[1..])
    ensures IsSubsequence(r, s)
    decreases |s|, 0
  {
    if r != [] && r[0] == s[0] {
      SubsequenceDropHead(r, s[1..]);
    }
  }

  lemma {:induction false} SubsequenceDropHead<T>(r: seq<T>, s: seq<T>)
    requires r != [] && IsSubsequence(r, s)
    ensures IsSubsequence(r[1..], s)
    decreases |s|, 1
  {
    if r[0] == s[0] {
      if r[1..] != [] {
        SubsequenceOfTail(r[1..], s);
      }
    } else {
      SubsequenceDropHead(r, s[1..]);
      if r[1..] != [] {
        SubsequenceOfTail(r[1..], s);
      }
    }
  }

  lemma {:induction false} FilterIsSubsequence<T>(s: seq<T>, p: T -> bool)
    ensures IsSubsequence(Filter(s, p), s)
    decreases |s|
  {
    if s != [] {
      FilterIsSubsequence(s[1..], p);
      var r := Filter(s, p);
      if p(s[0]) {
        assert r == [s[0]] + Filter(s[1..], p);
        assert r[1..] == Filter(s[1..], p);
      } else {
        assert r == Filter(s[1..], p);
        if r != [] {
          SubsequenceOfTail(r, s);
        }
      }
    }
  }

  /** Filtering with a predicate that holds everywhere keeps everything. */
  lemma {:induction false} FilterAll<T>(s: seq<T>, p: T -> bool)
    requires forall x :: x in s ==> p(x)
    ensures Filter(s, p) == s
    decreases |s|
  {
    if s != [] {
      FilterAll(s[1..], p);
    }
  }

  // ------------------------------------------------------------ count, sum

  /** `s.filter(p).length` */
  function Count<T>(s: seq<T>, p: T -> bool): (n: nat)
    ensures n <= |s|
    decreases |s|
  {
    if s == [] then 0 else (if p(s[0]) then 1 else 0) + Count(s[1..], p)
  }

  lemma {:induction false} CountIsFilterLength<T>(s: seq<T>, p: T -> bool)
    ensures Count(s, p) == |Filter(s, p)|
    decreases |s|
  {
    if s != [] {
      CountIsFilterLength(s[1..], p);
    }
  }

  lemma {:induction false} CountAppend<T>(a: seq<T>, b: seq<T>, p: T -> bool)
    ensures Count(a + b, p) == Count(a, p) + Count(b, p)
    decreases |a|
  {
    if a == [] {
      assert a + b == b;
    } else {
      assert (a + b)[0] == a[0];
      assert (a + b)[1..] == a[1..] + b;
      CountAppend(a[1..], b, p);
    }
  }

  /** `s.reduce((acc, x) => acc + f(x), 0)` over reals. */
  function Sum<T>(s: seq<T>, f: T -> real): real
    decreases |s|
  {
    if s == [] then 0.0 else f(s[0]) + Sum(s[1..], f)
  }

  lemma {:induction false} SumAppend<T>(a: seq<T>, b: seq<T>, f: T -> real)
    ensures Sum(a + b, f) == Sum(a, f) + Sum(b, f)
    decreases |a|
  {
    if a == [] {
      assert a + b == b;
    } else {
      assert (a + b)[0] == a[0];
      assert (a + b)[1..] == a[1..] + b;
      SumAppend(a[1..], b, f);
    }
  }

  /** `s.reduce((acc, x) => acc + f(x), 0)` over integers. */
  function SumInt<T>(s: seq<T>, f: T -> int): int
    decreases |s|
  {
    if s == [] then 0 else f(s[0]) + SumInt(s[1..], f)
  }

  lemma {:induction false} SumIntAppend<T>(a: seq<T>, b: seq<T>, f: T -> int)
    ensures SumInt(a + b, f) == SumInt(a, f) + SumInt(b, f)
    decreases |a|
  {
    if a == [] {
      assert a + b == b;
    } else {
      assert (a + b)[0] == a[0];
      assert (a + b)[1..] == a[1..] + b;
      SumIntAppend(a[1..], b, f);
    }
  }

  lemma {:induction false} SumIntNonNegative<T>(s: seq<T>, f: T -> int)
    requires forall x :: x in s ==> f(x) >= 0
    ensures SumInt(s, f) >= 0
    decreases |s|
  {
    if s != [] {
      SumIntNonNegative(s[1..], f);
    }
  }

  // ----------------------------------------------------- delete by index

  /** `s.filter((_, i) => i !== index)`: an index outside the list removes nothing. */
  function RemoveAt<T>(s: seq<T>, index: int): (r: seq<T>)
    ensures 0 <= index < |s| ==> |r| == |s| - 1
    ensures 0 <= index < |s| ==> forall k :: 0 <= k < index ==> r[k] == s[k]
    ensures 0 <= index < |s| ==> forall k :: index <= k < |r| ==> r[k] == s[k + 1]
    ensures !(0 <= index < |s|) ==> r == s
  {
    if 0 <= index < |s| then s[..index] + s[index + 1..] else s
  }

  // ------------------------------------------------------------ wrap-around

  /** Position m of a list of length n, read round the end at most once. */
  function Wrap(m: int, n: nat): int
  {
    if m < n then m else m - n
  }

  /** Below twice the length, the remainder is at most one subtraction. */
  lemma WrapMod(m: int, n: nat)
    requires 0 <= m < 2 * n
    ensures m % n == Wrap(m, n)
  {
  }

  // ----------------------------------------------------------------- limit

  /** `.limit(n)`: the first n elements, or all of them when there are fewer. */
  function Take<T>(s: seq<T>, n: nat): (r: seq<T>)
    ensures |r| == if |s| < n then |s| else n
    ensures r == s[..|r|]
  {
    if |s| <= n then s else s[..n]
  }

  // ------------------------------------------------------------------ sort

  /** A comparator `(a, b) => ...` read as "a may come before b". */
  ghost predicate TotalPreorder<T(!new)>(le: (T, T) -> bool)
  {
    && (forall a, b :: le(a, b) || le(b, a))
    && (forall a, b, c :: le(a, b) && le(b, c) ==> le(a, c))
  }

  ghost predicate SortedBy<T>(s: seq<T>, le: (T, T) -> bool)
  {
    forall i, j :: 0 <= i < j < |s| ==> le(s[i], s[j])
  }

  /** Insert x before the first element it may precede. */
  function Insert<T>(x: T, s: seq<T>, le: (T, T) -> bool): (r: seq<T>)
    ensures multiset(r) == multiset{x} + multiset(s)
    ensures |r| == |s| + 1
    decreases |s|
  {
    if s == [] then [x]
    else if le(x, s[0]) then [x] + s
    else
      assert s == [s[0]] + s[1..];
      [s[0]] + Insert(x, s[1..], le)
  }

  /** The stable sort `Array.prototype.sort` performs, written as insertion sort. */
  function SortBy<T>(s: seq<T>, le: (T, T) -> bool): (r: seq<T>)
    ensures multiset(r) == multiset(s)
    ensures |r| == |s|
    decreases |s|
  {
    if s == [] then []
    else
      assert s == [s[0]] + s[1..];
      Insert(s[0], SortBy(s[1..], le), le)
  }

  lemma {:induction false} InsertSorted<T(!new)>(x: T, s: seq<T>, le: (T, T) -> bool)
    requires TotalPreorder(le) && SortedBy(s, le)
    ensures SortedBy(Insert(x, s, le), le)
    decreases |s|
  {
    if s != [] && !le(x, s[0]) {
      InsertSorted(x, s[1..], le);
      var r := Insert(x, s, le);
      var t := Insert(x, s[1..], le);
      assert r == [s[0]] + t;
      assert le(s[0], x);
      forall k | 0 <= k < |t| ensures le(s[0], t[k]) {
        assert t[k] in multiset(t);
        assert t[k] == x || t[k] in multiset(s[1..]);
        if t[k] != x {
          var m :| 0 <= m < |s[1..]| && s[1..][m] == t[k];
          assert s[m + 1] == t[k];
        }
      }
    } else if s != [] {
      var r := Insert(x, s, le);
      forall i, j | 0 <= i < j < |r| ensures le(r[i], r[j]) {
        if i == 0 {
          assert le(x, s[0]);
          if j > 1 { assert le(s[0], s[j - 1]); }
        }
      }
    }
  }

  lemma {:induction false} SortBySorted<T(!new)>(s: seq<T>, le: (T, T) -> bool)
    requires TotalPreorder(le)
    ensures SortedBy(SortBy(s, le), le)
    decreases |s|
  {
    if s != [] {
      SortBySorted(s[1..], le);
      InsertSorted(s[0], SortBy(s[1..], le), le);
    }
  }

  /** The elements the comparator cannot tell from x. */
  function Tied<T>(x: T, le: (T, T) -> bool): T -> bool
  {
    (y: T) => le(x, y) && le(y, x)
  }

  /** Filter on a sequence with a given first element. */
  lemma FilterCons<T>(a: T, s: seq<T>, p: T -> bool)
    ensures Filter([a] + s, p) == (if p(a) then [a] else []) + Filter(s, p)
  {
    assert ([a] + s)[0] == a && ([a] + s)[1..] == s;
  }

  /** Two elements tied with the same x are ordered both ways. */
  lemma TiedOrdered<T(!new)>(z: T, y: T, le: (T, T) -> bool, x: T)
    requires TotalPreorder(le)
    requires Tied(x, le)(z) && Tied(x, le)(y)
    ensures le(z, y)
  {
    assert le(z, x) && le(x, y);
  }

  /** Inserting z changes the elements p keeps only by z itself, placed
      after those already there, as long as z is ordered before every kept
      element when z is kept too. */
  lemma {:induction false} InsertKeepsFiltered<T>(z: T, t: seq<T>, le: (T, T) -> bool, p: T -> bool)
    requires forall k :: 0 <= k < |t| && p(z) && p(t[k]) ==> le(z, t[k])
    ensures Filter(Insert(z, t, le), p) == (if p(z) then [z] else []) + Filter(t, p)
    decreases |t|
  {
    if t == [] || le(z, t[0]) {
      assert Insert(z, t, le) == [z] + t;
      FilterCons(z, t, p);
    } else {
      assert forall k :: 0 <= k < |t[1..]| ==> t[1..][k] == t[k + 1];
      InsertKeepsFiltered(z, t[1..], le, p);
      InsertPastHead(z, t, le, p);
    }
  }

  /** The step of InsertKeepsFiltered where z goes past the head of t. */
  lemma InsertPastHead<T>(z: T, t: seq<T>, le: (T, T) -> bool, p: T -> bool)
    requires t != [] && !le(z, t[0]) && !(p(z) && p(t[0]))
    requires Filter(Insert(z, t[1..], le), p) == (if p(z) then [z] else []) + Filter(t[1..], p)
    ensures Filter(Insert(z, t, le), p) == (if p(z) then [z] else []) + Filter(t, p)
  {
    var u := Insert(z, t[1..], le);
    assert Insert(z, t, le) == [t[0]] + u;
    assert t == [t[0]] + t[1..];
    FilterCons(t[0], u, p);
    FilterCons(t[0], t[1..], p);
  }

  /** The sort is stable: elements the comparator ties keep their relative
      order, because the subsequence of those tied with any x is unchanged. */
  lemma {:induction false} SortByStable<T(!new)>(s: seq<T>, le: (T, T) -> bool, x: T)
    requires TotalPreorder(le)
    ensures Filter(SortBy(s, le), Tied(x, le)) == Filter(s, Tied(x, le))
    decreases |s|
  {
    if s != [] {
      var t := SortBy(s[1..], le);
      SortByStable(s[1..], le, x);
      forall k | 0 <= k < |t| && Tied(x, le)(s[0]) && Tied(x, le)(t[k])
        ensures le(s[0], t[k])
      {
        TiedOrdered(s[0], t[k], le, x);
      }
      InsertKeepsFiltered(s[0], t, le, Tied(x, le));
      FilterCons(s[0], s[1..], Tied(x, le));
      assert s == [s[0]] + s[1..];
    }
  }

  /** A comparator that always answers 0 leaves the order as it was. */
  lemma {:induction false} SortByNeutral<T>(s: seq<T>, le: (T, T) -> bool)
    requires forall a, b :: le(a, b)
    ensures SortBy(s, le) == s
    decreases |s|
  {
    if s != [] {
      SortByNeutral(s[1..], le);
    }
  }

  /** The comparator `(a, b) => key(a) - key(b)`: ascending by an integer key. */
  lemma KeyOrderIsTotalPreorder<T(!new)>(key: T -> int)
    ensures TotalPreorder((a: T, b: T) => key(a) <= key(b))
  {
  }
}
