/** `Array.prototype.sort` with a comparator, as ECMAScript specifies it for a
    consistent comparator: a stable sort. `le(a, b)` stands for
    `compare(a, b) <= 0`, "a may stay before b". The sort is insertion sort:
    the head of the input goes before the first element it may precede. */
module Sorting {
  import opened Seqs

  function Insert<T>(x: T, s: seq<T>, le: (T, T) -> bool): (r: seq<T>)
    ensures |r| == |s| + 1
    ensures multiset(r) == multiset(s) + multiset{x}
  {
    if s == [] || le(x, s[0]) then [x] + s
    else
      assert s == [s[0]] + s[1..];
      [s[0]] + Insert(x, s[1..], le)
  }

  /** The sorted copy (`[...s].sort(compare)`): a permutation of `s`. */
  function SortBy<T>(s: seq<T>, le: (T, T) -> bool): (r: seq<T>)
    ensures multiset(r) == multiset(s)
    ensures |r| == |s|
  {
    if s == [] then []
    else
      assert s == [s[0]] + s[1..];
      Insert(s[0], SortBy(s[1..], le), le)
  }

  ghost predicate Sorted<T>(s: seq<T>, le: (T, T) -> bool) {
    forall i, j :: 0 <= i < j < |s| ==> le(s[i], s[j])
  }

  /** `le` is total and transitive on the elements of `d`: the comparator is
      consistent there. */
  ghost predicate PreorderOn<T(!new)>(d: seq<T>, le: (T, T) -> bool) {
    && (forall a, b :: a in d && b in d ==> le(a, b) || le(b, a))
    && (forall a, b, c :: a in d && b in d && c in d && le(a, b) && le(b, c) ==> le(a, c))
  }

  lemma {:induction false} InsertSorted<T(!new)>(x: T, t: seq<T>, le: (T, T) -> bool, d: seq<T>)
    requires PreorderOn(d, le)
    requires x in d && forall y :: y in t ==> y in d
    requires Sorted(t, le)
    ensures Sorted(Insert(x, t, le), le)
  {
    if t == [] || le(x, t[0]) {
      var r := [x] + t;
      forall i, j | 0 <= i < j < |r| ensures le(r[i], r[j]) {
        if i == 0 && j > 1 {
          assert t[0] in d && t[j - 1] in d;
          assert le(t[0], t[j - 1]);
        }
      }
    } else {
      InsertSorted(x, t[1..], le, d);
      var rest := Insert(x, t[1..], le);
      var r := [t[0]] + rest;
      assert t[0] in d;
      assert le(t[0], x);
      forall j | 0 <= j < |rest| ensures le(t[0], rest[j]) {
        assert rest[j] in multiset(rest);
        assert rest[j] == x || rest[j] in multiset(t[1..]);
        if rest[j] != x {
          var k :| 0 <= k < |t[1..]| && t[1..][k] == rest[j];
          assert le(t[0], t[k + 1]);
        }
      }
      assert Insert(x, t, le) == r;
      forall i, j | 0 <= i < j < |r| ensures le(r[i], r[j]) {
        if i > 0 {
          assert le(rest[i - 1], rest[j - 1]);
        } else {
          assert le(t[0], rest[j - 1]);
        }
      }
    }
  }

  lemma {:induction false} SortByWithin<T(!new)>(s: seq<T>, le: (T, T) -> bool, d: seq<T>)
    requires PreorderOn(d, le)
    requires forall y :: y in s ==> y in d
    ensures Sorted(SortBy(s, le), le)
  {
    if s != [] {
      SortByWithin(s[1..], le, d);
      var sorted := SortBy(s[1..], le);
      forall y | y in sorted ensures y in d {
        assert y in multiset(sorted);
        assert y in multiset(s[1..]);
      }
      InsertSorted(s[0], sorted, le, d);
    }
  }

  /** For a comparator that is consistent on the input, the output is ordered. */
  lemma SortBySorted<T(!new)>(s: seq<T>, le: (T, T) -> bool)
    requires PreorderOn(s, le)
    ensures Sorted(SortBy(s, le), le)
  {
    SortByWithin(s, le, s);
  }

  /** One step of `InsertFilter`: `x` moves past `t[0]`, which is outside the
      class of `x` whenever `x` is in it. */
  lemma InsertFilterStep<T>(x: T, t: seq<T>, le: (T, T) -> bool, eqv: T -> bool)
    requires t != [] && !le(x, t[0])
    requires eqv(x) ==> !eqv(t[0])
    requires Filter(Insert(x, t[1..], le), eqv) == (if eqv(x) then [x] else []) + Filter(t[1..], eqv)
    ensures Filter(Insert(x, t, le), eqv) == (if eqv(x) then [x] else []) + Filter(t, eqv)
  {
    var rest := Insert(x, t[1..], le);
    var r := [t[0]] + rest;
    assert Insert(x, t, le) == r;
    assert r[0] == t[0] && r[1..] == rest;
    if eqv(x) {
      assert Filter(r, eqv) == Filter(rest, eqv);
      assert Filter(t, eqv) == Filter(t[1..], eqv);
    } else {
      assert Filter(rest, eqv) == Filter(t[1..], eqv);
    }
  }

  lemma {:induction false} InsertFilter<T>(x: T, t: seq<T>, le: (T, T) -> bool, eqv: T -> bool)
    requires eqv(x) ==> forall i :: 0 <= i < |t| && eqv(t[i]) ==> le(x, t[i])
    ensures Filter(Insert(x, t, le), eqv) == (if eqv(x) then [x] else []) + Filter(t, eqv)
  {
    if t == [] || le(x, t[0]) {
      var r := [x] + t;
      assert Insert(x, t, le) == r;
      assert r[0] == x && r[1..] == t;
    } else {
      InsertFilter(x, t[1..], le, eqv);
      InsertFilterStep(x, t, le, eqv);
    }
  }

  /** Stability: inside any class of mutually ordered elements (`eqv`), the
      output keeps the input order. */
  lemma {:induction false} SortByStable<T(!new)>(s: seq<T>, le: (T, T) -> bool, eqv: T -> bool)
    requires forall a, b :: a in s && b in s && eqv(a) && eqv(b) ==> le(a, b)
    ensures Filter(SortBy(s, le), eqv) == Filter(s, eqv)
  {
    if s != [] {
      SortByStable(s[1..], le, eqv);
      var sorted := SortBy(s[1..], le);
      forall i | 0 <= i < |sorted| && eqv(sorted[i]) && eqv(s[0]) ensures le(s[0], sorted[i]) {
        assert sorted[i] in multiset(sorted);
        assert sorted[i] in multiset(s[1..]);
      }
      InsertFilter(s[0], sorted, le, eqv);
    }
  }
}
