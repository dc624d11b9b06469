/** Generic collection operations standing in for the MongoDB calls the route
    handlers make: findOne, find, countDocuments, sort({createdAt: -1}),
    skip and limit, and the pagination arithmetic the handlers report.
    A collection is a sequence in natural (insertion) order. */
module Common {

  /** Stand-in for a MongoDB ObjectId: an abstract identity with equality. */
  type Id = nat

  datatype Option<T> = None | Some(value: T)

  function Abs(x: int): nat { if x < 0 then -x else x }

  /** findOne: the position of the first document satisfying p, if any. */
  function FindFirst<T>(s: seq<T>, p: T -> bool): (r: Option<nat>)
    ensures r.Some? ==> r.value < |s| && p(s[r.value])
    ensures r.Some? ==> forall j :: 0 <= j < r.value ==> !p(s[j])
    ensures r.None? <==> forall j :: 0 <= j < |s| ==> !p(s[j])
  {
    if |s| == 0 then None
    else if p(s[0]) then Some(0)
    else match FindFirst(s[1..], p)
      case None => None
      case Some(k) => Some(k + 1)
  }

  /** find: the documents satisfying p. */
  function Filter<T>(s: seq<T>, p: T -> bool): (r: seq<T>)
    ensures |r| <= |s|
    ensures forall i :: 0 <= i < |r| ==> r[i] in s && p(r[i])
    ensures forall i :: 0 <= i < |s| && p(s[i]) ==> s[i] in r
    ensures multiset(r) <= multiset(s)
  {
    if |s| == 0 then []
    else
      assert s == [s[0]] + s[1..];
      if p(s[0]) then [s[0]] + Filter(s[1..], p) else Filter(s[1..], p)
  }

  /** countDocuments: how many documents satisfy p. */
  function Count<T>(s: seq<T>, p: T -> bool): (c: nat)
    ensures c <= |s|
    ensures c == 0 <==> forall i :: 0 <= i < |s| ==> !p(s[i])
  {
    var r := Filter(s, p);
    if |r| > 0 then assert r[0] in s; |r| else |r|
  }

  /** The count is the number of matches: the first document adds one when
      it satisfies p, and the empty collection counts 0. */
  lemma CountHead<T>(s: seq<T>, p: T -> bool)
    requires |s| > 0
    ensures Count(s, p) == (if p(s[0]) then 1 else 0) + Count(s[1..], p)
  {
  }

  /** Two filters that split a collection exactly (every document satisfies
      exactly one of them) count up to the collection's size. */
  lemma {:induction false} CountPartition<T>(s: seq<T>, p: T -> bool, q: T -> bool)
    requires forall i :: 0 <= i < |s| ==> (p(s[i]) <==> !q(s[i]))
    ensures Count(s, p) + Count(s, q) == |s|
  {
    if |s| > 0 {
      CountPartition(s[1..], p, q);
    }
  }

  /** A filter every document satisfies counts the whole collection. */
  lemma {:induction false} CountAll<T>(s: seq<T>, p: T -> bool)
    requires forall i :: 0 <= i < |s| ==> p(s[i])
    ensures Count(s, p) == |s|
  {
    if |s| > 0 { CountAll(s[1..], p); }
  }

  /** Filters that agree on every document count alike. */
  lemma {:induction false} CountSame<T>(s: seq<T>, p: T -> bool, q: T -> bool)
    requires forall i :: 0 <= i < |s| ==> (p(s[i]) <==> q(s[i]))
    ensures Count(s, p) == Count(s, q)
  {
    if |s| > 0 { CountSame(s[1..], p, q); }
  }

  /** A filter implied by another counts at least as many documents. */
  lemma {:induction false} CountMonotone<T>(s: seq<T>, p: T -> bool, q: T -> bool)
    requires forall i :: 0 <= i < |s| ==> (p(s[i]) ==> q(s[i]))
    ensures Count(s, p) <= Count(s, q)
  {
    if |s| > 0 {
      CountMonotone(s[1..], p, q);
    }
  }

  /** ok holds of every pair of documents, taken in collection order. */
  ghost predicate Pairwise<T>(s: seq<T>, ok: (T, T) -> bool) {
    forall i, j :: 0 <= i < j < |s| ==> ok(s[i], s[j])
  }
  /** Dropping the first document keeps ok pairwise. */
  lemma PairwiseTail<T>(s: seq<T>, ok: (T, T) -> bool)
    requires |s| > 0 && Pairwise(s, ok)
    ensures Pairwise(s[1..], ok)
  {
    var tail := s[1..];
    forall i, j | 0 <= i < j < |tail| ensures ok(tail[i], tail[j]) {
      assert tail[i] == s[i + 1] && tail[j] == s[j + 1];
    }
  }

  /** Putting in front a document related to every later one keeps ok pairwise. */
  lemma PairwiseCons<T>(x: T, rest: seq<T>, ok: (T, T) -> bool)
    requires Pairwise(rest, ok)
    requires forall k :: 0 <= k < |rest| ==> ok(x, rest[k])
    ensures Pairwise([x] + rest, ok)
  {
    var r := [x] + rest;
    forall i, j | 0 <= i < j < |r| ensures ok(r[i], r[j]) {
      assert r[j] == rest[j - 1];
      if i > 0 { assert r[i] == rest[i - 1]; }
    }
  }

  /** A pairwise property of a collection holds of every filtered view of it. */
  lemma {:induction false} FilterPairwise<T>(s: seq<T>, p: T -> bool, ok: (T, T) -> bool)
    requires Pairwise(s, ok)
    ensures Pairwise(Filter(s, p), ok)
  {
    if |s| > 0 {
      var tail := s[1..];
      PairwiseTail(s, ok);
      FilterPairwise(tail, p, ok);
      var rest := Filter(tail, p);
      if p(s[0]) {
        forall k | 0 <= k < |rest| ensures ok(s[0], rest[k]) {
          var m :| 0 <= m < |tail| && tail[m] == rest[k];
          assert s[m + 1] == rest[k];
        }
        PairwiseCons(s[0], rest, ok);
      }
    }
  }

  /** Appending a document related to every earlier one keeps ok pairwise. */
  lemma PairwiseAppend<T>(s: seq<T>, x: T, ok: (T, T) -> bool)
    requires Pairwise(s, ok)
    requires forall i :: 0 <= i < |s| ==> ok(s[i], x)
    ensures Pairwise(s + [x], ok)
  {
    var r := s + [x];
    forall i, j | 0 <= i < j < |r| ensures ok(r[i], r[j]) {
      assert r[i] == s[i];
      if j < |s| { assert r[j] == s[j]; }
    }
  }

  /** Replacing a document by one related to the others as it was keeps ok pairwise. */
  lemma PairwiseReplace<T>(s: seq<T>, k: nat, x: T, ok: (T, T) -> bool)
    requires Pairwise(s, ok) && k < |s|
    requires forall i :: 0 <= i < k ==> ok(s[i], x)
    requires forall j :: k < j < |s| ==> ok(x, s[j])
    ensures Pairwise(s[k := x], ok)
  {
  }

  /** Newest first: the order of `.sort({ createdAt: -1 })`. */
  ghost predicate NewestFirst<T>(s: seq<T>, key: T -> nat) {
    forall i, j :: 0 <= i < j < |s| ==> key(s[i]) >= key(s[j])
  }

  /** Putting a document whose key bounds every other key in front keeps a
      collection newest first. */
  lemma ConsNewest<T>(x: T, s: seq<T>, key: T -> nat)
    requires NewestFirst(s, key)
    requires forall i :: 0 <= i < |s| ==> key(s[i]) <= key(x)
    ensures NewestFirst([x] + s, key)
  {
    var r := [x] + s;
    forall i, j | 0 <= i < j < |r| ensures key(r[i]) >= key(r[j]) {
      assert r[j] == s[j - 1];
      if i > 0 { assert r[i] == s[i - 1]; }
    }
  }

  function InsertNewest<T>(x: T, s: seq<T>, key: T -> nat): (r: seq<T>)
    requires NewestFirst(s, key)
    ensures NewestFirst(r, key)
    ensures multiset(r) == multiset(s) + multiset{x}
    ensures forall i :: 0 <= i < |r| ==> r[i] == x || r[i] in s
  {
    if |s| == 0 || key(s[0]) <= key(x) then
      ConsNewest(x, s, key);
      [x] + s
    else
      var tail := s[1..];
      assert s == [s[0]] + tail;
      var rest := InsertNewest(x, tail, key);
      HeadBounds(s, x, rest, key);
      ConsNewest(s[0], rest, key);
      [s[0]] + rest
  }

  /** The head of a newest-first collection bounds the keys of its tail with
      one older document inserted. */
  lemma HeadBounds<T>(s: seq<T>, x: T, rest: seq<T>, key: T -> nat)
    requires |s| > 0 && NewestFirst(s, key) && key(x) <= key(s[0])
    requires forall i :: 0 <= i < |rest| ==> rest[i] == x || rest[i] in s[1..]
    ensures forall i :: 0 <= i < |rest| ==> key(rest[i]) <= key(s[0])
  {
    forall i | 0 <= i < |rest| ensures key(rest[i]) <= key(s[0]) {
      if rest[i] != x {
        var m :| 0 <= m < |s[1..]| && s[1..][m] == rest[i];
        assert s[m + 1] == rest[i];
      }
    }
  }

  /** Two collections holding the same multiset hold the same documents. */
  lemma SameMembers<T>(a: seq<T>, b: seq<T>)
    requires multiset(a) == multiset(b)
    ensures forall i :: 0 <= i < |a| ==> a[i] in b
    ensures forall i :: 0 <= i < |b| ==> b[i] in a
  {
    forall i | 0 <= i < |a| ensures a[i] in b { assert a[i] in multiset(a); }
    forall i | 0 <= i < |b| ensures b[i] in a { assert b[i] in multiset(b); }
  }

  /** The sort MongoDB applies before skip and limit. The order of documents
      with equal keys is left open by MongoDB; this one keeps them stable. */
  function SortNewest<T>(s: seq<T>, key: T -> nat): (r: seq<T>)
    ensures NewestFirst(r, key)
    ensures multiset(r) == multiset(s)
    ensures |r| == |s|
    ensures forall i :: 0 <= i < |r| ==> r[i] in s
    ensures forall i :: 0 <= i < |s| ==> s[i] in r
  {
    if |s| == 0 then []
    else
      assert s == [s[0]] + s[1..];
      var r := InsertNewest(s[0], SortNewest(s[1..], key), key);
      assert |multiset(r)| == |r|;
      SameMembers(r, s);
      r
  }

  /** `.skip((page - 1) * limit).limit(limit)`. MongoDB refuses a negative
      skip (None); a limit of 0 means no limit, and a negative limit returns
      at most |limit| documents. */
  function Window<T>(s: seq<T>, page: int, limit: int): (r: Option<seq<T>>)
    ensures r.None? <==> (page - 1) * limit < 0
    ensures r.Some? ==> |r.value| <= |s| && (limit != 0 ==> |r.value| <= Abs(limit))
    ensures r.Some? ==> forall i :: 0 <= i < |r.value| ==>
      (page - 1) * limit + i < |s| && r.value[i] == s[(page - 1) * limit + i]
    ensures r.Some? && (page - 1) * limit < |s| && limit != 0 ==>
      |r.value| == if |s| - (page - 1) * limit < Abs(limit) then |s| - (page - 1) * limit else Abs(limit)
    ensures limit == 0 ==> r == Some(s)
  {
    var skip := (page - 1) * limit;
    if skip < 0 then None
    else if skip >= |s| then Some([])
    else
      var rest := s[skip..];
      if limit == 0 || |rest| <= Abs(limit) then Some(rest) else Some(rest[..Abs(limit)])
  }

  /** A page of a newest-first collection is newest first, and holds only
      documents of the collection. */
  lemma WindowNewest<T>(s: seq<T>, page: int, limit: int, key: T -> nat)
    requires NewestFirst(s, key) && Window(s, page, limit).Some?
    ensures NewestFirst(Window(s, page, limit).value, key)
    ensures forall i :: 0 <= i < |Window(s, page, limit).value| ==> Window(s, page, limit).value[i] in s
  {
    var w := Window(s, page, limit).value;
    SliceNewest(s, (page - 1) * limit, w, key);
  }

  lemma SliceNewest<T>(s: seq<T>, off: nat, w: seq<T>, key: T -> nat)
    requires NewestFirst(s, key)
    requires forall i :: 0 <= i < |w| ==> off + i < |s| && w[i] == s[off + i]
    ensures NewestFirst(w, key)
  {
    forall i, j | 0 <= i < j < |w| ensures key(w[i]) >= key(w[j]) {
      var x, y := w[i], w[j];
      assert off + i < |s| && off + j < |s|;
      assert x == s[off + i] && y == s[off + j];
    }
  }

  /** `Math.ceil(total / limit)`; None for the non-finite result of a zero
      limit (Infinity or NaN, which JSON sends as null). */
  function PageCount(total: nat, limit: int): (r: Option<int>)
    ensures r.None? <==> limit == 0
    ensures limit > 0 ==> r.Some? && r.value >= 0 && (r.value - 1) * limit < total <= r.value * limit
    ensures limit < 0 ==> r.Some? && r.value <= 0 && r.value * limit <= total < (r.value - 1) * limit
  {
    if limit == 0 then None
    else if limit > 0 then
      var q := (total + limit - 1) / limit;
      DivBounds(total + limit - 1, limit);
      Some(q)
    else
      var q := total / (-limit);
      DivBounds(total, -limit);
      Some(-q)
  }

  lemma DivBounds(a: nat, b: int)
    requires b > 0
    ensures (a / b) * b <= a < (a / b) * b + b
    ensures a / b >= 0
  {
  }

  /** With a positive limit, document k of the sorted matches is entry
      k % limit of page k / limit + 1, and that page is within the page count. */
  lemma PageOfIndex<T>(s: seq<T>, limit: int, k: nat)
    requires limit > 0 && k < |s|
    ensures Window(s, k / limit + 1, limit).Some?
    ensures k % limit < |Window(s, k / limit + 1, limit).value|
    ensures Window(s, k / limit + 1, limit).value[k % limit] == s[k]
    ensures 1 <= k / limit + 1 <= PageCount(|s|, limit).value
  {
    var page := k / limit + 1;
    assert k == (k / limit) * limit + k % limit;
    assert (page - 1) * limit == (k / limit) * limit;
    var w := Window(s, page, limit).value;
    assert |w| == if |s| - (page - 1) * limit < limit then |s| - (page - 1) * limit else limit;
    var p := PageCount(|s|, limit).value;
    assert (p - 1) * limit < |s| <= p * limit;
    MulCancel(page - 1, p, limit);
  }

  lemma MulCancel(a: int, b: int, c: int)
    requires c > 0 && a * c < b * c
    ensures a < b
  {
  }
}
