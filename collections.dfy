/** Reading a collection out of the store in a given order, filtering it, taking its first match,
    and the `skip`/`limit` pagination the search services use. */
module Collections {
  import opened Common

  predicate IncreasingIds<T>(r: seq<Doc<T>>) {
    forall j, k :: 0 <= j < k < |r| ==> r[j].id < r[k].id
  }

  predicate DecreasingIds<T>(r: seq<Doc<T>>) {
    forall j, k :: 0 <= j < k < |r| ==> r[j].id > r[k].id
  }

  /** The documents of `m` with ids below `n` in natural (insertion) order: what an unsorted
      `find()` returns. */
  function Ascending<T(==,!new)>(m: map<Id, T>, n: nat): (r: seq<Doc<T>>)
    ensures forall d :: d in r ==> d.id < n && d.id in m && d.record == m[d.id]
    ensures forall id :: id < n && id in m ==> Doc(id, m[id]) in r
    ensures IncreasingIds(r)
  {
    if n == 0 then []
    else
      var prior := Ascending(m, n - 1);
      if n - 1 in m then prior + [Doc(n - 1, m[n - 1])] else prior
  }

  /** The documents of `m` with ids below `n`, newest first: what `sort({ createdAt: -1 })` returns. */
  function Descending<T(==,!new)>(m: map<Id, T>, n: nat): (r: seq<Doc<T>>)
    ensures forall d :: d in r ==> d.id < n && d.id in m && d.record == m[d.id]
    ensures forall id :: id < n && id in m ==> Doc(id, m[id]) in r
    ensures DecreasingIds(r)
  {
    if n == 0 then []
    else
      var later := Descending(m, n - 1);
      if n - 1 in m then [Doc(n - 1, m[n - 1])] + later else later
  }

  /** `s.filter(p)`. */
  function Filter<T(==,!new)>(s: seq<T>, p: T -> bool): (r: seq<T>)
    ensures forall x :: x in r <==> x in s && p(x)
    ensures |r| <= |s|
  {
    if s == [] then []
    else (if p(s[0]) then [s[0]] else []) + Filter(s[1..], p)
  }

  /** Filters under two predicates that agree on every element are the same. */
  lemma {:induction false} FilterCongruent<T(!new)>(s: seq<T>, p: T -> bool, q: T -> bool)
    requires forall x :: x in s ==> p(x) == q(x)
    ensures Filter(s, p) == Filter(s, q)
  {
    if s != [] {
      FilterCongruent(s[1..], p, q);
    }
  }

  /** Filtering keeps the newest-first order of a listing. */
  lemma {:induction false} FilterKeepsDecreasing<T(!new)>(s: seq<Doc<T>>, p: Doc<T> -> bool)
    requires DecreasingIds(s)
    ensures DecreasingIds(Filter(s, p))
  {
    if s != [] {
      FilterKeepsDecreasing(s[1..], p);
      var rest := Filter(s[1..], p);
      forall d | d in rest ensures d.id < s[0].id {
        var k :| 0 <= k < |s[1..]| && s[1..][k] == d;
        assert s[k + 1] == d;
      }
    }
  }

  /** A filter under a predicate that implies another keeps at most as many elements. */
  lemma {:induction false} FilterStrongerIsShorter<T(!new)>(s: seq<T>, p: T -> bool, q: T -> bool)
    requires forall x :: x in s && p(x) ==> q(x)
    ensures |Filter(s, p)| <= |Filter(s, q)|
  {
    if s != [] {
      FilterStrongerIsShorter(s[1..], p, q);
    }
  }

  predicate NoDuplicates<T(==)>(s: seq<T>) {
    forall i, j :: 0 <= i < j < |s| ==> s[i] != s[j]
  }

  /** The distinct entries of a sequence. */
  function Elements<T(==)>(s: seq<T>): set<T> {
    set x | x in s
  }

  /** A sequence has at most as many distinct elements as entries, and exactly as many when no
      entry repeats. */
  lemma {:induction false} DistinctCount<T(!new)>(s: seq<T>)
    ensures |Elements(s)| <= |s|
    ensures |Elements(s)| == |s| <==> NoDuplicates(s)
  {
    if s != [] {
      var t := s[1..];
      DistinctCount(t);
      var ts := Elements(t);
      var ss := Elements(s);
      assert ss == ts + {s[0]} by {
        assert forall x :: x in s <==> x == s[0] || x in t;
      }
      if s[0] in t {
        assert ss == ts;
        var k :| 0 <= k < |t| && t[k] == s[0];
        assert s[0] == s[k + 1];
        assert !NoDuplicates(s);
      } else {
        assert |ss| == |ts| + 1;
        if NoDuplicates(t) {
          forall i, j | 0 <= i < j < |s| ensures s[i] != s[j] {
            if i == 0 {
              assert s[j] == t[j - 1];
            } else {
              assert s[i] == t[i - 1] && s[j] == t[j - 1];
            }
          }
        } else {
          var i, j :| 0 <= i < j < |t| && t[i] == t[j];
          assert s[i + 1] == s[j + 1];
        }
      }
    }
  }

  /** The position of the first element of `s`, from `from` on, that satisfies `p`. */
  function FirstIndexFrom<T>(s: seq<T>, p: T -> bool, from: nat): (r: Option<nat>)
    requires from <= |s|
    ensures r.Some? ==> from <= r.value < |s| && p(s[r.value]) && forall j :: from <= j < r.value ==> !p(s[j])
    ensures r.None? ==> forall j :: from <= j < |s| ==> !p(s[j])
    decreases |s| - from
  {
    if from == |s| then None
    else if p(s[from]) then Some(from)
    else FirstIndexFrom(s, p, from + 1)
  }

  /** The first element of `s` that satisfies `p`: what `findOne` returns over a listing. */
  function First<T>(s: seq<T>, p: T -> bool): (r: Option<T>)
    ensures r.Some? ==> exists k :: 0 <= k < |s| && s[k] == r.value && p(s[k]) && forall j :: 0 <= j < k ==> !p(s[j])
    ensures r.None? ==> forall k :: 0 <= k < |s| ==> !p(s[k])
  {
    match FirstIndexFrom(s, p, 0)
    case None => None
    case Some(k) => Some(s[k])
  }

  /** The document ids of a listing, in order. */
  function Ids<T>(s: seq<Doc<T>>): (r: seq<Id>)
    ensures |r| == |s| && forall k :: 0 <= k < |s| ==> r[k] == s[k].id
  {
    seq(|s|, k requires 0 <= k < |s| => s[k].id)
  }

  /** `Math.ceil(total / limit)` for a positive limit. */
  function CeilDiv(total: nat, limit: nat): (q: nat)
    requires limit >= 1
    ensures q * limit >= total
    ensures q == 0 || (q - 1) * limit < total
  {
    (total + limit - 1) / limit
  }

  /** `.skip((page - 1) * limit).limit(limit)` over a listing. */
  function Page<T>(items: seq<T>, page: nat, limit: nat): (r: seq<T>)
    requires page >= 1 && limit >= 1
    ensures |r| <= limit
    ensures forall k :: 0 <= k < |r| ==> (page - 1) * limit + k < |items| && r[k] == items[(page - 1) * limit + k]
    ensures |r| == Min(limit, if (page - 1) * limit <= |items| then |items| - (page - 1) * limit else 0)
  {
    var skip := (page - 1) * limit;
    if skip >= |items| then [] else items[skip..Min(skip + limit, |items|)]
  }

  /** A page holds entries of the listing only, in the listing's order. */
  lemma PageOfListing<T>(items: seq<Doc<T>>, page: nat, limit: nat)
    requires page >= 1 && limit >= 1
    ensures forall x :: x in Page(items, page, limit) ==> x in items
    ensures DecreasingIds(items) ==> DecreasingIds(Page(items, page, limit))
  {
    var skip := (page - 1) * limit;
    var r := Page(items, page, limit);
    forall x | x in r ensures x in items {
      var k :| 0 <= k < |r| && r[k] == x;
      assert items[skip + k] == x;
    }
    if DecreasingIds(items) {
      forall j, k | 0 <= j < k < |r| ensures r[j].id > r[k].id {
        assert r[j] == items[skip + j] && r[k] == items[skip + k];
      }
    }
  }

  /** Every item of a listing shows up on some page numbered from 1 to `CeilDiv(|items|, limit)`:
      item `i` is entry `i % limit` of page `i / limit + 1`. */
  lemma PageCovers<T>(items: seq<T>, limit: nat, i: nat)
    requires limit >= 1 && i < |items|
    ensures 1 <= i / limit + 1 <= CeilDiv(|items|, limit)
    ensures i % limit < |Page(items, i / limit + 1, limit)|
    ensures Page(items, i / limit + 1, limit)[i % limit] == items[i]
  {
    var d, r := i / limit, i % limit;
    assert i == d * limit + r && 0 <= r < limit;
    var q := CeilDiv(|items|, limit);
    MulCancel(d, q, limit);
    var pg := Page(items, d + 1, limit);
    assert (d + 1 - 1) * limit == d * limit;
    assert |pg| == Min(limit, |items| - d * limit);
  }

  lemma MulCancel(a: nat, b: nat, c: nat)
    requires a * c < b * c
    ensures a < b
  {
  }
}
