/** Sequence helpers behind the client stores and the sorted queries:
    the stable sort that `Array.prototype.sort` performs with a numeric
    comparator `(a, b) => key(a) - key(b)`, and `Array.prototype.filter`. */
module Seqs {

  ghost predicate SortedBy<T>(s: seq<T>, key: T -> int)
  {
    forall i, j :: 0 <= i < j < |s| ==> key(s[i]) <= key(s[j])
  }

  predicate NoDup<T(==)>(s: seq<T>)
  {
    forall i, j :: 0 <= i < j < |s| ==> s[i] != s[j]
  }

  /** Places `x` after every element whose key is not larger than its own,
      which is where a stable sort puts the last element of its input. */
  function Insert<T>(x: T, s: seq<T>, key: T -> int): (r: seq<T>)
    ensures |r| == |s| + 1
    ensures multiset(r) == multiset(s) + multiset{x}
  {
    if s == [] then [x]
    else if key(x) < key(s[0]) then [x] + s
    else
      assert s == [s[0]] + s[1..];
      [s[0]] + Insert(x, s[1..], key)
  }

  lemma {:induction false} InsertSorted<T>(x: T, s: seq<T>, key: T -> int)
    requires SortedBy(s, key)
    ensures SortedBy(Insert(x, s, key), key)
  {
    if s != [] && key(x) >= key(s[0]) {
      var rest := Insert(x, s[1..], key);
      InsertSorted(x, s[1..], key);
      forall k | 0 <= k < |rest| ensures key(s[0]) <= key(rest[k]) {
        assert rest[k] in multiset(rest);
        assert rest[k] in multiset(s[1..]) || rest[k] == x;
      }
    }
  }

  /** The stable sort by `key`. */
  function SortBy<T>(s: seq<T>, key: T -> int): (r: seq<T>)
    ensures |r| == |s|
    ensures multiset(r) == multiset(s)
    ensures SortedBy(r, key)
  {
    if s == [] then []
    else
      assert s == s[..|s| - 1] + [s[|s| - 1]];
      var sorted := SortBy(s[..|s| - 1], key);
      InsertSorted(s[|s| - 1], sorted, key);
      Insert(s[|s| - 1], sorted, key)
  }

  /** Inserting an element that is not smaller than anything leaves it last. */
  lemma {:induction false} InsertLast<T>(x: T, s: seq<T>, key: T -> int)
    requires forall i :: 0 <= i < |s| ==> key(s[i]) <= key(x)
    ensures Insert(x, s, key) == s + [x]
  {
    if s != [] {
      InsertLast(x, s[1..], key);
    }
  }

  /** One step of SortBy: the last element is inserted into the sorted rest. */
  lemma SortByStep<T>(s: seq<T>, key: T -> int)
    requires s != []
    ensures SortBy(s, key) == Insert(s[|s| - 1], SortBy(s[..|s| - 1], key), key)
  {
  }

  /** A sorted sequence is its sorted prefix with its last element, which
      no element of the prefix exceeds, inserted. */
  lemma SortedInit<T>(s: seq<T>, key: T -> int)
    requires s != [] && SortedBy(s, key)
    ensures SortedBy(s[..|s| - 1], key)
    ensures Insert(s[|s| - 1], s[..|s| - 1], key) == s
  {
    var init, last := s[..|s| - 1], s[|s| - 1];
    assert forall i :: 0 <= i < |init| ==> init[i] == s[i];
    InsertLast(last, init, key);
    assert init + [last] == s;
  }

  /** Sorting an already sorted sequence changes nothing, so sorting twice is
      sorting once. */
  lemma {:induction false} SortBySorted<T>(s: seq<T>, key: T -> int)
    requires SortedBy(s, key)
    ensures SortBy(s, key) == s
  {
    if s != [] {
      SortedInit(s, key);
      SortBySorted(s[..|s| - 1], key);
      SortByStep(s, key);
    }
  }

  /** Appending and then sorting a sorted list is inserting into it. */
  lemma AppendThenSort<T>(s: seq<T>, x: T, key: T -> int)
    requires SortedBy(s, key)
    ensures SortBy(s + [x], key) == Insert(x, s, key)
  {
    var t := s + [x];
    assert t[..|t| - 1] == s;
    SortBySorted(s, key);
  }

  function Filter<T>(s: seq<T>, keep: T -> bool): (r: seq<T>)
    ensures |r| <= |s|
  {
    if s == [] then []
    else if keep(s[0]) then [s[0]] + Filter(s[1..], keep)
    else Filter(s[1..], keep)
  }

  /** The filtered sequence holds exactly the kept elements of the input. */
  lemma {:induction false} FilterMember<T>(s: seq<T>, keep: T -> bool, x: T)
    ensures x in Filter(s, keep) <==> x in s && keep(x)
  {
    if s != [] {
      FilterMember(s[1..], keep, x);
      assert s == [s[0]] + s[1..];
    }
  }

  /** FilterMember for every element at once. */
  lemma FilterMembers<T>(s: seq<T>, keep: T -> bool)
    ensures forall x :: x in Filter(s, keep) <==> x in s && keep(x)
  {
    forall x ensures x in Filter(s, keep) <==> x in s && keep(x) {
      FilterMember(s, keep, x);
    }
  }

  /** Filtering keeps the relative order of what it keeps: it distributes
      over concatenation. */
  lemma {:induction false} FilterAppend<T>(a: seq<T>, b: seq<T>, keep: T -> bool)
    ensures Filter(a + b, keep) == Filter(a, keep) + Filter(b, keep)
  {
    if a != [] {
      assert (a + b)[0] == a[0];
      assert (a + b)[1..] == a[1..] + b;
      FilterAppend(a[1..], b, keep);
    } else {
      assert a + b == b;
    }
  }

  /** Overwriting a dropped element with another dropped one does not
      change what the filter keeps. */
  lemma {:induction false} FilterSkipsUpdate<T>(s: seq<T>, i: int, y: T, keep: T -> bool)
    requires 0 <= i < |s| && !keep(s[i]) && !keep(y)
    ensures Filter(s[i := y], keep) == Filter(s, keep)
  {
    if i > 0 {
      assert s[i := y][1..] == s[1..][i - 1 := y];
      FilterSkipsUpdate(s[1..], i - 1, y, keep);
    } else {
      assert s[i := y][1..] == s[1..];
    }
  }

  /** Filtering with a predicate every element satisfies changes nothing. */
  lemma {:induction false} FilterAll<T>(s: seq<T>, keep: T -> bool)
    requires forall i :: 0 <= i < |s| ==> keep(s[i])
    ensures Filter(s, keep) == s
  {
    if s != [] {
      FilterAll(s[1..], keep);
    }
  }

  /** Filtering twice with the same predicate is filtering once. */
  lemma FilterIdempotent<T>(s: seq<T>, keep: T -> bool)
    ensures Filter(Filter(s, keep), keep) == Filter(s, keep)
  {
    var r := Filter(s, keep);
    forall i | 0 <= i < |r| ensures keep(r[i]) {
      FilterMember(s, keep, r[i]);
    }
    FilterAll(r, keep);
  }

  /** A filtered sequence without duplicates has none either. */
  lemma {:induction false} FilterNoDup<T>(s: seq<T>, keep: T -> bool)
    requires NoDup(s)
    ensures NoDup(Filter(s, keep))
  {
    if s != [] {
      assert NoDup(s[1..]);
      FilterNoDup(s[1..], keep);
      FilterMember(s[1..], keep, s[0]);
    }
  }

  /** `a` is `b` with some elements left out, the rest in their order. */
  ghost predicate IsSubsequence<T>(a: seq<T>, b: seq<T>)
    decreases |b|
  {
    if a == [] then true
    else if b == [] then false
    else if a[0] == b[0] then IsSubsequence(a[1..], b[1..])
    else IsSubsequence(a, b[1..])
  }

  /** Filtering keeps the kept elements in their original order. */
  lemma {:induction false} FilterIsSubsequence<T>(s: seq<T>, keep: T -> bool)
    ensures IsSubsequence(Filter(s, keep), s)
  {
    if s != [] {
      var r := Filter(s[1..], keep);
      FilterIsSubsequence(s[1..], keep);
      if keep(s[0]) {
        assert ([s[0]] + r)[1..] == r;
      } else {
        SubsequenceDropHead(r, s);
      }
    }
  }

  /** A subsequence of the tail is a subsequence of the whole. */
  lemma {:induction false} SubsequenceDropHead<T>(a: seq<T>, b: seq<T>)
    requires b != [] && IsSubsequence(a, b[1..])
    ensures IsSubsequence(a, b)
    decreases |b|, |a|
  {
    if a != [] && a[0] == b[0] {
      SubsequenceTail(a, b[1..]);
    }
  }

  /** Dropping the head of a subsequence keeps it a subsequence. */
  lemma {:induction false} SubsequenceTail<T>(a: seq<T>, b: seq<T>)
    requires a != [] && IsSubsequence(a, b)
    ensures IsSubsequence(a[1..], b)
    decreases |b|, |a|
  {
    if a[1..] != [] {
      if a[0] == b[0] {
        SubsequenceDropHead(a[1..], b);
      } else {
        SubsequenceTail(a, b[1..]);
        SubsequenceDropHead(a[1..], b);
      }
    }
  }

  /** `Array.prototype.map(y => pick(y) ? x : y)`: every picked element
      becomes `x`, in place. */
  function Replace<T>(s: seq<T>, pick: T -> bool, x: T): (r: seq<T>)
    ensures |r| == |s|
  {
    seq(|s|, i requires 0 <= i < |s| => if pick(s[i]) then x else s[i])
  }

  /** What a replacement holds: every element not picked, `x` when
      something was picked, and nothing else. */
  lemma ReplaceMembers<T>(s: seq<T>, pick: T -> bool, x: T)
    ensures forall y :: y in s && !pick(y) ==> y in Replace(s, pick, x)
    ensures forall y :: y in Replace(s, pick, x) ==> y == x || (y in s && !pick(y))
    ensures pick(x) ==> (x in Replace(s, pick, x) <==> exists i :: 0 <= i < |s| && pick(s[i]))
  {
    var r := Replace(s, pick, x);
    forall y | y in s && !pick(y) ensures y in r {
      var i :| 0 <= i < |s| && s[i] == y;
      assert r[i] == y;
    }
    if exists i :: 0 <= i < |s| && pick(s[i]) {
      var i :| 0 <= i < |s| && pick(s[i]);
      assert r[i] == x;
    }
  }

  /** Replacing when nothing is picked changes nothing. */
  lemma ReplaceNone<T>(s: seq<T>, pick: T -> bool, x: T)
    requires forall i :: 0 <= i < |s| ==> !pick(s[i])
    ensures Replace(s, pick, x) == s
  {
  }

  /** The keys of `m` whose values satisfy `keep`. */
  function Matching<K, V>(m: map<K, V>, keep: V -> bool): set<K>
  {
    set k | k in m && keep(m[k])
  }

  /** A query over a collection, `find(filter)`: the values that satisfy
      `keep`, one per matching document, in no particular order. */
  method Select<K, V(==)>(m: map<K, V>, keep: V -> bool) returns (r: seq<V>)
    ensures |r| == |Matching(m, keep)|
    ensures forall i :: 0 <= i < |r| ==> keep(r[i]) && r[i] in m.Values
    ensures forall k :: k in m && keep(m[k]) ==> m[k] in r
  {
    r := [];
    ghost var seen: set<K> := {};
    ghost var taken: set<K> := {};
    var rest := m.Keys;
    while rest != {}
      invariant rest !! seen && rest + seen == m.Keys
      invariant taken <= seen
      invariant forall k :: k in seen ==> (k in taken <==> keep(m[k]))
      invariant |r| == |taken|
      invariant forall i :: 0 <= i < |r| ==> keep(r[i]) && r[i] in m.Values
      invariant forall k :: k in taken ==> m[k] in r
      decreases rest
    {
      var k :| k in rest;
      if keep(m[k]) {
        r := r + [m[k]];
        taken := taken + {k};
      }
      seen := seen + {k};
      rest := rest - {k};
    }
    assert taken == Matching(m, keep);
  }
}
