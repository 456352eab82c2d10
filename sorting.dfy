/** A stable sort of positions by a key, as Array.prototype.sort does it with a
    comparator: the result lists the positions 0 .. |keys|-1 ordered by `le` on
    their keys, positions with equal keys keeping their original order. The
    players sort their playlist by title and their history by last-played time. */
module Sorting {

  /** The positions 0, 1, ..., n-1 in increasing order. */
  function Range(n: nat): (r: seq<nat>)
    ensures |r| == n
    ensures forall i :: 0 <= i < n ==> r[i] == i
  {
    if n == 0 then [] else Range(n - 1) + [n - 1]
  }

  /** `le` is total and transitive: a comparator that sort may rely on. */
  ghost predicate IsTotalPreorder<K(!new)>(le: (K, K) -> bool) {
    (forall a, b :: le(a, b) || le(b, a)) &&
    (forall a, b, c :: le(a, b) && le(b, c) ==> le(a, c))
  }

  predicate InBounds(p: seq<nat>, n: nat) {
    forall i :: 0 <= i < |p| ==> p[i] < n
  }

  /** Every earlier position of `p` has a key `le` every later one. */
  ghost predicate SortedBy<K>(keys: seq<K>, le: (K, K) -> bool, p: seq<nat>)
    requires InBounds(p, |keys|)
  {
    forall a, b :: 0 <= a < b < |p| ==> le(keys[p[a]], keys[p[b]])
  }

  /** Inserts position `x` after every position whose key is `le` its own. */
  function Insert<K>(keys: seq<K>, le: (K, K) -> bool, x: nat, p: seq<nat>): (r: seq<nat>)
    requires x < |keys| && InBounds(p, |keys|)
    ensures |r| == |p| + 1
    ensures InBounds(r, |keys|)
  {
    if p == [] then [x]
    else if le(keys[p[0]], keys[x]) then [p[0]] + Insert(keys, le, x, p[1..])
    else [x] + p
  }

  /** Insertion adds `x` and loses nothing. */
  lemma {:induction false} InsertCount<K>(keys: seq<K>, le: (K, K) -> bool, x: nat, p: seq<nat>)
    requires x < |keys| && InBounds(p, |keys|)
    ensures multiset(Insert(keys, le, x, p)) == multiset(p) + multiset{x}
  {
    if p != [] && le(keys[p[0]], keys[x]) {
      InsertCount(keys, le, x, p[1..]);
      assert p == [p[0]] + p[1..];
    }
  }

  /** Insertion sort of the first m positions. */
  function SortPrefix<K>(keys: seq<K>, le: (K, K) -> bool, m: nat): (r: seq<nat>)
    requires m <= |keys|
    ensures |r| == m
    ensures InBounds(r, |keys|)
  {
    if m == 0 then []
    else Insert(keys, le, m - 1, SortPrefix(keys, le, m - 1))
  }

  /** The sorted prefix holds each of 0 .. m-1 once. */
  lemma {:induction false} SortPrefixCount<K>(keys: seq<K>, le: (K, K) -> bool, m: nat)
    requires m <= |keys|
    ensures multiset(SortPrefix(keys, le, m)) == multiset(Range(m))
  {
    if m > 0 {
      var p := SortPrefix(keys, le, m - 1);
      var x: nat := m - 1;
      assert SortPrefix(keys, le, m) == Insert(keys, le, x, p);
      InsertCount(keys, le, x, p);
      SortPrefixCount(keys, le, m - 1);
      RangeGrows(m);
    }
  }

  lemma RangeGrows(m: nat)
    requires m > 0
    ensures multiset(Range(m)) == multiset(Range(m - 1)) + multiset{(m - 1) as nat}
  {
    var last: seq<nat> := [m - 1];
    assert Range(m) == Range(m - 1) + last;
    assert multiset(Range(m - 1) + last) == multiset(Range(m - 1)) + multiset(last);
  }

  /** All positions of `keys`, stably sorted by `le`. */
  function SortIndices<K>(keys: seq<K>, le: (K, K) -> bool): (r: seq<nat>)
    ensures |r| == |keys|
    ensures InBounds(r, |keys|)
    ensures multiset(r) == multiset(Range(|keys|))
  {
    SortPrefixCount(keys, le, |keys|);
    SortPrefix(keys, le, |keys|)
  }

  /** A key that is `le` the inserted one and every key of `p` is `le` every
      key of the result. */
  lemma {:induction false} InsertAbove<K>(keys: seq<K>, le: (K, K) -> bool, x: nat, p: seq<nat>, y: nat)
    requires x < |keys| && y < |keys| && InBounds(p, |keys|)
    requires le(keys[y], keys[x])
    requires forall j :: 0 <= j < |p| ==> le(keys[y], keys[p[j]])
    ensures forall j :: 0 <= j < |Insert(keys, le, x, p)| ==> le(keys[y], keys[Insert(keys, le, x, p)[j]])
  {
    if p != [] && le(keys[p[0]], keys[x]) {
      InsertAbove(keys, le, x, p[1..], y);
      var r := Insert(keys, le, x, p);
      var tail := Insert(keys, le, x, p[1..]);
      assert r == [p[0]] + tail;
      forall j | 1 <= j < |r| ensures le(keys[y], keys[r[j]]) {
        assert r[j] == tail[j - 1];
        assert le(keys[y], keys[tail[j - 1]]);
      }
    }
  }

  lemma {:induction false} InsertSorted<K(!new)>(keys: seq<K>, le: (K, K) -> bool, x: nat, p: seq<nat>)
    requires IsTotalPreorder(le)
    requires x < |keys| && InBounds(p, |keys|)
    requires SortedBy(keys, le, p)
    ensures SortedBy(keys, le, Insert(keys, le, x, p))
  {
    var r := Insert(keys, le, x, p);
    if p == [] {
    } else if le(keys[p[0]], keys[x]) {
      var tail := Insert(keys, le, x, p[1..]);
      InsertSorted(keys, le, x, p[1..]);
      InsertAbove(keys, le, x, p[1..], p[0]);
      assert r == [p[0]] + tail;
      forall a, b | 0 <= a < b < |r| ensures le(keys[r[a]], keys[r[b]]) {
        if a == 0 {
          assert r[b] == tail[b - 1];
        } else {
          assert r[a] == tail[a - 1] && r[b] == tail[b - 1];
        }
      }
    } else {
      assert le(keys[x], keys[p[0]]);
      forall a, b | 0 <= a < b < |r| ensures le(keys[r[a]], keys[r[b]]) {
        if a == 0 {
          assert r[b] == p[b - 1];
          if b > 1 {
            assert le(keys[p[0]], keys[p[b - 1]]);
          }
        } else {
          assert r[a] == p[a - 1] && r[b] == p[b - 1];
        }
      }
    }
  }

  lemma {:induction false} SortPrefixSorted<K(!new)>(keys: seq<K>, le: (K, K) -> bool, m: nat)
    requires IsTotalPreorder(le)
    requires m <= |keys|
    ensures SortedBy(keys, le, SortPrefix(keys, le, m))
  {
    if m > 0 {
      var p := SortPrefix(keys, le, m - 1);
      assert SortPrefix(keys, le, m) == Insert(keys, le, m - 1, p);
      SortPrefixSorted(keys, le, m - 1);
      InsertSorted(keys, le, m - 1, p);
    }
  }

  /** Positions whose keys are equal under `le` appear in increasing order. */
  ghost predicate StableBy<K>(keys: seq<K>, le: (K, K) -> bool, p: seq<nat>)
    requires InBounds(p, |keys|)
  {
    forall a, b :: 0 <= a < b < |p| && le(keys[p[b]], keys[p[a]]) ==> p[a] < p[b]
  }

  /** Every element of the insertion result is `x` or an element of `p`. */
  lemma {:induction false} InsertMembers<K>(keys: seq<K>, le: (K, K) -> bool, x: nat, p: seq<nat>)
    requires x < |keys| && InBounds(p, |keys|)
    ensures forall j :: 0 <= j < |Insert(keys, le, x, p)| ==> Insert(keys, le, x, p)[j] == x || Insert(keys, le, x, p)[j] in p
  {
    if p != [] && le(keys[p[0]], keys[x]) {
      InsertMembers(keys, le, x, p[1..]);
      var r := Insert(keys, le, x, p);
      var tail := Insert(keys, le, x, p[1..]);
      assert r == [p[0]] + tail;
      forall j | 1 <= j < |r| ensures r[j] == x || r[j] in p {
        assert r[j] == tail[j - 1];
        assert tail[j - 1] == x || tail[j - 1] in p[1..];
      }
    }
  }

  /** Inserting a position above all others, into a sorted and stable
      sequence, keeps it stable: `x` goes after every key equal to its own. */
  lemma {:induction false} InsertStable<K(!new)>(keys: seq<K>, le: (K, K) -> bool, x: nat, p: seq<nat>)
    requires IsTotalPreorder(le)
    requires x < |keys| && InBounds(p, |keys|) && InBounds(p, x)
    requires SortedBy(keys, le, p) && StableBy(keys, le, p)
    ensures StableBy(keys, le, Insert(keys, le, x, p))
  {
    if p == [] {
    } else if le(keys[p[0]], keys[x]) {
      InsertStable(keys, le, x, p[1..]);
      InsertStableBehind(keys, le, x, p);
    } else {
      BelowFirstBelowAll(keys, le, x, p);
      StableCons(keys, le, x, p);
      assert Insert(keys, le, x, p) == [x] + p;
    }
  }

  /** Inserting keeps a position `lo` below every position whose key is at
      most that of `lo`, when that holds for `x` and for `q`. */
  lemma {:induction false} InsertKeepsAfter<K>(keys: seq<K>, le: (K, K) -> bool, x: nat, q: seq<nat>, lo: nat)
    requires x < |keys| && lo < |keys| && InBounds(q, |keys|)
    requires le(keys[x], keys[lo]) ==> lo < x
    requires forall j :: 0 <= j < |q| ==> le(keys[q[j]], keys[lo]) ==> lo < q[j]
    ensures forall j :: 0 <= j < |Insert(keys, le, x, q)| ==>
      le(keys[Insert(keys, le, x, q)[j]], keys[lo]) ==> lo < Insert(keys, le, x, q)[j]
  {
    var r := Insert(keys, le, x, q);
    if q != [] && le(keys[q[0]], keys[x]) {
      InsertKeepsAfter(keys, le, x, q[1..], lo);
      var tail := Insert(keys, le, x, q[1..]);
      assert r == [q[0]] + tail;
      forall j | 1 <= j < |r| ensures le(keys[r[j]], keys[lo]) ==> lo < r[j] {
        assert r[j] == tail[j - 1];
      }
    } else {
      assert r == [x] + q;
      forall j | 1 <= j < |r| ensures le(keys[r[j]], keys[lo]) ==> lo < r[j] {
        assert r[j] == q[j - 1];
      }
    }
  }

  /** Putting `h` in front of a stable sequence keeps it stable when `h` is
      below every later position whose key is at most its own. */
  lemma StableCons<K>(keys: seq<K>, le: (K, K) -> bool, h: nat, t: seq<nat>)
    requires h < |keys| && InBounds(t, |keys|)
    requires forall j :: 0 <= j < |t| ==> le(keys[t[j]], keys[h]) ==> h < t[j]
    requires StableBy(keys, le, t)
    ensures InBounds([h] + t, |keys|)
    ensures StableBy(keys, le, [h] + t)
  {
    var r := [h] + t;
    forall a, b | 0 <= a < b < |r| && le(keys[r[b]], keys[r[a]]) ensures r[a] < r[b] {
      assert r[b] == t[b - 1];
      if a > 0 {
        assert r[a] == t[a - 1];
      }
    }
  }

  /** `x` passes the first position: that position stays first, and it is
      below every later one whose key is at most its own. */
  lemma InsertStableBehind<K>(keys: seq<K>, le: (K, K) -> bool, x: nat, p: seq<nat>)
    requires x < |keys| && InBounds(p, |keys|) && p != []
    requires le(keys[p[0]], keys[x])
    requires forall j :: 0 <= j < |p| ==> p[j] < x
    requires StableBy(keys, le, p)
    requires StableBy(keys, le, Insert(keys, le, x, p[1..]))
    ensures StableBy(keys, le, Insert(keys, le, x, p))
  {
    var q := p[1..];
    forall j | 0 <= j < |q| && le(keys[q[j]], keys[p[0]]) ensures p[0] < q[j] {
      assert q[j] == p[j + 1];
    }
    InsertKeepsAfter(keys, le, x, q, p[0]);
    var tail := Insert(keys, le, x, q);
    StableCons(keys, le, p[0], tail);
    assert Insert(keys, le, x, p) == [p[0]] + tail;
  }

  /** A key below the first of a sorted sequence is below all of them. */
  lemma BelowFirstBelowAll<K(!new)>(keys: seq<K>, le: (K, K) -> bool, x: nat, p: seq<nat>)
    requires IsTotalPreorder(le)
    requires x < |keys| && InBounds(p, |keys|) && p != []
    requires !le(keys[p[0]], keys[x])
    requires SortedBy(keys, le, p)
    ensures forall j :: 0 <= j < |p| ==> !le(keys[p[j]], keys[x])
  {
    forall j | 0 <= j < |p| ensures !le(keys[p[j]], keys[x]) {
      if j > 0 {
        assert le(keys[p[0]], keys[p[j]]);
      }
    }
  }

  /** The sorted prefix holds only positions below m. */
  lemma {:induction false} SortPrefixBelow<K>(keys: seq<K>, le: (K, K) -> bool, m: nat)
    requires m <= |keys|
    ensures InBounds(SortPrefix(keys, le, m), m)
  {
    if m > 0 {
      var p := SortPrefix(keys, le, m - 1);
      var r := Insert(keys, le, m - 1, p);
      assert SortPrefix(keys, le, m) == r;
      SortPrefixBelow(keys, le, m - 1);
      InsertMembers(keys, le, m - 1, p);
      forall j | 0 <= j < |r| ensures r[j] < m {
        assert r[j] == m - 1 || r[j] in p;
      }
    }
  }

  /** One insertion step keeps the sorted prefix stable. */
  lemma SortPrefixStep<K(!new)>(keys: seq<K>, le: (K, K) -> bool, m: nat, p: seq<nat>)
    requires IsTotalPreorder(le)
    requires 0 < m <= |keys| && p == SortPrefix(keys, le, m - 1)
    requires InBounds(p, m - 1) && SortedBy(keys, le, p) && StableBy(keys, le, p)
    ensures StableBy(keys, le, SortPrefix(keys, le, m))
  {
    InsertStable(keys, le, m - 1, p);
  }

  /** The sorted prefix holds positions below m, equal keys in their order. */
  lemma {:induction false} SortPrefixStable<K(!new)>(keys: seq<K>, le: (K, K) -> bool, m: nat)
    requires IsTotalPreorder(le)
    requires m <= |keys|
    ensures InBounds(SortPrefix(keys, le, m), m)
    ensures StableBy(keys, le, SortPrefix(keys, le, m))
  {
    SortPrefixBelow(keys, le, m);
    if m > 0 {
      SortPrefixStable(keys, le, m - 1);
      SortPrefixSorted(keys, le, m - 1);
      SortPrefixStep(keys, le, m, SortPrefix(keys, le, m - 1));
    }
  }

  /** Sorting yields every position exactly once, in `le` order, and positions
      with equal keys keep their original order. */
  lemma SortIndicesCorrect<K(!new)>(keys: seq<K>, le: (K, K) -> bool)
    requires IsTotalPreorder(le)
    ensures SortedBy(keys, le, SortIndices(keys, le))
    ensures IsPermutation(SortIndices(keys, le), |keys|)
    ensures var r := SortIndices(keys, le);
      forall a, b :: 0 <= a < b < |r| && le(keys[r[a]], keys[r[b]]) && le(keys[r[b]], keys[r[a]]) ==> r[a] < r[b]
  {
    SortPrefixSorted(keys, le, |keys|);
    SortPrefixStable(keys, le, |keys|);
    PermutationOfRange(SortIndices(keys, le), |keys|);
  }

  /** `p` lists each of 0 .. n-1 exactly once. */
  predicate IsPermutation(p: seq<nat>, n: nat) {
    |p| == n &&
    (forall i :: 0 <= i < n ==> p[i] < n) &&
    (forall a, b :: 0 <= a < b < n ==> p[a] != p[b])
  }

  /** Each position below n occurs once in `Range(n)`, and no other value. */
  lemma {:induction false} RangeCount(n: nat, v: nat)
    ensures multiset(Range(n))[v] == if v < n then 1 else 0
  {
    if n > 0 {
      RangeCount(n - 1, v);
      CountAppend(Range(n - 1), n - 1, v);
    }
  }

  lemma CountAppend(s: seq<nat>, x: nat, v: nat)
    ensures multiset(s + [x])[v] == multiset(s)[v] + if v == x then 1 else 0
  {
    var last: seq<nat> := [x];
    assert multiset(s + last) == multiset(s) + multiset(last);
  }

  lemma {:induction false} PermutationOfRange(p: seq<nat>, n: nat)
    requires multiset(p) == multiset(Range(n))
    ensures IsPermutation(p, n)
  {
    assert |p| == |multiset(p)| == |multiset(Range(n))| == n;
    forall i | 0 <= i < n ensures p[i] < n {
      assert p[i] in multiset(p);
      RangeCount(n, p[i]);
    }
    forall a, b | 0 <= a < b < n ensures p[a] != p[b] {
      if p[a] == p[b] {
        assert p == p[..a] + [p[a]] + p[a + 1..b] + [p[b]] + p[b + 1..];
        assert multiset(p)[p[a]] >= 2;
        RangeCount(n, p[a]);
        assert false;
      }
    }
  }

  /** Every value below n occurs somewhere in a permutation of 0 .. n-1. */
  lemma {:induction false} PermutationCovers(p: seq<nat>, n: nat, v: nat)
    requires multiset(p) == multiset(Range(n))
    requires v < n
    ensures v in p
  {
    RangeCount(n, v);
    assert v in multiset(p);
  }
}
