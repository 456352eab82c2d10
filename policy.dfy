/** The decisions the players take on plain values: how the repeat mode
    cycles, where next and previous lead, how a volume is clamped, how a
    random draw picks an index, and which tracks the smart shuffle of the
    ultra-modern players may choose. */
module Policy {
  import opened Sorting

  /** `repeatMode`: 'none', 'one' or 'all'. */
  datatype RepeatMode = Off | One | All

  /** `modes.indexOf(m)`: the first position of `m`, or -1. */
  function IndexOf(modes: seq<RepeatMode>, m: RepeatMode): (i: int)
    ensures -1 <= i < |modes|
    ensures i >= 0 ==> modes[i] == m && forall k :: 0 <= k < i ==> modes[k] != m
    ensures i == -1 ==> m !in modes
  {
    if modes == [] then -1
    else if modes[0] == m then 0
    else
      var j := IndexOf(modes[1..], m);
      if j == -1 then -1 else j + 1
  }

  /** `modes[(modes.indexOf(m) + 1) % modes.length]`. */
  function Cycle(modes: seq<RepeatMode>, m: RepeatMode): RepeatMode
    requires |modes| > 0
  {
    modes[(IndexOf(modes, m) + 1) % |modes|]
  }

  /** `toggleRepeat` of the ultra-modern, folder and ocean players. */
  function NextRepeat(m: RepeatMode): (r: RepeatMode)
    ensures m == Off ==> r == One
    ensures m == One ==> r == All
    ensures m == All ==> r == Off
  {
    Cycle([Off, One, All], m)
  }

  /** `toggleRepeat` of the linjunjie player, whose list is ['none', 'all', 'one']. */
  function NextRepeatReversed(m: RepeatMode): (r: RepeatMode)
    ensures m == Off ==> r == All
    ensures m == All ==> r == One
    ensures m == One ==> r == Off
  {
    Cycle([Off, All, One], m)
  }

  /** Three presses bring every mode back, and no single press keeps it. */
  lemma RepeatCycleHasPeriodThree(m: RepeatMode)
    ensures NextRepeat(m) != m && NextRepeat(NextRepeat(m)) != m
    ensures NextRepeat(NextRepeat(NextRepeat(m))) == m
    ensures NextRepeatReversed(NextRepeatReversed(NextRepeatReversed(m))) == m
  {
  }

  /** The linjunjie order runs the same cycle backwards. */
  lemma ReversedCycleUndoes(m: RepeatMode)
    ensures NextRepeatReversed(NextRepeat(m)) == m
    ensures NextRepeat(NextRepeatReversed(m)) == m
    ensures NextRepeatReversed(m) == NextRepeat(NextRepeat(m))
  {
  }

  /** JavaScript's `a % n` on integers: the remainder takes the sign of `a`. */
  function JsRem(a: int, n: int): (r: int)
    requires n > 0
    ensures a >= 0 ==> r == a % n
    ensures a < 0 ==> r == -((-a) % n)
    ensures -n < r < n
  {
    if a >= 0 then a % n else -((-a) % n)
  }

  /** Next index with an explicit wrap: `i + 1`, or 0 past the end (folder and ocean). */
  function WrapNext(ci: int, n: nat): (r: int)
    requires n > 0
    ensures 0 <= ci < n ==> 0 <= r < n && r == (ci + 1) % n
  {
    if ci + 1 >= n then 0 else ci + 1
  }

  /** Previous index: `i - 1`, or the last index below 0. */
  function WrapPrev(ci: int, n: nat): (r: int)
    requires n > 0
    ensures 0 <= ci < n ==> 0 <= r < n && r == (ci - 1 + n) % n
  {
    if ci - 1 < 0 then n - 1 else ci - 1
  }

  /** Previous index of the linjunjie player: the last index only from 0. */
  function PrevFromZero(ci: int, n: nat): (r: int)
    requires n > 0
    ensures 0 <= ci < n ==> r == WrapPrev(ci, n)
    ensures ci < 0 ==> r == ci - 1
  {
    if ci == 0 then n - 1 else ci - 1
  }

  /** Next and previous undo each other on valid indices. */
  lemma NextPrevInverse(ci: int, n: nat)
    requires 0 <= ci < n
    ensures WrapPrev(WrapNext(ci, n), n) == ci
    ensures WrapNext(WrapPrev(ci, n), n) == ci
    ensures JsRem(ci + 1, n) == WrapNext(ci, n)
  {
  }

  /** `Math.max(0, Math.min(1, v))`. */
  function ClampVolume(v: real): (r: real)
    ensures 0.0 <= r <= 1.0
    ensures 0.0 <= v <= 1.0 ==> r == v
    ensures v < 0.0 ==> r == 0.0
    ensures v > 1.0 ==> r == 1.0
  {
    if v > 1.0 then 1.0 else if v < 0.0 then 0.0 else v
  }

  /** Clamping twice is clamping once, and a clamped volume is its own clamp. */
  lemma ClampIdempotent(v: real)
    ensures ClampVolume(ClampVolume(v)) == ClampVolume(v)
  {
  }

  /** `Math.floor(draw * n)` for a draw of `Math.random()`, which lies in [0, 1). */
  function RandomIndex(draw: real, n: nat): (r: nat)
    requires 0.0 <= draw < 1.0 && n > 0
    ensures r < n
  {
    var x := draw * n as real;
    assert x < n as real;
    x.Floor
  }

  /** Every index can be drawn: the uniform pick may land on any track,
      the current one included. */
  lemma EveryIndexDrawable(i: nat, n: nat)
    requires i < n
    ensures 0.0 <= i as real / n as real < 1.0
    ensures RandomIndex(i as real / n as real, n) == i
  {
    var d := i as real / n as real;
    assert d * n as real == i as real;
  }

  /** The comparator `(a, b) => b.lastPlayed - a.lastPlayed`: later first. */
  function MoreRecent(a: nat, b: nat): bool {
    a >= b
  }

  lemma MoreRecentIsTotalPreorder()
    ensures IsTotalPreorder(MoreRecent)
  {
  }

  function Min(a: int, b: int): int {
    if a <= b then a else b
  }

  /** The indices the smart shuffle avoids: positions sorted by `lastPlayed`,
      latest first (stable), cut to `Math.min(5, n - 1)`. */
  function RecentIndices(lastPlayed: seq<nat>): (r: seq<nat>)
    requires |lastPlayed| > 0
    ensures |r| == Min(5, |lastPlayed| - 1)
    ensures InBounds(r, |lastPlayed|)
  {
    SortIndices(lastPlayed, MoreRecent)[..Min(5, |lastPlayed| - 1)]
  }

  /** The recent indices are distinct, and each was played no earlier than
      any index left out of them. */
  lemma RecentAreLatest(lastPlayed: seq<nat>)
    requires |lastPlayed| > 0
    ensures var r := RecentIndices(lastPlayed);
      forall a, b :: 0 <= a < b < |r| ==> r[a] != r[b]
    ensures var r := RecentIndices(lastPlayed);
      forall a, j :: 0 <= a < |r| && 0 <= j < |lastPlayed| && j !in r ==> lastPlayed[r[a]] >= lastPlayed[j]
  {
    var n := |lastPlayed|;
    var p := SortIndices(lastPlayed, MoreRecent);
    var r := RecentIndices(lastPlayed);
    MoreRecentIsTotalPreorder();
    SortIndicesCorrect(lastPlayed, MoreRecent);
    forall a, j | 0 <= a < |r| && 0 <= j < n && j !in r ensures lastPlayed[r[a]] >= lastPlayed[j] {
      PermutationCovers(p, n, j);
      var b :| 0 <= b < n && p[b] == j;
      assert r == p[..|r|];
      assert b >= |r|;
      assert r[a] == p[a];
      assert MoreRecent(lastPlayed[p[a]], lastPlayed[p[b]]);
    }
  }

  /** `Array.from({length: n}, (_, i) => i).filter(i => i !== ci && !recent.includes(i))`,
      over the first k indices. */
  function Candidates(k: nat, ci: int, recent: seq<nat>): (r: seq<nat>)
    ensures |r| <= k
    ensures forall x: nat :: x in r <==> x < k && x != ci && x !in recent
    ensures forall a, b :: 0 <= a < b < |r| ==> r[a] < r[b]
  {
    if k == 0 then []
    else
      var prev := Candidates(k - 1, ci, recent);
      assert forall a :: 0 <= a < |prev| ==> prev[a] in prev;
      if k - 1 != ci && k - 1 !in recent then prev + [k - 1] else prev
  }

  /** Excluding one more index removes at most one candidate. */
  lemma {:induction false} CandidatesDropOne(k: nat, ci: int, recent: seq<nat>)
    requires recent != []
    ensures |Candidates(k, ci, recent)| + (if recent[0] < k then 1 else 0) >= |Candidates(k, ci, recent[1..])|
  {
    if k > 0 {
      CandidatesDropOne(k - 1, ci, recent);
      assert forall x :: x in recent <==> x == recent[0] || x in recent[1..] by {
        assert recent == [recent[0]] + recent[1..];
      }
    }
  }

  /** Excluding the current index alone removes at most one candidate. */
  lemma {:induction false} CandidatesAvoidOne(k: nat, ci: int)
    ensures |Candidates(k, ci, [])| + (if 0 <= ci < k then 1 else 0) >= k
  {
    if k > 0 {
      CandidatesAvoidOne(k - 1, ci);
    }
  }

  /** At most the current index and the recent ones are excluded. */
  lemma {:induction false} CandidatesCount(k: nat, ci: int, recent: seq<nat>)
    ensures |Candidates(k, ci, recent)| + 1 + |recent| >= k
    decreases |recent|, k
  {
    if recent == [] {
      CandidatesAvoidOne(k, ci);
    } else {
      CandidatesDropOne(k, ci, recent);
      CandidatesCount(k, ci, recent[1..]);
    }
  }

  /** The smart shuffle of the ultra-modern players, given the `lastPlayed`
      stamps (0 for a track never left), the current index and a draw of
      `Math.random()`: a random candidate, or the next index when every
      index is current or recent. */
  function SmartShuffle(lastPlayed: seq<nat>, ci: nat, draw: real): (r: nat)
    requires ci < |lastPlayed| && 0.0 <= draw < 1.0
    ensures r < |lastPlayed|
    ensures var c := Candidates(|lastPlayed|, ci, RecentIndices(lastPlayed));
      c != [] ==> r in c && r != ci && r !in RecentIndices(lastPlayed)
    ensures Candidates(|lastPlayed|, ci, RecentIndices(lastPlayed)) == [] ==> r == (ci + 1) % |lastPlayed|
  {
    var recent := RecentIndices(lastPlayed);
    var c := Candidates(|lastPlayed|, ci, recent);
    if c != [] then
      var i := RandomIndex(draw, |c|);
      assert c[i] in c;
      assert c[i] < |lastPlayed| && c[i] != ci && c[i] !in recent;
      c[i]
    else (ci + 1) % |lastPlayed|
  }

  /** With seven tracks or more a candidate always remains, so the shuffle
      never repeats the current track nor picks a recent one. */
  lemma ShuffleAvoidsCurrentFromSeven(lastPlayed: seq<nat>, ci: nat, draw: real)
    requires ci < |lastPlayed| && 0.0 <= draw < 1.0
    requires |lastPlayed| >= 7
    ensures SmartShuffle(lastPlayed, ci, draw) != ci
    ensures SmartShuffle(lastPlayed, ci, draw) !in RecentIndices(lastPlayed)
  {
    CandidatesCount(|lastPlayed|, ci, RecentIndices(lastPlayed));
  }

  /** With a single track there is no candidate and the shuffle stays on it. */
  lemma ShuffleSingleTrack(lastPlayed: seq<nat>, draw: real)
    requires |lastPlayed| == 1 && 0.0 <= draw < 1.0
    ensures SmartShuffle(lastPlayed, 0, draw) == 0
  {
    assert Candidates(1, 0, RecentIndices(lastPlayed)) == [];
  }
}
