/** find_peaks_simple: peaks of a record, each refined to the highest sample near it, a distance apart. */
module PeakFinder {

  /** An interior local maximum above the threshold. */
  predicate Candidate(x: seq<real>, threshold: real, i: int) {
    0 < i < |x| - 1 && x[i] > x[i - 1] && x[i] >= x[i + 1] && x[i] > threshold
  }

  function Left(i: int): int { if i - 2 > 0 then i - 2 else 0 }

  function Right(x: seq<real>, i: int): int { if i + 3 < |x| then i + 3 else |x| }

  /** The search for a higher sample from j on, with `best` found so far. */
  function Highest(x: seq<real>, best: int, j: int, right: int): (r: int)
    requires 0 <= best < |x| && 0 <= j <= right <= |x|
    ensures r == best || j <= r < right
    ensures x[r] >= x[best] && forall k | j <= k < right :: x[k] <= x[r]
    decreases right - j
  {
    if j == right then best else Highest(x, if x[j] > x[best] then j else best, j + 1, right)
  }

  function Refined(x: seq<real>, i: int): (r: int)
    requires 0 <= i < |x|
    ensures Left(i) <= r < Right(x, i) && x[r] >= x[i]
    ensures forall k | Left(i) <= k < Right(x, i) :: x[k] <= x[r]
  {
    Highest(x, i, Left(i), Right(x, i))
  }

  /** A higher sample is the first of the highest ones; without one, the search stays where it began. */
  lemma {:induction false} FirstHighest(x: seq<real>, best: int, j: int, right: int)
    requires 0 <= best < |x| && 0 <= j <= right <= |x|
    ensures var r := Highest(x, best, j, right);
      r == best || (x[r] > x[best] && forall k | j <= k < r :: x[k] < x[r])
    decreases right - j
  {
    if j < right { FirstHighest(x, if x[j] > x[best] then j else best, j + 1, right); }
  }

  /**
   The refined peak is the highest sample at most two away: the candidate itself if no other
   one is higher, else the first of the highest.
   */
  lemma RefinedIff(x: seq<real>, i: int, r: int)
    requires 0 <= i < |x|
    ensures r == Refined(x, i) <==>
      && 0 <= r < |x| && i - 2 <= r <= i + 2
      && (forall k | 0 <= k < |x| && i - 2 <= k <= i + 2 :: x[k] <= x[r])
      && (r == i || (x[i] < x[r] && forall k | 0 <= k < r && i - 2 <= k :: x[k] < x[r]))
  {
    FirstHighest(x, i, Left(i), Right(x, i));
  }

  method Refine(x: seq<real>, i: int) returns (localMax: int)
    requires 0 <= i < |x|
    ensures localMax == Refined(x, i)
  {
    var left, right := if i - 2 > 0 then i - 2 else 0, if i + 3 < |x| then i + 3 else |x|;
    localMax := i;
    for j := left to right
      invariant 0 <= localMax < |x| && Refined(x, i) == Highest(x, localMax, j, right)
    {
      if x[j] > x[localMax] { localMax := j; }
    }
  }

  // ---------- One turn of the loop ----------

  datatype Loop = Loop(peaks: seq<int>, last: int, i: int)

  function Start(distance: int): Loop { Loop([], -distance, 1) }

  predicate Done(x: seq<real>, s: Loop) { s.i >= |x| - 1 }

  predicate Taken(x: seq<real>, distance: int, threshold: real, s: Loop) {
    && Candidate(x, threshold, s.i) && s.i - s.last >= distance
    && Refined(x, s.i) - s.last >= distance
  }

  function Turn(x: seq<real>, distance: int, threshold: real, s: Loop): Loop
    requires 0 < s.i && !Done(x, s)
  {
    if Taken(x, distance, threshold, s) then
      var p := Refined(x, s.i);
      Loop(s.peaks + [p], p, p + 1)
    else s.(i := s.i + 1)
  }

  /** The loop after n turns, or at its end. */
  function After(x: seq<real>, distance: int, threshold: real, s: Loop, n: nat): Loop
    requires 0 < s.i
    decreases n
  {
    if n == 0 || Done(x, s) then s else After(x, distance, threshold, Turn(x, distance, threshold, s), n - 1)
  }

  ghost predicate Ends(x: seq<real>, distance: int, threshold: real) {
    exists n: nat :: Done(x, After(x, distance, threshold, Start(distance), n))
  }

  /** i may step back, but only when a later peak has been found. */
  lemma {:induction false} EndsFrom(x: seq<real>, distance: int, threshold: real, s: Loop) returns (n: nat)
    requires distance >= 1 && 0 < s.i && s.last < |x|
    ensures Done(x, After(x, distance, threshold, s, n))
    decreases |x| - s.last, |x| - s.i
  {
    if Done(x, s) { return 0; }
    var m := EndsFrom(x, distance, threshold, Turn(x, distance, threshold, s));
    return m + 1;
  }

  /** With no distance to keep, the same peak is found for ever in this record. */
  function Trap(): seq<real> { [5.0, 1.0, 3.0, 2.0] }

  lemma {:induction false} NeverEnds(distance: int, s: Loop, n: nat)
    requires distance <= 0 && 1 <= s.i <= 2 && s.last <= -distance
    ensures !Done(Trap(), After(Trap(), distance, 0.0, s, n))
    decreases n
  {
    if n > 0 {
      TrapTurns(distance, s);
      NeverEnds(distance, Turn(Trap(), distance, 0.0, s), n - 1);
    }
  }

  lemma TrapTurns(distance: int, s: Loop)
    requires distance <= 0 && 1 <= s.i <= 2 && s.last <= -distance
    ensures var t := Turn(Trap(), distance, 0.0, s); 1 <= t.i <= 2 && t.last <= -distance
  {
    TrapRefined();
    assert !Candidate(Trap(), 0.0, 1);
    assert Candidate(Trap(), 0.0, 2);
  }

  lemma TrapRefined()
    ensures Refined(Trap(), 2) == 0
  {
    var r := Refined(Trap(), 2);
    assert Trap()[0] <= Trap()[r];
  }

  /** The loop ends on every record exactly when the distance is positive. */
  lemma EndsIff(distance: int)
    ensures (forall x, threshold :: Ends(x, distance, threshold)) <==> distance >= 1
  {
    if distance >= 1 {
      forall x, threshold ensures Ends(x, distance, threshold) {
        var n := EndsFrom(x, distance, threshold, Start(distance));
      }
    } else {
      assert !Ends(Trap(), distance, 0.0) by {
        forall n: nat ensures !Done(Trap(), After(Trap(), distance, 0.0, Start(distance), n)) {
          NeverEnds(distance, Start(distance), n);
        }
      }
    }
  }

  // ---------- What is reported ----------

  predicate Spaced(peaks: seq<int>, distance: int) {
    forall j, k | 0 <= j < k < |peaks| :: peaks[k] - peaks[j] >= distance
  }

  /** Above the threshold, and highest among the samples near some candidate. */
  ghost predicate Reported(x: seq<real>, threshold: real, p: int) {
    && 0 <= p < |x| && x[p] > threshold
    && exists i :: Candidate(x, threshold, i) && p == Refined(x, i)
  }

  ghost predicate Covered(peaks: seq<int>, distance: int, i: int) {
    exists k :: 0 <= k < |peaks| && -distance - 1 <= peaks[k] - i <= distance + 1
  }

  ghost predicate AllReported(x: seq<real>, threshold: real, peaks: seq<int>) {
    forall k | 0 <= k < |peaks| :: Reported(x, threshold, peaks[k])
  }

  /** Every candidate before n is near a reported peak. */
  ghost predicate CoveredBelow(x: seq<real>, distance: int, threshold: real, peaks: seq<int>, n: int) {
    forall i | 0 < i < n && Candidate(x, threshold, i) :: Covered(peaks, distance, i)
  }

  /** What the loop keeps. */
  ghost predicate Sound(x: seq<real>, distance: int, threshold: real, s: Loop) {
    && Placed(distance, s)
    && AllReported(x, threshold, s.peaks)
    && Spaced(s.peaks, distance)
    && CoveredBelow(x, distance, threshold, s.peaks, s.i)
  }

  lemma TurnKeeps(x: seq<real>, distance: int, threshold: real, s: Loop)
    requires distance >= 1 && Sound(x, distance, threshold, s) && !Done(x, s)
    ensures Sound(x, distance, threshold, Turn(x, distance, threshold, s))
  {
    if Taken(x, distance, threshold, s) {
      OneMorePeak(x, distance, threshold, s.peaks, s.i);
      CoverageGrows(x, distance, threshold, s.peaks, s.i, Refined(x, s.i));
    } else {
      NothingMissed(x, distance, threshold, s);
    }
  }

  lemma OneMorePeak(x: seq<real>, distance: int, threshold: real, peaks: seq<int>, i: int)
    requires distance >= 1 && AllReported(x, threshold, peaks) && Spaced(peaks, distance) && Candidate(x, threshold, i)
    requires peaks != [] ==> Refined(x, i) - peaks[|peaks| - 1] >= distance
    ensures AllReported(x, threshold, peaks + [Refined(x, i)]) && Spaced(peaks + [Refined(x, i)], distance)
  {
    assert Reported(x, threshold, Refined(x, i));
    SpacedGrows(peaks, distance, Refined(x, i));
  }

  lemma SpacedGrows(peaks: seq<int>, distance: int, p: int)
    requires distance >= 1 && Spaced(peaks, distance) && (peaks != [] ==> p - peaks[|peaks| - 1] >= distance)
    ensures Spaced(peaks + [p], distance)
  {
  }

  lemma CoverageGrows(x: seq<real>, distance: int, threshold: real, peaks: seq<int>, i: int, p: int)
    requires distance >= 1 && CoveredBelow(x, distance, threshold, peaks, i) && i - 2 <= p <= i + 2
    ensures CoveredBelow(x, distance, threshold, peaks + [p], p + 1)
  {
    forall c | 0 < c < p + 1 && Candidate(x, threshold, c) ensures Covered(peaks + [p], distance, c) {
      if c < i {
        StillCovered(peaks, p, distance, c);
      } else {
        assert (peaks + [p])[|peaks|] == p;
      }
    }
  }

  /** A candidate that is not taken lies within distance + 1 of the last peak. */
  lemma NothingMissed(x: seq<real>, distance: int, threshold: real, s: Loop)
    requires distance >= 1 && Sound(x, distance, threshold, s) && !Done(x, s) && !Taken(x, distance, threshold, s)
    ensures CoveredBelow(x, distance, threshold, s.peaks, s.i + 1)
  {
    if Candidate(x, threshold, s.i) {
      assert s.i - s.last <= distance + 1;
      NearLast(s.peaks, distance, s.i);
    }
    CoverageSteps(x, distance, threshold, s.peaks, s.i);
  }

  lemma CoverageSteps(x: seq<real>, distance: int, threshold: real, peaks: seq<int>, n: int)
    requires CoveredBelow(x, distance, threshold, peaks, n)
    requires Candidate(x, threshold, n) ==> Covered(peaks, distance, n)
    ensures CoveredBelow(x, distance, threshold, peaks, n + 1)
  {
  }

  lemma NearLast(peaks: seq<int>, distance: int, i: int)
    requires peaks != [] && -distance - 1 <= peaks[|peaks| - 1] - i <= distance + 1
    ensures Covered(peaks, distance, i)
  {
    assert 0 <= |peaks| - 1 < |peaks|;
  }

  lemma StillCovered(peaks: seq<int>, p: int, distance: int, i: int)
    requires Covered(peaks, distance, i)
    ensures Covered(peaks + [p], distance, i)
  {
    var k :| 0 <= k < |peaks| && -distance - 1 <= peaks[k] - i <= distance + 1;
    assert (peaks + [p])[k] == peaks[k];
  }

  // ---------- Which peaks exactly ----------

  /** After a peak at `last`, sample i makes one: a local maximum above the threshold, far enough as it is and refined. */
  ghost predicate Makes(x: seq<real>, distance: int, threshold: real, last: int, i: int) {
    && 0 < i < |x| - 1 && x[i - 1] < x[i] && x[i + 1] <= x[i] && threshold < x[i]
    && last + distance <= i && last + distance <= Refined(x, i)
  }

  /** The last peak when peak k is looked for. */
  function Before(peaks: seq<int>, distance: int, k: int): int
    requires 0 <= k <= |peaks|
  {
    if k == 0 then -distance else peaks[k - 1]
  }

  /** Where the search for peak k begins. */
  function From(peaks: seq<int>, k: int): int
    requires 0 <= k <= |peaks|
  {
    if k == 0 then 1 else peaks[k - 1] + 1
  }

  ghost predicate NoneIn(x: seq<real>, distance: int, threshold: real, last: int, lo: int, hi: int) {
    forall i | lo <= i < hi :: !Makes(x, distance, threshold, last, i)
  }

  /** Peak k is the refined first sample, behind the peak before, that makes one. */
  ghost predicate IsNext(x: seq<real>, distance: int, threshold: real, peaks: seq<int>, k: int)
    requires 0 <= k < |peaks|
  {
    exists i :: Picks(x, distance, threshold, Before(peaks, distance, k), From(peaks, k), i, peaks[k])
  }

  /** Searching from lo on, sample i is the first that makes a peak, which is at p. */
  ghost predicate Picks(x: seq<real>, distance: int, threshold: real, last: int, lo: int, i: int, p: int) {
    lo <= i && Makes(x, distance, threshold, last, i) && NoneIn(x, distance, threshold, last, lo, i) && p == Refined(x, i)
  }

  /** Each peak is the next one, and no sample before n makes another. */
  ghost predicate Greedy(x: seq<real>, distance: int, threshold: real, peaks: seq<int>, n: int) {
    && (forall k | 0 <= k < |peaks| :: IsNext(x, distance, threshold, peaks, k))
    && NoneIn(x, distance, threshold, Before(peaks, distance, |peaks|), From(peaks, |peaks|), n)
  }

  predicate Placed(distance: int, s: Loop) { s.last == Before(s.peaks, distance, |s.peaks|) && s.last < s.i && 0 < s.i }

  lemma GreedyTurn(x: seq<real>, distance: int, threshold: real, s: Loop)
    requires Placed(distance, s) && !Done(x, s) && Greedy(x, distance, threshold, s.peaks, s.i)
    ensures var t := Turn(x, distance, threshold, s); Placed(distance, t) && Greedy(x, distance, threshold, t.peaks, t.i)
  {
    TakenMakes(x, distance, threshold, s);
    if Taken(x, distance, threshold, s) {
      OneMoreNext(x, distance, threshold, s.peaks, s.last, s.i);
    } else {
      OneMoreSkipped(x, distance, threshold, s.peaks, s.last, s.i);
    }
  }

  lemma OneMoreSkipped(x: seq<real>, distance: int, threshold: real, peaks: seq<int>, last: int, i: int)
    requires Greedy(x, distance, threshold, peaks, i) && last == Before(peaks, distance, |peaks|)
    requires !Makes(x, distance, threshold, last, i)
    ensures Greedy(x, distance, threshold, peaks, i + 1)
  {
  }

  lemma TakenMakes(x: seq<real>, distance: int, threshold: real, s: Loop)
    requires 0 < s.i && !Done(x, s)
    ensures Taken(x, distance, threshold, s) <==> Makes(x, distance, threshold, s.last, s.i)
  {
  }

  lemma OneMoreNext(x: seq<real>, distance: int, threshold: real, peaks: seq<int>, last: int, i: int)
    requires Greedy(x, distance, threshold, peaks, i) && last == Before(peaks, distance, |peaks|) < i
    requires 0 < i && Makes(x, distance, threshold, last, i)
    ensures Greedy(x, distance, threshold, peaks + [Refined(x, i)], Refined(x, i) + 1)
  {
    var more := peaks + [Refined(x, i)];
    forall k | 0 <= k < |more| ensures IsNext(x, distance, threshold, more, k) {
      if k < |peaks| {
        assert IsNext(x, distance, threshold, peaks, k);
        var j :| Picks(x, distance, threshold, Before(peaks, distance, k), From(peaks, k), j, peaks[k]);
        assert Before(more, distance, k) == Before(peaks, distance, k) && From(more, k) == From(peaks, k);
        assert Picks(x, distance, threshold, Before(more, distance, k), From(more, k), j, more[k]);
      } else {
        assert Before(more, distance, k) == last && From(more, k) == From(peaks, k);
        assert Picks(x, distance, threshold, Before(more, distance, k), From(more, k), i, more[k]);
      }
    }
  }

  /** Only one list of peaks is like that. */
  lemma {:induction false} GreedyPrefix(x: seq<real>, distance: int, threshold: real, a: seq<int>, b: seq<int>, k: nat)
    requires Greedy(x, distance, threshold, a, |x|) && Greedy(x, distance, threshold, b, |x|) && k <= |a| && k <= |b|
    ensures a[..k] == b[..k]
  {
    if k > 0 {
      GreedyPrefix(x, distance, threshold, a, b, k - 1);
      assert Before(a, distance, k - 1) == Before(b, distance, k - 1) && From(a, k - 1) == From(b, k - 1) by {
        if k > 1 { assert a[k - 2] == a[..k - 1][k - 2] == b[..k - 1][k - 2]; }
      }
      assert IsNext(x, distance, threshold, a, k - 1) && IsNext(x, distance, threshold, b, k - 1);
      SameNext(x, distance, threshold, a, b, k - 1);
    }
  }

  lemma SameNext(x: seq<real>, distance: int, threshold: real, a: seq<int>, b: seq<int>, k: nat)
    requires k < |a| && k < |b| && Before(a, distance, k) == Before(b, distance, k) && From(a, k) == From(b, k)
    requires IsNext(x, distance, threshold, a, k) && IsNext(x, distance, threshold, b, k)
    ensures a[k] == b[k]
  {
    var last, lo := Before(a, distance, k), From(a, k);
    var i :| Picks(x, distance, threshold, last, lo, i, a[k]);
    var j :| Picks(x, distance, threshold, last, lo, j, b[k]);
    PicksOne(x, distance, threshold, last, lo, i, a[k], j, b[k]);
  }

  lemma PicksOne(x: seq<real>, distance: int, threshold: real, last: int, lo: int, i: int, p: int, j: int, q: int)
    requires Picks(x, distance, threshold, last, lo, i, p) && Picks(x, distance, threshold, last, lo, j, q)
    ensures p == q
  {
    assert !(i < j) && !(j < i);
  }

  lemma NotLonger(x: seq<real>, distance: int, threshold: real, a: seq<int>, b: seq<int>)
    requires Greedy(x, distance, threshold, a, |x|) && Greedy(x, distance, threshold, b, |x|)
    requires |a| <= |b| && a == b[..|a|]
    ensures |a| == |b|
  {
    assert Before(a, distance, |a|) == Before(b, distance, |a|) && From(a, |a|) == From(b, |a|);
    if |a| < |b| { SomeMakes(x, distance, threshold, b, |a|); }
  }

  lemma SomeMakes(x: seq<real>, distance: int, threshold: real, b: seq<int>, k: nat)
    requires k < |b| && IsNext(x, distance, threshold, b, k)
    ensures !NoneIn(x, distance, threshold, Before(b, distance, k), From(b, k), |x|)
  {
    var i :| Picks(x, distance, threshold, Before(b, distance, k), From(b, k), i, b[k]);
    assert Makes(x, distance, threshold, Before(b, distance, k), i);
  }

  /** The peaks that the loop reports when it ends. */
  ghost predicate Result(x: seq<real>, distance: int, threshold: real, peaks: seq<int>) {
    exists n: nat :: Ended(x, distance, threshold, peaks, n)
  }

  ghost predicate Ended(x: seq<real>, distance: int, threshold: real, peaks: seq<int>, n: nat) {
    var s := After(x, distance, threshold, Start(distance), n);
    Done(x, s) && s.peaks == peaks
  }

  /** The loop's state after some turns. */
  ghost predicate Running(x: seq<real>, distance: int, threshold: real, s: Loop, turns: nat) {
    && s.last < |x| && Sound(x, distance, threshold, s)
    && After(x, distance, threshold, Start(distance), turns) == s
  }

  lemma RunningKeeps(x: seq<real>, distance: int, threshold: real, s: Loop, turns: nat)
    requires distance >= 1 && Running(x, distance, threshold, s, turns) && !Done(x, s)
    ensures Running(x, distance, threshold, Turn(x, distance, threshold, s), turns + 1)
  {
    TurnKeeps(x, distance, threshold, s);
    OneMore(x, distance, threshold, Start(distance), turns);
  }

  lemma Finished(x: seq<real>, distance: int, threshold: real, s: Loop, turns: nat)
    requires Running(x, distance, threshold, s, turns) && Done(x, s)
    ensures AllReported(x, threshold, s.peaks) && Spaced(s.peaks, distance)
    ensures CoveredBelow(x, distance, threshold, s.peaks, |x|)
    ensures Result(x, distance, threshold, s.peaks)
  {
    assert Ended(x, distance, threshold, s.peaks, turns);
  }

  method FindPeaksSimple(x: seq<real>, distance: int, threshold: real) returns (peaks: seq<int>)
    requires distance >= 1
    ensures AllReported(x, threshold, peaks) && Spaced(peaks, distance)
    ensures CoveredBelow(x, distance, threshold, peaks, |x|)
    ensures Result(x, distance, threshold, peaks)
  {
    peaks := [];
    var lastPeak, i := -distance, 1;
    ghost var turns := 0;
    while i < |x| - 1
      invariant Running(x, distance, threshold, Loop(peaks, lastPeak, i), turns)
      decreases |x| - lastPeak, |x| - i
    {
      RunningKeeps(x, distance, threshold, Loop(peaks, lastPeak, i), turns);
      turns := turns + 1;
      if x[i] > x[i - 1] && x[i] >= x[i + 1] && x[i] > threshold && i - lastPeak >= distance {
        var localMax := Refine(x, i);
        if localMax - lastPeak >= distance {
          peaks, lastPeak, i := peaks + [localMax], localMax, localMax + 1;
          continue;
        }
      }
      i := i + 1;
    }
    Finished(x, distance, threshold, Loop(peaks, lastPeak, i), turns);
  }

  lemma {:induction false} OneMore(x: seq<real>, distance: int, threshold: real, s: Loop, n: nat)
    requires 0 < s.i && !Done(x, After(x, distance, threshold, s, n))
    requires 0 < After(x, distance, threshold, s, n).i
    ensures After(x, distance, threshold, s, n + 1) == Turn(x, distance, threshold, After(x, distance, threshold, s, n))
    decreases n
  {
    if n > 0 { OneMore(x, distance, threshold, Turn(x, distance, threshold, s), n - 1); }
  }

  lemma {:induction false} GreedyAfter(x: seq<real>, distance: int, threshold: real, s: Loop, n: nat)
    requires Placed(distance, s) && Greedy(x, distance, threshold, s.peaks, s.i)
    ensures var r := After(x, distance, threshold, s, n); Placed(distance, r) && Greedy(x, distance, threshold, r.peaks, r.i)
    decreases n
  {
    if n > 0 && !Done(x, s) {
      GreedyTurn(x, distance, threshold, s);
      GreedyAfter(x, distance, threshold, Turn(x, distance, threshold, s), n - 1);
    }
  }

  lemma ResultIsGreedy(x: seq<real>, distance: int, threshold: real, peaks: seq<int>)
    requires distance >= 1 && Result(x, distance, threshold, peaks)
    ensures Greedy(x, distance, threshold, peaks, |x|)
  {
    var n: nat :| Ended(x, distance, threshold, peaks, n);
    var r := After(x, distance, threshold, Start(distance), n);
    GreedyAfter(x, distance, threshold, Start(distance), n);
    PastTheEnd(x, distance, threshold, r);
  }

  lemma PastTheEnd(x: seq<real>, distance: int, threshold: real, s: Loop)
    requires Greedy(x, distance, threshold, s.peaks, s.i) && Done(x, s)
    ensures Greedy(x, distance, threshold, s.peaks, |x|)
  {
  }

  /**
   The loop reports exactly this list: each peak is the refined first sample behind the peak
   before that makes one, and behind the last peak there is none.
   */
  lemma ResultIff(x: seq<real>, distance: int, threshold: real, peaks: seq<int>)
    requires distance >= 1
    ensures Result(x, distance, threshold, peaks) <==> Greedy(x, distance, threshold, peaks, |x|)
  {
    var n := EndsFrom(x, distance, threshold, Start(distance));
    var found := After(x, distance, threshold, Start(distance), n).peaks;
    assert Ended(x, distance, threshold, found, n);
    ResultIsGreedy(x, distance, threshold, found);
    if Greedy(x, distance, threshold, peaks, |x|) {
      OnlyOne(x, distance, threshold, found, peaks);
    } else if Result(x, distance, threshold, peaks) {
      ResultIsGreedy(x, distance, threshold, peaks);
    }
  }

  lemma OnlyOne(x: seq<real>, distance: int, threshold: real, a: seq<int>, b: seq<int>)
    requires Greedy(x, distance, threshold, a, |x|) && Greedy(x, distance, threshold, b, |x|)
    ensures a == b
  {
    var n := if |a| < |b| then |a| else |b|;
    GreedyPrefix(x, distance, threshold, a, b, n);
    if n == |a| { NotLonger(x, distance, threshold, a, b); } else { NotLonger(x, distance, threshold, b, a); }
  }
}
