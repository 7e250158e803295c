/** The MCPHA pulse generator: an integer distribution sampled by binary search, and its shaping filter. */
module Pulser {
  import opened Arithmetic
  import opened Search

  const BINS := 4096
  const RAND_MAX := 0x7FFF_FFFF
  const INT64_LIMIT := 0x8000_0000_0000_0000

  /** int64_t: arithmetic that leaves the range does not verify. */
  newtype Int64 = x: int | -INT64_LIMIT <= x < INT64_LIMIT

  // ---------- The cumulative distribution ----------

  type Spectrum = s: seq<nat> | |s| == BINS witness seq(BINS, _ => 0)

  /** The counts in the first n bins. */
  function Sum(s: Spectrum, n: nat): (r: nat)
    requires n <= BINS
  {
    if n == 0 then 0 else Sum(s, n - 1) + s[n - 1]
  }

  function Total(s: Spectrum): nat { Sum(s, BINS) }

  /** Where bin n starts on the scale from 0 to RAND_MAX. */
  function Cut(s: Spectrum, n: nat): nat
    requires n <= BINS && Total(s) > 0
  {
    Sum(s, n) * RAND_MAX / Total(s)
  }

  lemma {:induction false} SumGrows(s: Spectrum, m: nat, n: nat)
    requires m <= n <= BINS
    ensures Sum(s, m) <= Sum(s, n)
  {
    if m < n { SumGrows(s, m, n - 1); }
  }

  lemma DivGrows(a: nat, b: nat, d: nat)
    requires a <= b && d > 0
    ensures a / d <= b / d
  {
    Floor(a, d);
    Floor(b, d);
    BelowNext(a / d, b / d, d);
  }

  lemma BelowNext(x: nat, y: nat, d: nat)
    requires x * d < y * d + d
    ensures x <= y
  {
    if x > y { MulGrows(y + 1, x, d); }
  }

  lemma CutGrows(s: Spectrum, m: nat, n: nat)
    requires m <= n <= BINS && Total(s) > 0
    ensures Cut(s, m) <= Cut(s, n)
  {
    SumGrows(s, m, n);
    DivGrows(Sum(s, m) * RAND_MAX, Sum(s, n) * RAND_MAX, Total(s));
  }

  lemma CutEnds(s: Spectrum)
    requires Total(s) > 0
    ensures Cut(s, 0) == 0 && Cut(s, BINS) == RAND_MAX
  {
    assert RAND_MAX * Total(s) / Total(s) == RAND_MAX;
  }

  /** The table that command 29 builds. */
  ghost predicate IsTable(hist: seq<int>, s: Spectrum)
    requires Total(s) > 0
  {
    |hist| == BINS && forall i | 0 <= i < BINS :: hist[i] == Cut(s, i + 1) - 1
  }

  /** The products that the program forms stay below 2^63 exactly if the total of the spectrum allows it. */
  lemma ProductsFitIff(s: Spectrum)
    ensures (forall n | 0 < n <= 4096 :: Sum(s, n) * 0x7FFF_FFFF < 0x8000_0000_0000_0000)
      <==> Total(s) * RAND_MAX < INT64_LIMIT
  {
    if Total(s) * RAND_MAX < INT64_LIMIT {
      forall n | 0 < n <= BINS ensures Sum(s, n) * RAND_MAX < INT64_LIMIT { SumGrows(s, n, BINS); }
    } else {
      var n := BINS;
      assert Sum(s, n) * RAND_MAX >= INT64_LIMIT;
    }
  }

  /**
   Command 29 up to the filter, in the program's int64_t.  An empty spectrum leaves the
   table alone.
   */
  method BuildTable(spectrum: array<nat>, hist: array<Int64>) returns (started: bool)
    requires spectrum.Length == BINS && hist.Length == BINS
    requires Total(spectrum[..]) * RAND_MAX < INT64_LIMIT
    modifies hist
    ensures started <==> Total(spectrum[..]) > 0
    ensures started ==> IsTable(Entries(hist[..]), spectrum[..])
    ensures !started ==> hist[..] == old(hist[..])
  {
    var total := AddUp(spectrum);
    if total < 1 { return false; }
    Fill(spectrum, total, hist);
    return true;
  }

  method AddUp(spectrum: array<nat>) returns (total: Int64)
    requires spectrum.Length == BINS && Total(spectrum[..]) < INT64_LIMIT
    ensures total as int == Total(spectrum[..])
  {
    total := 0;
    for i := 0 to BINS
      invariant total as int == Sum(spectrum[..], i)
    {
      SumGrows(spectrum[..], i + 1, BINS);
      total := total + spectrum[i] as Int64;
    }
  }

  method Fill(spectrum: array<nat>, total: Int64, hist: array<Int64>)
    requires spectrum.Length == BINS && hist.Length == BINS
    requires total as int == Total(spectrum[..]) > 0 && Total(spectrum[..]) * RAND_MAX < INT64_LIMIT
    modifies hist
    ensures IsTable(Entries(hist[..]), spectrum[..])
  {
    ghost var s: Spectrum := spectrum[..];
    ProductsFitIff(s);
    var value: Int64 := 0;
    for i := 0 to BINS
      invariant value as int == Sum(s, i)
      invariant forall j | 0 <= j < i :: hist[j] as int == Cut(s, j + 1) - 1
    {
      assert Sum(s, i + 1) * RAND_MAX < INT64_LIMIT;
      value := value + spectrum[i] as Int64;
      hist[i] := Entry(value, total);
    }
  }

  /** One entry of the table, computed without leaving int64_t. */
  function Entry(value: Int64, total: Int64): (r: Int64)
    requires 0 <= value && 0 < total && value as int * RAND_MAX < INT64_LIMIT
    ensures r as int == value as int * RAND_MAX / total as int - 1
  {
    value * (RAND_MAX as Int64) / total - 1
  }

  function Entries(hist: seq<Int64>): seq<int> {
    seq(|hist|, i requires 0 <= i < |hist| => hist[i] as int)
  }

  /** The second precondition excludes something: three full bins out of 4096 already overflow. */
  lemma TableCanOverflow() returns (s: Spectrum)
    ensures forall i | 0 <= i < BINS :: s[i] < 0x1_0000_0000
    ensures Sum(s, 3) * RAND_MAX >= INT64_LIMIT && Total(s) * RAND_MAX >= INT64_LIMIT
  {
    s := seq(BINS, i => if i < 3 then 0xFFFF_FFFF else 0);
    assert Sum(s, 3) == Sum(s, 2) + s[2] == Sum(s, 1) + s[1] + s[2];
    SumGrows(s, 3, BINS);
  }

  lemma TableSorted(hist: seq<int>, s: Spectrum)
    requires Total(s) > 0 && IsTable(hist, s)
    ensures Sorted(hist)
  {
    forall i, j | 0 <= i < j < |hist| ensures hist[i] <= hist[j] { CutGrows(s, i + 1, j + 1); }
  }

  /** What `LowerBound` answers for a drawn value. */
  ghost predicate Chosen(hist: seq<int>, value: int, bin: nat) {
    && bin <= |hist|
    && (forall k | 0 <= k < bin :: hist[k] < value)
    && forall k | bin <= k < |hist| :: value <= hist[k]
  }

  /** One amplitude, as the pulser thread draws it; rand is between 0 and RAND_MAX. */
  method Amplitude(hist: seq<int>, ghost s: Spectrum, rand: nat) returns (bin: nat)
    requires Total(s) > 0 && IsTable(hist, s)
    ensures bin < BINS && s[bin] > 0
    ensures Cut(s, bin) <= rand % RAND_MAX < Cut(s, bin + 1)
  {
    TableSorted(hist, s);
    bin := LowerBound(hist, rand % RAND_MAX);
    ChosenIff(hist, s, rand % RAND_MAX, bin);
    EmptyBinNeverChosen(hist, s, rand % RAND_MAX, bin);
  }

  /** Bin k owns exactly the values from its cut to the next: the bins partition 0 .. RAND_MAX - 1. */
  lemma ChosenIff(hist: seq<int>, s: Spectrum, value: nat, bin: nat)
    requires Total(s) > 0 && IsTable(hist, s) && value < RAND_MAX
    ensures Chosen(hist, value, bin) <==> bin < BINS && Cut(s, bin) <= value < Cut(s, bin + 1)
  {
    CutEnds(s);
    TableSorted(hist, s);
    assert hist[BINS - 1] == RAND_MAX - 1;
    if Chosen(hist, value, bin) {
      assert bin < BINS && hist[bin] == Cut(s, bin + 1) - 1;
      assert bin > 0 ==> hist[bin - 1] == Cut(s, bin) - 1;
    }
    if bin < BINS && Cut(s, bin) <= value < Cut(s, bin + 1) {
      forall k | 0 <= k < bin ensures hist[k] < value { CutGrows(s, k + 1, bin); }
      forall k | bin <= k < BINS ensures value <= hist[k] { CutGrows(s, bin + 1, k + 1); }
    }
  }

  lemma EmptyBinNeverChosen(hist: seq<int>, s: Spectrum, value: nat, bin: nat)
    requires Total(s) > 0 && IsTable(hist, s) && value < RAND_MAX && Chosen(hist, value, bin)
    ensures bin < BINS && s[bin] > 0
  {
    ChosenIff(hist, s, value, bin);
  }

  /** The values below RAND_MAX for which the pulser emits amplitude k. */
  ghost function Share(hist: seq<int>, k: nat): set<int> {
    set v | 0 <= v < RAND_MAX && Chosen(hist, v, k)
  }

  function Range(lo: int, hi: int): set<int>
    decreases hi - lo
  {
    if hi <= lo then {} else Range(lo, hi - 1) + {hi - 1}
  }

  lemma {:induction false} RangeHolds(lo: int, hi: int)
    requires lo <= hi
    ensures |Range(lo, hi)| == hi - lo
    ensures forall v :: v in Range(lo, hi) <==> lo <= v < hi
    decreases hi - lo
  {
    if lo < hi { RangeHolds(lo, hi - 1); }
  }

  /**
   The share of bin k differs from the exact spectrum[k] * RAND_MAX / total by less than
   one value, and nothing is left over: the shares end where RAND_MAX does.
   */
  lemma SharesAreExact(hist: seq<int>, s: Spectrum, k: nat)
    requires Total(s) > 0 && IsTable(hist, s) && k < BINS
    ensures |Share(hist, k)| == Cut(s, k + 1) - Cut(s, k)
    ensures |Share(hist, k)| * Total(s) < s[k] * RAND_MAX + Total(s)
    ensures s[k] * RAND_MAX < |Share(hist, k)| * Total(s) + Total(s)
  {
    CutGrows(s, k, k + 1);
    CutEnds(s);
    CutGrows(s, k + 1, BINS);
    forall v: int ensures v in Share(hist, k) <==> Cut(s, k) <= v < Cut(s, k + 1) {
      if 0 <= v < RAND_MAX { ChosenIff(hist, s, v, k); }
    }
    RangeHolds(Cut(s, k), Cut(s, k + 1));
    assert Share(hist, k) == Range(Cut(s, k), Cut(s, k + 1));
    FloorDifference(Sum(s, k) * RAND_MAX, Sum(s, k + 1) * RAND_MAX, Total(s));
  }

  lemma FloorDifference(a: nat, b: nat, t: nat)
    requires t > 0 && a <= b
    ensures b - a - t < (b / t - a / t) * t < b - a + t
  {
    Floor(a, t);
    Floor(b, t);
    assert (b / t - a / t) * t == b / t * t - a / t * t;
  }

  lemma Floor(a: nat, t: nat)
    requires t > 0
    ensures a - t < a / t * t <= a
  {
  }

  // ---------- The shaping filter ----------

  type Coefficient = c: int | 0 <= c < 65536

  const IMPULSE := 4095 * 512

  /** The inner state y[0] after n steps. */
  function Drive(f: Coefficient, n: nat): nat {
    if n == 0 then IMPULSE else Drive(f, n - 1) * f / 65536
  }

  /** The filter output y[1] after n steps. */
  function Output(f: Coefficient, r: Coefficient, n: nat): nat {
    if n == 0 then 0 else Drive(f, n - 1) + Output(f, r, n - 1) * r / 65536
  }

  /**
   The filter in fixed point: each step scales both states by their coefficients, in units of
   1/65536 and rounded down, and adds the inner state, as it was, to the output.
   */
  lemma FilterStep(f: Coefficient, r: Coefficient, n: nat)
    ensures Drive(f, 0) == 2_096_640 && Output(f, r, 0) == 0
    ensures 65536 * Drive(f, n + 1) <= f * Drive(f, n) < 65536 * Drive(f, n + 1) + 65536
    ensures var scaled := Output(f, r, n + 1) - Drive(f, n);
      65536 * scaled <= r * Output(f, r, n) < 65536 * scaled + 65536
  {
    Scaled(Drive(f, n), f);
    Scaled(Output(f, r, n), r);
  }

  lemma Scaled(y: nat, c: Coefficient)
    ensures var scaled := y * c / 65536; 65536 * scaled <= c * y < 65536 * scaled + 65536
  {
    Floor(y * c, 65536);
  }

  lemma ScaleShrinks(y: nat, c: Coefficient)
    ensures y * c / 65536 <= y
    ensures y > 0 ==> y * c / 65536 < y
  {
  }

  lemma ScaleGrows(x: nat, y: nat, c: Coefficient)
    requires x <= y
    ensures x * c / 65536 <= y * c / 65536
  {
    assert x * c <= y * c;
    DivGrows(x * c, y * c, 65536);
  }

  lemma {:induction false} DriveFalls(f: Coefficient, m: nat, n: nat)
    requires m <= n
    ensures Drive(f, n) <= Drive(f, m)
  {
    if m < n {
      DriveFalls(f, m, n - 1);
      ScaleShrinks(Drive(f, n - 1), f);
    }
  }

  /** Once the output falls, it never rises again. */
  lemma {:induction false} FallsForGood(f: Coefficient, r: Coefficient, m: nat, n: nat)
    requires m + 1 <= n && Output(f, r, m + 1) <= Output(f, r, m)
    ensures Output(f, r, n) <= Output(f, r, n - 1) && Output(f, r, n) <= Output(f, r, m)
  {
    if m + 1 < n {
      FallsForGood(f, r, m, n - 1);
      DriveFalls(f, n - 2, n - 1);
      ScaleGrows(Output(f, r, n - 1), Output(f, r, n - 2), r);
    }
  }

  /** IMPULSE * 65536. */
  const OUTPUT_LIMIT := 137_405_399_040

  lemma ScaleBound(y: nat, c: Coefficient, limit: nat)
    requires y <= limit
    ensures y * c <= limit * 65535
  {
  }

  /** No product in the loop leaves the range of exact doubles, let alone of int64_t. */
  lemma {:induction false} OutputBound(f: Coefficient, r: Coefficient, n: nat)
    ensures Output(f, r, n) <= OUTPUT_LIMIT
    ensures Output(f, r, n) * r < 0x20_0000_0000_0000 && Drive(f, n) * f < 0x20_0000_0000_0000
  {
    DriveFalls(f, 0, n);
    ScaleBound(Drive(f, n), f, IMPULSE);
    if n > 0 {
      OutputBound(f, r, n - 1);
      DriveFalls(f, 0, n - 1);
      var y := Output(f, r, n - 1);
      ScaleBound(y, r, OUTPUT_LIMIT);
      DivGrows(y * r, OUTPUT_LIMIT * 65535, 65536);
    }
    ScaleBound(Output(f, r, n), r, OUTPUT_LIMIT);
  }

  /**
   The peak search of command 29, and the scale it derives.  The loop ends for every
   pair of coefficients; `peak` is the greatest value the output ever takes.
   */
  method FilterPeak(f: Coefficient, r: Coefficient) returns (peak: nat, scale: nat)
    ensures exists n :: peak == Output(f, r, n)
    ensures forall n :: Output(f, r, n) <= peak
    ensures peak / 512 >= 4095 && scale <= 65535
    ensures 4095 * 65535 - peak / 512 < scale * (peak / 512) <= 4095 * 65535
  {
    var y0, y1, y2 := IMPULSE, 0, 0;
    ghost var j: nat := 0;
    while y2 <= y1
      invariant y0 == Drive(f, j) && y1 == Output(f, r, j)
      invariant j == 0 ==> y2 == 0
      invariant j > 0 ==> y2 == Output(f, r, j - 1)
      invariant forall n: nat | n < j :: Output(f, r, n) <= y2
      invariant j == 1 ==> y1 == IMPULSE
      invariant j > 1 ==> y2 >= IMPULSE
      decreases if y2 <= y1 then y0 + 1 else 0
    {
      ScaleShrinks(y1, r);
      ScaleShrinks(y0, f);
      y2 := y1;
      y1 := y0 + y1 * r / 65536;
      y0 := y0 * f / 65536;
      j := j + 1;
    }
    forall n: nat ensures Output(f, r, n) <= y2 {
      if n >= j { FallsForGood(f, r, j - 1, n); }
    }
    peak := y2;
    scale := 4095 * 65535 / (peak / 512);
    assert peak / 512 >= 4095;
    Floor(4095 * 65535, peak / 512);
    ScaleFits(peak / 512);
  }

  lemma ScaleFits(d: nat)
    requires d >= 4095
    ensures 4095 * 65535 / d <= 65535
  {
  }
}
