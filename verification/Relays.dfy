/**
 The words that the transceiver server derives from its settings: relays of the misc board
 and of the two ALEX filter boards.  These are the values the program ought to have sent;
 module Registers models how it sends them.
 */
module Relays {
  import opened Search

  /** The settings of the misc board and of the ALEX boards, as the program keeps them. */
  datatype Misc = MiscSet(data0: bv16, data1: bv16, data2: bv16)

  datatype Alex = AlexSet(data0: bv16, data1: bv16)

  /** Frequencies of the transmitter and of the two receivers. */
  type Freqs = f: seq<nat> | |f| == 3 witness [0, 0, 0]

  function Bit(b: bool): bv16 { if b then 1 else 0 }

  // ---------- Bands ----------

  /** Lower and upper edges of the ten amateur bands. */
  function Edges(): (e: seq<int>)
    ensures |e| == 20
  {
    [1700000, 2100000, 3400000, 3900000, 6900000, 7350000, 9900000, 10250000, 13900000, 14450000,
     17950000, 18250000, 20900000, 21550000, 24800000, 25100000, 26900000, 30000000, 49000000, 55000000]
  }

  predicate InBand(b: nat, freq: nat)
    requires 1 <= b <= 10
  {
    Edges()[2 * b - 2] < freq <= Edges()[2 * b - 1]
  }

  /** The band a frequency is in, searching from band b on; 0 when it is in none. */
  function BandFrom(b: nat, freq: nat): (r: nat)
    requires 1 <= b <= 11
    ensures r == 0 || (b <= r <= 10 && InBand(r, freq))
    ensures r == 0 ==> forall c | b <= c <= 10 :: !InBand(c, freq)
    decreases 11 - b
  {
    if b == 11 then 0 else if InBand(b, freq) then b else BandFrom(b + 1, freq)
  }

  function Band(freq: nat): (r: nat)
    ensures r <= 10
  {
    BandFrom(1, freq)
  }

  lemma EdgesRise()
    ensures Sorted(Edges()) && forall i, j | 0 <= i < j < 20 :: Edges()[i] < Edges()[j]
  {
  }

  /** Bands do not overlap, so the code names the band. */
  lemma BandIff(b: nat, freq: nat)
    requires 1 <= b <= 10
    ensures Band(freq) == b <==> InBand(b, freq)
  {
    EdgesRise();
  }

  /** The bands from 160 m to 6 m, by their frequencies. */
  lemma AmateurBands(freq: nat)
    ensures Band(freq) ==
      if 1_700_000 < freq <= 2_100_000 then 1          // 160 m
      else if 3_400_000 < freq <= 3_900_000 then 2     // 80 m
      else if 6_900_000 < freq <= 7_350_000 then 3     // 40 m
      else if 9_900_000 < freq <= 10_250_000 then 4    // 30 m
      else if 13_900_000 < freq <= 14_450_000 then 5   // 20 m
      else if 17_950_000 < freq <= 18_250_000 then 6   // 17 m
      else if 20_900_000 < freq <= 21_550_000 then 7   // 15 m
      else if 24_800_000 < freq <= 25_100_000 then 8   // 12 m
      else if 26_900_000 < freq <= 30_000_000 then 9   // 10 m
      else if 49_000_000 < freq <= 55_000_000 then 10  // 6 m
      else 0
  {
    var b := Band(freq);
    if b > 0 { BandIff(b, freq); }
  }

  /** The program's code: an odd insertion point lies inside a band. */
  lemma PointIsBand(point: nat, freq: nat)
    requires point <= 20
    requires forall k | 0 <= k < point :: Edges()[k] < freq
    requires forall k | point <= k < 20 :: freq <= Edges()[k]
    ensures Band(freq) == if point % 2 == 1 then point / 2 + 1 else 0
  {
    if point % 2 == 1 {
      BandIff(point / 2 + 1, freq);
    } else if Band(freq) > 0 {
      BandIff(Band(freq), freq);
    }
  }

  /** The band as the program codes it. */
  function Code(freq: nat): (c: bv16)
    ensures c <= 10
  {
    Small(Band(freq));
    Band(freq) as bv16
  }

  method BandCode(freq: nat) returns (code: bv16)
    ensures code == Code(freq)
  {
    EdgesRise();
    var point := LowerBound(Edges(), freq);
    PointIsBand(point, freq);
    code := if point % 2 == 1 then (point / 2 + 1) as bv16 else 0;
  }

  lemma CodeNamesBand(f: nat, g: nat)
    ensures Code(f) as nat == Band(f)
    ensures Code(f) == Code(g) <==> Band(f) == Band(g)
  {
    Small(Band(f));
    Small(Band(g));
  }

  lemma Small(b: nat)
    requires b <= 10
    ensures b as bv16 <= 10 && (b as bv16) as nat == b
  {
    assert b == 0 || b == 1 || b == 2 || b == 3 || b == 4 || b == 5 || b == 6 || b == 7 || b == 8 || b == 9 || b == 10;
  }

  // ---------- The misc board ----------

  function PackMisc(c0: bv16, c1: bv16, c2: bv16, m0: bv16, m1: bv16, m2: bv16): bv16 {
    (Bit(c0 != c1) << 8) | (c2 << 4) | c1 | ((m1 & 0x18) << 8) | ((m0 & 0x18) << 6) | ((m2 & 0x03) << 13)
  }

  function MiscWord(freq: Freqs, x: Misc): bv16 {
    PackMisc(Code(freq[0]), Code(freq[1]), Code(freq[2]), x.data0, x.data1, x.data2)
  }

  /** What the board reads in the fields of a word. */
  predicate MiscReads(w: bv16, txElsewhere: bool, c1: bv16, c2: bv16, m0: bv16, m1: bv16, m2: bv16) {
    && w & 15 == c1 && (w >> 4) & 15 == c2 && (w >> 8) & 1 == Bit(txElsewhere)
    && (w >> 9) & 3 == (m0 >> 3) & 3 && (w >> 11) & 3 == (m1 >> 3) & 3 && (w >> 13) & 3 == m2 & 3 && (w >> 15) == 0
  }

  lemma MiscPacked(c0: bv16, c1: bv16, c2: bv16, m0: bv16, m1: bv16, m2: bv16)
    requires c1 <= 10 && c2 <= 10
    ensures MiscReads(PackMisc(c0, c1, c2, m0, m1, m2), c0 != c1, c1, c2, m0, m1, m2)
  {
  }

  /** No two fields of the word overlap: each can be read back. */
  lemma MiscFields(freq: Freqs, x: Misc)
    ensures MiscReads(MiscWord(freq, x), Band(freq[0]) != Band(freq[1]), Code(freq[1]), Code(freq[2]), x.data0, x.data1, x.data2)
  {
    CodeNamesBand(freq[0], freq[1]);
    var c0, c1, c2 := Code(freq[0]), Code(freq[1]), Code(freq[2]);
    MiscPacked(c0, c1, c2, x.data0, x.data1, x.data2);
  }

  /** The word of the registers at their initial values is what the board was set to at the start. */
  lemma MiscStarts()
    ensures MiscWord([0, 0, 0], MiscSet(0, 0, 0)) == 0
  {
    BandIff(1, 0);
    assert Code(0) == 0;
  }

  // ---------- The ALEX boards ----------

  predicate Manual(x: Alex) { (x.data1 >> 15) & 1 == 1 }

  function Ptt(x: Alex): bv16 { x.data0 & 1 }

  function Max(a: nat, b: nat): nat { if a > b then a else b }

  function Min(a: nat, b: nat): nat { if a < b then a else b }

  function Preamp(freq: Freqs, x: Alex): bv16 {
    if Manual(x) then (x.data1 >> 6) & 1 else Bit(Max(freq[1], freq[2]) > 50000000)
  }

  /** The high-pass filter relays, bypass in bit 5. */
  function HighPass(freq: nat): bv16 {
    if freq < 1416000 then 0x20
    else if freq < 6500000 then 0x10
    else if freq < 9500000 then 0x08
    else if freq < 13000000 then 0x04
    else if freq < 20000000 then 0x01
    else 0x02
  }

  function Hpf(freq: Freqs, x: Alex): bv16 {
    if Preamp(freq, x) != 0 then 0
    else if Manual(x) then x.data1 & 0x3f
    else HighPass(Min(freq[1], freq[2]))
  }

  /** The low-pass filter relays, bypass in bit 4. */
  function LowPass(freq: nat): bv16 {
    if freq > 32000000 then 0x10
    else if freq > 22000000 then 0x20
    else if freq > 15000000 then 0x40
    else if freq > 8000000 then 0x01
    else if freq > 4500000 then 0x02
    else if freq > 2400000 then 0x04
    else 0x08
  }

  function Lpf(freq: Freqs, x: Alex): bv16 {
    if Manual(x) then (x.data1 >> 8) & 0x7f
    else LowPass(if Ptt(x) != 0 then freq[0] else Max(freq[1], freq[2]))
  }

  function PackRx(alex0: bv16, hpf: bv16, preamp: bv16): bv16 {
    ((alex0 & 1) << 15) | (((alex0 >> 1) & 1) << 14) | (((alex0 >> 2) & 1) << 13)
    | (((hpf >> 5) & 1) << 12) | (((alex0 >> 7) & 1) << 11)
    | (Bit((alex0 >> 5) & 3 == 1) << 10) | (Bit((alex0 >> 5) & 3 == 2) << 9) | (Bit((alex0 >> 5) & 3 == 3) << 8)
    | (((hpf >> 2) & 7) << 4) | (preamp << 3) | ((hpf & 3) << 1) | 1
  }

  function RxWord(freq: Freqs, x: Alex): bv16 {
    PackRx(x.data0, Hpf(freq, x), Preamp(freq, x))
  }

  function PackTx(alex0: bv16, alex1: bv16, lpf: bv16): bv16 {
    (((lpf >> 4) & 7) << 13) | ((alex0 & 1) << 12) | ((!(alex1 >> 7) & (alex0 & 1)) << 11)
    | (Bit((alex0 >> 8) & 3 == 2) << 10) | (Bit((alex0 >> 8) & 3 == 1) << 9) | (Bit((alex0 >> 8) & 3 == 0) << 8)
    | ((lpf & 15) << 4) | (1 << 3)
  }

  function TxWord(freq: Freqs, x: Alex): bv16 {
    PackTx(x.data0, x.data1, Lpf(freq, x))
  }

  /** The high-pass relays as the receive board gets them. */
  function HpfRelays(w: bv16): bv16 { (((w >> 12) & 1) << 5) | (((w >> 4) & 7) << 2) | ((w >> 1) & 3) }

  /** The low-pass relays as the transmit board gets them. */
  function LpfRelays(w: bv16): bv16 { (((w >> 13) & 7) << 4) | ((w >> 4) & 15) }

  /** The relays of the high-pass filters, each with the lowest frequency it is meant for. */
  function HighPassFilters(): seq<(bv16, nat)> {
    [(0x20, 0), (0x10, 1416000), (0x08, 6500000), (0x04, 9500000), (0x01, 13000000), (0x02, 20000000)]
  }

  /** The relays of the low-pass filters, each with the highest frequency it is meant for; the bypass has none. */
  function LowPassFilters(): seq<(bv16, nat)> {
    [(0x08, 2400000), (0x04, 4500000), (0x02, 8000000), (0x01, 15000000), (0x40, 22000000), (0x20, 32000000)]
  }

  /** High-pass filter k is the highest one that is meant for the frequency. */
  predicate Highest(k: nat, freq: nat)
    requires k < 6
  {
    HighPassFilters()[k].1 <= freq && forall j | k < j < 6 :: freq < HighPassFilters()[j].1
  }

  /** Low-pass filter k is the lowest one that passes the frequency. */
  predicate Lowest(k: nat, freq: nat)
    requires k < 6
  {
    freq <= LowPassFilters()[k].1 && forall j | 0 <= j < k :: LowPassFilters()[j].1 < freq
  }

  lemma HighestHighPass(freq: nat, k: nat)
    requires k < 6
    ensures HighPass(freq) == HighPassFilters()[k].0 <==> Highest(k, freq)
  {
    var f := HighPassFilters();
    assert forall j | k < j < 6 :: f[k].1 < f[j].1;
    assert k < 5 ==> ((forall j | k < j < 6 :: freq < f[j].1) <==> freq < f[k + 1].1);
  }

  lemma LowestLowPass(freq: nat, k: nat)
    requires k < 6
    ensures LowPass(freq) == LowPassFilters()[k].0 <==> Lowest(k, freq)
    ensures LowPass(freq) == 0x10 <==> freq > LowPassFilters()[5].1
  {
    var f := LowPassFilters();
    assert forall j | 0 <= j < k :: f[j].1 < f[k].1;
    assert k > 0 ==> ((forall j | 0 <= j < k :: f[j].1 < freq) <==> f[k - 1].1 < freq);
  }

  predicate OneHot(w: bv16) { w != 0 && w & (w - 1) == 0 }

  lemma RxPacked(alex0: bv16, hpf: bv16, preamp: bv16)
    requires hpf < 0x40 && preamp < 2
    ensures var w := PackRx(alex0, hpf, preamp);
      && HpfRelays(w) == hpf && (w >> 3) & 1 == preamp && (w >> 15) == alex0 & 1 && w & 1 == 1
      && (w >> 14) & 1 == (alex0 >> 1) & 1 && (w >> 13) & 1 == (alex0 >> 2) & 1 && (w >> 11) & 1 == (alex0 >> 7) & 1
      && ((w >> 10) & 1 == 1 <==> (alex0 >> 5) & 3 == 1) && ((w >> 9) & 1 == 1 <==> (alex0 >> 5) & 3 == 2)
      && ((w >> 8) & 1 == 1 <==> (alex0 >> 5) & 3 == 3)
  {
  }

  lemma TxPacked(alex0: bv16, alex1: bv16, lpf: bv16)
    requires lpf < 0x80
    ensures var w := PackTx(alex0, alex1, lpf);
      && LpfRelays(w) == lpf && (w >> 12) & 1 == alex0 & 1
      && ((w >> 11) & 1 == 1 <==> alex0 & 1 == 1 && alex1 & 0x80 == 0)
      && w & 15 == 8
      && ((w >> 10) & 1 == 1 <==> (alex0 >> 8) & 3 == 2) && ((w >> 9) & 1 == 1 <==> (alex0 >> 8) & 3 == 1)
      && ((w >> 8) & 1 == 1 <==> (alex0 >> 8) & 3 == 0)
  {
  }

  lemma RelayRanges(freq: Freqs, x: Alex)
    ensures Preamp(freq, x) < 2 && Hpf(freq, x) < 0x40 && Lpf(freq, x) < 0x80
    ensures OneHot(HighPass(Min(freq[1], freq[2]))) && forall f: nat :: OneHot(LowPass(f))
  {
  }

  /** Filters of the receive and of the transmit word, as the frequencies choose them. */
  ghost predicate AutomaticAre(rx: bv16, tx: bv16, freq: Freqs, ptt: bool) {
    var hpf, lpf := HpfRelays(rx), LpfRelays(tx);
    var low, high := if freq[1] < freq[2] then freq[1] else freq[2], if freq[1] < freq[2] then freq[2] else freq[1];
    var used := if ptt then freq[0] else high;
    && (if high > 50_000_000 then hpf == 0 && (rx >> 3) & 1 == 1
        else
          && OneHot(hpf) && (rx >> 3) & 1 == 0
          && forall k | 0 <= k < 6 :: hpf == HighPassFilters()[k].0 <==> Highest(k, low))
    && OneHot(lpf)
    && (forall k | 0 <= k < 6 :: lpf == LowPassFilters()[k].0 <==> Lowest(k, used))
    && (lpf == 0x10 <==> used > LowPassFilters()[5].1)
  }

  /** In manual mode the relays are those that the settings name, but with the preamplifier no high-pass relay is closed. */
  lemma ManualFilters(freq: Freqs, x: Alex)
    requires Manual(x)
    ensures var preamp := (x.data1 >> 6) & 1;
      && (RxWord(freq, x) >> 3) & 1 == preamp
      && HpfRelays(RxWord(freq, x)) == (if preamp == 1 then 0 else x.data1 & 0x3f)
      && LpfRelays(TxWord(freq, x)) == (x.data1 >> 8) & 0x7f
  {
    RelayRanges(freq, x);
    RxPacked(x.data0, Hpf(freq, x), Preamp(freq, x));
    TxPacked(x.data0, x.data1, Lpf(freq, x));
  }

  /**
   In automatic mode one high-pass relay is closed, that of the highest filter meant for the
   lower of the two receive frequencies, or the 6 m preamplifier is on instead; and one
   low-pass relay, that of the lowest filter that passes the frequency in use, or the bypass.
   */
  lemma AutomaticFilters(freq: Freqs, x: Alex)
    requires !Manual(x)
    ensures AutomaticAre(RxWord(freq, x), TxWord(freq, x), freq, Ptt(x) != 0)
  {
    RelayRanges(freq, x);
    RxPacked(x.data0, Hpf(freq, x), Preamp(freq, x));
    TxPacked(x.data0, x.data1, Lpf(freq, x));
    var used := if Ptt(x) != 0 then freq[0] else Max(freq[1], freq[2]);
    forall k | 0 <= k < 6
      ensures HighPass(Min(freq[1], freq[2])) == HighPassFilters()[k].0 <==> Highest(k, Min(freq[1], freq[2]))
      ensures LowPass(used) == LowPassFilters()[k].0 <==> Lowest(k, used)
    {
      HighestHighPass(Min(freq[1], freq[2]), k);
      LowestLowPass(used, k);
    }
    LowestLowPass(used, 0);
  }

  /** Both boards see the same PTT bit, and neither word is ever zero. */
  lemma PttAgrees(freq: Freqs, x: Alex)
    ensures (RxWord(freq, x) >> 15) == (TxWord(freq, x) >> 12) & 1 == Ptt(x)
    ensures RxWord(freq, x) != 0 && TxWord(freq, x) != 0
  {
    RelayRanges(freq, x);
    RxPacked(x.data0, Hpf(freq, x), Preamp(freq, x));
    TxPacked(x.data0, x.data1, Lpf(freq, x));
  }
}
