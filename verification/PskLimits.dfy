/** How long the messages of the uploader get, in terms of the texts in them, and which of them fit its buffer. */
module PskLimits {
  import opened Bytes
  import opened Ipfix
  import opened PskReporter
  import opened PskUploader
  import opened PskBatches

  function RoundUp(n: nat): (r: nat)
    ensures r % 4 == 0 && n <= r < n + 4
  {
    (n + 3) / 4 * 4
  }

  /** The length of a reception record. */
  function RecordSize(r: Reception): nat { 16 + |r.call| + |r.grid| }

  function RecordsSize(batch: seq<Reception>): nat {
    if batch == [] then 0 else RecordsSize(batch[..|batch| - 1]) + RecordSize(batch[|batch| - 1])
  }

  /** Header and templates, the station set, and the reception set. */
  function MessageSize(s: Station, batch: seq<Reception>): nat {
    120 + RoundUp(30 + |s.call| + |s.grid| + |s.antenna|) + RoundUp(4 + RecordsSize(batch))
  }

  lemma RecordLengthIs(r: Reception)
    ensures |ReceptionBytes(r)| == RecordSize(r)
  {
    CopiedIsRecord(r);
  }

  lemma {:induction false} BatchLengthIs(batch: seq<Reception>)
    ensures |BatchBytes(batch)| == RecordsSize(batch)
  {
    if batch == [] {
      EmptyBatch();
    } else {
      var init, last := batch[..|batch| - 1], batch[|batch| - 1];
      BatchLengthIs(init);
      AppendedLength(init, last);
      assert init + [last] == batch;
    }
  }

  lemma AppendedLength(batch: seq<Reception>, r: Reception)
    ensures |BatchBytes(batch + [r])| == |BatchBytes(batch)| + RecordSize(r)
  {
    BatchAppend(batch, r);
    RecordLengthIs(r);
  }

  lemma PaddedLength(body: seq<Byte>)
    ensures 4 + |Padded(body)| == RoundUp(4 + |body|)
  {
  }

  /** The length of every message, from the lengths of its texts. */
  lemma MessageLengthIs(s: Station, time: nat, sequence: nat, batch: seq<Reception>)
    ensures |MessageBytes(s, time, sequence, batch)| == MessageSize(s, batch)
  {
    MessageIsSealed(s, time, sequence, batch);
    SealedLength(Preamble(s), BatchBytes(batch), time, sequence);
    BatchLengthIs(batch);
    PreambleLength(s);
  }

  lemma SealedLength(preamble: seq<Byte>, batch: seq<Byte>, time: nat, sequence: nat)
    ensures |Sealed(preamble, batch, time, sequence)| == 12 + |preamble| + RoundUp(4 + |batch|)
  {
    PaddedLength(batch);
  }

  lemma PreambleLength(s: Station)
    ensures |Preamble(s)| == 108 + RoundUp(30 + |s.call| + |s.grid| + |s.antenna|)
  {
    StationUnfolds(s);
    PaddedLength(StationBytes(s));
    TemplateSetsSpelledOut();
  }

  /** A text as a C string holds it. */
  predicate CString(t: seq<Byte>) { forall i | 0 <= i < |t| :: t[i] != 0 }

  /** The texts that the program takes from a line: at most 13 and 4 characters. */
  predicate FromLine(r: Reception) { |r.call| <= 13 && |r.grid| <= 4 && CString(r.call) && CString(r.grid) }

  predicate FromFile(rs: seq<Reception>) { forall i | 0 <= i < |rs| :: FromLine(rs[i]) }

  lemma {:induction false} BatchAtMost(batch: seq<Reception>)
    requires FromFile(batch)
    ensures RecordsSize(batch) <= 33 * |batch|
  {
    if batch != [] { BatchAtMost(batch[..|batch| - 1]); }
  }

  /** A station for which no file can overrun the buffer. */
  ghost predicate AlwaysFits(s: Station) { forall rs | FromFile(rs) :: AllFit(s, rs) }

  /** The limits on the command line admit more than the buffer holds: this is what they ought to be. */
  lemma StationFitsIff(s: Station)
    ensures AlwaysFits(s) <==> |s.call| + |s.grid| + |s.antenna| <= 26
  {
    if |s.call| + |s.grid| + |s.antenna| <= 26 {
      forall rs | FromFile(rs) ensures AllFit(s, rs) { FileFits(s, rs); }
    } else {
      var rs := LongestLines();
      TenLinesOverrun(s, rs);
    }
  }

  lemma FileFits(s: Station, rs: seq<Reception>)
    requires FromFile(rs) && |s.call| + |s.grid| + |s.antenna| <= 26
    ensures AllFit(s, rs)
  {
    forall k | 0 <= k < Count(rs) ensures |MessageBytes(s, 0, 0, Batch(rs, k))| <= CAPACITY {
      assert FromFile(Batch(rs, k));
      MessageLengthIs(s, 0, 0, Batch(rs, k));
      SizeFits(s, Batch(rs, k));
    }
  }

  lemma SizeFits(s: Station, batch: seq<Reception>)
    requires FromFile(batch) && |batch| <= 10 && |s.call| + |s.grid| + |s.antenna| <= 26
    ensures MessageSize(s, batch) <= CAPACITY
  {
    BatchAtMost(batch);
    RoundUpGrows(30 + |s.call| + |s.grid| + |s.antenna|, 56);
    RoundUpGrows(4 + RecordsSize(batch), 336);
  }

  lemma RoundUpGrows(n: nat, words: nat)
    requires n <= words && words % 4 == 0
    ensures RoundUp(n) <= words
  {
  }

  /** Ten lines with texts as long as the program takes them. */
  predicate TenLongest(rs: seq<Reception>) {
    |rs| == 10 && forall i | 0 <= i < 10 :: |rs[i].call| == 13 && |rs[i].grid| == 4
  }

  /** n times the letter A. */
  function Letters(n: nat): (t: seq<Byte>)
    ensures |t| == n && CString(t)
  {
    seq(n, _ => 0x41)
  }

  lemma LongestLines() returns (rs: seq<Reception>)
    ensures FromFile(rs) && TenLongest(rs)
  {
    rs := seq(10, _ => Reception(Letters(13), Letters(4), 14074000, -10, 0));
  }

  lemma {:induction false} LongestSize(batch: seq<Reception>)
    requires forall i | 0 <= i < |batch| :: |batch[i].call| == 13 && |batch[i].grid| == 4
    ensures RecordsSize(batch) == 33 * |batch|
  {
    if batch != [] { LongestSize(batch[..|batch| - 1]); }
  }

  /** With longer texts of the station such a batch overruns the buffer. */
  lemma TenLinesOverrun(s: Station, rs: seq<Reception>)
    requires TenLongest(rs) && |s.call| + |s.grid| + |s.antenna| > 26
    ensures |MessageBytes(s, 0, 0, rs)| > CAPACITY && !AllFit(s, rs)
  {
    MessageLengthIs(s, 0, 0, rs);
    LongestMessage(s, rs);
    assert Count(rs) == 1 && Batch(rs, 0) == rs;
  }

  /** For one, a station within the limits of the command line: 520 bytes. */
  lemma BufferCanOverrun() returns (s: Station, rs: seq<Reception>)
    ensures WithinLimits(s) && CString(s.call) && CString(s.grid) && CString(s.antenna)
    ensures FromFile(rs) && |MessageBytes(s, 0, 0, rs)| == 520
  {
    var call, antenna: Text := Letters(6), Letters(20);
    s := Station(call, call, antenna, 0);
    rs := LongestLines();
    OverrunSize(s, rs);
  }

  lemma OverrunSize(s: Station, rs: seq<Reception>)
    requires |s.call| == |s.grid| == 6 && |s.antenna| == 20 && TenLongest(rs)
    ensures |MessageBytes(s, 0, 0, rs)| == 520
  {
    MessageLengthIs(s, 0, 0, rs);
    LongestMessage(s, rs);
    assert RoundUp(62) == 64;
  }

  lemma LongestMessage(s: Station, rs: seq<Reception>)
    requires TenLongest(rs)
    ensures MessageSize(s, rs) == 456 + RoundUp(30 + |s.call| + |s.grid| + |s.antenna|)
  {
    LongestSize(rs);
    assert RoundUp(334) == 336;
  }
}
