/** What a reader gets back from the messages for a whole file. */
module PskReading {
  import opened Bytes
  import opened Ipfix
  import opened PskReporter
  import opened PskBatches
  import opened PskLimits

  /** The receptions in a message, and its sequence number, by the templates it carries. */
  function ReadMessage(bytes: seq<Byte>): Option<(nat, seq<seq<seq<Byte>>>)> {
    match Parse(bytes)
    case None => None
    case Some(m) =>
      if |m.sets| == 2 && m.sets[0].id == 0x9992 && m.sets[1].id == 0x9993 then
        Some((m.header.sequence, m.sets[1].records))
      else None
  }

  /** All messages read in turn: the receptions in order, provided the sequence numbers are 0, 1, 2, ... */
  function ReadAll(messages: seq<seq<Byte>>): Option<seq<seq<seq<Byte>>>> {
    if messages == [] then Some([])
    else
      var n := |messages| - 1;
      match ReadAll(messages[..n])
      case None => None
      case Some(before) =>
        match ReadMessage(messages[n])
        case None => None
        case Some((sequence, records)) => if sequence == n % 0x1_0000_0000 then Some(before + records) else None
  }

  lemma {:induction false} RecordsAtMost(batch: seq<Reception>)
    ensures RecordsSize(batch) <= 270 * |batch|
  {
    if batch != [] { RecordsAtMost(batch[..|batch| - 1]); }
  }

  /** Whether or not it fits the buffer, no message outgrows its 16-bit length field. */
  lemma LengthFits(s: Station, time: nat, sequence: nat, batch: seq<Reception>)
    requires |batch| <= 10
    ensures |MessageBytes(s, time, sequence, batch)| < 0x1_0000
  {
    MessageLengthIs(s, time, sequence, batch);
    RecordsAtMost(batch);
  }

  lemma OneRead(s: Station, time: nat, sequence: nat, batch: seq<Reception>)
    requires |batch| <= 10
    ensures ReadMessage(MessageBytes(s, time, sequence, batch)) == Some((sequence % 0x1_0000_0000, Values(batch)))
  {
    LengthFits(s, time, sequence, batch);
    MessageDecodes(s, time, sequence, batch);
  }

  lemma {:induction false} ReadEach(messages: seq<seq<Byte>>, rs: seq<Reception>)
    requires |messages| <= Count(rs)
    requires forall k | 0 <= k < |messages| :: ReadMessage(messages[k]) == Some((k % 0x1_0000_0000, Values(Batch(rs, k))))
    ensures ReadAll(messages) == Some(Values(rs[..Taken(rs, |messages|)]))
  {
    if messages == [] {
      assert rs[..0] == [] && Values([]) == [];
    } else {
      var n := |messages| - 1;
      ReadEach(messages[..n], rs);
      TakenJoin(rs, n + 1);
    }
  }

  lemma FirstBatches(s: Station, clock: nat -> nat, rs: seq<Reception>, n: nat)
    requires n <= Count(rs)
    ensures ReadAll(Messages(s, clock, rs, n)) == Some(Values(rs[..Taken(rs, n)]))
  {
    var messages := Messages(s, clock, rs, n);
    forall k | 0 <= k < n ensures ReadMessage(messages[k]) == Some((k % 0x1_0000_0000, Values(Batch(rs, k)))) {
      OneRead(s, clock(k), k, Batch(rs, k));
    }
    ReadEach(messages, rs);
  }

  lemma TakenJoin(rs: seq<Reception>, n: nat)
    requires 0 < n <= Count(rs)
    ensures Values(rs[..Taken(rs, n)]) == Values(rs[..Taken(rs, n - 1)]) + Values(Batch(rs, n - 1))
  {
    assert Taken(rs, n - 1) == 10 * (n - 1);
    assert rs[..Taken(rs, n)] == rs[..Taken(rs, n - 1)] + Batch(rs, n - 1);
    ValuesJoin(rs[..Taken(rs, n - 1)], Batch(rs, n - 1));
  }

  lemma ValuesJoin(a: seq<Reception>, b: seq<Reception>)
    ensures Values(a + b) == Values(a) + Values(b)
  {
  }

  /**
   For every file, reading its messages gives back the valid lines in order: every batch but
   the last is full, none is empty, and the sequence field counts the messages.
   */
  lemma FileRoundTrip(s: Station, clock: nat -> nat, lines: seq<Line>)
    ensures var rs := Receptions(lines);
      ReadAll(Messages(s, clock, rs, Count(rs))) == Some(Values(rs))
    ensures var rs := Receptions(lines);
      forall k | 0 <= k < Count(rs) - 1 :: |Batch(rs, k)| == 10
  {
    var rs := Receptions(lines);
    FirstBatches(s, clock, rs, Count(rs));
    AllTaken(rs);
  }

  lemma AllTaken(rs: seq<Reception>)
    ensures rs[..Taken(rs, Count(rs))] == rs
    ensures forall k | 0 <= k < Count(rs) - 1 :: |Batch(rs, k)| == 10
  {
  }

  // ---------- The sequence field against RFC 7011 ----------

  /** What counts for the sequence field of a message: its value, and the data records of any template. */
  datatype Summary = Summary(sequence: nat, records: nat)

  function RecordsOf(sets: seq<DataSet>): nat {
    if sets == [] then 0 else |sets[0].records| + RecordsOf(sets[1..])
  }

  function Summarize(bytes: seq<Byte>): Option<Summary> {
    match Parse(bytes)
    case None => None
    case Some(m) => Some(Summary(m.header.sequence, RecordsOf(m.sets)))
  }

  function SummarizeAll(messages: seq<seq<Byte>>): Option<seq<Summary>> {
    if messages == [] then Some([])
    else
      var n := |messages| - 1;
      match SummarizeAll(messages[..n])
      case None => None
      case Some(before) =>
        match Summarize(messages[n])
        case None => None
        case Some(m) => Some(before + [m])
  }

  function RecordsIn(ms: seq<Summary>): nat {
    if ms == [] then 0 else RecordsIn(ms[..|ms| - 1]) + ms[|ms| - 1].records
  }

  /** As section 3.1 of the RFC has it: each sequence field counts the data records sent before. */
  predicate AsInRfc(ms: seq<Summary>) {
    forall k | 0 <= k < |ms| :: ms[k].sequence == RecordsIn(ms[..k]) % 0x1_0000_0000
  }

  /** The summaries of the first n messages: one record of the station in each, and those of its batch. */
  function Summaries(rs: seq<Reception>, n: nat): (ms: seq<Summary>)
    requires n <= Count(rs)
    ensures |ms| == n
  {
    seq(n, k requires 0 <= k < n => Summary(k % 0x1_0000_0000, 1 + |Batch(rs, k)|))
  }

  lemma OneSummary(s: Station, time: nat, sequence: nat, batch: seq<Reception>)
    requires |batch| <= 10
    ensures Summarize(MessageBytes(s, time, sequence, batch)) == Some(Summary(sequence % 0x1_0000_0000, 1 + |batch|))
  {
    LengthFits(s, time, sequence, batch);
    MessageDecodes(s, time, sequence, batch);
    TwoSets(DataSet(0x9992, [StationValues(s)]), DataSet(0x9993, Values(batch)));
  }

  lemma TwoSets(a: DataSet, b: DataSet)
    ensures RecordsOf([a, b]) == |a.records| + |b.records|
  {
    assert [a, b][1..] == [b] && [b][1..] == [];
    assert RecordsOf([b]) == |b.records|;
  }

  lemma {:induction false} SummarizeEach(messages: seq<seq<Byte>>, ms: seq<Summary>)
    requires |messages| == |ms| && forall k | 0 <= k < |ms| :: Summarize(messages[k]) == Some(ms[k])
    ensures SummarizeAll(messages) == Some(ms)
  {
    if ms != [] {
      var n := |ms| - 1;
      SummarizeEach(messages[..n], ms[..n]);
      SummarizeOneMore(messages, ms[..n], ms[n]);
      assert ms[..n] + [ms[n]] == ms;
    }
  }

  lemma SummarizeOneMore(messages: seq<seq<Byte>>, before: seq<Summary>, m: Summary)
    requires messages != [] && SummarizeAll(messages[..|messages| - 1]) == Some(before)
    requires Summarize(messages[|messages| - 1]) == Some(m)
    ensures SummarizeAll(messages) == Some(before + [m])
  {
  }

  lemma SummariesAre(s: Station, clock: nat -> nat, rs: seq<Reception>, n: nat)
    requires n <= Count(rs)
    ensures SummarizeAll(Messages(s, clock, rs, n)) == Some(Summaries(rs, n))
  {
    var messages, ms := Messages(s, clock, rs, n), Summaries(rs, n);
    forall k | 0 <= k < n ensures Summarize(messages[k]) == Some(ms[k]) {
      OneSummary(s, clock(k), k, Batch(rs, k));
    }
    SummarizeEach(messages, ms);
  }

  /** A first message with sequence 0 is right; a second one with sequence 1, after 11 records, is not. */
  lemma SequenceRight(ms: seq<Summary>)
    requires |ms| > 0 && ms[0].sequence == 0
    requires |ms| > 1 ==> ms[1].sequence == 1 && ms[0].records == 11
    ensures AsInRfc(ms) <==> |ms| == 1
  {
    assert ms[..0] == [];
    if |ms| > 1 {
      assert ms[..1] == [ms[0]] && [ms[0]][..0] == [];
      assert RecordsIn(ms[..1]) == 11;
    }
  }

  lemma SummariesAsInRfcIff(rs: seq<Reception>)
    ensures AsInRfc(Summaries(rs, Count(rs))) <==> |rs| <= 10
  {
    if |rs| > 0 { SequenceRight(Summaries(rs, Count(rs))); }
  }

  /**
   The program counts messages in the sequence field.  That is what the RFC asks for exactly
   if the file gives no more than one message.
   */
  lemma SequenceAsInRfcIff(s: Station, clock: nat -> nat, rs: seq<Reception>)
    ensures var ms := SummarizeAll(Messages(s, clock, rs, Count(rs)));
      ms.Some? && (AsInRfc(ms.value) <==> |rs| <= 10)
  {
    SummariesAre(s, clock, rs, Count(rs));
    SummariesAsInRfcIff(rs);
  }
}
