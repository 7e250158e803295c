/** A whole input file: which messages are sent for it. */
module PskBatches {
  import opened Bytes
  import opened Ipfix
  import opened PskReporter
  import opened PskUploader

  /** A line of the file; one that cannot be read as a reception is skipped. */
  type Line = Option<Reception>

  function Extend(seen: seq<Reception>, line: Line): seq<Reception> {
    if line.Some? then seen + [line.value] else seen
  }

  function Receptions(lines: seq<Line>): seq<Reception> {
    if lines == [] then [] else Extend(Receptions(lines[..|lines| - 1]), lines[|lines| - 1])
  }

  function Count(rs: seq<Reception>): nat { (|rs| + 9) / 10 }

  /** How many receptions the first n batches take. */
  function Taken(rs: seq<Reception>, n: nat): (r: nat)
    ensures r <= |rs|
  {
    if 10 * n <= |rs| then 10 * n else |rs|
  }

  /** Batch k: receptions 10k to 10k + 9, as far as there are any. */
  function Batch(rs: seq<Reception>, k: nat): (r: seq<Reception>)
    requires k < Count(rs)
    ensures 0 < |r| <= 10
  {
    rs[10 * k..Taken(rs, k + 1)]
  }

  /** The messages for the first n batches, each stamped with the time at which it is sent. */
  function Messages(s: Station, clock: nat -> nat, rs: seq<Reception>, n: nat): (r: seq<seq<Byte>>)
    requires n <= Count(rs)
    ensures |r| == n
  {
    List(MessageOf(s, clock, rs), n)
  }

  function MessageOf(s: Station, clock: nat -> nat, rs: seq<Reception>): nat --> seq<Byte> {
    (k: nat) requires k < Count(rs) => MessageBytes(s, clock(k), k, Batch(rs, k))
  }

  lemma MessagesNext(s: Station, clock: nat -> nat, rs: seq<Reception>, n: nat)
    requires n < Count(rs)
    ensures Messages(s, clock, rs, n + 1) == Messages(s, clock, rs, n) + [MessageBytes(s, clock(n), n, Batch(rs, n))]
  {
    ListNext(MessageOf(s, clock, rs), n);
  }

  ghost predicate AllFit(s: Station, rs: seq<Reception>) {
    forall k | 0 <= k < Count(rs) :: |MessageBytes(s, 0, 0, Batch(rs, k))| <= CAPACITY
  }

  lemma SealedFits(s: Station, time: nat, sequence: nat, batch: seq<Reception>)
    ensures |MessageBytes(s, time, sequence, batch)| <= CAPACITY <==> FitsBuffer(|Preamble(s)|, batch)
  {
    MessageIsSealed(s, time, sequence, batch);
  }

  // ---------- The loop over the file ----------

  lemma {:induction false} ReceptionsPrefix(lines: seq<Line>, i: nat)
    requires i <= |lines|
    ensures Receptions(lines[..i]) <= Receptions(lines)
    decreases |lines|
  {
    if i == |lines| {
      assert lines[..i] == lines;
    } else {
      var init := lines[..|lines| - 1];
      ReceptionsPrefix(init, i);
      assert init[..i] == lines[..i];
    }
  }

  lemma ReceptionsNext(lines: seq<Line>, i: nat)
    requires i < |lines|
    ensures Receptions(lines[..i + 1]) == Extend(Receptions(lines[..i]), lines[i]) <= Receptions(lines)
  {
    assert lines[..i + 1][..i] == lines[..i];
    ReceptionsPrefix(lines, i + 1);
  }

  lemma {:induction false} BatchGrows(a: seq<Reception>, b: seq<Reception>)
    ensures |BatchBytes(a)| <= |BatchBytes(a + b)|
    decreases |b|
  {
    if b == [] {
      assert a + b == a;
    } else {
      var init, last := b[..|b| - 1], b[|b| - 1];
      BatchGrows(a, init);
      OneMoreGrows(a + init, last);
      assert a + init + [last] == a + b;
    }
  }

  lemma OneMoreGrows(batch: seq<Reception>, r: Reception)
    ensures |BatchBytes(batch)| <= |BatchBytes(batch + [r])|
  {
    BatchAppend(batch, r);
  }

  /** The state of the loop after the receptions `seen`: k full batches sent, the rest pending. */
  ghost predicate Progress(seen: seq<Reception>, rs: seq<Reception>, k: nat, pending: seq<Reception>) {
    && seen <= rs && |seen| == 10 * k + |pending| && |pending| < 10
    && k <= Count(rs) && pending == seen[10 * k..]
  }

  lemma NextInBatch(seen: seq<Reception>, rs: seq<Reception>, k: nat, pending: seq<Reception>, r: Reception)
    requires Progress(seen, rs, k, pending) && seen + [r] <= rs
    ensures k < Count(rs) && pending + [r] <= Batch(rs, k)
  {
    assert |seen| < |rs| && r == rs[|seen|];
    assert pending + [r] == Batch(rs, k)[..|pending| + 1];
  }

  /** One more reception fits the buffer, because the batch it belongs to does. */
  lemma NextFits(s: Station, batch: seq<Reception>, pending: seq<Reception>, r: Reception)
    requires pending + [r] <= batch && |MessageBytes(s, 0, 0, batch)| <= CAPACITY
    ensures 16 + |Preamble(s)| + |BatchBytes(pending)| + |ReceptionBytes(r)| <= CAPACITY
  {
    SealedFits(s, 0, 0, batch);
    BatchAppend(pending, r);
    var rest := batch[|pending| + 1..];
    BatchGrows(pending + [r], rest);
    assert pending + [r] + rest == batch;
  }

  lemma NextProgress(seen: seq<Reception>, rs: seq<Reception>, k: nat, pending: seq<Reception>, r: Reception)
    requires Progress(seen, rs, k, pending) && seen + [r] <= rs && k < Count(rs)
    ensures |pending| < 9 ==> Progress(seen + [r], rs, k, pending + [r])
    ensures |pending| == 9 ==> pending + [r] == Batch(rs, k) && Progress(seen + [r], rs, k + 1, [])
  {
    assert (seen + [r])[10 * k..] == pending + [r];
    assert seen + [r] == rs[..|seen| + 1];
    if |pending| == 9 { assert pending + [r] == rs[10 * k..10 * k + 10]; }
  }

  lemma NextReception(s: Station, seen: seq<Reception>, rs: seq<Reception>, k: nat, pending: seq<Reception>, r: Reception)
    requires Progress(seen, rs, k, pending) && seen + [r] <= rs && AllFit(s, rs)
    ensures k < Count(rs) && 16 + |Preamble(s)| + |BatchBytes(pending)| + |ReceptionBytes(r)| <= CAPACITY
    ensures |pending| < 9 ==> Progress(seen + [r], rs, k, pending + [r])
    ensures |pending| == 9 ==> pending + [r] == Batch(rs, k) && Progress(seen + [r], rs, k + 1, [])
  {
    NextInBatch(seen, rs, k, pending, r);
    NextFits(s, Batch(rs, k), pending, r);
    NextProgress(seen, rs, k, pending, r);
  }

  lemma AtEnd(rs: seq<Reception>, k: nat, pending: seq<Reception>)
    requires Progress(rs, rs, k, pending)
    ensures pending == [] ==> k == Count(rs)
    ensures pending != [] ==> k + 1 == Count(rs) && pending == Batch(rs, k)
  {
  }

  /** The uploader after the lines that held the receptions `seen`. */
  ghost predicate Uploaded(u: Uploader, s: Station, seen: seq<Reception>, rs: seq<Reception>, clock: nat -> nat)
    reads u, u.buffer
  {
    && u.Valid() && u.preamble == Preamble(s)
    && Progress(seen, rs, u.sequence, u.pending) && u.sent == Messages(s, clock, rs, u.sequence)
  }

  /** The program's loop: a batch is sent when it is full, and at the end of the file if it is not empty. */
  method Upload(s: Station, lines: seq<Line>, clock: nat -> nat) returns (sent: seq<seq<Byte>>)
    requires WithinLimits(s) && AllFit(s, Receptions(lines))
    ensures sent == Messages(s, clock, Receptions(lines), Count(Receptions(lines)))
  {
    ghost var rs := Receptions(lines);
    var u := new Uploader(s);
    TakeLines(u, s, lines, rs, clock);
    SendRest(u, s, rs, clock);
    return u.sent;
  }

  method SendRest(u: Uploader, s: Station, ghost rs: seq<Reception>, clock: nat -> nat)
    requires Uploaded(u, s, rs, rs, clock) && AllFit(s, rs)
    modifies u, u.buffer
    ensures u.sent == Messages(s, clock, rs, Count(rs))
  {
    AtEnd(rs, u.sequence, u.pending);
    if u.counter > 0 {
      SendNext(u, s, rs, clock);
      assert u.sequence == Count(rs);
    } else {
      assert u.sequence == Count(rs);
    }
  }

  method TakeLines(u: Uploader, s: Station, lines: seq<Line>, ghost rs: seq<Reception>, clock: nat -> nat)
    requires Uploaded(u, s, [], rs, clock) && rs == Receptions(lines) && AllFit(s, rs)
    modifies u, u.buffer
    ensures Uploaded(u, s, rs, rs, clock)
  {
    for i := 0 to |lines|
      invariant Uploaded(u, s, Receptions(lines[..i]), rs, clock)
    {
      ReceptionsNext(lines, i);
      TakeLine(u, s, lines[i], Receptions(lines[..i]), rs, clock);
    }
    assert lines[..|lines|] == lines;
  }

  method TakeLine(u: Uploader, s: Station, line: Line, ghost seen: seq<Reception>, ghost rs: seq<Reception>, clock: nat -> nat)
    requires Uploaded(u, s, seen, rs, clock) && Extend(seen, line) <= rs && AllFit(s, rs)
    modifies u, u.buffer
    ensures Uploaded(u, s, Extend(seen, line), rs, clock)
  {
    if line.Some? { TakeReception(u, s, line.value, seen, rs, clock); }
  }

  method TakeReception(u: Uploader, s: Station, r: Reception, ghost seen: seq<Reception>, ghost rs: seq<Reception>, clock: nat -> nat)
    requires Uploaded(u, s, seen, rs, clock) && seen + [r] <= rs && AllFit(s, rs)
    modifies u, u.buffer
    ensures Uploaded(u, s, seen + [r], rs, clock)
  {
    HasRoom(u, s, r, seen, rs, clock);
    u.AddRecord(r);
    SendIfFull(u, s, seen + [r], rs, clock);
  }

  /** The state of the loop when a batch may have become full. */
  ghost predicate Filling(seen: seq<Reception>, rs: seq<Reception>, k: nat, pending: seq<Reception>) {
    && |pending| <= 10 && k < Count(rs)
    && (|pending| < 10 ==> Progress(seen, rs, k, pending))
    && (|pending| == 10 ==> pending == Batch(rs, k) && Progress(seen, rs, k + 1, []))
  }

  lemma HasRoom(u: Uploader, s: Station, r: Reception, seen: seq<Reception>, rs: seq<Reception>, clock: nat -> nat)
    requires Uploaded(u, s, seen, rs, clock) && seen + [r] <= rs && AllFit(s, rs)
    ensures u.dst + |ReceptionBytes(r)| <= CAPACITY
    ensures Filling(seen + [r], rs, u.sequence, u.pending + [r])
  {
    assert u.dst == 16 + |u.preamble| + |BatchBytes(u.pending)|;
    NextReception(s, seen, rs, u.sequence, u.pending, r);
  }

  method SendIfFull(u: Uploader, s: Station, ghost seen: seq<Reception>, ghost rs: seq<Reception>, clock: nat -> nat)
    requires u.Valid() && u.preamble == Preamble(s) && AllFit(s, rs)
    requires Filling(seen, rs, u.sequence, u.pending) && u.sent == Messages(s, clock, rs, u.sequence)
    modifies u, u.buffer
    ensures Uploaded(u, s, seen, rs, clock)
  {
    if u.counter < 10 { return; }
    SendNext(u, s, rs, clock);
  }

  /** Sends the pending receptions, which are the next batch. */
  method SendNext(u: Uploader, s: Station, ghost rs: seq<Reception>, clock: nat -> nat)
    requires u.Valid() && u.preamble == Preamble(s) && AllFit(s, rs)
    requires u.sequence < Count(rs) && u.pending == Batch(rs, u.sequence)
    requires u.sent == Messages(s, clock, rs, u.sequence)
    modifies u, u.buffer
    ensures u.Valid() && u.pending == [] && u.sequence == old(u.sequence) + 1 && u.start == old(u.start)
    ensures u.sent == Messages(s, clock, rs, u.sequence)
  {
    SealedFits(s, 0, 0, u.pending);
    MessageIsSealed(s, clock(u.sequence), u.sequence, u.pending);
    MessagesNext(s, clock, rs, u.sequence);
    u.Flush(clock(u.sequence));
  }
}
