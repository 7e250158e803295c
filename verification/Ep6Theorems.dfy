/** Whole runs of the EP6 sender: every block that handler_ep6 sends, from the start of the thread. */
module Ep6Runs {
  import opened Arithmetic
  import opened Bytes
  import opened Ep6
  import opened Ep6Sender

  /** What one pass of the loop takes from the hardware and from the registers. */
  datatype Pass = Pass(receivers: Receivers, rate: nat, codecWords: seq<Word>, fifo: seq<Byte>, statuses: seq<Status>) {
    predicate Fits(s: Server) {
      Slots(receivers) > 0 && var m, n := Datagrams(s, receivers), Slots(receivers);
      && rate < 4
      && |codecWords| == 2 * m * n <= AUDIO && |fifo| == 2 * m * n * s.Stride()
      && |statuses| == 2 * m && forall i | 0 <= i < |statuses| :: statuses[i].Valid()
    }
  }

  /**
   The sender of one server, from the start of the thread at some rate.  Rate and receivers
   may change from block to block.  Only the transceiver can have a codec.
   */
  datatype Run = Run(server: Server, codec: bool, startRate: nat, passes: seq<Pass>) {
    predicate Valid() {
      && startRate < 4 && (codec ==> server.Transceiver?)
      && forall b {:trigger passes[b].Fits(server)} | 0 <= b < |passes| :: passes[b].Fits(server)
    }

    /** The audio state after n blocks. */
    function AudioAt(n: nat): (a: Audio)
      requires Valid() && n <= |passes|
      ensures |a.words| == AUDIO && a.rateCounter > 0 && (!codec ==> a.k == 0)
      decreases n, 0
    {
      if n == 0 then Audio(seq(AUDIO, _ => [0, 0, 0, 0]), Power(startRate), 0)
      else Spend(Refreshed(n - 1), codec, |passes[n - 1].codecWords|)
    }

    /** The audio state that block b draws on. */
    function Refreshed(b: nat): (a: Audio)
      requires Valid() && b < |passes|
      ensures |a.words| == AUDIO && a.rateCounter > 0 && (!codec ==> a.k == 0)
      decreases b, 1
    {
      assert passes[b].Fits(server);
      Refresh(AudioAt(b), codec, passes[b].rate, passes[b].codecWords)
    }

    /** Block b finds all its audio in the copy. */
    predicate InCopy(b: nat)
      requires Valid() && b < |passes|
    {
      assert passes[b].Fits(server);
      codec ==> Refreshed(b).k + |passes[b].codecWords| <= AUDIO * Power(passes[b].rate)
    }

    /** How many blocks go out before the next copy, as the rates alone decide it. */
    function Left(n: nat): (r: nat)
      requires Valid() && n <= |passes|
      ensures r > 0
    {
      if n == 0 then TwoTo(startRate)
      else if Left(n - 1) == 1 then
        TwoTo(passes[n - 1].rate)
      else Left(n - 1) - 1
    }

    /** How many blocks there are since the last copy, or since the start, block b included. */
    function Since(b: nat): (r: nat)
      requires Valid() && b < |passes|
      ensures r > 0
    {
      if b == 0 || Left(b) == 1 then 1 else Since(b - 1) + 1
    }

    /** The rate of block b allows for that many blocks. */
    predicate Paced(b: nat)
      requires Valid() && b < |passes|
    {
      codec ==> Since(b) <= TwoTo(passes[b].rate)
    }

    /** One rate for the whole run. */
    ghost predicate Steady() { forall b | 0 <= b < |passes| :: passes[b].rate == startRate }

    /** The number of datagrams of block b. */
    function M(b: nat): (m: nat)
      requires Valid() && b < |passes|
    {
      assert passes[b].Fits(server);
      Datagrams(server, passes[b].receivers)
    }

    function CounterAt(n: nat): nat
      requires Valid() && n <= |passes|
    {
      if n == 0 then 0 else (CounterAt(n - 1) + M(n - 1)) % 0x1_0000_0000
    }

    function OffsetAt(n: nat): nat
      requires Valid() && n <= |passes|
    {
      if n == 0 then 0 else OffsetAfter(OffsetAt(n - 1), 2 * M(n - 1))
    }

    function TailsAt(b: nat): seq<seq<Byte>>
      requires Valid() && b < |passes| && InCopy(b)
    {
      assert passes[b].Fits(server);
      Tails(codec, Refreshed(b).words, Refreshed(b).k, passes[b].rate, |passes[b].codecWords|)
    }

    function BlockAt(b: nat): (k: Block)
      requires Valid() && b < |passes| && InCopy(b)
    {
      Block(server, passes[b].receivers, passes[b].fifo, passes[b].statuses, TailsAt(b), CounterAt(b), OffsetAt(b))
    }

    lemma BlockFits(b: nat)
      requires Valid() && b < |passes| && InCopy(b)
      ensures BlockAt(b).Valid() && BlockAt(b).M() == M(b) && |TailsAt(b)| == |passes[b].codecWords|
      ensures |passes[b].statuses| == 2 * M(b) && forall i | 0 <= i < 2 * M(b) :: passes[b].statuses[i].Valid()
    {
      assert passes[b].Fits(server);
    }

    function DatagramsBefore(n: nat): nat
      requires Valid() && n <= |passes|
    {
      if n == 0 then 0 else DatagramsBefore(n - 1) + M(n - 1)
    }
  }

  // ---------- The audio index ----------

  /** All blocks of the transceiver are about as long. */
  lemma Widths(r: Receivers)
    requires Slots(r) > 0
    ensures 494 <= 2 * Datagrams(Transceiver, r) * Slots(r) <= 510
  {
    SlotsTable(r);
  }

  lemma {:induction false} CountdownIs(run: Run, n: nat)
    requires run.Valid() && run.codec && n <= |run.passes|
    ensures run.AudioAt(n).rateCounter == run.Left(n)
  {
    if n == 0 {
      PowerIs(run.startRate);
    } else {
      CountdownIs(run, n - 1);
      assert run.passes[n - 1].Fits(run.server);
      PowerIs(run.passes[n - 1].rate);
    }
  }

  lemma {:induction false} IndexBounds(run: Run, b: nat)
    requires run.Valid() && run.codec && b < |run.passes|
    ensures 494 * run.Since(b) <= run.Refreshed(b).k + |run.passes[b].codecWords| <= 510 * run.Since(b)
  {
    assert run.passes[b].Fits(run.server);
    Widths(run.passes[b].receivers);
    CountdownIs(run, b);
    if b > 0 { IndexBounds(run, b - 1); }
  }

  /**
   The audio index of a block stays inside the copy exactly if there have not been more
   blocks since the copy than the rate of this block repeats its words.
   */
  lemma IndexInCopyIff(run: Run, b: nat)
    requires run.Valid() && b < |run.passes|
    ensures (run.codec ==> IndexInside(run.Refreshed(b).k, |run.passes[b].codecWords|, run.passes[b].rate)) <==> run.Paced(b)
    ensures run.InCopy(b) <==> run.Paced(b)
  {
    assert run.passes[b].Fits(run.server);
    if run.codec {
      IndexBounds(run, b);
      Widths(run.passes[b].receivers);
      LastIndex(run.Refreshed(b).k, |run.passes[b].codecWords|, run.passes[b].rate);
    }
  }

  /** From the k-th slot on, `count` slots find their words, each at its number shifted right by the rate. */
  ghost predicate IndexInside(k: nat, count: nat, rate: nat) {
    forall x: nat | k <= x < k + count :: ShiftRight(x, rate) < 512
  }

  lemma LastIndex(k: nat, count: nat, rate: nat)
    requires rate < 4 && count > 0
    ensures IndexInside(k, count, rate) <==> k + count <= AUDIO * Power(rate)
    ensures Power(rate) == TwoTo(rate)
  {
    PowerIs(rate);
    var last := count - 1;
    BelowLimit(k + last, AUDIO, Power(rate));
    if k + count <= AUDIO * Power(rate) {
      forall x: nat | k <= x < k + count ensures ShiftRight(x, rate) < AUDIO { BelowLimit(x, AUDIO, Power(rate)); }
    } else {
      assert ShiftRight(k + last, rate) >= AUDIO;
    }
  }

  /** At a constant rate it always does, whatever the receivers. */
  lemma {:induction false} SteadyIsPaced(run: Run, b: nat)
    requires run.Valid() && run.Steady() && b < |run.passes|
    ensures run.Paced(b) && run.Since(b) + run.Left(b + 1) <= TwoTo(run.startRate) + 1
  {
    assert run.passes[b].Fits(run.server);
    if b > 0 { SteadyIsPaced(run, b - 1); }
  }

  /** A pass with one receiver and silence. */
  function Silence(rate: nat): Pass {
    Pass(1, rate, seq(504, _ => [0, 0, 0, 0]), seq(504 * 32, _ => 0),
         seq(8, _ => Status(0, [0, 0], [0, 0], [0, 0], [0, 0])))
  }

  /** After one block at rate 3, the next one at rate 0 runs past the copy. */
  lemma RateChangeOverruns() returns (run: Run)
    ensures run.Valid() && run.codec && |run.passes| == 2 && run.passes[1].rate == 0
    ensures run.Refreshed(1).k + |run.passes[1].codecWords| == 1008 && !run.InCopy(1)
  {
    run := Run(Transceiver, true, 3, [Silence(3), Silence(0)]);
    SlotsTable(1);
    SilenceFits(3);
    SilenceFits(0);
    assert run.Left(0) == 8 && run.Left(1) == 7;
    CountdownIs(run, 0);
    CountdownIs(run, 1);
    assert run.Refreshed(0).k == 0;
  }

  lemma SilenceFits(rate: nat)
    requires rate < 4
    ensures Silence(rate).Fits(Transceiver)
  {
    SlotsTable(1);
  }

  // ---------- The thread ----------

  /** The thread: what goes to the socket, block by block, at rates that keep the audio index inside the copy. */
  method HandlerEp6(run: Run) returns (sent: seq<seq<Byte>>)
    requires run.Valid() && forall b | 0 <= b < |run.passes| :: run.Paced(b)
    ensures |sent| == |run.passes|
    ensures forall b | 0 <= b < |sent| :: run.InCopy(b) && InPlace(sent[b], run.BlockAt(b))
  {
    sent := [];
    var s := new Sender(run.server, run.codec, run.startRate);
    for b := 0 to |run.passes|
      invariant fresh(s) && fresh(s.buffer) && s.Valid() && s.server == run.server && s.codec == run.codec
      invariant s.State() == run.AudioAt(b) && s.counter == run.CounterAt(b) && s.offset == run.OffsetAt(b)
      invariant |sent| == b && forall c | 0 <= c < b :: run.InCopy(c) && InPlace(sent[c], run.BlockAt(c))
    {
      assert run.Paced(b);
      IndexInCopyIff(run, b);
      var datagrams := OnePass(s, run, b);
      sent := sent + [datagrams];
    }
  }

  method OnePass(s: Sender, run: Run, b: nat) returns (datagrams: seq<Byte>)
    requires run.Valid() && b < |run.passes| && run.InCopy(b)
    requires s.Valid() && s.server == run.server && s.codec == run.codec
    requires s.State() == run.AudioAt(b) && s.counter == run.CounterAt(b) && s.offset == run.OffsetAt(b)
    modifies s, s.buffer
    ensures s.Valid() && s.State() == run.AudioAt(b + 1) && s.counter == run.CounterAt(b + 1) && s.offset == run.OffsetAt(b + 1)
    ensures InPlace(datagrams, run.BlockAt(b))
  {
    var p := run.passes[b];
    assert p.Fits(run.server);
    run.BlockFits(b);
    Sizes(run.server, p.receivers);
    assert s.State() == run.AudioAt(b) && run.Refreshed(b).k >= 0;
    ghost var blk := s.SendBlock(p.receivers, p.rate, p.codecWords, p.fifo, p.statuses);
    assert blk == run.BlockAt(b);
    Prefix(s.buffer[..], blk);
    datagrams := s.buffer[..1032 * Datagrams(run.server, p.receivers)];
  }

  /** All heads and all frames, and nothing more. */
  ghost predicate InPlace(b: seq<Byte>, blk: Block) {
    Filled(b, blk, blk.M(), 2 * blk.M()) && |b| == 1032 * blk.M()
  }

  lemma Prefix(b: seq<Byte>, blk: Block)
    requires Filled(b, blk, blk.M(), 2 * blk.M())
    ensures InPlace(b[..1032 * blk.M()], blk)
  {
    var now := b[..1032 * blk.M()];
    forall j | 0 <= j < blk.M() ensures HeadInPlace(now, blk, j) {
      assert HeadInPlace(b, blk, j);
    }
    forall i | 0 <= i < 2 * blk.M() ensures FrameInPlace(now, blk, i) {
      assert FrameInPlace(b, blk, i);
      FrameFits(blk, i);
    }
  }
}

/** What a client gets from the datagrams of a run. */
module Ep6Theorems {
  import opened Arithmetic
  import opened Bytes
  import opened Ep6
  import opened Ep6Sender
  import opened Ep6Runs

  // ---------- Layout ----------

  /** Every byte of m datagrams is in exactly one head or one frame. */
  lemma EveryByteOnce(m: nat, p: nat)
    requires p < 1032 * m
    ensures var frame := 2 * (p / 1032) + if p % 1032 < 520 then 0 else 1;
      forall i: nat :: FrameAt(i) <= p < FrameAt(i) + 512 <==> p % 1032 >= 8 && i == frame && i < 2 * m
  {
    var d := p / 1032;
    FramesTile(d);
    forall i: nat ensures FrameAt(i) <= p < FrameAt(i) + 512 <==> p % 1032 >= 8 && i == 2 * d + (if p % 1032 < 520 then 0 else 1) {
      FramesTile(i / 2);
      assert i == 2 * (i / 2) || i == 2 * (i / 2) + 1;
    }
  }

  /** A client takes each datagram by itself: an 8-byte head and two frames of 512 bytes. */
  function ClientFrame(sent: seq<Byte>, d: nat, half: nat): (f: seq<Byte>)
    requires half < 2 && 1032 * (d + 1) <= |sent|
    ensures |f| == 512
  {
    var datagram := sent[1032 * d..1032 * (d + 1)];
    if half == 0 then datagram[8..520] else datagram[520..]
  }

  lemma ClientFrameIs(sent: seq<Byte>, blk: Block, d: nat, half: nat)
    requires InPlace(sent, blk) && d < blk.M() && half < 2
    ensures ClientFrame(sent, d, half) == blk.Frame(2 * d + half)
  {
    FramesTile(d);
    assert FrameInPlace(sent, blk, 2 * d + half);
    ClientFrameStarts(sent, d, half);
  }

  lemma ClientFrameStarts(sent: seq<Byte>, d: nat, half: nat)
    requires half < 2 && 1032 * (d + 1) <= |sent|
    ensures var i := FrameAt(2 * d + half);
      i + 512 <= |sent| && ClientFrame(sent, d, half) == sent[i..i + 512]
  {
    FramesTile(d);
    SubSlice(sent, 1032 * d, 1032 * (d + 1), 8 + 512 * half, 520 + 512 * half);
  }

  /** Slot j of each frame is a slot of the FIFO, in order: the selected channels, then two bytes of audio. */
  lemma UnpackingRecovers(sent: seq<Byte>, blk: Block, d: nat, half: nat, j: nat)
    requires InPlace(sent, blk) && d < blk.M() && half < 2 && j < blk.N()
    ensures SlotReadBack(ClientFrame(sent, d, half), blk, (2 * d + half) * blk.N() + j, 8 + j * (6 * blk.receivers + 2))
  {
    ClientFrameIs(sent, blk, d, half);
    SlotInFrame(blk, 2 * d + half, j);
  }

  /** The frame has slot q of the block at `at`: the selected samples and the tail. */
  ghost predicate SlotReadBack(frame: seq<Byte>, blk: Block, q: int, at: int) {
    && blk.Valid() && 0 <= q < 2 * blk.M() * blk.N() && 0 <= at
    && var size := 6 * blk.receivers + 2;
    && at + size <= |frame| && frame[at..at + size] == Selected(blk.server, blk.receivers, blk.Raw(q)) + blk.tails[q]
  }

  lemma SlotInFrame(blk: Block, i: nat, j: nat)
    requires blk.Valid() && i < 2 * blk.M() && j < blk.N()
    ensures 0 <= i * blk.N() + j < 2 * blk.M() * blk.N()
    ensures var size := SlotSize(blk.receivers);
      var at := 8 + j * size;
      0 <= at <= at + size <= 512 && blk.Frame(i)[at..at + size] == blk.Slot(i * blk.N() + j)
  {
    SlotInRow(blk, i, j);
    SlotsFollowRow(blk, i);
    InFront(blk.Frame(i), blk.FrameSlots(i, blk.N()), j * SlotSize(blk.receivers), SlotSize(blk.receivers));
  }

  lemma SlotInRow(blk: Block, i: nat, j: nat)
    requires blk.Valid() && i < 2 * blk.M() && j < blk.N()
    ensures 0 <= i * blk.N() + j < 2 * blk.M() * blk.N()
    ensures var size, slots := SlotSize(blk.receivers), blk.FrameSlots(i, blk.N());
      0 <= j * size <= j * size + size <= |slots| && slots[j * size..j * size + size] == blk.Slot(i * blk.N() + j)
  {
    blk.FrameInBlock(i, 0);
    blk.FrameInBlock(i, blk.N());
    blk.FrameInBlock(i, j + 1);
    PieceAt(blk.SlotList(), i * blk.N(), blk.N(), j, SlotSize(blk.receivers));
  }

  lemma SlotsFollowRow(blk: Block, i: nat)
    requires blk.Valid() && i < 2 * blk.M()
    ensures 8 + |blk.FrameSlots(i, blk.N())| <= 512
    ensures blk.Frame(i)[8..8 + |blk.FrameSlots(i, blk.N())|] == blk.FrameSlots(i, blk.N())
    ensures blk.Frame(i)[..8] == Row(blk.server, blk.Offset(i), blk.statuses[i])
  {
    blk.SlotsInFrame(blk.N());
  }

  lemma InFront(frame: seq<Byte>, slots: seq<Byte>, at: nat, size: nat)
    requires 8 + |slots| <= |frame| && frame[8..8 + |slots|] == slots && at + size <= |slots|
    ensures frame[8 + at..8 + at + size] == slots[at..at + size]
  {
    SubSlice(frame, 8, 8 + |slots|, at, at + size);
  }

  lemma SubSlice(s: seq<Byte>, a: nat, b: nat, i: nat, j: nat)
    requires a <= b <= |s| && i <= j <= b - a
    ensures s[a..b][i..j] == s[a + i..a + j]
  {
    var x, y := s[a..b][i..j], s[a + i..a + j];
    assert |x| == |y|;
    forall k | 0 <= k < |x| ensures x[k] == y[k] {
      assert x[k] == s[a..b][i + k];
    }
  }

  // ---------- Numbers and headers ----------

  lemma {:induction false} Counted(run: Run, n: nat)
    requires run.Valid() && n <= |run.passes|
    ensures run.CounterAt(n) == run.DatagramsBefore(n) % 0x1_0000_0000
  {
    if n > 0 {
      Counted(run, n - 1);
      Wraps(run.DatagramsBefore(n - 1), run.M(n - 1));
    }
  }

  lemma Wraps(x: nat, y: nat)
    ensures (x % 0x1_0000_0000 + y) % 0x1_0000_0000 == (x + y) % 0x1_0000_0000
  {
  }

  /** Sequence numbers are consecutive over the whole run. */
  lemma SequenceNumbers(run: Run, b: nat, sent: seq<Byte>, d: nat)
    requires run.Valid() && b < |run.passes| && run.InCopy(b) && InPlace(sent, run.BlockAt(b)) && d < run.M(b)
    ensures 1032 * (d + 1) <= |sent|
    ensures var datagram := sent[1032 * d..1032 * (d + 1)];
      && datagram[..4] == [0xEF, 0xFE, 1, 6]
      && GetU32(datagram[4..]) == (run.DatagramsBefore(b) + d) % 0x1_0000_0000
  {
    run.BlockFits(b);
    Counted(run, b);
    Wraps(run.DatagramsBefore(b), d);
    HeadRead(sent, run.BlockAt(b), d);
  }

  lemma HeadRead(sent: seq<Byte>, blk: Block, d: nat)
    requires InPlace(sent, blk) && d < blk.M()
    ensures 1032 * (d + 1) <= |sent|
    ensures var datagram := sent[1032 * d..1032 * (d + 1)];
      datagram[..4] == [0xEF, 0xFE, 1, 6] && GetU32(datagram[4..]) == (blk.counter + d) % 0x1_0000_0000
  {
    assert HeadInPlace(sent, blk, d);
    NumberRead(sent[1032 * d..1032 * (d + 1)], sent[1032 * d..1032 * d + 8], blk.counter + d);
  }

  lemma NumberRead(datagram: seq<Byte>, head: seq<Byte>, number: nat)
    requires |datagram| >= 8 && datagram[..8] == head == [0xEF, 0xFE, 1, 6] + U32(number)
    ensures datagram[..4] == [0xEF, 0xFE, 1, 6] && GetU32(datagram[4..]) == number % 0x1_0000_0000
  {
    assert datagram[4..] == datagram[..8][4..] + datagram[8..];
    assert datagram[..4] == datagram[..8][..4];
    GetU32Of(number, datagram[8..]);
  }

  lemma {:induction false} OffsetCycles(offset: nat, c: nat, i: nat)
    requires offset == 8 * (c % 5)
    ensures OffsetAfter(offset, i) == 8 * ((c + i) % 5)
  {
    if i > 0 { OffsetCycles(offset, c, i - 1); }
  }

  lemma {:induction false} OffsetsCycle(run: Run, n: nat)
    requires run.Valid() && n <= |run.passes|
    ensures run.OffsetAt(n) == 8 * (2 * run.DatagramsBefore(n) % 5)
  {
    if n > 0 {
      OffsetsCycle(run, n - 1);
      OffsetCycles(run.OffsetAt(n - 1), 2 * run.DatagramsBefore(n - 1), 2 * run.M(n - 1));
    }
  }

  /** A status row as a client reads it: sync, turn and flags in C0, then the readings. */
  predicate RowOfTurn(row: seq<Byte>, s: Server, turn: nat, status: Status)
    requires |row| >= 8 && status.Valid()
  {
    && row[..3] == [127, 127, 127]
    && row[3] as nat / 8 == turn
    && row[3] as nat % 8 == (if s.Receiver? then 0 else status.flags as nat)
    && (turn == 0 ==> row[4..8] == [0, 33, 17, if s.Receiver? then 25 else 21])
    && (turn == 1 ==> row[4..6] == Zero(2) && row[6..8] == if s.Receiver? then Zero(2) else status.adc24)
    && (turn == 2 && s.Receiver? ==> row[4..8] == Zero(4))
    && (turn == 2 && s.Transceiver? ==> row[4..6] == status.adc16 && row[6..8] == status.adc17)
    && (turn == 3 ==> row[6..8] == Zero(2) && row[4..6] == if s.Receiver? then Zero(2) else status.adc25)
    && (turn == 4 ==> row[4..8] == [66, 66, 66, 66])
  }

  /** Frame after frame over the whole run, the five status rows take turns. */
  lemma HeadersCycle(run: Run, b: nat, i: nat)
    requires run.Valid() && b < |run.passes| && i < 2 * run.M(b)
    ensures OffsetAfter(run.OffsetAt(b), i) == 8 * ((2 * run.DatagramsBefore(b) + i) % 5)
  {
    OffsetsCycle(run, b);
    OffsetCycles(run.OffsetAt(b), 2 * run.DatagramsBefore(b), i);
  }

  lemma RowRead(sent: seq<Byte>, blk: Block, d: nat, half: nat, turn: nat)
    requires InPlace(sent, blk) && d < blk.M() && half < 2 && turn < 5 && blk.Offset(2 * d + half) == 8 * turn
    ensures RowOfTurn(ClientFrame(sent, d, half), blk.server, turn, blk.statuses[2 * d + half])
  {
    ClientFrameIs(sent, blk, d, half);
    SlotsFollowRow(blk, 2 * d + half);
    RowShape(blk.server, turn, blk.statuses[2 * d + half], blk.Frame(2 * d + half));
  }

  lemma RowShape(s: Server, turn: nat, status: Status, frame: seq<Byte>)
    requires status.Valid() && |frame| >= 8 && turn < 5 && frame[..8] == Row(s, 8 * turn, status)
    ensures RowOfTurn(frame, s, turn, status)
  {
    var row := frame[..8];
    assert frame[0] == row[0] && frame[1] == row[1] && frame[2] == row[2] && frame[3] == row[3];
    assert frame[..3] == [127, 127, 127];
    StatusRow(s, turn, status);
    assert frame[4..6] == row[4..6] && frame[6..8] == row[6..8] && frame[4..8] == row[4..8];
  }

  lemma StatusRow(s: Server, turn: nat, status: Status)
    requires status.Valid() && turn < 5
    ensures RowOfTurn(Row(s, 8 * turn, status), s, turn, status)
  {
    var row, flags := Row(s, 8 * turn, status), if s.Receiver? then 0 else status.flags as nat;
    assert turn == 0 || turn == 1 || turn == 2 || turn == 3 || turn == 4;
    assert row[0] == 127 && row[1] == 127 && row[2] == 127;
    assert row[3] as nat == 8 * turn + flags;
    C0Fields(turn, flags);
  }

  lemma C0Fields(turn: nat, flags: nat)
    requires flags < 8
    ensures (8 * turn + flags) / 8 == turn && (8 * turn + flags) % 8 == flags
  {
  }

  // ---------- Audio ----------

  /** Every block of the run has `width` slots, and so many words of the codec. */
  ghost predicate Uniform(run: Run, width: nat) {
    width > 0 && forall p | 0 <= p < |run.passes| :: |run.passes[p].codecWords| == width
  }

  /** The block that brings copied word w, when every `count`-th block brings `width` of them. */
  function CopyMade(w: nat, width: nat, count: nat): int
    requires width > 0
  {
    (w / width + 1) * count - 1
  }

  /** The number of slot q of the z-th block since the first copy. */
  function Position(z: nat, width: nat, q: nat): nat { z * width + q }

  /** The word that the codec delivers w-th, counting only the words that were copied, in every `count`-th block. */
  ghost function Copied(run: Run, width: nat, count: nat, w: nat): (r: Word)
    requires Uniform(run, width) && 0 <= CopyMade(w, width, count) < |run.passes|
  {
    run.passes[CopyMade(w, width, count)].codecWords[w % width]
  }

  /** Slot q of block b carries half of the w-th copied word. */
  ghost predicate Carries(run: Run, width: nat, count: nat, b: nat, q: nat, w: nat) {
    && run.Valid() && b < |run.passes| && run.InCopy(b) && q < |run.TailsAt(b)|
    && Uniform(run, width) && 0 <= CopyMade(w, width, count) < |run.passes|
    && run.TailsAt(b)[q] == Copied(run, width, count, w)[..2]
  }

  /** After n blocks: how many since the refresh, and what the refresh copied. */
  predicate OnTime(a: Audio, rate: nat, n: nat, width: nat, last: seq<Word>)
    requires rate < 4
  {
    var count := Power(rate);
    if n < count then a.rateCounter == count - n
    else
      && a.rateCounter == count - n % count && a.k == (n % count + 1) * width
      && width <= |a.words| && a.words[..width] == last
  }

  lemma OnTimeStep(a: Audio, rate: nat, n: nat, was: seq<Word>, words: seq<Word>)
    requires rate < 4 && |a.words| == AUDIO && a.rateCounter > 0 && |words| <= AUDIO && OnTime(a, rate, n, |words|, was)
    ensures var r, count := Refresh(a, true, rate, words), Power(rate);
      && (n + 1 >= count ==> r.k == (n + 1) % count * |words|)
      && OnTime(Spend(r, true, |words|), rate, n + 1, |words|, if (n + 1) % count == 0 then words else was)
  {
    var count := Power(rate);
    var t := n % count;
    assert (n + 1) % count == if t + 1 == count then 0 else t + 1;
    assert (t + 2) * |words| == (t + 1) * |words| + |words|;
  }

  /** The words of the last refresh among the first n blocks. */
  function Last(passes: seq<Pass>, count: nat, n: nat): seq<Word>
    requires count > 0 && n <= |passes|
  {
    if n < count then [] else passes[n - 1 - n % count].codecWords
  }

  lemma LastStep(passes: seq<Pass>, count: nat, n: nat)
    requires count > 0 && n < |passes|
    ensures Last(passes, count, n + 1) == if (n + 1) % count == 0 then passes[n].codecWords else Last(passes, count, n)
  {
    NextTurn(n, count);
  }

  lemma NextTurn(n: nat, count: nat)
    requires count > 0
    ensures (n + 1) % count == if n % count + 1 == count then 0 else n % count + 1
    ensures n + 1 < count ==> (n + 1) % count != 0
    ensures n < count ==> n % count == n
  {
    TurnOf(n, n / count, count);
    if n < count { Divides(0, count, n); }
    if n + 1 < count { Divides(0, count, n + 1); }
  }

  lemma TurnOf(n: nat, q: nat, count: nat)
    requires count > 0 && n == q * count + n % count
    ensures (n + 1) % count == if n % count + 1 == count then 0 else n % count + 1
  {
    if n % count + 1 < count {
      Divides(q, count, n % count + 1);
    } else {
      Distribute(q, 1, count);
      Divides(q + 1, count, 0);
    }
  }

  lemma {:induction false} RefreshesOnTime(run: Run, width: nat, n: nat)
    requires run.Valid() && run.codec && run.Steady() && n <= |run.passes| && Uniform(run, width)
    ensures OnTime(run.AudioAt(n), run.startRate, n, width, Last(run.passes, Power(run.startRate), n))
  {
    if n > 0 {
      RefreshesOnTime(run, width, n - 1);
      assert run.passes[n - 1].Fits(run.server);
      OnTimeStep(run.AudioAt(n - 1), run.startRate, n - 1, Last(run.passes, Power(run.startRate), n - 1), run.passes[n - 1].codecWords);
      LastStep(run.passes, Power(run.startRate), n - 1);
    }
  }

  /**
   With the codec, one rate and a fixed number of receivers, from the first copy on each copied
   word goes out exactly 2^rate times in a row, in order, with no gap between blocks: of all
   slots since then, those from 2^rate * w up to 2^rate * (w + 1) carry half of copied word w.
   */
  lemma AudioRepeats(run: Run, width: nat, z: nat, q: nat, w: nat)
    requires run.Valid() && run.codec && run.Steady() && q < width && Uniform(run, width)
    requires z + TwoTo(run.startRate) <= |run.passes|
    requires w * TwoTo(run.startRate) <= Position(z, width, q) < (w + 1) * TwoTo(run.startRate)
    ensures Carries(run, width, TwoTo(run.startRate), z + TwoTo(run.startRate) - 1, q, w)
  {
    PowerIs(run.startRate);
    WordOf(Position(z, width, q), w, TwoTo(run.startRate));
    SlotsRepeat(run, width, z, q, TwoTo(run.startRate), w);
  }

  lemma WordOf(y: nat, w: nat, count: nat)
    requires count > 0 && w * count <= y < (w + 1) * count
    ensures w == y / count
  {
    Distribute(w, 1, count);
    Divides(w, count, y - w * count);
  }

  lemma SlotsRepeat(run: Run, width: nat, z: nat, q: nat, count: nat, w: nat)
    requires run.Valid() && run.codec && run.Steady() && q < width && Uniform(run, width)
    requires count == Power(run.startRate) && z + count <= |run.passes|
    requires w == Position(z, width, q) / count
    ensures Carries(run, width, count, z + count - 1, q, w)
  {
    var t, x := DrawsOn(z, width, q, count, w);
    BlockRepeats(run, width, z + count - 1, q, t, x);
    CarriesWord(run, width, count, z + count - 1, q, w, t);
  }

  lemma DrawsOn(z: nat, width: nat, q: nat, count: nat, w: nat) returns (t: nat, x: nat)
    requires q < width && (count == 1 || count == 2 || count == 4 || count == 8) && w == Position(z, width, q) / count
    ensures t == (z + count - 1 + 1 - count) % count && t < count
    ensures x == (t * width + q) / count && x == w % width && x < width
    ensures CopyMade(w, width, count) == z + count - 1 - t
  {
    t, x := z % count, w % width;
    Indices(z, count, width, q);
    WhichCopy(z, count);
  }

  lemma CarriesWord(run: Run, width: nat, count: nat, b: nat, q: nat, w: nat, t: nat)
    requires run.Valid() && b < |run.passes| && run.InCopy(b) && q < |run.TailsAt(b)| && Uniform(run, width)
    requires t <= b && CopyMade(w, width, count) == b - t
    requires run.TailsAt(b)[q] == run.passes[b - t].codecWords[w % width][..2]
    ensures Carries(run, width, count, b, q, w)
  {
  }

  /** The same, seen from block b: it draws on the copy made t blocks before. */
  lemma BlockRepeats(run: Run, width: nat, b: nat, q: nat, t: nat, x: nat)
    requires run.Valid() && run.codec && run.Steady() && b < |run.passes| && q < width && Uniform(run, width)
    requires b + 1 >= Power(run.startRate) && t == (b + 1 - Power(run.startRate)) % Power(run.startRate)
    requires x == (t * width + q) / Power(run.startRate) < width
    ensures b - t >= 0
    ensures run.InCopy(b) && q < |run.TailsAt(b)| && run.TailsAt(b)[q] == run.passes[b - t].codecWords[x][..2]
  {
    BlockDrawsOn(run, width, b);
    SteadyIsPaced(run, b);
    IndexInCopyIff(run, b);
    TailDrawn(run, b, q);
    Within(run.Refreshed(b).words, width, x);
  }

  lemma Within(words: seq<Word>, width: nat, x: nat)
    requires x < width <= |words|
    ensures words[..width][x] == words[x]
  {
  }

  lemma WhichCopy(z: nat, count: nat)
    requires count > 0
    ensures (z + count) % count == z % count
    ensures (z / count + 1) * count == z + count - z % count
  {
    Divides(z / count + 1, count, z % count);
    Distribute(z / count, 1, count);
  }

  lemma TailDrawn(run: Run, b: nat, q: nat)
    requires run.Valid() && run.codec && run.Steady() && b < |run.passes| && q < |run.passes[b].codecWords| && run.InCopy(b)
    ensures var a := run.Refreshed(b);
      && (a.k + q) / Power(run.startRate) < |a.words|
      && q < |run.TailsAt(b)| && run.TailsAt(b)[q] == a.words[(a.k + q) / Power(run.startRate)][..2]
  {
    var a, count := run.Refreshed(b), |run.passes[b].codecWords|;
    Drawn(a.words, a.k, run.startRate, count, q);
  }

  lemma Drawn(words: seq<Word>, k: nat, rate: nat, count: nat, q: nat)
    requires rate < 4 && k + count <= |words| * Power(rate) && q < count
    ensures (k + q) / Power(rate) < |words|
    ensures |Tails(true, words, k, rate, count)| == count && Tails(true, words, k, rate, count)[q] == words[(k + q) / Power(rate)][..2]
  {
    assert Tails(true, words, k, rate, count)[q] == TailAt(true, words, k + q, rate);
  }

  lemma BlockDrawsOn(run: Run, width: nat, b: nat)
    requires run.Valid() && run.codec && run.Steady() && b < |run.passes| && Uniform(run, width)
    requires b + 1 >= Power(run.startRate)
    ensures var a, t := run.Refreshed(b), (b + 1 - Power(run.startRate)) % Power(run.startRate);
      a.k == t * width && width <= AUDIO && b - t >= 0 && a.words[..width] == run.passes[b - t].codecWords
  {
    RefreshesOnTime(run, width, b);
    RefreshesOnTime(run, width, b + 1);
    assert run.passes[b].Fits(run.server);
    WhichCopy(b + 1 - Power(run.startRate), Power(run.startRate));
    OnTimeStep(run.AudioAt(b), run.startRate, b, Last(run.passes, Power(run.startRate), b), run.passes[b].codecWords);
  }

  /** Slot q of the z-th block after the first copy is slot y of the stream. */
  lemma Indices(z: nat, count: nat, width: nat, q: nat)
    requires q < width && (count == 1 || count == 2 || count == 4 || count == 8)
    ensures var t, y := z % count, z * width + q;
      var x := t * width + q;
      && x >= 0 && y >= 0 && x / count < width
      && y / count / width == z / count && y / count % width == x / count
  {
    InPeriod(z % count, count, width, q);
    PeriodsApart(z, count, width);
    Split(z / count, width, count, z % count * width + q);
  }

  lemma InPeriod(t: nat, count: nat, width: nat, q: nat)
    requires t < count && q < width
    ensures 0 <= t * width + q < width * count
  {
    Distribute(t, 1, width);
    MulGrows(t + 1, count, width);
  }

  lemma Split(period: nat, width: nat, count: nat, x: nat)
    requires width > 0 && (count == 1 || count == 2 || count == 4 || count == 8) && x < width * count
    ensures x / count < width
    ensures var y := period * width * count + x;
      y / count / width == period && y / count % width == x / count
  {
    BelowLimit(x, width, count);
    TakeOut(period * width, count, x);
    Divides(period, width, x / count);
  }

  lemma PeriodsApart(z: nat, count: nat, width: nat)
    requires count > 0
    ensures z * width == z / count * width * count + z % count * width
  {
    assert z == z / count * count + z % count;
    Distribute(z / count * count, z % count, width);
    Reorder(z / count, count, width);
  }

  lemma TakeOut(base: nat, count: nat, x: nat)
    requires count == 1 || count == 2 || count == 4 || count == 8
    ensures (base * count + x) / count == base + x / count
  {
  }
}
