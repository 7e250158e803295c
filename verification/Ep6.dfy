/**
 The EP6 packetizer of the two HPSDR servers: IQ samples from the FIFO, laid out in place
 in a block of datagrams.  A datagram has 1032 bytes: an 8-byte head and two frames of
 512 bytes, each an 8-byte status row and as many sample slots as fit.
 */
module Ep6 {
  import opened Arithmetic
  import opened Bytes

  /** The 8-channel receiver and the transceiver run the same loop with different sizes. */
  datatype Server = Receiver | Transceiver {
    /** Slots per block, at most, for each of the two frames of a datagram. */
    function Budget(): nat { if Receiver? then 128 else 256 }

    /** Bytes that the FIFO delivers per slot. */
    function Stride(): nat { if Receiver? then 48 else 32 }

    function MaxDatagrams(): nat { if Receiver? then 12 else 25 }
  }

  type Receivers = r: nat | 1 <= r <= 8 witness 1

  function SlotSize(r: Receivers): nat { r * 6 + 2 }

  /** n in the program. */
  function Slots(r: Receivers): nat { 504 / SlotSize(r) }

  /** m in the program. */
  function Datagrams(s: Server, r: Receivers): nat
    requires Slots(r) > 0
  {
    s.Budget() / Slots(r)
  }

  lemma SlotsTable(r: Receivers)
    ensures Slots(r) == [63, 36, 25, 19, 15, 13, 11, 10][r - 1]
  {
  }

  /** Every block fits the program's fixed-size arrays. */
  lemma Sizes(s: Server, r: Receivers)
    ensures Slots(r) >= 10 && Slots(r) * SlotSize(r) <= 504
    ensures 1 <= Datagrams(s, r) <= s.MaxDatagrams()
    ensures Datagrams(s, r) ==
      if s.Receiver? then [2, 3, 5, 6, 8, 9, 11, 12][r - 1] else [4, 7, 10, 13, 17, 19, 23, 25][r - 1]
    ensures 2 * Datagrams(s, r) * Slots(r) <= 2 * s.Budget()
  {
    SlotsTable(r);
    DatagramsBound(s, r);
  }

  lemma DatagramsBound(s: Server, r: Receivers)
    requires Slots(r) >= 10
    ensures Datagrams(s, r) <= s.MaxDatagrams() && Datagrams(s, r) * Slots(r) <= s.Budget()
  {
  }

  // ---------- Slots ----------

  /** The samples of a slot: what the program's one or two memcpy calls leave in a zeroed slot. */
  function Selected(s: Server, r: Receivers, raw: seq<Byte>): (x: seq<Byte>)
    requires |raw| == s.Stride()
    ensures |x| == 6 * r
  {
    var size := SlotSize(r);
    if s.Receiver? then raw[..size - 2]
    else if size <= 14 then raw[..size - 2]
    else if size <= 26 then raw[..12] + raw[18..18 + (size - 14)]
    else raw[..12] + raw[18..30] + Zero(size - 26)
  }

  /** The FIFO channel that becomes the c-th receiver; the transceiver skips the third, and has no fifth. */
  function Channel(s: Server, c: nat): nat { if s.Receiver? || c < 2 then c else c + 1 }

  lemma ChannelsSelected(s: Server, r: Receivers, raw: seq<Byte>, c: nat)
    requires |raw| == (if s.Receiver? then 48 else 32) && c < r
    ensures var x := Selected(s, r, raw)[6 * c..6 * c + 6];
      if s.Receiver? || c < 4 then
        6 * Channel(s, c) + 6 <= |raw| && x == raw[6 * Channel(s, c)..6 * Channel(s, c) + 6]
      else x == Zero(6)
  {
  }

  function SlotBytes(s: Server, r: Receivers, raw: seq<Byte>, tail: seq<Byte>): (x: seq<Byte>)
    requires |raw| == s.Stride() && |tail| == 2
    ensures |x| == SlotSize(r)
  {
    Selected(s, r, raw) + tail
  }

  // ---------- Frames ----------

  /** What a frame reports: PTT and digital inputs, and the readings of four ADC channels, high byte first. */
  datatype Status = Status(flags: Byte, adc24: seq<Byte>, adc16: seq<Byte>, adc17: seq<Byte>, adc25: seq<Byte>) {
    predicate Valid() { flags < 8 && |adc24| == |adc16| == |adc17| == |adc25| == 2 }
  }

  /**
   The status row at header_offset.  The three low bits of C0 are clear in the program's
   table, so OR-ing the flags in is addition.  The receiver reports no status.
   */
  function Row(s: Server, offset: nat, status: Status): (x: seq<Byte>)
    requires status.Valid()
    ensures |x| == 8
  {
    var st := if s.Receiver? then Status(0, Zero(2), Zero(2), Zero(2), Zero(2)) else status;
    [127, 127, 127] +
    if offset == 0 then [st.flags, 0, 33, 17, if s.Receiver? then 25 else 21]
    else if offset == 8 then [8 + st.flags, 0, 0] + st.adc24
    else if offset == 16 then [16 + st.flags] + st.adc16 + st.adc17
    else if offset == 24 then [24 + st.flags] + st.adc25 + [0, 0]
    else [32 + st.flags, 66, 66, 66, 66]
  }

  function NextOffset(offset: nat): nat { if offset >= 32 then 0 else offset + 8 }

  /** header_offset after i frames. */
  function OffsetAfter(offset: nat, i: nat): nat { if i == 0 then offset else NextOffset(OffsetAfter(offset, i - 1)) }

  /** What one block is made of. */
  datatype Block = Block(server: Server, receivers: Receivers, fifo: seq<Byte>, statuses: seq<Status>,
                         tails: seq<seq<Byte>>, counter: nat, offset: nat)
  {
    function N(): nat { Slots(receivers) }

    function M(): nat
      requires N() > 0
    {
      Datagrams(server, receivers)
    }

    predicate Valid() {
      && N() > 0
      && |fifo| == 2 * M() * N() * server.Stride()
      && |statuses| == 2 * M() && (forall i | 0 <= i < |statuses| :: statuses[i].Valid())
      && |tails| == 2 * M() * N() && forall q | 0 <= q < |tails| :: |tails[q]| == 2
    }

    /** The q-th slot that the FIFO delivers. */
    function Raw(q: nat): (x: seq<Byte>)
      requires Valid() && q < 2 * M() * N()
      ensures |x| == server.Stride()
    {
      SlotInFifo(q);
      fifo[q * server.Stride()..(q + 1) * server.Stride()]
    }

    lemma SlotInFifo(q: nat)
      requires Valid() && q < 2 * M() * N()
      ensures (q + 1) * server.Stride() <= |fifo|
    {
      MulGrows(q + 1, 2 * M() * N(), server.Stride());
    }

    function Slot(q: nat): (x: seq<Byte>)
      requires Valid() && q < 2 * M() * N()
      ensures |x| == SlotSize(receivers)
    {
      SlotBytes(server, receivers, Raw(q), tails[q])
    }

    /** header_offset when frame i is written. */
    function Offset(i: nat): nat { OffsetAfter(offset, i) }

    lemma FrameInBlock(i: nat, j: nat)
      requires N() > 0 && i < 2 * M() && j <= N()
      ensures 0 <= i * N() + j <= 2 * M() * N()
    {
      MulGrows(i + 1, 2 * M(), N());
    }

    /** All slots of the block. */
    function SlotList(): (all: seq<seq<Byte>>)
      requires Valid()
      ensures |all| == 2 * M() * N() && forall q | 0 <= q < |all| :: |all[q]| == SlotSize(receivers) && all[q] == Slot(q)
    {
      seq(2 * M() * N(), q requires 0 <= q < 2 * M() * N() => Slot(q))
    }

    /** The first j slots of frame i. */
    function FrameSlots(i: nat, j: nat): (x: seq<Byte>)
      requires Valid() && i < 2 * M() && j <= N()
      ensures |x| == j * SlotSize(receivers)
    {
      FrameInBlock(i, j);
      FrameInBlock(i, 0);
      PiecesLength(SlotList(), i * N(), j, SlotSize(receivers));
      Pieces(SlotList(), i * N(), j)
    }

    lemma SlotsInFrame(j: nat)
      requires j <= N()
      ensures j * SlotSize(receivers) <= N() * SlotSize(receivers) <= 504
    {
      Sizes(server, receivers);
      MulGrows(j, N(), SlotSize(receivers));
    }

    /** Frame i while its first j slots have been written. */
    function PartialFrame(i: nat, j: nat): (x: seq<Byte>)
      requires Valid() && i < 2 * M() && j <= N()
      ensures |x| == 512
    {
      SlotsInFrame(j);
      Row(server, Offset(i), statuses[i]) + FrameSlots(i, j) + Zero(504 - j * SlotSize(receivers))
    }

    function Frame(i: nat): (x: seq<Byte>)
      requires Valid() && i < 2 * M()
      ensures |x| == 512
    {
      PartialFrame(i, N())
    }

    function Head(j: nat): (x: seq<Byte>)
      ensures |x| == 8
    {
      [0xEF, 0xFE, 1, 6] + U32(counter + j)
    }
  }

  /** Where frame i starts, as the program computes it. */
  function FrameAt(i: nat): nat { i * 516 - i % 2 * 4 + 8 }

  /** Two frames and a head make up each datagram: no gap, no overlap. */
  lemma FramesTile(j: nat)
    ensures FrameAt(2 * j) == 1032 * j + 8
    ensures FrameAt(2 * j + 1) == FrameAt(2 * j) + 512
    ensures FrameAt(2 * j + 1) + 512 == 1032 * (j + 1)
  {
  }

  lemma FramesFit(i: nat, m: nat)
    requires i < 2 * m
    ensures FrameAt(i) + 512 <= 1032 * m
  {
    FramesTile(i / 2);
  }

  lemma FramesOrdered(i: nat, k: nat)
    requires i < k
    ensures FrameAt(i) + 512 <= FrameAt(k)
  {
    assert FrameAt(i) + 512 <= FrameAt(i + 1);
    if i + 1 < k { assert 516 * (i + 1) - 4 + 8 <= 516 * k - 4 + 8; }
  }

  // ---------- The program ----------

  /** A word of the audio codec: four bytes, of which the first two are sent. */
  type Word = w: seq<Byte> | |w| == 4 witness [0, 0, 0, 0]

  const AUDIO := 512

  function Power(rate: nat): (r: nat)
    requires rate < 4
    ensures r == 1 || r == 2 || r == 4 || r == 8
  {
    if rate == 0 then 1 else if rate == 1 then 2 else if rate == 2 then 4 else 8
  }

  /** The program shifts: `1 << rate` here, and `k >> rate` where the model divides by it. */
  lemma PowerIs(rate: nat)
    requires rate < 4
    ensures Power(rate) == TwoTo(rate)
    ensures forall k: nat :: k / Power(rate) == ShiftRight(k, rate)
  {
    assert TwoTo(1) == 2 && TwoTo(2) == 4 && TwoTo(3) == 8;
    forall k: nat ensures k / Power(rate) == ShiftRight(k, rate) { ShiftDivides(k, rate); }
  }

  /** The two bytes that end a slot: half a word of audio with the codec, zero without. */
  function TailAt(codec: bool, audio: seq<Word>, k: nat, rate: nat): (r: seq<Byte>)
    requires rate < 4 && (codec ==> k / Power(rate) < |audio|)
    ensures |r| == 2
  {
    if codec then audio[k / Power(rate)][..2] else Zero(2)
  }

  /** The tails of a block of `count` slots, the first of which is the k-th since the last refresh. */
  function Tails(codec: bool, audio: seq<Word>, k: nat, rate: nat, count: nat): (r: seq<seq<Byte>>)
    requires rate < 4 && (codec ==> k + count <= |audio| * Power(rate))
    ensures |r| == count && forall q | 0 <= q < count :: |r[q]| == 2
    ensures forall q | 0 <= q < count :: (codec ==> (k + q) / Power(rate) < |audio|) && r[q] == TailAt(codec, audio, k + q, rate)
  {
    if count == 0 then []
    else
      BelowLimit(k + count - 1, |audio|, Power(rate));
      Tails(codec, audio, k, rate, count - 1) + [TailAt(codec, audio, k + count - 1, rate)]
  }

  lemma BelowLimit(x: nat, n: nat, d: nat)
    requires d == 1 || d == 2 || d == 4 || d == 8
    ensures x < n * d <==> x / d < n
  {
  }

  /** Heads of the first `count` datagrams, and the first `frames` frames, are in the buffer. */
  ghost predicate Filled(b: seq<Byte>, blk: Block, count: nat, frames: nat) {
    && blk.Valid() && count <= blk.M() && frames <= 2 * blk.M() && 1032 * blk.M() <= |b|
    && (forall j | 0 <= j < count :: HeadInPlace(b, blk, j))
    && forall i | 0 <= i < frames :: FrameInPlace(b, blk, i)
  }

  ghost predicate HeadInPlace(b: seq<Byte>, blk: Block, j: nat) {
    1032 * j + 8 <= |b| && b[1032 * j..1032 * j + 8] == blk.Head(j)
  }

  ghost predicate FrameInPlace(b: seq<Byte>, blk: Block, i: nat) {
    && blk.Valid() && i < 2 * blk.M() && FrameAt(i) + 512 <= |b|
    && b[FrameAt(i)..FrameAt(i) + 512] == blk.Frame(i)
  }

  /** The constant first four bytes of each datagram, written once when the thread starts. */
  ghost predicate Marked(b: seq<Byte>, count: nat) {
    1032 * count <= |b| && forall j | 0 <= j < count :: MarkedAt(b, j)
  }

  ghost predicate MarkedAt(b: seq<Byte>, j: nat) {
    1032 * j + 4 <= |b| && b[1032 * j..1032 * j + 4] == [0xEF, 0xFE, 1, 6]
  }

  lemma KeptApart(b: seq<Byte>, at: nat, bytes: seq<Byte>, i: nat, j: nat)
    requires at + |bytes| <= |b| && i <= j <= |b| && (j <= at || at + |bytes| <= i)
    ensures Overwrite(b, at, bytes)[i..j] == b[i..j]
  {
  }

  /** The memcpy calls for the samples of a slot. */
  method WriteSamples(buffer: array<Byte>, at: nat, s: Server, r: Receivers, raw: seq<Byte>)
    requires |raw| == s.Stride() && at + SlotSize(r) <= buffer.Length
    modifies buffer
    ensures buffer[..] == Overwrite(old(buffer[..]), at, Copies(s, r, raw))
  {
    var size := SlotSize(r);
    if s.Receiver? {
      Copy(buffer, at, raw[..size - 2]);
      return;
    }
    Copy(buffer, at, raw[..if size > 14 then 12 else size - 2]);
    if size > 14 {
      var count := if size > 26 then 12 else size - 14;
      Copy(buffer, at + 12, raw[18..18 + count]);
      OverwriteTwice(old(buffer[..]), at, raw[..12], raw[18..18 + count]);
    }
  }

  /** A slot, written where the frame is still zero. */
  method WriteSlot(buffer: array<Byte>, at: nat, s: Server, r: Receivers, raw: seq<Byte>, codec: bool, tail: seq<Byte>)
    requires |raw| == s.Stride() && |tail| == 2 && (!codec ==> tail == Zero(2))
    requires at + SlotSize(r) <= buffer.Length && buffer[..][at..at + SlotSize(r)] == Zero(SlotSize(r))
    modifies buffer
    ensures buffer[..] == Overwrite(old(buffer[..]), at, SlotBytes(s, r, raw, tail))
  {
    SlotLeft(buffer[..], at, s, r, raw, tail);
    WriteParts(buffer, at, s, r, raw, codec, tail);
  }

  method WriteParts(buffer: array<Byte>, at: nat, s: Server, r: Receivers, raw: seq<Byte>, codec: bool, tail: seq<Byte>)
    requires |raw| == s.Stride() && |tail| == 2 && at + SlotSize(r) <= buffer.Length
    modifies buffer
    ensures codec ==>
      buffer[..] == Overwrite(Overwrite(old(buffer[..]), at, Copies(s, r, raw)), at + SlotSize(r) - 2, tail)
    ensures !codec ==> buffer[..] == Overwrite(old(buffer[..]), at, Copies(s, r, raw))
  {
    WriteSamples(buffer, at, s, r, raw);
    if codec { Copy(buffer, at + SlotSize(r) - 2, tail); }
  }

  /** What the calls for the samples leave is the whole selection, because the slot was zero. */
  function Copies(s: Server, r: Receivers, raw: seq<Byte>): (x: seq<Byte>)
    requires |raw| == s.Stride()
    ensures |x| <= 6 * r
  {
    var size := SlotSize(r);
    if s.Receiver? || size <= 14 then raw[..size - 2]
    else raw[..12] + raw[18..18 + if size > 26 then 12 else size - 14]
  }

  lemma SelectedLeft(was: seq<Byte>, at: nat, s: Server, r: Receivers, raw: seq<Byte>)
    requires |raw| == s.Stride() && at + SlotSize(r) <= |was| && was[at..at + SlotSize(r)] == Zero(SlotSize(r))
    ensures Overwrite(was, at, Copies(s, r, raw)) == Overwrite(was, at, Selected(s, r, raw))
  {
    var c := Copies(s, r, raw);
    assert Selected(s, r, raw) == c + Zero(6 * r - |c|);
    ZeroPart(was, at, SlotSize(r), |c|, 6 * r - |c|);
    NothingChanged(was, at, c, Zero(6 * r - |c|));
  }

  lemma ZeroPart(was: seq<Byte>, at: nat, size: nat, i: nat, n: nat)
    requires at + size <= |was| && was[at..at + size] == Zero(size) && i + n <= size
    ensures was[at + i..at + i + n] == Zero(n)
  {
    forall x | at + i <= x < at + i + n ensures was[x] == 0 {
      assert was[x] == was[at..at + size][x - at];
    }
  }

  lemma NothingChanged(was: seq<Byte>, at: nat, c: seq<Byte>, rest: seq<Byte>)
    requires at + |c| + |rest| <= |was| && was[at + |c|..at + |c| + |rest|] == rest
    ensures Overwrite(was, at, c) == Overwrite(was, at, c + rest)
  {
    assert was[at + |c|..] == rest + was[at + |c| + |rest|..];
  }

  lemma TailLeft(was: seq<Byte>, at: nat, s: Server, r: Receivers, raw: seq<Byte>, tail: seq<Byte>)
    requires |raw| == s.Stride() && |tail| == 2
    requires at + SlotSize(r) <= |was| && was[at..at + SlotSize(r)] == Zero(SlotSize(r))
    ensures Overwrite(Overwrite(was, at, Selected(s, r, raw)), at + 6 * r, tail) == Overwrite(was, at, SlotBytes(s, r, raw, tail))
    ensures tail == Zero(2) ==>
      Overwrite(was, at, Selected(s, r, raw)) == Overwrite(was, at, SlotBytes(s, r, raw, tail))
  {
    OverwriteTwice(was, at, Selected(s, r, raw), tail);
    ZeroPart(was, at, SlotSize(r), 6 * r, 2);
    if tail == Zero(2) { NothingChanged(was, at, Selected(s, r, raw), tail); }
  }

  lemma SlotLeft(was: seq<Byte>, at: nat, s: Server, r: Receivers, raw: seq<Byte>, tail: seq<Byte>)
    requires |raw| == s.Stride() && |tail| == 2
    requires at + SlotSize(r) <= |was| && was[at..at + SlotSize(r)] == Zero(SlotSize(r))
    ensures var left := Overwrite(was, at, Copies(s, r, raw));
      && Overwrite(left, at + SlotSize(r) - 2, tail) == Overwrite(was, at, SlotBytes(s, r, raw, tail))
      && (tail == Zero(2) ==> left == Overwrite(was, at, SlotBytes(s, r, raw, tail)))
  {
    SelectedLeft(was, at, s, r, raw);
    TailLeft(was, at, s, r, raw, tail);
  }

  /** One more slot turns a partial frame into the next one. */
  lemma PartialFrameStep(b: seq<Byte>, blk: Block, at: nat, i: nat, j: nat)
    requires blk.Valid() && i < 2 * blk.M() && j < blk.N() && at + 512 <= |b|
    ensures i * blk.N() + j < 2 * blk.M() * blk.N()
    ensures var size := SlotSize(blk.receivers);
      var p := at + 8 + j * size;
      var now := Overwrite(b, at, blk.PartialFrame(i, j));
      && p + size <= at + 512
      && now[p..p + size] == Zero(size)
      && Overwrite(now, p, blk.Slot(i * blk.N() + j)) == Overwrite(b, at, blk.PartialFrame(i, j + 1))
  {
    var front, slot, left := PartialFrameNext(blk, i, j);
    ZeroFilled(b, at, front, slot, left);
  }

  lemma PartialFrameNext(blk: Block, i: nat, j: nat) returns (front: seq<Byte>, slot: seq<Byte>, left: nat)
    requires blk.Valid() && i < 2 * blk.M() && j < blk.N()
    ensures i * blk.N() + j < 2 * blk.M() * blk.N() && slot == blk.Slot(i * blk.N() + j)
    ensures |front| == 8 + j * SlotSize(blk.receivers) && |front| + left == 512 && |slot| <= left
    ensures blk.PartialFrame(i, j) == front + Zero(left)
    ensures blk.PartialFrame(i, j + 1) == front + slot + Zero(left - |slot|)
  {
    FrameSlotsNext(blk, i, j);
    blk.SlotsInFrame(j + 1);
    var row, slots := Row(blk.server, blk.Offset(i), blk.statuses[i]), blk.FrameSlots(i, j);
    slot := blk.Slot(i * blk.N() + j);
    front, left := row + slots, 504 - |slots|;
    RowInFront(row, slots, slot);
  }

  lemma FrameSlotsNext(blk: Block, i: nat, j: nat)
    requires blk.Valid() && i < 2 * blk.M() && j < blk.N()
    ensures 0 <= i * blk.N() + j < 2 * blk.M() * blk.N()
    ensures blk.FrameSlots(i, j + 1) == blk.FrameSlots(i, j) + blk.Slot(i * blk.N() + j)
  {
    blk.FrameInBlock(i, 0);
    blk.FrameInBlock(i, j + 1);
    PiecesNext(blk.SlotList(), i * blk.N(), j);
  }

  lemma RowInFront(row: seq<Byte>, slots: seq<Byte>, slot: seq<Byte>)
    ensures row + (slots + slot) == row + slots + slot
  {
  }

  lemma ZeroFilled(b: seq<Byte>, at: nat, front: seq<Byte>, x: seq<Byte>, n: nat)
    requires |x| <= n && at + |front| + n <= |b|
    ensures var now := Overwrite(b, at, front + Zero(n));
      && now[at + |front|..at + |front| + |x|] == Zero(|x|)
      && Overwrite(now, at + |front|, x) == Overwrite(b, at, front + x + Zero(n - |x|))
  {
  }

  /** The status row, and the rest of the frame zeroed. */
  method ClearFrame(buffer: array<Byte>, at: nat, row: seq<Byte>)
    requires |row| == 8 && at + 512 <= buffer.Length
    modifies buffer
    ensures buffer[..] == Overwrite(old(buffer[..]), at, row + Zero(504))
  {
    Copy(buffer, at, row);
    Copy(buffer, at + 8, Zero(504));
    OverwriteTwice(old(buffer[..]), at, row, Zero(504));
  }

  lemma EmptyFrame(blk: Block, i: nat)
    requires blk.Valid() && i < 2 * blk.M()
    ensures blk.PartialFrame(i, 0) == Row(blk.server, blk.Offset(i), blk.statuses[i]) + Zero(504)
  {
  }

  method WriteSlots(buffer: array<Byte>, blk: Block, i: nat, codec: bool, at: nat, ghost was: seq<Byte>)
    requires blk.Valid() && i < 2 * blk.M() && at + 512 <= buffer.Length == |was|
    requires !codec ==> forall q | 0 <= q < |blk.tails| :: blk.tails[q] == Zero(2)
    requires buffer[..] == Overwrite(was, at, blk.PartialFrame(i, 0))
    modifies buffer
    ensures buffer[..] == Overwrite(was, at, blk.Frame(i))
  {
    var pointer := at + 8;
    for j := 0 to blk.N()
      invariant pointer == at + 8 + j * SlotSize(blk.receivers)
      invariant buffer[..] == Overwrite(was, at, blk.PartialFrame(i, j))
    {
      pointer := WriteNextSlot(buffer, blk, i, j, codec, at, pointer, was);
    }
  }

  method WriteNextSlot(buffer: array<Byte>, blk: Block, i: nat, j: nat, codec: bool, ghost at: nat, pointer: nat, ghost was: seq<Byte>)
      returns (next: nat)
    requires blk.Valid() && i < 2 * blk.M() && j < blk.N() && at + 512 <= buffer.Length == |was|
    requires !codec ==> forall q | 0 <= q < |blk.tails| :: blk.tails[q] == Zero(2)
    requires pointer == at + 8 + j * SlotSize(blk.receivers)
    requires buffer[..] == Overwrite(was, at, blk.PartialFrame(i, j))
    modifies buffer
    ensures next == at + 8 + (j + 1) * SlotSize(blk.receivers)
    ensures buffer[..] == Overwrite(was, at, blk.PartialFrame(i, j + 1))
  {
    PartialFrameStep(was, blk, at, i, j);
    WriteBlockSlot(buffer, blk, i * blk.N() + j, codec, pointer);
    next := pointer + SlotSize(blk.receivers);
  }

  method WriteBlockSlot(buffer: array<Byte>, blk: Block, q: nat, codec: bool, pointer: nat)
    requires blk.Valid() && q < 2 * blk.M() * blk.N() && (!codec ==> blk.tails[q] == Zero(2))
    requires pointer + SlotSize(blk.receivers) <= buffer.Length
    requires buffer[..][pointer..pointer + SlotSize(blk.receivers)] == Zero(SlotSize(blk.receivers))
    modifies buffer
    ensures buffer[..] == Overwrite(old(buffer[..]), pointer, blk.Slot(q))
  {
    WriteSlot(buffer, pointer, blk.server, blk.receivers, blk.Raw(q), codec, blk.tails[q]);
  }

  /** Frame i, written in place. */
  method WriteFrame(buffer: array<Byte>, blk: Block, i: nat, codec: bool)
    requires blk.Valid() && i < 2 * blk.M() && FrameAt(i) + 512 <= buffer.Length
    requires !codec ==> forall q | 0 <= q < |blk.tails| :: blk.tails[q] == Zero(2)
    modifies buffer
    ensures buffer[..] == Overwrite(old(buffer[..]), FrameAt(i), blk.Frame(i))
  {
    EmptyFrame(blk, i);
    ClearFrame(buffer, FrameAt(i), Row(blk.server, blk.Offset(i), blk.statuses[i]));
    WriteSlots(buffer, blk, i, codec, FrameAt(i), old(buffer[..]));
  }
}
