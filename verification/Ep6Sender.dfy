/** The EP6 sender thread: one block after another, into the same buffer. */
module Ep6Sender {
  import opened Bytes
  import opened Ep6

  /** The copy of the codec samples, and how much of it has been sent. */
  datatype Audio = Audio(words: seq<Word>, rateCounter: nat, k: nat)

  /** With the codec, every 2^rate-th block takes a fresh copy. */
  function Refresh(a: Audio, codec: bool, rate: nat, codecWords: seq<Word>): Audio
    requires rate < 4 && a.rateCounter > 0 && |codecWords| <= |a.words|
  {
    if !codec then a
    else if a.rateCounter == 1 then Audio(codecWords + a.words[|codecWords|..], Power(rate), 0)
    else a.(rateCounter := a.rateCounter - 1)
  }

  function Spend(a: Audio, codec: bool, slots: nat): Audio { if codec then a.(k := a.k + slots) else a }

  class Sender {
    const server: Server
    const codec: bool
    const buffer: array<Byte>
    var counter: nat
    var offset: nat
    var rateCounter: nat
    var k: nat
    var audio: seq<Word>

    ghost predicate Valid()
      reads this, buffer
    {
      && buffer.Length == 1032 * server.MaxDatagrams() && Marked(buffer[..], server.MaxDatagrams())
      && rateCounter > 0 && |audio| == AUDIO
    }

    ghost function State(): Audio
      reads this
    {
      Audio(audio, rateCounter, k)
    }

    constructor (s: Server, hasCodec: bool, rate: nat)
      requires rate < 4
      ensures Valid() && fresh(buffer) && server == s && codec == hasCodec && counter == 0 && offset == 0
      ensures State() == Audio(seq(AUDIO, _ => [0, 0, 0, 0]), Power(rate), 0)
    {
      server, codec, counter, offset := s, hasCodec, 0, 0;
      rateCounter, k, audio := Power(rate), 0, seq(AUDIO, _ => [0, 0, 0, 0]);
      buffer := new Byte[1032 * s.MaxDatagrams()](_ => 0);
      new;
      for i := 0 to s.MaxDatagrams()
        modifies buffer
        invariant Marked(buffer[..], i)
      {
        MarkAnother(buffer[..], i);
        Copy(buffer, i * 1032, [0xEF, 0xFE, 1, 6]);
      }
    }

    /** The start of a block: a fresh copy of the codec samples when it is due. */
    method RefreshAudio(rate: nat, codecWords: seq<Word>)
      requires rate < 4 && rateCounter > 0 && |codecWords| <= |audio|
      modifies `audio, `rateCounter, `k
      ensures State() == Refresh(old(State()), codec, rate, codecWords) && rateCounter > 0 && |audio| == old(|audio|)
    {
      if codec {
        rateCounter := rateCounter - 1;
        if rateCounter == 0 {
          audio := codecWords + audio[|codecWords|..];
          rateCounter := Power(rate);
          k := 0;
        }
      }
    }

    /** The sequence numbers of a block. */
    method WriteHeads(blk: Block)
      requires blk.Valid() && blk.M() <= server.MaxDatagrams() && blk.counter == counter
      requires buffer.Length == 1032 * server.MaxDatagrams() && Marked(buffer[..], server.MaxDatagrams())
      modifies buffer, `counter
      ensures Filled(buffer[..], blk, blk.M(), 0) && Marked(buffer[..], server.MaxDatagrams())
      ensures counter == (blk.counter + blk.M()) % 0x1_0000_0000
    {
      for i := 0 to blk.M()
        modifies buffer
        invariant Filled(buffer[..], blk, i, 0) && Marked(buffer[..], server.MaxDatagrams())
      {
        HeadAnother(buffer[..], blk, i, server.MaxDatagrams());
        Copy(buffer, i * 1032 + 4, U32(blk.counter + i));
      }
      counter := (counter + blk.M()) % 0x1_0000_0000;
    }

    method WriteFrames(blk: Block)
      requires blk.Valid() && blk.M() <= server.MaxDatagrams() && blk.offset == offset
      requires !codec ==> forall q | 0 <= q < |blk.tails| :: blk.tails[q] == Zero(2)
      requires buffer.Length == 1032 * server.MaxDatagrams() && Marked(buffer[..], server.MaxDatagrams())
      requires Filled(buffer[..], blk, blk.M(), 0)
      modifies buffer, `offset
      ensures Filled(buffer[..], blk, blk.M(), 2 * blk.M()) && Marked(buffer[..], server.MaxDatagrams())
      ensures offset == blk.Offset(2 * blk.M())
    {
      for i := 0 to 2 * blk.M()
        invariant Filled(buffer[..], blk, blk.M(), i) && Marked(buffer[..], server.MaxDatagrams())
        invariant offset == blk.Offset(i)
      {
        FrameAnother(buffer[..], blk, i, server.MaxDatagrams());
        WriteFrame(buffer, blk, i, codec);
        offset := NextOffset(offset);
      }
    }

    /**
     One pass of the thread's loop, up to the sending of the first M datagrams of the
     buffer.  The last precondition keeps the audio index inside the copy.
     */
    method SendBlock(r: Receivers, rate: nat, codecWords: seq<Word>, fifo: seq<Byte>, statuses: seq<Status>)
        returns (ghost blk: Block)
      requires Valid() && rate < 4
      requires Slots(r) > 0 && var m, n := Datagrams(server, r), Slots(r);
        && |codecWords| == 2 * m * n <= AUDIO && |fifo| == 2 * m * n * server.Stride()
        && |statuses| == 2 * m && forall i | 0 <= i < |statuses| :: statuses[i].Valid()
      requires codec ==> Refresh(State(), codec, rate, codecWords).k + |codecWords| <= AUDIO * Power(rate)
      modifies this, buffer
      ensures Valid() && blk.Valid()
      ensures var a := Refresh(old(State()), codec, rate, codecWords);
        && (codec ==> a.k + |codecWords| <= |a.words| * Power(rate))
        && blk == Block(server, r, fifo, statuses, Tails(codec, a.words, a.k, rate, |codecWords|), old(counter), old(offset))
        && State() == Spend(a, codec, |codecWords|)
      ensures Filled(buffer[..], blk, blk.M(), 2 * blk.M())
      ensures counter == (old(counter) + blk.M()) % 0x1_0000_0000 && offset == blk.Offset(2 * blk.M())
    {
      RefreshAudio(rate, codecWords);
      Sizes(server, r);
      var b := Block(server, r, fifo, statuses, Tails(codec, audio, k, rate, |codecWords|), counter, offset);
      WriteHeads(b);
      WriteFrames(b);
      if codec { k := k + |codecWords|; }
      blk := b;
    }
  }

  // ---------- Keeping the pieces apart ----------

  lemma MarkAnother(b: seq<Byte>, i: nat)
    requires Marked(b, i) && 1032 * (i + 1) <= |b|
    ensures Marked(Overwrite(b, 1032 * i, [0xEF, 0xFE, 1, 6]), i + 1)
  {
    var now := Overwrite(b, 1032 * i, [0xEF, 0xFE, 1, 6]);
    forall j | 0 <= j < i + 1 ensures MarkedAt(now, j) {
      if j < i {
        assert MarkedAt(b, j);
        KeptApart(b, 1032 * i, [0xEF, 0xFE, 1, 6], 1032 * j, 1032 * j + 4);
      }
    }
  }

  lemma HeadAnother(b: seq<Byte>, blk: Block, i: nat, count: nat)
    requires Filled(b, blk, i, 0) && i < blk.M() <= count && Marked(b, count)
    ensures var now := Overwrite(b, 1032 * i + 4, U32(blk.counter + i));
      Filled(now, blk, i + 1, 0) && Marked(now, count)
  {
    var now := Overwrite(b, 1032 * i + 4, U32(blk.counter + i));
    assert MarkedAt(b, i);
    NumberKept(b, i, U32(blk.counter + i));
    forall j | 0 <= j < i ensures HeadInPlace(now, blk, j) {
      assert HeadInPlace(b, blk, j);
    }
    forall j | 0 <= j < count ensures MarkedAt(now, j) {
      assert MarkedAt(b, j);
    }
  }

  /** A number written into a head completes it, and changes no earlier head and no mark. */
  lemma NumberKept(b: seq<Byte>, i: nat, bytes: seq<Byte>)
    requires MarkedAt(b, i) && |bytes| == 4 && 1032 * i + 8 <= |b|
    ensures var now := Overwrite(b, 1032 * i + 4, bytes);
      && now[1032 * i..1032 * i + 8] == [0xEF, 0xFE, 1, 6] + bytes
      && (forall j: nat | j < i :: now[1032 * j..1032 * j + 8] == b[1032 * j..1032 * j + 8])
      && (forall j: nat | 1032 * j + 4 <= |b| :: now[1032 * j..1032 * j + 4] == b[1032 * j..1032 * j + 4])
  {
    var now := Overwrite(b, 1032 * i + 4, bytes);
    KeptApart(b, 1032 * i + 4, bytes, 1032 * i, 1032 * i + 4);
    assert now[1032 * i..1032 * i + 8] == now[1032 * i..1032 * i + 4] + bytes;
  }

  lemma FrameAnother(b: seq<Byte>, blk: Block, i: nat, count: nat)
    requires Filled(b, blk, blk.M(), i) && i < 2 * blk.M() && blk.M() <= count && Marked(b, count)
    ensures FrameAt(i) + 512 <= 1032 * blk.M()
    ensures var now := Overwrite(b, FrameAt(i), blk.Frame(i));
      Filled(now, blk, blk.M(), i + 1) && Marked(now, count)
  {
    FrameFits(blk, i);
    MarksKept(b, i, blk.Frame(i), count);
    FilledKept(b, blk, i, blk.Frame(i));
    FrameWritten(b, blk, i);
  }

  lemma FrameFits(blk: Block, i: nat)
    requires blk.N() > 0 && i < 2 * blk.M()
    ensures FrameAt(i) + 512 <= 1032 * blk.M()
  {
    FramesFit(i, blk.M());
  }

  lemma FrameWritten(b: seq<Byte>, blk: Block, i: nat)
    requires blk.Valid() && i < 2 * blk.M() && FrameAt(i) + 512 <= |b|
    ensures FrameInPlace(Overwrite(b, FrameAt(i), blk.Frame(i)), blk, i)
  {
  }

  lemma FilledKept(b: seq<Byte>, blk: Block, i: nat, frame: seq<Byte>)
    requires Filled(b, blk, blk.M(), i) && i < 2 * blk.M() && |frame| == 512 && FrameAt(i) + 512 <= |b|
    ensures Filled(Overwrite(b, FrameAt(i), frame), blk, blk.M(), i)
  {
    var now := Overwrite(b, FrameAt(i), frame);
    forall j | 0 <= j < blk.M() ensures HeadInPlace(now, blk, j) {
      HeadKept(b, blk, i, j, frame);
    }
    forall t | 0 <= t < i ensures FrameInPlace(now, blk, t) {
      FrameKept(b, blk, i, t, frame);
    }
  }

  lemma MarksKept(b: seq<Byte>, i: nat, frame: seq<Byte>, count: nat)
    requires |frame| == 512 && FrameAt(i) + 512 <= |b| && Marked(b, count)
    ensures Marked(Overwrite(b, FrameAt(i), frame), count)
  {
    forall j | 0 <= j < count ensures MarkedAt(Overwrite(b, FrameAt(i), frame), j) {
      assert MarkedAt(b, j);
      HeadsKept(b, i, frame, j);
    }
  }

  lemma HeadKept(b: seq<Byte>, blk: Block, i: nat, j: nat, frame: seq<Byte>)
    requires |frame| == 512 && FrameAt(i) + 512 <= |b| && HeadInPlace(b, blk, j)
    ensures HeadInPlace(Overwrite(b, FrameAt(i), frame), blk, j)
  {
    HeadsKept(b, i, frame, j);
  }

  lemma FrameKept(b: seq<Byte>, blk: Block, i: nat, t: nat, frame: seq<Byte>)
    requires blk.Valid() && t < i < 2 * blk.M() && |frame| == 512 && FrameAt(i) + 512 <= |b| && FrameInPlace(b, blk, t)
    ensures FrameInPlace(Overwrite(b, FrameAt(i), frame), blk, t)
  {
    FramesOrdered(t, i);
    KeptApart(b, FrameAt(i), frame, FrameAt(t), FrameAt(t) + 512);
  }

  lemma HeadsKept(b: seq<Byte>, i: nat, frame: seq<Byte>, j: nat)
    requires |frame| == 512 && FrameAt(i) + 512 <= |b|
    ensures var now := Overwrite(b, FrameAt(i), frame);
      && (1032 * j + 4 <= |b| ==> now[1032 * j..1032 * j + 4] == b[1032 * j..1032 * j + 4])
      && (1032 * j + 8 <= |b| ==> now[1032 * j..1032 * j + 8] == b[1032 * j..1032 * j + 8])
  {
    HeadsApart(i, j);
  }

  /** No frame reaches into the head of a datagram. */
  lemma HeadsApart(i: nat, j: nat)
    ensures 1032 * j + 8 <= FrameAt(i) || FrameAt(i) + 512 <= 1032 * j
  {
    FramesTile(i / 2);
  }
}
