/** The write path of the Zynq device configuration driver: a bitstream arrives in chunks. */
module Devcfg {

  type Byte = bv8

  /** What happens to one call of write.  The first four stop it before it touches the driver's state. */
  datatype Outcome =
    | ClockFailed | Interrupted | NoMemory | BadAddress
    | TimedOut | TransferFailed
    | Sent
  {
    predicate Early() { ClockFailed? || Interrupted? || NoMemory? || BadAddress? }
  }

  datatype Status = Written(count: nat) | Error(cause: Outcome)

  /** The driver's state, with every byte it ever handed to the DMA engine. */
  datatype Driver = Driver(residue: seq<Byte>, swap: bool, pos: nat, issued: seq<Byte>)

  const OPENED := Driver([], false, 0, [])

  predicate NormalSync(k: seq<Byte>, i: nat)
    requires i + 4 <= |k|
  {
    k[i] == 0x66 && k[i + 1] == 0x55 && k[i + 2] == 0x99 && k[i + 3] == 0xAA
  }

  predicate SwappedSync(k: seq<Byte>, i: nat)
    requires i + 4 <= |k|
  {
    k[i] == 0xAA && k[i + 1] == 0x99 && k[i + 2] == 0x55 && k[i + 3] == 0x66
  }

  predicate SyncAt(k: seq<Byte>, i: nat)
    requires i + 4 <= |k|
  {
    NormalSync(k, i) || SwappedSync(k, i)
  }

  /** The first sync word at or after i that starts before the last four bytes; |k| - 4 if none. */
  function FindFrom(k: seq<Byte>, i: nat): (r: nat)
    requires i + 4 <= |k|
    ensures i <= r <= |k| - 4
    ensures forall j | i <= j < r :: !SyncAt(k, j)
    ensures r < |k| - 4 ==> SyncAt(k, r)
    decreases |k| - i
  {
    if i + 4 == |k| || SyncAt(k, i) then i else FindFrom(k, i + 1)
  }

  /** How much of a first block is header, and whether the words after it are swapped. */
  datatype Header = Header(length: nat, swap: bool)

  function HeaderOf(k: seq<Byte>): (h: Header)
    ensures h.length <= |k|
  {
    if |k| <= 4 then Header(0, false)
    else
      var i := FindFrom(k, 0);
      if i == |k| - 4 then Header(0, false) else Header(i, SwappedSync(k, i))
  }

  predicate HasHeader(k: seq<Byte>) { |k| > 4 && FindFrom(k, 0) < |k| - 4 }

  /** Byte order reversed in every whole 32-bit word. */
  function Swab(s: seq<Byte>): (r: seq<Byte>)
    ensures |r| == |s|
  {
    if |s| < 4 then s else [s[3], s[2], s[1], s[0]] + Swab(s[4..])
  }

  function Ordered(swap: bool, s: seq<Byte>): (r: seq<Byte>)
    ensures |r| == |s|
  {
    if swap then Swab(s) else s
  }

  /** The part of k that makes whole words. */
  function Whole(k: seq<Byte>): (r: seq<Byte>)
    ensures |r| % 4 == 0 && |r| <= |k|
  {
    k[..|k| - |k| % 4]
  }

  function Stragglers(k: seq<Byte>): (r: seq<Byte>)
    ensures |r| < 4
  {
    k[|k| - |k| % 4..]
  }

  /** Only a block written at position 0 can have a header. */
  function EffectiveHeader(s: Driver, k: seq<Byte>): (h: Header)
    ensures h.length <= |k|
  {
    if s.pos == 0 && HasHeader(k) then HeaderOf(k) else Header(0, s.swap)
  }

  /** The state after a write of buf that reaches the DMA engine; `ok` if the transfer succeeds. */
  function Transfer(s: Driver, buf: seq<Byte>, ok: bool): Driver {
    var k := s.residue + buf;
    var h := EffectiveHeader(s, k);
    var data := k[h.length..];
    Driver(Stragglers(data), h.swap, if ok then s.pos + |buf| else s.pos,
           s.issued + Ordered(h.swap, Whole(data)))
  }

  function AfterWrite(s: Driver, buf: seq<Byte>, outcome: Outcome): Driver {
    if outcome.Early() then s else Transfer(s, buf, outcome.Sent?)
  }

  /** Successive writes, all successful. */
  function Run(s: Driver, chunks: seq<seq<Byte>>): Driver {
    if chunks == [] then s
    else AfterWrite(Run(s, chunks[..|chunks| - 1]), chunks[|chunks| - 1], Sent)
  }

  lemma {:induction false} SwabJoins(s: seq<Byte>, t: seq<Byte>, words: nat)
    requires |s| == 4 * words
    ensures Swab(s + t) == Swab(s) + Swab(t)
  {
    if words == 0 {
      assert s + t == t;
    } else {
      SwabJoins(s[4..], t, words - 1);
      SwabStep(s[..4], s[4..], t);
      assert s == s[..4] + s[4..];
    }
  }

  lemma SwabStep(word: seq<Byte>, s: seq<Byte>, t: seq<Byte>)
    requires |word| == 4 && Swab(s + t) == Swab(s) + Swab(t)
    ensures Swab(word + s + t) == Swab(word + s) + Swab(t)
  {
    SwabHead(word, s);
    SwabHead(word, s + t);
    Associate(word, s, t);
    Associate(Swab(word), Swab(s), Swab(t));
  }

  lemma Associate(a: seq<Byte>, b: seq<Byte>, c: seq<Byte>)
    ensures a + b + c == a + (b + c)
  {
  }

  lemma SwabHead(word: seq<Byte>, rest: seq<Byte>)
    requires |word| == 4
    ensures Swab(word + rest) == Swab(word) + Swab(rest)
  {
    SwabWord(word);
    assert (word + rest)[4..] == rest;
  }

  lemma SwabWord(s: seq<Byte>)
    requires |s| == 4
    ensures Swab(s) == [s[3], s[2], s[1], s[0]]
  {
    assert s[4..] == [];
  }

  class XDevCfg {
    const residueBuf: array<Byte>
    var residueLen: nat
    var endianSwap: bool
    var ppos: nat
    var issued: seq<Byte>

    ghost predicate Valid()
      reads this, residueBuf
    {
      residueBuf.Length == 3 && residueLen <= 3
    }

    ghost function State(): Driver
      reads this, residueBuf
      requires Valid()
    {
      Driver(residueBuf[..residueLen], endianSwap, ppos, issued)
    }

    constructor Open()
      ensures Valid() && fresh(residueBuf) && State() == OPENED
    {
      residueBuf := new Byte[3];
      residueLen, endianSwap, ppos, issued := 0, false, 0, [];
    }

    method Write(buf: seq<Byte>, outcome: Outcome) returns (status: Status)
      requires Valid()
      modifies this, residueBuf
      ensures Valid() && State() == AfterWrite(old(State()), buf, outcome)
      ensures status == if outcome.Sent? then Written(|buf|) else Error(outcome)
    {
      if outcome.Early() { return Error(outcome); }
      var kbuf := Collect(buf);
      ghost var k := kbuf[..];
      var count := Strip(kbuf);
      ghost var data := k[EffectiveHeader(old(State()), k).length..];
      assert kbuf[..count] == data;
      Finish(kbuf, count);
      if !outcome.Sent? { return Error(outcome); }
      ppos := ppos + |buf|;
      return Written(|buf|);
    }

    /** The stragglers of the last write, then the user's bytes. */
    method Collect(buf: seq<Byte>) returns (kbuf: array<Byte>)
      requires Valid()
      ensures fresh(kbuf) && kbuf[..] == State().residue + buf
    {
      kbuf := new Byte[residueLen + |buf|];
      forall j | 0 <= j < kbuf.Length { kbuf[j] := if j < residueLen then residueBuf[j] else buf[j - residueLen]; }
    }

    /** Removes the header of a first block and notes its byte order. */
    method Strip(kbuf: array<Byte>) returns (count: nat)
      requires Valid() && kbuf != residueBuf
      modifies this`endianSwap, kbuf
      ensures var h := EffectiveHeader(old(State()), old(kbuf[..]));
        && endianSwap == h.swap && count == kbuf.Length - h.length
        && kbuf[..count] == old(kbuf[..])[h.length..]
    {
      count := kbuf.Length;
      if ppos == 0 && count > 4 {
        var i := FindSync(kbuf);
        if i != count - 4 {
          endianSwap := kbuf[i] == 0xAA;
          count := count - i;
          Move(kbuf, i, count);
        }
      }
    }

    /** Saves the stragglers for the next write, fixes up the byte order of the rest and sends it. */
    method Finish(kbuf: array<Byte>, count: nat)
      requires Valid() && count <= kbuf.Length && kbuf != residueBuf
      modifies this`residueLen, this`issued, residueBuf, kbuf
      ensures Valid() && residueBuf[..residueLen] == Stragglers(old(kbuf[..count]))
      ensures issued == old(issued) + Ordered(endianSwap, Whole(old(kbuf[..count])))
    {
      residueLen := count % 4;
      var size := count - residueLen;
      ghost var data := kbuf[..count];
      forall j | 0 <= j < residueLen { residueBuf[j] := kbuf[size + j]; }
      assert residueBuf[..residueLen] == data[size..];
      ghost var all := kbuf[..];
      assert all[..size] == kbuf[..size] == data[..size];
      if endianSwap {
        SwapWords(kbuf, size, size / 4);
        SwapFirstIsSwab(all, size / 4);
        assert kbuf[..size] == kbuf[..][..size];
      }
      issued := issued + kbuf[..size];
    }
  }

  /** The driver's search for the sync word. */
  method FindSync(kbuf: array<Byte>) returns (i: nat)
    requires kbuf.Length > 4
    ensures i == FindFrom(kbuf[..], 0)
  {
    i := 0;
    while i < kbuf.Length - 4
      invariant i <= kbuf.Length - 4 && FindFrom(kbuf[..], 0) == FindFrom(kbuf[..], i)
    {
      if kbuf[i] == 0x66 && kbuf[i + 1] == 0x55 && kbuf[i + 2] == 0x99 && kbuf[i + 3] == 0xAA { break; }
      if kbuf[i] == 0xAA && kbuf[i + 1] == 0x99 && kbuf[i + 2] == 0x55 && kbuf[i + 3] == 0x66 { break; }
      i := i + 1;
    }
  }

  /** memmove of kbuf[from .. from + count] to the start of kbuf. */
  method Move(kbuf: array<Byte>, from: nat, count: nat)
    requires from + count <= kbuf.Length
    modifies kbuf
    ensures kbuf[..count] == old(kbuf[from..from + count])
  {
    forall j | 0 <= j < count { kbuf[j] := kbuf[j + from]; }
  }

  function SwapAt(s: seq<Byte>, i: nat): (r: seq<Byte>)
    requires i + 4 <= |s|
    ensures |r| == |s|
  {
    s[..i] + [s[i + 3], s[i + 2], s[i + 1], s[i]] + s[i + 4..]
  }

  /** The first w words swapped, one after the other. */
  function SwapFirst(s: seq<Byte>, w: nat): (r: seq<Byte>)
    requires 4 * w <= |s|
    ensures |r| == |s|
  {
    if w == 0 then s else SwapAt(SwapFirst(s, w - 1), 4 * (w - 1))
  }

  lemma SwapAtMiddle(done: seq<Byte>, word: seq<Byte>, rest: seq<Byte>)
    requires |word| == 4
    ensures SwapAt(done + word + rest, |done|) == done + Swab(word) + rest
  {
    SwabWord(word);
  }

  lemma SwapOneMore(pre: seq<Byte>, word: seq<Byte>, rest: seq<Byte>, w: nat)
    requires |pre| == 4 * w && |word| == 4
    requires SwapFirst(pre + word + rest, w) == Swab(pre) + (word + rest)
    ensures SwapFirst(pre + word + rest, w + 1) == Swab(pre + word) + rest
  {
    assert Swab(pre) + (word + rest) == Swab(pre) + word + rest;
    SwapAtMiddle(Swab(pre), word, rest);
    SwabJoins(pre, word, w);
  }

  lemma {:induction false} SwapFirstIsSwab(s: seq<Byte>, w: nat)
    requires 4 * w <= |s|
    ensures SwapFirst(s, w) == Swab(s[..4 * w]) + s[4 * w..]
  {
    if w == 0 {
      assert s[..0] == [];
    } else {
      var i := 4 * (w - 1);
      SwapFirstIsSwab(s, w - 1);
      Pieces(s, i);
      SwapOneMore(s[..i], s[i..i + 4], s[i + 4..], w - 1);
    }
  }

  lemma Pieces(s: seq<Byte>, i: nat)
    requires i + 4 <= |s|
    ensures s == s[..i] + s[i..i + 4] + s[i + 4..] && s[i..] == s[i..i + 4] + s[i + 4..] && s[..i + 4] == s[..i] + s[i..i + 4]
  {
  }

  /** The driver's endianness fixup, in place on the first `count` bytes. */
  method SwapWords(kbuf: array<Byte>, count: nat, ghost words: nat)
    requires count <= kbuf.Length && count == 4 * words
    modifies kbuf
    ensures kbuf[..] == SwapFirst(old(kbuf[..]), words)
  {
    var i := 0;
    ghost var w := 0;
    while i < count
      invariant i == 4 * w && w <= words
      invariant kbuf[..] == SwapFirst(old(kbuf[..]), w)
    {
      SwapWord(kbuf, i);
      i, w := i + 4, w + 1;
    }
  }

  /** `*p = swab32(*p)` on the word at i. */
  method SwapWord(kbuf: array<Byte>, i: nat)
    requires i + 4 <= kbuf.Length
    modifies kbuf
    ensures kbuf[..] == SwapAt(old(kbuf[..]), i)
  {
    kbuf[i], kbuf[i + 1], kbuf[i + 2], kbuf[i + 3] := kbuf[i + 3], kbuf[i + 2], kbuf[i + 1], kbuf[i];
  }
}
