/** How a bitstream is cut into writes does not matter, and where it does. */
module DevcfgTheorems {
  import opened Devcfg

  function Flatten(chunks: seq<seq<Byte>>): seq<Byte> {
    if chunks == [] then [] else Flatten(chunks[..|chunks| - 1]) + chunks[|chunks| - 1]
  }

  /** The first chunk that is not empty: the only one searched for a header. */
  function FirstBlock(chunks: seq<seq<Byte>>): seq<Byte> {
    if chunks == [] then []
    else
      var first := FirstBlock(chunks[..|chunks| - 1]);
      if first != [] then first else chunks[|chunks| - 1]
  }

  function HeaderFound(chunks: seq<seq<Byte>>): Header {
    if HasHeader(FirstBlock(chunks)) then HeaderOf(FirstBlock(chunks)) else Header(0, false)
  }

  lemma {:induction false} FirstBlockIsPrefix(chunks: seq<seq<Byte>>)
    ensures FirstBlock(chunks) <= Flatten(chunks)
    ensures FirstBlock(chunks) == [] <==> Flatten(chunks) == []
  {
    if chunks != [] { FirstBlockIsPrefix(chunks[..|chunks| - 1]); }
  }

  lemma WholeAndStragglers(k: seq<Byte>)
    ensures Whole(k) + Stragglers(k) == k
  {
  }

  /** Carrying the stragglers over joins two pieces without a seam. */
  lemma WholeJoins(data: seq<Byte>, buf: seq<Byte>)
    ensures var k := Stragglers(data) + buf;
      Whole(data + buf) == Whole(data) + Whole(k) && Stragglers(data + buf) == Stragglers(k)
  {
    WholeAndStragglers(data);
    assert data + buf == Whole(data) + (Stragglers(data) + buf);
    WholeBehind(Whole(data), |data| / 4, Stragglers(data) + buf);
  }

  lemma WholeBehind(a: seq<Byte>, words: nat, k: seq<Byte>)
    requires |a| == 4 * words
    ensures Whole(a + k) == a + Whole(k) && Stragglers(a + k) == Stragglers(k)
  {
    var n := |k| % 4;
    assert |a + k| % 4 == n;
    assert (a + k)[..|a| + (|k| - n)] == a + k[..|k| - n];
    assert (a + k)[|a| + (|k| - n)..] == k[|k| - n..];
  }

  lemma OrderedJoins(swap: bool, data: seq<Byte>, t: seq<Byte>)
    ensures Ordered(swap, Whole(data) + t) == Ordered(swap, Whole(data)) + Ordered(swap, t)
  {
    SwabJoins(Whole(data), t, |data| / 4);
  }

  lemma StreamJoins(swap: bool, data: seq<Byte>, buf: seq<Byte>)
    ensures var k := Stragglers(data) + buf;
      && Ordered(swap, Whole(data + buf)) == Ordered(swap, Whole(data)) + Ordered(swap, Whole(k))
      && Stragglers(data + buf) == Stragglers(k)
  {
    WholeJoins(data, buf);
    OrderedJoins(swap, data, Whole(Stragglers(data) + buf));
  }

  /** What a write that is not the first does. */
  function Carry(s: Driver, buf: seq<Byte>): Driver {
    var k := s.residue + buf;
    Driver(Stragglers(k), s.swap, s.pos + |buf|, s.issued + Ordered(s.swap, Whole(k)))
  }

  lemma MidStream(s: Driver, buf: seq<Byte>)
    requires s.pos > 0
    ensures AfterWrite(s, buf, Sent) == Carry(s, buf)
  {
    var k := s.residue + buf;
    assert k[0..] == k;
  }

  lemma CarryJoins(s: Driver, a: seq<Byte>, b: seq<Byte>)
    ensures Carry(Carry(s, a), b) == Carry(s, a + b)
  {
    var k := s.residue + a;
    assert s.residue + (a + b) == k + b;
    StreamJoins(s.swap, k, b);
    Associate(s.issued, Ordered(s.swap, Whole(k)), Ordered(s.swap, Whole(Stragglers(k) + b)));
  }

  /** What the driver holds after the successful writes `chunks`. */
  function Streamed(d: seq<Byte>, h: Header): Driver
    requires h.length <= |d|
  {
    var data := d[h.length..];
    Driver(Stragglers(data), h.swap, |d|, Ordered(h.swap, Whole(data)))
  }

  /**
   The driver is a function of the bytes written and of the header in the first block:
   DMA words, then stragglers, are the bytes after the header.
   */
  lemma {:induction false} StreamInvariant(chunks: seq<seq<Byte>>)
    ensures HeaderFound(chunks).length <= |Flatten(chunks)|
    ensures Run(OPENED, chunks) == Streamed(Flatten(chunks), HeaderFound(chunks))
  {
    FirstBlockIsPrefix(chunks);
    if chunks == [] {
      assert Whole([]) == [] && Stragglers([]) == [];
    } else {
      var init, buf := chunks[..|chunks| - 1], chunks[|chunks| - 1];
      StreamInvariant(init);
      FirstBlockIsPrefix(init);
      if FirstBlock(init) == [] { FirstWrite(init, buf); } else { LaterWrite(init, buf); }
    }
  }

  lemma FirstWrite(init: seq<seq<Byte>>, buf: seq<Byte>)
    requires Flatten(init) == [] && FirstBlock(init) == []
    requires Run(OPENED, init) == Streamed([], Header(0, false))
    ensures HeaderFound(init + [buf]).length <= |Flatten(init + [buf])|
    ensures AfterWrite(Run(OPENED, init), buf, Sent) == Streamed(Flatten(init + [buf]), HeaderFound(init + [buf]))
  {
    var chunks := init + [buf];
    assert chunks[..|chunks| - 1] == init;
    assert FirstBlock(chunks) == buf && Flatten(chunks) == [] + buf == buf;
    var s := Run(OPENED, init);
    assert s.residue == [] && s.issued == [] && [] + buf == buf;
  }

  lemma LaterWrite(init: seq<seq<Byte>>, buf: seq<Byte>)
    requires Flatten(init) != [] && FirstBlock(init) != [] && HeaderFound(init).length <= |Flatten(init)|
    requires Run(OPENED, init) == Streamed(Flatten(init), HeaderFound(init))
    ensures HeaderFound(init + [buf]) == HeaderFound(init)
    ensures Flatten(init + [buf]) == Flatten(init) + buf
    ensures AfterWrite(Run(OPENED, init), buf, Sent) == Streamed(Flatten(init) + buf, HeaderFound(init))
  {
    assert (init + [buf])[..|init|] == init;
    MidStream(Run(OPENED, init), buf);
    StreamedCarries(Flatten(init), HeaderFound(init), buf);
  }

  lemma StreamedCarries(d: seq<Byte>, h: Header, buf: seq<Byte>)
    requires h.length <= |d|
    ensures Carry(Streamed(d, h), buf) == Streamed(d + buf, h)
  {
    var data := d[h.length..];
    assert (d + buf)[h.length..] == data + buf;
    StreamJoins(h.swap, data, buf);
  }

  /** The user's bytes after the header, read back from the DMA words and the stragglers. */
  lemma NothingLost(chunks: seq<seq<Byte>>)
    ensures var r := Run(OPENED, chunks);
      && HeaderFound(chunks).length <= |Flatten(chunks)|
      && Ordered(r.swap, r.issued) + r.residue == Flatten(chunks)[HeaderFound(chunks).length..]
      && |r.residue| < 4 && |r.issued| % 4 == 0
      && r.pos == |Flatten(chunks)|
  {
    StreamInvariant(chunks);
    var data := Flatten(chunks)[HeaderFound(chunks).length..];
    SwabTwice(Whole(data), |data| / 4);
    WholeAndStragglers(data);
  }

  lemma {:induction false} SwabTwice(s: seq<Byte>, words: nat)
    requires |s| == 4 * words
    ensures Swab(Swab(s)) == s
  {
    if words > 0 {
      SwabTwice(s[4..], words - 1);
      assert Swab(s)[4..] == Swab(s[4..]);
    }
  }

  lemma {:induction false} SwabAt(s: seq<Byte>, words: nat, w: nat, b: nat)
    requires |s| == 4 * words && w < words && b < 4
    ensures Swab(s)[4 * w + b] == s[4 * w + 3 - b]
  {
    if w > 0 {
      SwabAt(s[4..], words - 1, w - 1, b);
      assert Swab(s)[4..] == Swab(s[4..]);
      assert Swab(s)[4 * w + b] == Swab(s)[4..][4 * (w - 1) + b];
    }
  }

  /** Byte b of DMA word w, as the header's byte order has it. */
  predicate ByteInPlace(issued: seq<Byte>, d: seq<Byte>, h: Header, w: nat, b: nat) {
    var from := h.length + 4 * w + if h.swap then 3 - b else b;
    4 * w + b < |issued| && 0 <= from < |d| && issued[4 * w + b] == d[from]
  }

  /** Where every byte of every DMA word comes from: its place in the word is mirrored exactly if the header says so. */
  lemma EveryByte(chunks: seq<seq<Byte>>, w: nat, b: nat)
    requires b < 4 && 4 * w + 4 <= |Run(OPENED, chunks).issued|
    ensures ByteInPlace(Run(OPENED, chunks).issued, Flatten(chunks), HeaderFound(chunks), w, b)
  {
    StreamInvariant(chunks);
    StreamedAt(Flatten(chunks), HeaderFound(chunks), w, b);
  }

  lemma StreamedAt(d: seq<Byte>, h: Header, w: nat, b: nat)
    requires h.length <= |d| && b < 4 && 4 * w + 4 <= |Streamed(d, h).issued|
    ensures ByteInPlace(Streamed(d, h).issued, d, h, w, b)
  {
    OrderedAt(h.swap, d[h.length..], w, b);
  }

  lemma OrderedAt(swap: bool, data: seq<Byte>, w: nat, b: nat)
    requires b < 4 && 4 * w + 4 <= |Whole(data)|
    ensures |Whole(data)| <= |data| && Ordered(swap, Whole(data))[4 * w + b] == data[4 * w + if swap then 3 - b else b]
  {
    if swap { SwabAt(Whole(data), |data| / 4, w, b); }
  }

  /** Whichever way round the sync word of the header is, the DMA engine gets it first and in one order. */
  lemma SyncComesFirst(chunks: seq<seq<Byte>>)
    requires HasHeader(FirstBlock(chunks))
    ensures |Run(OPENED, chunks).issued| >= 4 && Run(OPENED, chunks).issued[..4] == [0x66, 0x55, 0x99, 0xAA]
  {
    StreamInvariant(chunks);
    FirstBlockIsPrefix(chunks);
    var h := HeaderFound(chunks);
    FirstWord(FirstBlock(chunks), Flatten(chunks), h);
    assert Run(OPENED, chunks).issued == Ordered(h.swap, Whole(Flatten(chunks)[h.length..]));
  }

  lemma FirstWord(block: seq<Byte>, d: seq<Byte>, h: Header)
    requires HasHeader(block) && block <= d && h == HeaderOf(block)
    ensures var issued := Ordered(h.swap, Whole(d[h.length..]));
      |issued| >= 4 && issued[..4] == [0x66, 0x55, 0x99, 0xAA]
  {
    var i := h.length;
    var word := [d[i], d[i + 1], d[i + 2], d[i + 3]];
    assert word == [block[i], block[i + 1], block[i + 2], block[i + 3]];
    WordFirst(word, Whole(d[i..]), h.swap);
  }

  lemma WordFirst(word: seq<Byte>, data: seq<Byte>, swap: bool)
    requires |word| == 4 && word <= data
    ensures Ordered(swap, data)[..4] == if swap then [word[3], word[2], word[1], word[0]] else word
  {
  }

  /**
   Two ways of cutting the same bytes leave the driver in the same state exactly when
   the first nonempty chunks show the same header.
   */
  lemma ChunkingIff(xs: seq<seq<Byte>>, ys: seq<seq<Byte>>)
    requires Flatten(xs) == Flatten(ys)
    ensures Run(OPENED, xs) == Run(OPENED, ys) <==> HeaderFound(xs) == HeaderFound(ys)
  {
    StreamInvariant(xs);
    StreamInvariant(ys);
    NothingLost(xs);
    NothingLost(ys);
    var d := Flatten(xs);
    assert |Ordered(true, Run(OPENED, xs).issued)| == |Run(OPENED, xs).issued|;
  }

  /** So if the first chunk contains the whole header, cutting the rest anywhere changes nothing. */
  lemma CutAfterHeader(first: seq<Byte>, rest: seq<seq<Byte>>)
    requires HasHeader(first)
    ensures Run(OPENED, [first] + rest) == Run(OPENED, [first + Flatten(rest)])
  {
    FlattenCons(first, rest);
    FirstOfCons(first, rest);
    FlattenCons(first + Flatten(rest), []);
    FirstOfCons(first + Flatten(rest), []);
    FindInPrefix(first, Flatten(rest), 0);
    ChunkingIff([first] + rest, [first + Flatten(rest)]);
    assert [first + Flatten(rest)] + [] == [first + Flatten(rest)];
  }

  /**
   A first block cut in two at n is delivered as if uncut exactly when its header, the sync
   word and one more byte are in front of n, or when there is nothing to miss.
   */
  lemma CutIff(d: seq<Byte>, n: nat)
    requires n <= |d|
    ensures Run(OPENED, [d[..n], d[n..]]) == Run(OPENED, [d]) <==>
      n == 0 || HeaderOf(d).length + 4 < n || HeaderOf(d) == Header(0, false)
  {
    var a, b := d[..n], d[n..];
    assert a + b == d;
    TwoBlocks(a, b);
    TwoBlocks(d, []);
    ChunkingIff([a, b], [d]);
    if n > 4 && HasHeader(d) { CutBlock(d, n); }
    if n > 4 && HasHeader(d[..n]) { CutBlockHeader(d, n); }
  }

  lemma TwoBlocks(a: seq<Byte>, b: seq<Byte>)
    ensures Flatten([a]) == a && Flatten([a, b]) == a + b
    ensures FirstBlock([a]) == a && FirstBlock([a, b]) == if a == [] then b else a
  {
    assert [a][..0] == [] && [a, b][..1] == [a];
    assert [] + a == a;
  }

  lemma CutBlockHeader(d: seq<Byte>, n: nat)
    requires 4 < n <= |d| && HasHeader(d[..n])
    ensures HasHeader(d)
  {
    FindInPrefix(d[..n], d[n..], 0);
    assert d[..n] + d[n..] == d;
  }

  lemma CutBlock(d: seq<Byte>, n: nat)
    requires HasHeader(d) && 4 < n <= |d|
    ensures HasHeader(d[..n]) <==> HeaderOf(d).length + 4 < n
    ensures HasHeader(d[..n]) ==> HeaderOf(d[..n]) == HeaderOf(d)
  {
    var i := HeaderOf(d).length;
    if HasHeader(d[..n]) {
      FindInPrefix(d[..n], d[n..], 0);
      assert d[..n] + d[n..] == d;
    }
    if i + 4 < n { assert SyncAt(d[..n], i); }
  }

  /** A sync word cut in two is missed, and everything is sent unswapped with the bytes in front of it. */
  lemma CutHeaderIsMissed(d: seq<Byte>)
    requires d == [0, 0xAA, 0x99, 0x55, 0x66, 1, 2, 3, 4]
    ensures Run(OPENED, [d[..3], d[3..]]) != Run(OPENED, [d])
  {
    assert !SyncAt(d, 0) && SyncAt(d, 1);
    CutIff(d, 3);
  }

  lemma {:induction false} FlattenCons(first: seq<Byte>, rest: seq<seq<Byte>>)
    ensures Flatten([first] + rest) == first + Flatten(rest)
  {
    var all := [first] + rest;
    if rest == [] {
      assert all[..0] == [] && all[0] == first;
    } else {
      FlattenCons(first, rest[..|rest| - 1]);
      assert all[..|all| - 1] == [first] + rest[..|rest| - 1];
    }
  }

  lemma {:induction false} FirstOfCons(first: seq<Byte>, rest: seq<seq<Byte>>)
    requires first != []
    ensures FirstBlock([first] + rest) == first
  {
    var all := [first] + rest;
    if rest == [] {
      assert all[..0] == [] && all[0] == first;
    } else {
      FirstOfCons(first, rest[..|rest| - 1]);
      assert all[..|all| - 1] == [first] + rest[..|rest| - 1];
    }
  }

  lemma {:induction false} FindInPrefix(k: seq<Byte>, more: seq<Byte>, i: nat)
    requires i + 4 <= |k| && FindFrom(k, i) < |k| - 4
    ensures FindFrom(k + more, i) == FindFrom(k, i)
    decreases |k| - i
  {
    if !SyncAt(k, i) { FindInPrefix(k, more, i + 1); }
  }

  /** After the first write, two writes leave the same state as one write of both pieces. */
  lemma WritesJoin(s: Driver, a: seq<Byte>, b: seq<Byte>)
    requires s.pos > 0
    ensures AfterWrite(AfterWrite(s, a, Sent), b, Sent) == AfterWrite(s, a + b, Sent)
  {
    CarryJoins(s, a, b);
    MidStream(s, a);
    MidStream(s, a + b);
    MidStream(Carry(s, a), b);
  }

  lemma OrderedInjective(swap: bool, k: seq<Byte>, m: seq<Byte>)
    requires Ordered(swap, Whole(k)) == Ordered(swap, Whole(m))
    ensures Whole(k) == Whole(m)
  {
    SwabTwice(Whole(k), |k| / 4);
    SwabTwice(Whole(m), |m| / 4);
  }
}

/** The bit-file converter's `--flip` and the driver's own byte swap. */
module Flip {
  import opened Devcfg
  import opened DevcfgTheorems

  datatype Flipped = Ok(data: seq<Byte>) | StructError

  /**
   flip32: unpacks each word little-endian and packs it big-endian.  Unpacking the last
   word of data that is not a whole number of words fails.
   */
  method Flip32(data: seq<Byte>) returns (r: Flipped)
    ensures r == if |data| % 4 == 0 then Ok(Swab(data)) else StructError
  {
    var d: seq<Byte> := [];
    var offset := 0;
    ghost var words := 0;
    assert data[..0] == [];
    while offset < |data|
      invariant offset == 4 * words && offset <= |data| && d == Swab(data[..offset])
    {
      if offset + 4 > |data| {
        assert |data| % 4 == |data| - 4 * words;
        return StructError;
      }
      ghost var word := data[offset..offset + 4];
      SwabWord(word);
      SwabJoins(data[..offset], word, words);
      assert data[..offset] + word == data[..offset + 4];
      d := d + [data[offset + 3], data[offset + 2], data[offset + 1], data[offset]];
      offset, words := offset + 4, words + 1;
    }
    assert data[..offset] == data && |data| % 4 == 0;
    return Ok(d);
  }

  /** Flipping twice gives the data back. */
  lemma FlipInvolution(d: seq<Byte>)
    requires |d| % 4 == 0
    ensures Swab(Swab(d)) == d
  {
    SwabTwice(d, |d| / 4);
  }

  lemma {:induction false} SwabAligned(d: seq<Byte>, i: nat, words: nat)
    requires i == 4 * words <= |d|
    ensures Swab(d)[i..] == Swab(d[i..])
  {
    if words == 0 {
      assert d[0..] == d && Swab(d)[0..] == Swab(d);
    } else {
      SwabAligned(d[4..], i - 4, words - 1);
      assert d[4..][i - 4..] == d[i..];
      assert Swab(d)[i..] == Swab(d[4..])[i - 4..];
    }
  }

  /** At a word boundary, a normal sync word flips into a swapped one and back. */
  lemma SyncFlips(d: seq<Byte>, i: nat, words: nat)
    requires i == 4 * words && i + 4 <= |d|
    ensures NormalSync(d, i) <==> SwappedSync(Swab(d), i)
    ensures SwappedSync(d, i) <==> NormalSync(Swab(d), i)
  {
    SwabAligned(d, i, words);
    var w := d[i..];
    assert Swab(w)[..4] == [w[3], w[2], w[1], w[0]];
    assert forall j | 0 <= j < 4 :: Swab(d)[i + j] == Swab(d)[i..][j] == Swab(w)[..4][j];
    assert forall j | 0 <= j < 4 :: d[i + j] == w[j];
  }

  /**
   Flipping offline and swapping in the driver agree: if the sync words of the data and of
   the flipped data are found at one word-aligned place, the driver sends the same words
   for both, however each was cut after its header.
   */
  lemma FlipAgrees(d: seq<Byte>, xs: seq<seq<Byte>>, ys: seq<seq<Byte>>)
    requires |d| % 4 == 0 && Flatten(xs) == d && Flatten(ys) == Swab(d)
    requires HasHeader(FirstBlock(xs)) && HasHeader(FirstBlock(ys))
    requires HeaderFound(xs).length == HeaderFound(ys).length && HeaderFound(xs).length % 4 == 0
    ensures var r, f := Run(OPENED, xs), Run(OPENED, ys);
      r.issued == f.issued && r.residue == f.residue == [] && r.swap == !f.swap
  {
    StreamInvariant(xs);
    StreamInvariant(ys);
    FirstBlockIsPrefix(xs);
    FirstBlockIsPrefix(ys);
    var i := HeaderFound(xs).length;
    SyncFlips(d, i, i / 4);
    SyncInBlock(d, FirstBlock(xs), i);
    SyncInBlock(Swab(d), FirstBlock(ys), i);
    FlipStreams(d, i, HeaderFound(xs).swap, i / 4, |d| / 4);
  }

  lemma FlipStreams(d: seq<Byte>, i: nat, swap: bool, words: nat, total: nat)
    requires |d| == 4 * total && i == 4 * words <= |d|
    ensures var r, f := Streamed(d, Header(i, swap)), Streamed(Swab(d), Header(i, !swap));
      r.issued == f.issued && r.residue == f.residue == []
  {
    SwabAligned(d, i, words);
    var data := d[i..];
    var n := total - words;
    assert |data| == 4 * n;
    SwabTwice(data, n);
    AlignedIsWhole(data, n);
    AlignedIsWhole(Swab(data), n);
    assert Swab(d)[i..] == Swab(data);
  }

  lemma AlignedIsWhole(k: seq<Byte>, n: nat)
    requires |k| == 4 * n
    ensures Whole(k) == k && Stragglers(k) == []
  {
  }

  lemma SyncInBlock(d: seq<Byte>, block: seq<Byte>, i: nat)
    requires block <= d && HasHeader(block) && HeaderOf(block).length == i
    ensures i + 4 <= |d| && SyncAt(d, i) && HeaderOf(block).swap == SwappedSync(d, i)
    ensures !(NormalSync(d, i) && SwappedSync(d, i))
  {
  }

  /** A header that does not end on a word boundary leaves bytes that are never sent. */
  lemma NothingLeftIff(d: seq<Byte>, xs: seq<seq<Byte>>)
    requires |d| % 4 == 0 && Flatten(xs) == d
    ensures Run(OPENED, xs).residue == [] <==> HeaderFound(xs).length % 4 == 0
  {
    StreamInvariant(xs);
    EmptyStragglers(d, HeaderFound(xs).length);
  }

  lemma EmptyStragglers(d: seq<Byte>, i: nat)
    requires |d| % 4 == 0 && i <= |d|
    ensures Stragglers(d[i..]) == [] <==> i % 4 == 0
  {
    WordsLeft(|d|, i);
    assert |Stragglers(d[i..])| == (|d| - i) % 4;
  }

  lemma WordsLeft(n: nat, i: nat)
    requires n % 4 == 0 && i <= n
    ensures (n - i) % 4 == 0 <==> i % 4 == 0
  {
  }
}
