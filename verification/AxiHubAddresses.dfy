/** The hub's memories by word number: which bits of an address choose the port and the word. */
module AxiHubAddresses {
  import opened Arithmetic
  import opened AxiHub
  import Writes = AxiHubWrites
  import Reads = AxiHubReads
  import AxiHubMemory

  /** An address as its fields: bits from 28 on and the two lowest, which nothing looks at, the port and the word. */
  datatype Target = Target(high: nat, port: nat, word: nat, low: nat) {
    predicate Valid() { port < 16 && word < 0x40_0000 && low < 4 }

    function Addr(): nat { high * 0x1000_0000 + port * 0x100_0000 + word * 4 + low }

    /** The i-th word from this one on; past the last one it starts again at 0. */
    function Word(i: nat): nat { (word + i) % 0x40_0000 }
  }

  /** The hub takes the port and the word from just these fields. */
  lemma FieldsRead(x: Target, i: nat)
    requires x.Valid()
    ensures Port(x.Addr()) == x.port && WordAddress(x.Addr(), i) == x.Word(i)
  {
    var a := x.Addr();
    assert a / 0x100_0000 == x.high * 16 + x.port;
    assert a / 4 == (x.high * 16 + x.port) * 0x40_0000 + x.word;
    Divides(x.high * 16 + x.port, 0x40_0000, x.word);
  }

  /** Every address has such fields, and only one choice of them. */
  lemma EveryAddress(a: nat) returns (x: Target)
    ensures x.Valid() && x.Addr() == a
    ensures forall y: Target :: y.Valid() && y.Addr() == a ==> y == x
  {
    x := FieldsOf(a);
    forall y: Target | y.Valid() && y.Addr() == a ensures y == x { SameFields(x, y); }
  }

  lemma FieldsOf(a: nat) returns (x: Target)
    ensures x.Valid() && x.Addr() == a
  {
    var word, page := a / 4, a / 4 / 0x40_0000;
    x := Target(page / 16, page % 16, word % 0x40_0000, a % 4);
  }

  lemma SameFields(x: Target, y: Target)
    requires x.Valid() && y.Valid() && x.Addr() == y.Addr()
    ensures x == y
  {
    SameWord(x, y);
    SamePage(x.high, x.low, y.high, y.low);
  }

  lemma SameWord(x: Target, y: Target)
    requires x.Valid() && y.Valid() && x.Addr() == y.Addr()
    ensures x.port == y.port && x.word == y.word
  {
    FieldsAt(x, x.Addr());
    FieldsAt(y, x.Addr());
  }

  lemma FieldsAt(x: Target, a: nat)
    requires x.Valid() && x.Addr() == a
    ensures Port(a) == x.port && WordAddress(a, 0) == x.word
  {
    FieldsRead(x, 0);
    Divides(0, 0x40_0000, x.word);
  }

  lemma SamePage(high: nat, low: nat, high': nat, low': nat)
    requires low < 4 && low' < 4 && high * 0x1000_0000 + low == high' * 0x1000_0000 + low'
    ensures high == high' && low == low'
  {
  }

  /** The index bits are the fewest, but at least one, that can tell `size` words apart. */
  lemma {:induction false} SpanIsLeast(size: nat) returns (bits: nat)
    ensures bits >= 1 && Span(size) == TwoTo(bits)
    ensures size <= TwoTo(bits) && (bits > 1 ==> TwoTo(bits - 1) < size)
  {
    if size <= 2 {
      bits := 1;
    } else {
      var fewer := SpanIsLeast((size + 1) / 2);
      bits := fewer + 1;
    }
  }

  // ---------- Writes ----------

  /** One beat of a burst, by word number. */
  function StoreWord(cfg: seq<Word>, x: Target, i: nat, beat: Beat): (r: seq<Word>)
    ensures |r| == |cfg|
  {
    var j := x.Word(i) % Span(|cfg|);
    if x.port == 0 && j < |cfg| then cfg[j := Merge(cfg[j], beat.data, beat.strobes)] else cfg
  }

  /** In the register file the i-th word is just that one; past its end nothing is stored up to the next power of two. */
  lemma WordInFile(cfg: seq<Word>, x: Target, i: nat, beat: Beat)
    requires x.Valid() && x.port == 0 && x.word + i < Span(|cfg|) && x.word + i < 0x40_0000
    ensures StoreWord(cfg, x, i, beat) ==
      if x.word + i < |cfg| then cfg[x.word + i := Merge(cfg[x.word + i], beat.data, beat.strobes)] else cfg
  {
    IndexOf(x, i, Span(|cfg|));
  }

  lemma IndexOf(x: Target, i: nat, span: nat)
    requires x.word + i < span && x.word + i < 0x40_0000
    ensures x.Word(i) % span == x.word + i
  {
    Divides(0, 0x40_0000, x.word + i);
    Divides(0, span, x.word + i);
  }

  ghost predicate Spelled(targets: seq<Target>, addresses: seq<Address>) {
    && |targets| == |addresses|
    && forall k | 0 <= k < |targets| :: targets[k].Valid() && addresses[k].addr == targets[k].Addr()
  }

  /** Writes.Memory, by word number: beat i of burst k is stored i words after the k-th target. */
  function WordMemory(size: nat, beats: nat, targets: seq<Target>, ws: seq<Beat>): (r: seq<Word>)
    requires beats > 0
    ensures |r| == size
  {
    if ws == [] then seq(size, _ => ZERO)
    else
      var before := ws[..|ws| - 1];
      var cfg := WordMemory(size, beats, targets, before);
      if Writes.Ended(before) < |targets| then
        StoreWord(cfg, targets[Writes.Ended(before)], Writes.Open(before) % beats, ws[|ws| - 1])
      else cfg
  }

  lemma {:induction false} MemoryByWord(size: nat, beats: nat, targets: seq<Target>, addresses: seq<Address>, ws: seq<Beat>)
    requires beats > 0 && Spelled(targets, addresses)
    ensures Writes.Memory(size, beats, addresses, ws) == WordMemory(size, beats, targets, ws)
  {
    if ws != [] {
      var before := ws[..|ws| - 1];
      MemoryByWord(size, beats, targets, addresses, before);
      if Writes.Ended(before) < |targets| {
        FieldsRead(targets[Writes.Ended(before)], Writes.Open(before) % beats);
      }
    }
  }

  /** In every run the register file is the memory that the executed beats describe, by word number. */
  lemma WritesByWord(s: Writer, ms: seq<WriteIn>, targets: seq<Target>)
    requires WriterReset(s) && Spelled(targets, Writes.Run(s, ms).1.addresses)
    ensures var (t, log) := Writes.Run(s, ms);
      && t.cfg == WordMemory(|s.cfg|, 16, targets, log.done)
      && (Writes.ShortBursts(log.done) ==> t.cfg == WordMemory(|s.cfg|, 0x40_0000, targets, log.done))
  {
    Writes.WriteBursts(s, ms);
    var log := Writes.Run(s, ms).1;
    MemoryByWord(|s.cfg|, Writes.COUNTED, targets, log.addresses, log.done);
    MemoryByWord(|s.cfg|, Writes.SEQUENTIAL, targets, log.addresses, log.done);
  }

  // ---------- Reads ----------

  /** What a read beat for the i-th word from a target carries, port by port. */
  lemma FetchesByWord(m: ReadIn, x: Target, i: nat)
    requires x.Valid()
    ensures x.port == 0 && x.Word(i) < |m.cfg| ==> Fetch(m, x.Addr(), i) == Direct(m.cfg[x.Word(i)])
    ensures x.port == 1 && x.Word(i) < |m.sts| ==> Fetch(m, x.Addr(), i) == Direct(m.sts[x.Word(i)])
    ensures forall j: nat | j < |m.streams| && x.port == j + 2 ::
      Fetch(m, x.Addr(), i) == if m.streams[j].valid then Direct(m.streams[j].word) else Bram(j)
  {
    FieldsRead(x, i);
    FetchesWord(m, x.Addr(), i, x.Word(i));
  }

  lemma FetchesWord(m: ReadIn, addr: nat, i: nat, word: nat)
    requires WordAddress(addr, i) == word
    ensures Port(addr) == 0 && word < |m.cfg| ==> Fetch(m, addr, i) == Direct(m.cfg[word])
    ensures Port(addr) == 1 && word < |m.sts| ==> Fetch(m, addr, i) == Direct(m.sts[word])
  {
    if word < |m.cfg| { Divides(0, Span(|m.cfg|), word); }
    if word < |m.sts| { Divides(0, Span(|m.sts|), word); }
  }

  /**
   In every run of the hub, a read beat for a configuration word carries that word as the
   beats executed before have left it.
   */
  lemma ReadsByWord(sw: Writer, sr: Reader, ws: seq<WriteIn>, rs: seq<ReadIn>, n: nat, x: Target, targets: seq<Target>)
    requires WriterReset(sw) && ReaderReset(sr) && AxiHubMemory.Joined(sw, ws, rs)
    requires n < |Reads.Run(sr, rs).1.pushed|
    requires var p := Reads.Run(sr, rs).1.pushed[n];
      && x.Valid() && p.addr == x.Addr() && x.port == 0 && x.Word(p.number) < |sw.cfg|
      && p.clock <= |ws| && Spelled(targets, Writes.Run(sw, ws[..p.clock]).1.addresses)
    ensures var p := Reads.Run(sr, rs).1.pushed[n];
      p.beat.payload == Direct(WordMemory(|sw.cfg|, 16, targets, Writes.Run(sw, ws[..p.clock]).1.done)[x.Word(p.number)])
  {
    var p := Reads.Run(sr, rs).1.pushed[n];
    Reads.RunFetches(sr, rs, n);
    WritesByWord(sw, ws[..p.clock], targets);
    FetchesByWord(rs[p.clock], x, p.number);
  }
}
