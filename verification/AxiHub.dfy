/**
 The AXI hub: write bursts into the configuration register file, read bursts from the
 configuration words, the status words and the incoming streams.  One call of `Clock` is
 one rising clock edge out of reset.
 */
module AxiHub {
  import opened StreamBuffers

  /** A 32-bit word as its four byte lanes. */
  datatype Word = Word(lane0: bv8, lane1: bv8, lane2: bv8, lane3: bv8)
  datatype Strobes = Strobes(lane0: bool, lane1: bool, lane2: bool, lane3: bool)

  const ZERO := Word(0, 0, 0, 0)

  function Merge(old_: Word, data: Word, strobes: Strobes): Word {
    Word(if strobes.lane0 then data.lane0 else old_.lane0, if strobes.lane1 then data.lane1 else old_.lane1,
         if strobes.lane2 then data.lane2 else old_.lane2, if strobes.lane3 then data.lane3 else old_.lane3)
  }

  datatype Address = Address(id: nat, addr: nat)
  datatype Beat = Beat(strobes: Strobes, last: bool, data: Word)
  type Len = n: nat | n < 16
  datatype Request = Request(id: nat, len: Len, addr: nat)

  /** Bits 27 to 24 of an address select the port: 0 is cfg, 1 is sts, j + 2 is stream j. */
  function Port(addr: nat): nat { addr / 0x100_0000 % 16 }

  /** Bits 23 to 2, plus the number of the beat, in 22 bits. */
  function WordAddress(addr: nat, beat: nat): nat { (addr / 4 % 0x40_0000 + beat) % 0x40_0000 }

  /** 2 to the power CFG_WIDTH: the number of words that the index bits can address. */
  function Span(size: nat): (r: nat)
    ensures r >= 2 && size <= r
    decreases size
  {
    if size <= 2 then 2 else 2 * Span((size + 1) / 2)
  }

  // ---------- The write channels ----------

  /** One beat of a burst, written like to a byte-strobed memory. */
  function Store(cfg: seq<Word>, addr: nat, i: nat, beat: Beat): (r: seq<Word>)
    ensures |r| == |cfg|
  {
    var j := WordAddress(addr, i) % Span(|cfg|);
    if Port(addr) == 0 && j < |cfg| then cfg[j := Merge(cfg[j], beat.data, beat.strobes)] else cfg
  }

  /** The write half of the hub: its buffers, its beat counter and the register file. */
  datatype Writer = Writer(aw: InoutBuffer<Address>, w: InoutBuffer<Beat>, b: OutputBuffer<nat>,
                           count: nat, cfg: seq<Word>)

  /** What the master drives in one clock. */
  datatype WriteIn = WriteIn(awvalid: bool, aw: Address, wvalid: bool, w: Beat, bready: bool)

  /** Handshakes on the hub's internal side in one clock. */
  predicate WriteEnable(s: Writer, m: WriteIn) {
    s.b.Accepts(m.bready) && s.aw.OutValid() && s.w.OutValid()
  }

  predicate AddressReady(s: Writer, m: WriteIn) {
    s.b.Accepts(m.bready) && s.w.OutValid() && s.w.OutData().last
  }

  predicate BeatReady(s: Writer, m: WriteIn) { s.b.Accepts(m.bready) && s.aw.OutValid() }

  predicate ResponseValid(s: Writer) { s.aw.OutValid() && s.w.OutValid() && s.w.OutData().last }

  function ClockWriter(s: Writer, m: WriteIn): Writer {
    var addr, beat := s.aw.OutData(), s.w.OutData();
    Writer(
      s.aw.Clock(m.awvalid, m.aw, AddressReady(s, m)),
      s.w.Clock(m.wvalid, m.w, BeatReady(s, m)),
      s.b.Clock(ResponseValid(s), addr.id, m.bready),
      if WriteEnable(s, m) && !beat.last then (s.count + 1) % 16
      else if s.aw.OutValid() && AddressReady(s, m) then 0
      else s.count,
      if WriteEnable(s, m) then Store(s.cfg, addr.addr, s.count, beat) else s.cfg)
  }

  // ---------- The read channels ----------

  /** What a read beat carries: a word, the BRAM output of a stream port, or nothing that Verilog defines. */
  datatype Payload = Direct(word: Word) | Bram(port: nat) | Undefined

  /** A stream's valid wire and its data. */
  datatype Stream = Stream(valid: bool, word: Word)

  datatype ReadBeat = ReadBeat(id: nat, last: bool, payload: Payload)

  datatype Reader = Reader(ar: InoutBuffer<Request>, r: OutputBuffer<ReadBeat>, count: nat)

  /** What the master and the fabric drive in one clock. */
  datatype ReadIn = ReadIn(arvalid: bool, ar: Request, rready: bool,
                           cfg: seq<Word>, sts: seq<Word>, streams: seq<Stream>)

  predicate ReadEnable(s: Reader, m: ReadIn) { s.r.Accepts(m.rready) && s.ar.OutValid() }

  predicate LastBeat(s: Reader) { s.count == s.ar.OutData().len }

  predicate RequestReady(s: Reader, m: ReadIn) { s.r.Accepts(m.rready) && LastBeat(s) }

  /** Which stream's ready wire is high. */
  predicate StreamReady(s: Reader, m: ReadIn, j: nat) {
    ReadEnable(s, m) && Port(s.ar.OutData().addr) == j + 2
  }

  function Fetch(m: ReadIn, addr: nat, i: nat): Payload {
    var port := Port(addr);
    var cfgIndex := WordAddress(addr, i) % Span(|m.cfg|);
    var stsIndex := WordAddress(addr, i) % Span(|m.sts|);
    if port == 0 then if cfgIndex < |m.cfg| then Direct(m.cfg[cfgIndex]) else Undefined
    else if port == 1 then if stsIndex < |m.sts| then Direct(m.sts[stsIndex]) else Undefined
    else if port - 2 >= |m.streams| then Undefined
    else if m.streams[port - 2].valid then Direct(m.streams[port - 2].word)
    else Bram(port - 2)
  }

  function NextBeat(s: Reader, m: ReadIn): ReadBeat {
    var request := s.ar.OutData();
    ReadBeat(request.id, LastBeat(s), Fetch(m, request.addr, s.count))
  }

  function ClockReader(s: Reader, m: ReadIn): Reader {
    Reader(
      s.ar.Clock(m.arvalid, m.ar, RequestReady(s, m)),
      s.r.Clock(s.ar.OutValid(), NextBeat(s, m), m.rready),
      if ReadEnable(s, m) && !LastBeat(s) then (s.count + 1) % 16
      else if s.ar.OutValid() && RequestReady(s, m) then 0
      else s.count)
  }

  // ---------- The registers ----------

  class Hub {
    var aw: InoutBuffer<Address>
    var w: InoutBuffer<Beat>
    var b: OutputBuffer<nat>
    var awcntr: nat
    var cfg: seq<Word>
    var ar: InoutBuffer<Request>
    var r: OutputBuffer<ReadBeat>
    var arcntr: nat

    ghost function WriterState(): Writer
      reads this
    {
      Writer(aw, w, b, awcntr, cfg)
    }

    ghost function ReaderState(): Reader
      reads this
    {
      Reader(ar, r, arcntr)
    }

    /** The state after reset; the contents of empty data registers are arbitrary. */
    constructor (cfgSize: nat, address: Address, beat: Beat, request: Request, read: ReadBeat)
      ensures WriterReset(WriterState()) && |cfg| == cfgSize && ReaderReset(ReaderState())
    {
      aw := InoutBuffer(InputBuffer(true, address), OutputBuffer(false, address));
      w := InoutBuffer(InputBuffer(true, beat), OutputBuffer(false, beat));
      b := OutputBuffer(false, 0);
      ar := InoutBuffer(InputBuffer(true, request), OutputBuffer(false, request));
      r := OutputBuffer(false, read);
      awcntr, arcntr, cfg := 0, 0, seq(cfgSize, _ => ZERO);
    }

    method ClockWrite(m: WriteIn)
      modifies `aw, `w, `b, `awcntr, `cfg
      ensures WriterState() == ClockWriter(old(WriterState()), m)
    {
      var bready, addr, beat := b.Accepts(m.bready), aw.OutData(), w.OutData();
      var awvalid, wvalid := aw.OutValid(), w.OutValid();
      var awready, wready := bready && wvalid && beat.last, bready && awvalid;
      var we := bready && awvalid && wvalid;
      if we { cfg := Store(cfg, addr.addr, awcntr, beat); }
      if awvalid && awready { awcntr := 0; }
      if !beat.last && we { awcntr := (awcntr + 1) % 16; }
      b := b.Clock(awvalid && wvalid && beat.last, addr.id, m.bready);
      aw := aw.Clock(m.awvalid, m.aw, awready);
      w := w.Clock(m.wvalid, m.w, wready);
    }

    method ClockRead(m: ReadIn)
      modifies `ar, `r, `arcntr
      ensures ReaderState() == ClockReader(old(ReaderState()), m)
    {
      var rready, request, arvalid := r.Accepts(m.rready), ar.OutData(), ar.OutValid();
      var rlast := arcntr == request.len;
      var arready, re := rready && rlast, rready && arvalid;
      var beat := ReadBeat(request.id, rlast, Fetch(m, request.addr, arcntr));
      if arvalid && arready { arcntr := 0; }
      if !rlast && re { arcntr := (arcntr + 1) % 16; }
      r := r.Clock(arvalid, beat, m.rready);
      ar := ar.Clock(m.arvalid, m.ar, arready);
    }

    /** One clock edge; reads see the register file as it was before the edge. */
    method Clock(write: WriteIn, read: ReadIn)
      requires read.cfg == cfg
      modifies this
      ensures WriterState() == ClockWriter(old(WriterState()), write)
      ensures ReaderState() == ClockReader(old(ReaderState()), read)
    {
      ClockRead(read);
      ClockWrite(write);
    }
  }

  ghost predicate WriterReset(s: Writer) {
    s.aw.Empty() && s.w.Empty() && !s.b.valid && s.count == 0 && forall j | 0 <= j < |s.cfg| :: s.cfg[j] == ZERO
  }

  ghost predicate ReaderReset(s: Reader) { s.ar.Empty() && !s.r.valid && s.count == 0 }
}
