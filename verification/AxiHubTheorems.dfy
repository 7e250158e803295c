/** What the AXI hub guarantees in every run after reset, whatever the master and the streams do. */
module AxiHubWrites {
  import opened StreamBuffers
  import opened AxiHub

  /** What passes the write channels: accepted from the master, executed by the hub, answered. */
  datatype Log = Log(addresses: seq<Address>, beats: seq<Beat>, done: seq<Beat>, responses: seq<nat>)

  function Record(s: Writer, m: WriteIn, log: Log): Log {
    Log(log.addresses + (if m.awvalid && s.aw.InReady() then [m.aw] else []),
        log.beats + (if m.wvalid && s.w.InReady() then [m.w] else []),
        log.done + (if WriteEnable(s, m) then [s.w.OutData()] else []),
        log.responses + (if s.b.valid && m.bready then [s.b.data] else []))
  }

  function Run(s: Writer, ms: seq<WriteIn>): (Writer, Log) {
    if ms == [] then (s, Log([], [], [], []))
    else
      var (t, log) := Run(s, ms[..|ms| - 1]);
      (ClockWriter(t, ms[|ms| - 1]), Record(t, ms[|ms| - 1], log))
  }

  // ---------- What the beats mean ----------

  /** How many bursts the beats complete. */
  function Ended(ws: seq<Beat>): (r: nat)
    ensures r <= |ws|
  {
    if ws == [] then 0 else Ended(ws[..|ws| - 1]) + if ws[|ws| - 1].last then 1 else 0
  }

  /** How many beats there are after the last complete burst. */
  function Open(ws: seq<Beat>): nat {
    if ws == [] || ws[|ws| - 1].last then 0 else Open(ws[..|ws| - 1]) + 1
  }

  /** The beats of a burst that the hub's four-bit counter tells apart. */
  const COUNTED := 16

  /** As many words as a port has: a counter that tells these apart leaves no trace in a word address. */
  const SEQUENTIAL := 0x40_0000

  /**
   The register file as a memory: beat i of burst k is stored i words after the address of
   burst k, if i is counted modulo `beats`.
   */
  function Memory(size: nat, beats: nat, addresses: seq<Address>, ws: seq<Beat>): (r: seq<Word>)
    requires beats > 0
    ensures |r| == size
  {
    if ws == [] then seq(size, _ => ZERO)
    else
      var before := ws[..|ws| - 1];
      var cfg := Memory(size, beats, addresses, before);
      if Ended(before) < |addresses| then
        Store(cfg, addresses[Ended(before)].addr, Open(before) % beats, ws[|ws| - 1])
      else cfg
  }

  /** No burst is longer than the 16 beats that the beat counter can number. */
  ghost predicate ShortBursts(ws: seq<Beat>) {
    forall n | 0 <= n < |ws| :: Open(ws[..n]) < 16
  }

  function Ids(addresses: seq<Address>): (r: seq<nat>)
    ensures |r| == |addresses|
  {
    seq(|addresses|, i requires 0 <= i < |addresses| => addresses[i].id)
  }

  // ---------- The invariant ----------

  ghost predicate AddressesInv(s: Writer, log: Log) {
    Ended(log.done) <= |log.addresses| && log.addresses[Ended(log.done)..] == s.aw.Contents()
  }

  ghost predicate BeatsInv(s: Writer, log: Log) { log.beats == log.done + s.w.Contents() }

  ghost predicate ResponsesInv(s: Writer, log: Log) {
    Ended(log.done) <= |log.addresses| && log.responses + s.b.Contents() == Ids(log.addresses[..Ended(log.done)])
  }

  ghost predicate CountInv(s: Writer, log: Log) {
    s.count == Open(log.done) % 16 && (Open(log.done) > 0 ==> Ended(log.done) < |log.addresses|)
  }

  ghost predicate MemoryInv(size: nat, s: Writer, log: Log) {
    s.cfg == Memory(size, COUNTED, log.addresses, log.done)
  }

  ghost predicate Inv(size: nat, s: Writer, log: Log) {
    AddressesInv(s, log) && BeatsInv(s, log) && ResponsesInv(s, log) && CountInv(s, log) && MemoryInv(size, s, log)
  }

  /** Addresses that arrive later do not change what earlier beats wrote. */
  lemma {:induction false} MemoryStable(size: nat, beats: nat, addresses: seq<Address>, more: seq<Address>, ws: seq<Beat>)
    requires beats > 0
    requires Ended(ws) <= |addresses| && (Open(ws) > 0 ==> Ended(ws) < |addresses|)
    ensures Memory(size, beats, addresses + more, ws) == Memory(size, beats, addresses, ws)
  {
    if ws != [] {
      var before := ws[..|ws| - 1];
      MemoryStable(size, beats, addresses, more, before);
    }
  }

  lemma ShortPrefix(ws: seq<Beat>, beat: Beat)
    requires ShortBursts(ws + [beat])
    ensures ShortBursts(ws) && Open(ws) < 16
  {
    forall n | 0 <= n < |ws| ensures Open(ws[..n]) < 16 {
      assert (ws + [beat])[..n] == ws[..n];
    }
    assert (ws + [beat])[..|ws|] == ws;
  }

  /** One more beat, counted and stored. */
  lemma OneMoreBeat(size: nat, beats: nat, addresses: seq<Address>, ws: seq<Beat>, beat: Beat)
    requires beats > 0 && Ended(ws) < |addresses|
    ensures Ended(ws + [beat]) == Ended(ws) + if beat.last then 1 else 0
    ensures Open(ws + [beat]) == if beat.last then 0 else Open(ws) + 1
    ensures Memory(size, beats, addresses, ws + [beat]) ==
      Store(Memory(size, beats, addresses, ws), addresses[Ended(ws)].addr, Open(ws) % beats, beat)
  {
    assert (ws + [beat])[..|ws|] == ws;
  }

  /** Whether this clock ends a burst. */
  predicate Ends(s: Writer, m: WriteIn) { WriteEnable(s, m) && s.w.OutData().last }

  lemma EndedNext(s: Writer, m: WriteIn, log: Log)
    ensures Ended(Record(s, m, log).done) == Ended(log.done) + if Ends(s, m) then 1 else 0
  {
    if WriteEnable(s, m) {
      assert (log.done + [s.w.OutData()])[..|log.done|] == log.done;
    } else {
      assert log.done + [] == log.done;
    }
  }

  lemma AddressesKeep(s: Writer, m: WriteIn, log: Log)
    requires AddressesInv(s, log)
    ensures AddressesInv(ClockWriter(s, m), Record(s, m, log))
  {
    EndedNext(s, m, log);
    Accepts(s.aw, m.awvalid, m.aw, AddressReady(s, m), log.addresses, Ended(log.done));
  }

  lemma HeadIs(s: Writer, log: Log)
    requires AddressesInv(s, log) && s.aw.OutValid()
    ensures Ended(log.done) < |log.addresses| && log.addresses[Ended(log.done)] == s.aw.OutData()
  {
    assert log.addresses[Ended(log.done)] == log.addresses[Ended(log.done)..][0];
  }

  lemma BeatsKeep(s: Writer, m: WriteIn, log: Log)
    requires BeatsInv(s, log)
    ensures BeatsInv(ClockWriter(s, m), Record(s, m, log))
  {
    InoutIsQueue(s.w, m.wvalid, m.w, BeatReady(s, m));
  }

  lemma ResponsesKeep(s: Writer, m: WriteIn, log: Log)
    requires AddressesInv(s, log) && ResponsesInv(s, log)
    ensures ResponsesInv(ClockWriter(s, m), Record(s, m, log))
  {
    EndedNext(s, m, log);
    var k := Ended(log.done);
    Delivers(s.b, ResponseValid(s), s.aw.OutData().id, m.bready, log.responses, Ids(log.addresses[..k]));
    IdsKept(log.addresses, if m.awvalid && s.aw.InReady() then [m.aw] else [], k);
    if Ends(s, m) {
      HeadIs(s, log);
      IdsNext(log.addresses, if m.awvalid && s.aw.InReady() then [m.aw] else [], k);
    }
  }

  lemma IdsKept(addresses: seq<Address>, more: seq<Address>, k: nat)
    requires k <= |addresses|
    ensures (addresses + more)[..k] == addresses[..k]
  {
  }

  lemma IdsNext(addresses: seq<Address>, more: seq<Address>, k: nat)
    requires k < |addresses|
    ensures Ids((addresses + more)[..k + 1]) == Ids(addresses[..k]) + [addresses[k].id]
  {
  }

  lemma CountKeeps(s: Writer, m: WriteIn, log: Log)
    requires AddressesInv(s, log) && CountInv(s, log)
    ensures CountInv(ClockWriter(s, m), Record(s, m, log))
  {
    if WriteEnable(s, m) {
      HeadIs(s, log);
      CountMoves(s, m, log);
    } else {
      assert log.done + [] == log.done;
    }
  }

  lemma CountMoves(s: Writer, m: WriteIn, log: Log)
    requires CountInv(s, log) && WriteEnable(s, m) && Ended(log.done) < |log.addresses|
    ensures CountInv(ClockWriter(s, m), Record(s, m, log))
  {
    OneMoreBeat(0, 1, log.addresses, log.done, s.w.OutData());
    NextCount(Open(log.done));
  }

  lemma MemoryKeeps(size: nat, s: Writer, m: WriteIn, log: Log)
    requires AddressesInv(s, log) && CountInv(s, log) && MemoryInv(size, s, log)
    ensures MemoryInv(size, ClockWriter(s, m), Record(s, m, log))
  {
    var more := if m.awvalid && s.aw.InReady() then [m.aw] else [];
    MemoryStable(size, COUNTED, log.addresses, more, log.done);
    if WriteEnable(s, m) {
      HeadIs(s, log);
      OneMoreBeat(size, COUNTED, log.addresses + more, log.done, s.w.OutData());
    } else {
      assert log.done + [] == log.done;
    }
  }

  lemma NextCount(n: nat)
    ensures (n % 16 + 1) % 16 == (n + 1) % 16
  {
  }

  lemma ClockKeeps(size: nat, s: Writer, m: WriteIn, log: Log)
    requires Inv(size, s, log)
    ensures Inv(size, ClockWriter(s, m), Record(s, m, log))
  {
    AddressesKeep(s, m, log);
    BeatsKeep(s, m, log);
    ResponsesKeep(s, m, log);
    CountKeeps(s, m, log);
    MemoryKeeps(size, s, m, log);
  }

  lemma {:induction false} RunKeeps(s: Writer, ms: seq<WriteIn>)
    requires WriterReset(s)
    ensures var (t, log) := Run(s, ms); Inv(|s.cfg|, t, log)
  {
    if ms == [] {
      assert s.cfg == Memory(|s.cfg|, COUNTED, [], []);
      assert Ids([]) == [];
    } else {
      var m := ms[|ms| - 1];
      RunKeeps(s, ms[..|ms| - 1]);
      var (t, log) := Run(s, ms[..|ms| - 1]);
      ClockKeeps(|s.cfg|, t, m, log);
    }
  }

  /**
   Every write burst is executed beat by beat in the order in which it was accepted, the
   register file is the memory those beats describe, a sequential one as long as no burst
   is too long, and the burst gets one response, with its own ID, in order and not before
   its last beat is executed.
   */
  lemma WriteBursts(s: Writer, ms: seq<WriteIn>)
    requires WriterReset(s)
    ensures var (t, log) := Run(s, ms);
      && log.done <= log.beats <= log.done + t.w.Contents()
      && t.cfg == Memory(|s.cfg|, COUNTED, log.addresses, log.done)
      && (ShortBursts(log.done) ==> t.cfg == Memory(|s.cfg|, SEQUENTIAL, log.addresses, log.done))
      && log.responses <= Ids(log.addresses)
      && |log.responses| <= Ended(log.done) == |log.responses| + |t.b.Contents()|
  {
    RunKeeps(s, ms);
    var (t, log) := Run(s, ms);
    IdsPrefix(log.addresses, Ended(log.done));
    PrefixOfJoin(log.responses, t.b.Contents(), Ids(log.addresses), Ended(log.done));
    if ShortBursts(log.done) { ShortIsSequential(|s.cfg|, log.addresses, log.done); }
  }

  lemma PrefixOfJoin(a: seq<nat>, b: seq<nat>, c: seq<nat>, k: nat)
    requires k <= |c| && a + b == c[..k]
    ensures a <= c && |a| + |b| == k
  {
    assert a == (a + b)[..|a|];
  }

  lemma IdsPrefix(addresses: seq<Address>, k: nat)
    requires k <= |addresses|
    ensures Ids(addresses[..k]) == Ids(addresses)[..k]
  {
  }

  /** Bursts that the counter can number are stored at consecutive addresses. */
  lemma {:induction false} ShortIsSequential(size: nat, addresses: seq<Address>, ws: seq<Beat>)
    requires ShortBursts(ws)
    ensures Memory(size, COUNTED, addresses, ws) == Memory(size, SEQUENTIAL, addresses, ws)
  {
    if ws != [] {
      var before := ws[..|ws| - 1];
      assert before + [ws[|ws| - 1]] == ws;
      ShortPrefix(before, ws[|ws| - 1]);
      ShortIsSequential(size, addresses, before);
      SameCount(size, addresses, before, ws[|ws| - 1]);
    }
  }

  lemma SameCount(size: nat, addresses: seq<Address>, before: seq<Beat>, beat: Beat)
    requires Memory(size, COUNTED, addresses, before) == Memory(size, SEQUENTIAL, addresses, before) && Open(before) < 16
    ensures Memory(size, COUNTED, addresses, before + [beat]) == Memory(size, SEQUENTIAL, addresses, before + [beat])
  {
    MemoryUnfold(size, COUNTED, addresses, before, beat);
    MemoryUnfold(size, SEQUENTIAL, addresses, before, beat);
    SmallCount(Open(before));
  }

  lemma MemoryUnfold(size: nat, beats: nat, addresses: seq<Address>, before: seq<Beat>, beat: Beat)
    requires beats > 0
    ensures Memory(size, beats, addresses, before + [beat]) ==
      if Ended(before) < |addresses| then
        Store(Memory(size, beats, addresses, before), addresses[Ended(before)].addr, Open(before) % beats, beat)
      else Memory(size, beats, addresses, before)
  {
    assert (before + [beat])[..|before|] == before;
  }

  lemma SmallCount(n: nat)
    requires n <= 16
    ensures n % SEQUENTIAL == n && n % COUNTED == if n == 16 then 0 else n
  {
  }

  // ---------- The memory is a byte-strobed memory ----------

  function Lane(w: Word, l: nat): bv8
    requires l < 4
  {
    if l == 0 then w.lane0 else if l == 1 then w.lane1 else if l == 2 then w.lane2 else w.lane3
  }

  predicate Strobed(b: Strobes, l: nat)
    requires l < 4
  {
    if l == 0 then b.lane0 else if l == 1 then b.lane1 else if l == 2 then b.lane2 else b.lane3
  }

  /** Beat n writes byte lane l of configuration word j. */
  predicate Hits(size: nat, beats: nat, addresses: seq<Address>, ws: seq<Beat>, n: nat, j: nat, l: nat)
    requires beats > 0 && n < |ws| && l < 4
  {
    var k := Ended(ws[..n]);
    && k < |addresses| && Port(addresses[k].addr) == 0
    && WordAddress(addresses[k].addr, Open(ws[..n]) % beats) % Span(size) == j
    && Strobed(ws[n].strobes, l)
  }

  lemma StoreLane(cfg: seq<Word>, addr: nat, i: nat, beat: Beat, j: nat, l: nat)
    requires j < |cfg| && l < 4
    ensures Lane(Store(cfg, addr, i, beat)[j], l) ==
      if Port(addr) == 0 && WordAddress(addr, i) % Span(|cfg|) == j && Strobed(beat.strobes, l) then Lane(beat.data, l)
      else Lane(cfg[j], l)
  {
  }

  /** Each byte holds what the last beat that hit it wrote. */
  lemma {:induction false} LastWriteWins(size: nat, beats: nat, addresses: seq<Address>, ws: seq<Beat>, n: nat, j: nat, l: nat)
    requires beats > 0 && j < size && l < 4 && n < |ws| && Hits(size, beats, addresses, ws, n, j, l)
    requires forall n' | n < n' < |ws| :: !Hits(size, beats, addresses, ws, n', j, l)
    ensures Lane(Memory(size, beats, addresses, ws)[j], l) == Lane(ws[n].data, l)
  {
    var last := |ws| - 1;
    LastBeatLane(size, beats, addresses, ws, j, l);
    if n < last {
      EarlierHits(size, beats, addresses, ws, n, j, l);
      forall n' | n < n' < last ensures !Hits(size, beats, addresses, ws[..last], n', j, l) {
        EarlierHits(size, beats, addresses, ws, n', j, l);
      }
      LastWriteWins(size, beats, addresses, ws[..last], n, j, l);
    }
  }

  lemma EarlierHits(size: nat, beats: nat, addresses: seq<Address>, ws: seq<Beat>, n: nat, j: nat, l: nat)
    requires beats > 0 && n < |ws| - 1 && l < 4
    ensures Hits(size, beats, addresses, ws[..|ws| - 1], n, j, l) <==> Hits(size, beats, addresses, ws, n, j, l)
  {
    assert ws[..|ws| - 1][..n] == ws[..n];
  }

  /** The effect of the last beat on one byte. */
  lemma LastBeatLane(size: nat, beats: nat, addresses: seq<Address>, ws: seq<Beat>, j: nat, l: nat)
    requires beats > 0 && ws != [] && j < size && l < 4
    ensures Lane(Memory(size, beats, addresses, ws)[j], l) ==
      if Hits(size, beats, addresses, ws, |ws| - 1, j, l) then Lane(ws[|ws| - 1].data, l)
      else Lane(Memory(size, beats, addresses, ws[..|ws| - 1])[j], l)
  {
    var before := ws[..|ws| - 1];
    if Ended(before) < |addresses| {
      StoreLane(Memory(size, beats, addresses, before), addresses[Ended(before)].addr, Open(before) % beats, ws[|ws| - 1], j, l);
    }
  }

  /** A byte that no beat hit is still zero. */
  lemma {:induction false} UnwrittenIsZero(size: nat, beats: nat, addresses: seq<Address>, ws: seq<Beat>, j: nat, l: nat)
    requires beats > 0 && j < size && l < 4
    requires forall n | 0 <= n < |ws| :: !Hits(size, beats, addresses, ws, n, j, l)
    ensures Lane(Memory(size, beats, addresses, ws)[j], l) == 0
  {
    if ws != [] {
      var last := |ws| - 1;
      LastBeatLane(size, beats, addresses, ws, j, l);
      forall n | 0 <= n < last ensures !Hits(size, beats, addresses, ws[..last], n, j, l) {
        EarlierHits(size, beats, addresses, ws, n, j, l);
      }
      UnwrittenIsZero(size, beats, addresses, ws[..last], j, l);
    }
  }

  // ---------- Bursts that are too long ----------

  /** Seventeen full words in one burst to address 0. */
  predicate LongBurst(ws: seq<Beat>) {
    |ws| == 17 && forall n | 0 <= n < 17 :: ws[n].strobes == Strobes(true, true, true, true) && (ws[n].last <==> n == 16)
  }

  lemma {:induction false} StillOpen(ws: seq<Beat>, n: nat)
    requires LongBurst(ws) && n <= 16
    ensures Ended(ws[..n]) == 0 && Open(ws[..n]) == n
  {
    if n > 0 {
      StillOpen(ws, n - 1);
      assert ws[..n][..n - 1] == ws[..n - 1];
    }
  }

  lemma LongBurstHits(size: nat, beats: nat, addresses: seq<Address>, ws: seq<Beat>, n: nat, l: nat)
    requires LongBurst(ws) && addresses == [Address(0, 0)] && size == 32 && n < 17 && l < 4
    requires beats == COUNTED || beats == SEQUENTIAL
    ensures Hits(size, beats, addresses, ws, n, 0, l) <==> n == 0 || (beats == COUNTED && n == 16)
  {
    StillOpen(ws, n);
    SpanOf32();
    SmallCount(n);
    assert WordAddress(0, n % beats) == n % beats;
  }

  lemma SpanOf32()
    ensures Span(32) == 32
  {
    assert Span(4) == 4 && Span(8) == 8 && Span(16) == 16;
  }

  /** Its last word overwrites its first one, which a sequential memory would keep. */
  lemma LongBurstWraps(size: nat, addresses: seq<Address>, ws: seq<Beat>, l: nat)
    requires LongBurst(ws) && addresses == [Address(0, 0)] && size == 32 && l < 4
    ensures Lane(Memory(size, COUNTED, addresses, ws)[0], l) == Lane(ws[16].data, l)
    ensures Lane(Memory(size, SEQUENTIAL, addresses, ws)[0], l) == Lane(ws[0].data, l)
  {
    forall n: nat | n < 17
      ensures Hits(size, COUNTED, addresses, ws, n, 0, l) <==> n == 0 || n == 16
      ensures Hits(size, SEQUENTIAL, addresses, ws, n, 0, l) <==> n == 0
    {
      LongBurstHits(size, COUNTED, addresses, ws, n, l);
      LongBurstHits(size, SEQUENTIAL, addresses, ws, n, l);
    }
    LastWriteWins(size, COUNTED, addresses, ws, 16, 0, l);
    LastWriteWins(size, SEQUENTIAL, addresses, ws, 0, 0, l);
  }
}

module AxiHubReads {
  import opened StreamBuffers
  import opened AxiHub

  /** A beat handed to the read buffer: the address of its request, its number, and the clock that made it. */
  datatype Pushed = Pushed(beat: ReadBeat, addr: nat, number: nat, clock: nat)

  /** A word that a stream gave up. */
  datatype Pop = Pop(stream: nat, word: Word)

  datatype Log = Log(requests: seq<Request>, done: nat, pushed: seq<Pushed>,
                     delivered: seq<ReadBeat>, popped: seq<Pop>)

  /** The word that leaves a stream in this clock: its valid and ready wires are both high. */
  function PoppedNow(s: Reader, m: ReadIn): seq<Pop> {
    if exists j | 0 <= j < |m.streams| :: StreamReady(s, m, j) && m.streams[j].valid then
      var j :| 0 <= j < |m.streams| && StreamReady(s, m, j) && m.streams[j].valid;
      [Pop(j, m.streams[j].word)]
    else []
  }

  function PushedNow(s: Reader, m: ReadIn, clock: nat): Pushed {
    Pushed(NextBeat(s, m), s.ar.OutData().addr, s.count, clock)
  }

  function Record(s: Reader, m: ReadIn, log: Log, clock: nat): Log {
    Log(log.requests + (if m.arvalid && s.ar.InReady() then [m.ar] else []),
        log.done + (if s.ar.OutValid() && RequestReady(s, m) then 1 else 0),
        log.pushed + (if ReadEnable(s, m) then [PushedNow(s, m, clock)] else []),
        log.delivered + (if s.r.valid && m.rready then [s.r.data] else []),
        log.popped + PoppedNow(s, m))
  }

  function Run(s: Reader, ms: seq<ReadIn>): (Reader, Log) {
    if ms == [] then (s, Log([], 0, [], [], []))
    else
      var (t, log) := Run(s, ms[..|ms| - 1]);
      (ClockReader(t, ms[|ms| - 1]), Record(t, ms[|ms| - 1], log, |ms| - 1))
  }

  // ---------- What a request asks for ----------

  /** The frame of a beat: which request it answers, whether it is the last, and which word it asks for. */
  datatype Frame = Frame(id: nat, last: bool, addr: nat, number: nat)

  function FrameOf(p: Pushed): Frame { Frame(p.beat.id, p.beat.last, p.addr, p.number) }

  /** The first n beats of the answer to a request. */
  function Answer(request: Request, n: nat): (r: seq<Frame>)
    ensures |r| == n
  {
    seq(n, i requires 0 <= i => Frame(request.id, i == request.len, request.addr, i))
  }

  /** The complete answers to the requests, one after the other: len + 1 beats each. */
  function Answers(requests: seq<Request>): seq<Frame> {
    if requests == [] then []
    else
      var last := requests[|requests| - 1];
      Answers(requests[..|requests| - 1]) + Answer(last, last.len + 1)
  }

  function Frames(pushed: seq<Pushed>): (r: seq<Frame>)
    ensures |r| == |pushed|
  {
    seq(|pushed|, i requires 0 <= i < |pushed| => FrameOf(pushed[i]))
  }

  function Beats(pushed: seq<Pushed>): (r: seq<ReadBeat>)
    ensures |r| == |pushed|
  {
    seq(|pushed|, i requires 0 <= i < |pushed| => pushed[i].beat)
  }

  /** The stream words that the pushed beats carry, in order. */
  function Carried(pushed: seq<Pushed>): seq<Pop> {
    if pushed == [] then []
    else
      var p := pushed[|pushed| - 1];
      Carried(pushed[..|pushed| - 1]) +
      if Port(p.addr) >= 2 && p.beat.payload.Direct? then [Pop(Port(p.addr) - 2, p.beat.payload.word)] else []
  }

  /** The answer in progress: the first `count` beats for the request at the head of the queue. */
  function Started(log: Log, count: nat): seq<Frame> {
    if log.done < |log.requests| then Answer(log.requests[log.done], count) else []
  }

  ghost predicate RequestsInv(s: Reader, log: Log) {
    log.done <= |log.requests| && log.requests[log.done..] == s.ar.Contents()
  }

  ghost predicate DeliveredInv(s: Reader, log: Log) {
    log.delivered + s.r.Contents() == Beats(log.pushed)
  }

  ghost predicate FramesInv(s: Reader, log: Log) {
    && log.done <= |log.requests|
    && (if log.done < |log.requests| then s.count <= log.requests[log.done].len else s.count == 0)
    && Frames(log.pushed) == Answers(log.requests[..log.done]) + Started(log, s.count)
  }

  ghost predicate CarriedInv(log: Log) { log.popped == Carried(log.pushed) }

  ghost predicate Inv(s: Reader, log: Log) {
    RequestsInv(s, log) && DeliveredInv(s, log) && FramesInv(s, log) && CarriedInv(log)
  }

  lemma PoppedNowIs(s: Reader, m: ReadIn)
    ensures PoppedNow(s, m) ==
      var j := Port(s.ar.OutData().addr) - 2;
      if ReadEnable(s, m) && 0 <= j < |m.streams| && m.streams[j].valid then [Pop(j, m.streams[j].word)] else []
  {
    var j := Port(s.ar.OutData().addr) - 2;
    if ReadEnable(s, m) && 0 <= j < |m.streams| && m.streams[j].valid { assert StreamReady(s, m, j); }
  }

  lemma CarriedNext(s: Reader, m: ReadIn, log: Log, clock: nat)
    requires CarriedInv(log)
    ensures CarriedInv(Record(s, m, log, clock))
  {
    PoppedNowIs(s, m);
    if ReadEnable(s, m) {
      var p := PushedNow(s, m, clock);
      assert (log.pushed + [p])[..|log.pushed|] == log.pushed;
      assert Carried(log.pushed + [p]) == Carried(log.pushed) + PoppedNow(s, m);
    } else {
      assert log.pushed + [] == log.pushed && log.popped + [] == log.popped;
    }
  }

  lemma FramesJoin(p: seq<Pushed>, q: Pushed)
    ensures Frames(p + [q]) == Frames(p) + [FrameOf(q)]
    ensures Beats(p + [q]) == Beats(p) + [q.beat]
  {
  }

  lemma RequestsKeep(s: Reader, m: ReadIn, log: Log, clock: nat)
    requires RequestsInv(s, log)
    ensures RequestsInv(ClockReader(s, m), Record(s, m, log, clock))
  {
    Accepts(s.ar, m.arvalid, m.ar, RequestReady(s, m), log.requests, log.done);
  }

  lemma HeadIs(s: Reader, log: Log)
    requires RequestsInv(s, log)
    ensures s.ar.OutValid() ==> log.done < |log.requests| && log.requests[log.done] == s.ar.OutData()
  {
    if s.ar.OutValid() { assert log.requests[log.done] == log.requests[log.done..][0]; }
  }

  lemma DeliveredKeeps(s: Reader, m: ReadIn, log: Log, clock: nat)
    requires DeliveredInv(s, log)
    ensures DeliveredInv(ClockReader(s, m), Record(s, m, log, clock))
  {
    Delivers(s.r, s.ar.OutValid(), NextBeat(s, m), m.rready, log.delivered, Beats(log.pushed));
    if ReadEnable(s, m) { FramesJoin(log.pushed, PushedNow(s, m, clock)); }
  }

  /** A clock that hands over the last beat of an answer. */
  lemma LastKeeps(s: Reader, m: ReadIn, log: Log, clock: nat)
    requires FramesInv(s, log) && ReadEnable(s, m) && LastBeat(s)
    requires log.done < |log.requests| && log.requests[log.done] == s.ar.OutData()
    ensures FramesInv(ClockReader(s, m), Record(s, m, log, clock))
  {
    var log' := Record(s, m, log, clock);
    var request := log.requests[log.done];
    FramesJoin(log.pushed, PushedNow(s, m, clock));
    assert Answer(request, request.len + 1) == Answer(request, request.len) + [Frame(request.id, true, request.addr, request.len)];
    assert log'.requests[..log'.done][..log.done] == log.requests[..log.done];
    assert log'.requests[..log'.done][log.done] == request;
    assert Started(log', 0) == [];
  }

  /** A clock that hands over another beat. */
  lemma MiddleKeeps(s: Reader, m: ReadIn, log: Log, clock: nat)
    requires FramesInv(s, log) && ReadEnable(s, m) && !LastBeat(s)
    requires log.done < |log.requests| && log.requests[log.done] == s.ar.OutData()
    ensures FramesInv(ClockReader(s, m), Record(s, m, log, clock))
  {
    var log' := Record(s, m, log, clock);
    var request := log.requests[log.done];
    FramesJoin(log.pushed, PushedNow(s, m, clock));
    assert Answer(request, s.count + 1) == Answer(request, s.count) + [Frame(request.id, false, request.addr, s.count)];
    assert log'.requests[..log.done] == log.requests[..log.done];
  }

  /** A clock that hands over nothing. */
  lemma StallKeeps(s: Reader, m: ReadIn, log: Log, clock: nat)
    requires FramesInv(s, log) && !ReadEnable(s, m)
    ensures FramesInv(ClockReader(s, m), Record(s, m, log, clock))
  {
    var log' := Record(s, m, log, clock);
    assert log'.pushed == log.pushed;
    assert log'.requests[..log.done] == log.requests[..log.done];
    if log.done == |log.requests| { assert Started(log', 0) == []; }
  }

  lemma ClockKeeps(s: Reader, m: ReadIn, log: Log, clock: nat)
    requires Inv(s, log)
    ensures Inv(ClockReader(s, m), Record(s, m, log, clock))
  {
    RequestsKeep(s, m, log, clock);
    DeliveredKeeps(s, m, log, clock);
    CarriedNext(s, m, log, clock);
    HeadIs(s, log);
    if !ReadEnable(s, m) { StallKeeps(s, m, log, clock); }
    else if LastBeat(s) { LastKeeps(s, m, log, clock); }
    else { MiddleKeeps(s, m, log, clock); }
  }

  lemma {:induction false} RunKeeps(s: Reader, ms: seq<ReadIn>)
    requires ReaderReset(s)
    ensures var (t, log) := Run(s, ms); Inv(t, log)
  {
    if ms != [] {
      RunKeeps(s, ms[..|ms| - 1]);
      var (t, log) := Run(s, ms[..|ms| - 1]);
      ClockKeeps(t, ms[|ms| - 1], log, |ms| - 1);
    }
  }

  /** A beat carries what its port shows, in the clock that makes it, for the word that it asks for. */
  predicate Fetched(ms: seq<ReadIn>, p: Pushed) {
    p.clock < |ms| && p.beat.payload == Fetch(ms[p.clock], p.addr, p.number)
  }

  lemma {:induction false} RunFetches(s: Reader, ms: seq<ReadIn>, n: nat)
    requires n < |Run(s, ms).1.pushed|
    ensures Fetched(ms, Run(s, ms).1.pushed[n])
  {
    var init := ms[..|ms| - 1];
    var (t, log) := Run(s, init);
    if n < |log.pushed| { RunFetches(s, init, n); }
  }

  /**
   Every accepted read request is answered in order by exactly len + 1 beats with its own
   ID, of which only the final one is marked last and beat i asks for the i-th word from
   the address on; the master receives those beats in order, none lost or repeated.
   */
  lemma ReadBursts(s: Reader, ms: seq<ReadIn>)
    requires ReaderReset(s)
    ensures var (t, log) := Run(s, ms);
      && log.done <= |log.requests|
      && Frames(log.pushed) == Answers(log.requests[..log.done]) + Started(log, t.count)
      && (log.done < |log.requests| ==> t.count <= log.requests[log.done].len)
      && log.delivered <= Beats(log.pushed) && |log.pushed| <= |log.delivered| + 1
      && forall n | 0 <= n < |log.pushed| :: Fetched(ms, log.pushed[n])
  {
    RunKeeps(s, ms);
    forall n | 0 <= n < |Run(s, ms).1.pushed| ensures Fetched(ms, Run(s, ms).1.pushed[n]) { RunFetches(s, ms, n); }
  }

  /** A word leaves a stream exactly when a read beat carries it: each popped word is on one beat, in order. */
  lemma PoppedOnce(s: Reader, ms: seq<ReadIn>)
    requires ReaderReset(s)
    ensures var (t, log) := Run(s, ms); log.popped == Carried(log.pushed)
  {
    RunKeeps(s, ms);
  }
}
