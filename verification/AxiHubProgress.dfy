/** The AXI hub makes progress, and a response or read beat that waits does not change. */
module AxiHubProgress {
  import opened StreamBuffers
  import opened AxiHub
  import Writes = AxiHubWrites
  import Reads = AxiHubReads

  // ---------- Handshakes are stable ----------

  /** A response stays as it is until the master takes it. */
  lemma {:induction false} ResponseWaits(s: Writer, ms: seq<WriteIn>)
    requires s.b.valid && forall k | 0 <= k < |ms| :: !ms[k].bready
    ensures Writes.Run(s, ms).0.b == s.b
  {
    if ms != [] { ResponseWaits(s, ms[..|ms| - 1]); }
  }

  /** So does a read beat. */
  lemma {:induction false} ReadBeatWaits(s: Reader, ms: seq<ReadIn>)
    requires s.r.valid && forall k | 0 <= k < |ms| :: !ms[k].rready
    ensures Reads.Run(s, ms).0.r == s.r
  {
    if ms != [] { ReadBeatWaits(s, ms[..|ms| - 1]); }
  }

  // ---------- Buffers ----------

  /** After any clock an element in the buffer is at its output. */
  lemma Settles<T>(b: InoutBuffer<T>, inValid: bool, inData: T, outReady: bool)
    ensures var c := b.Clock(inValid, inData, outReady); c.Contents() != [] ==> c.OutValid()
  {
  }

  /** With an input every clock there is one at the output after every clock. */
  lemma KeepsValid<T>(b: InoutBuffer<T>, inData: T, outReady: bool)
    ensures b.Clock(true, inData, outReady).OutValid()
  {
  }

  lemma ContentsShrink<T>(b: InoutBuffer<T>, inValid: bool, inData: T, outReady: bool)
    ensures var c := b.Clock(inValid, inData, outReady);
      |c.Contents()| >= |b.Contents()| - if b.OutValid() && outReady then 1 else 0
  {
    InoutIsQueue(b, inValid, inData, outReady);
  }

  // ---------- Writes ----------

  /** The master keeps the response channel ready and offers a beat in every clock. */
  predicate Flowing(ms: seq<WriteIn>) { forall k | 0 <= k < |ms| :: ms[k].bready && ms[k].wvalid }

  /**
   After the first clock a beat is executed in every clock until the bursts are ended whose
   addresses had been accepted at the start.
   */
  lemma {:induction false} BeatPerClock(s: Writer, ms: seq<WriteIn>)
    requires ms != [] && Flowing(ms)
    ensures var (t, log) := Writes.Run(s, ms);
      && t.w.OutValid() && (t.aw.Contents() != [] ==> t.aw.OutValid())
      && |t.aw.Contents()| >= |s.aw.Contents()| - Writes.Ended(log.done)
      && (Writes.Ended(log.done) >= |s.aw.Contents()| || |log.done| >= |ms| - 1)
  {
    var init, m := ms[..|ms| - 1], ms[|ms| - 1];
    if init != [] { BeatPerClock(s, init); }
    var (t, log) := Writes.Run(s, init);
    BeatStep(t, m, log);
  }

  lemma BeatStep(s: Writer, m: WriteIn, log: Writes.Log)
    requires m.bready && m.wvalid
    ensures var t, now := ClockWriter(s, m), Writes.Record(s, m, log);
      && t.w.OutValid() && (t.aw.Contents() != [] ==> t.aw.OutValid())
      && |t.aw.Contents()| + Writes.Ended(now.done) >= |s.aw.Contents()| + Writes.Ended(log.done)
      && Writes.Ended(now.done) >= Writes.Ended(log.done)
      && (s.w.OutValid() && s.aw.OutValid() ==> |now.done| == |log.done| + 1)
      && |now.done| >= |log.done|
  {
    Settles(s.aw, m.awvalid, m.aw, AddressReady(s, m));
    KeepsValid(s.w, m.w, BeatReady(s, m));
    ContentsShrink(s.aw, m.awvalid, m.aw, AddressReady(s, m));
    Writes.EndedNext(s, m, log);
  }

  lemma {:induction false} EndedGrows(ws: seq<Beat>, n: nat)
    requires n <= |ws|
    ensures Writes.Ended(ws[..n]) <= Writes.Ended(ws)
  {
    if n < |ws| {
      EndedGrows(ws[..|ws| - 1], n);
      assert ws[..|ws| - 1][..n] == ws[..n];
    } else {
      assert ws[..n] == ws;
    }
  }

  /** The beats executed are the first of those that the hub held or was given. */
  lemma {:induction false} BeatsInOrder(s: Writer, ms: seq<WriteIn>)
    ensures var (t, log) := Writes.Run(s, ms);
      log.done + t.w.Contents() == s.w.Contents() + log.beats
  {
    if ms == [] {
      assert [] + s.w.Contents() == s.w.Contents() + [];
    } else {
      var init, m := ms[..|ms| - 1], ms[|ms| - 1];
      BeatsInOrder(s, init);
      var (t, log) := Writes.Run(s, init);
      OneMoreBeat(s.w.Contents(), t, m, log);
    }
  }

  lemma OneMoreBeat(held: seq<Beat>, t: Writer, m: WriteIn, log: Writes.Log)
    requires log.done + t.w.Contents() == held + log.beats
    ensures var now := Writes.Record(t, m, log);
      now.done + ClockWriter(t, m).w.Contents() == held + now.beats
  {
    Writes.BeatsKeep(t, m, log.(beats := held + log.beats));
    Associate(held, log.beats, if m.wvalid && t.w.InReady() then [m.w] else []);
  }

  lemma Associate(a: seq<Beat>, b: seq<Beat>, c: seq<Beat>)
    ensures a + b + c == a + (b + c)
  {
  }

  /** A response is delivered in the clock after its burst has ended. */
  lemma {:induction false} ResponsesFollow(s: Writer, ms: seq<WriteIn>)
    requires Flowing(ms)
    ensures var (t, log) := Writes.Run(s, ms);
      |log.responses| + |t.b.Contents()| == |s.b.Contents()| + Writes.Ended(log.done)
  {
    if ms != [] {
      var init, m := ms[..|ms| - 1], ms[|ms| - 1];
      ResponsesFollow(s, init);
      var (t, log) := Writes.Run(s, init);
      Writes.EndedNext(t, m, log);
      ResponseStep(t, m, log);
    }
  }

  lemma ResponseStep(s: Writer, m: WriteIn, log: Writes.Log)
    ensures var t, now := ClockWriter(s, m), Writes.Record(s, m, log);
      |now.responses| + |t.b.Contents()| == |log.responses| + |s.b.Contents()| + if Writes.Ends(s, m) then 1 else 0
  {
  }

  /**
   Every burst that had been accepted is answered in time: if its beats and those before it
   are among the next `beats` that the hub holds or is given, the responses to all of them
   are delivered within beats + 2 clocks.
   */
  lemma WritesAnswered(s: Writer, ms: seq<WriteIn>, beats: nat)
    requires Flowing(ms) && |ms| == beats + 2
    requires var given := s.w.Contents() + Writes.Run(s, ms).1.beats;
      beats <= |given| && Writes.Ended(given[..beats]) >= |s.aw.Contents()|
    ensures |Writes.Run(s, ms).1.responses| >= |s.b.Contents()| + |s.aw.Contents()|
  {
    var init, m := ms[..|ms| - 1], ms[|ms| - 1];
    var (t, log) := Writes.Run(s, init);
    BeatPerClock(s, init);
    ResponsesFollow(s, init);
    DoneIsPrefix(s, ms);
    if |log.done| >= beats { EnoughEnded(log.done, s.w.Contents() + Writes.Run(s, ms).1.beats, beats); }
    LastResponse(t, m, log);
  }

  lemma DoneIsPrefix(s: Writer, ms: seq<WriteIn>)
    requires ms != []
    ensures Writes.Run(s, ms[..|ms| - 1]).1.done <= s.w.Contents() + Writes.Run(s, ms).1.beats
  {
    BeatsInOrder(s, ms);
    var done, now := Writes.Run(s, ms[..|ms| - 1]).1.done, Writes.Run(s, ms).1.done;
    assert done <= now;
    assert now <= s.w.Contents() + Writes.Run(s, ms).1.beats;
  }

  lemma EnoughEnded(done: seq<Beat>, given: seq<Beat>, beats: nat)
    requires done <= given && beats <= |done|
    ensures Writes.Ended(given[..beats]) <= Writes.Ended(done)
  {
    assert given[..beats] == done[..beats];
    EndedGrows(done, beats);
  }

  lemma LastResponse(t: Writer, m: WriteIn, log: Writes.Log)
    requires m.bready
    ensures |Writes.Record(t, m, log).responses| == |log.responses| + |t.b.Contents()|
  {
  }

  // ---------- Reads ----------

  /** The number of beats that requests ask for. */
  function Owed(rs: seq<Request>): nat {
    if rs == [] then 0 else rs[0].len + 1 + Owed(rs[1..])
  }

  /** The count of a reader never passes the length of the request it works on, which AxiHubReads shows. */
  predicate Counting(s: Reader) { s.ar.Contents() != [] ==> s.count <= s.ar.Contents()[0].len }

  /** The beats still owed to the first a requests in the queue. */
  function Left(s: Reader, a: nat): (r: nat)
    requires Counting(s) && a <= |s.ar.Contents()|
    ensures a > 0 ==> r > 0
  {
    if a == 0 then 0 else Owed(s.ar.Contents()[..a]) - s.count
  }

  /** The clock that hands over the last beat of the request at the head. */
  lemma ReadLast(s: Reader, m: ReadIn, a: nat)
    requires m.rready && Counting(s) && 0 < a <= |s.ar.Contents()| && s.ar.OutValid() && LastBeat(s)
    ensures var t := ClockReader(s, m);
      a > 1 ==> Counting(t) && a - 1 <= |t.ar.Contents()| && t.ar.OutValid() && Left(t, a - 1) == Left(s, a) - 1
  {
    var t := ClockReader(s, m);
    InoutIsQueue(s.ar, m.arvalid, m.ar, true);
    Settles(s.ar, m.arvalid, m.ar, true);
    var was, now := s.ar.Contents(), t.ar.Contents();
    assert was[..a][1..] == was[1..][..a - 1];
    if a > 1 { assert now[..a - 1] == was[1..][..a - 1]; }
  }

  /** Any other clock leaves the requests in the queue where they are. */
  lemma QueueStays(s: Reader, m: ReadIn, a: nat)
    requires m.rready && 0 < a <= |s.ar.Contents()| && !(s.ar.OutValid() && LastBeat(s))
    ensures var t := ClockReader(s, m);
      && t.ar.OutValid() && a <= |t.ar.Contents()|
      && t.ar.Contents()[..a] == s.ar.Contents()[..a] && t.ar.Contents()[0] == s.ar.Contents()[0]
  {
    InoutIsQueue(s.ar, m.arvalid, m.ar, RequestReady(s, m));
    Settles(s.ar, m.arvalid, m.ar, RequestReady(s, m));
    FrontKept(s.ar.Contents(), if m.arvalid && s.ar.InReady() then [m.ar] else [], a);
  }

  /** It hands over a beat, or has to wait for the head of the queue to reach the output. */
  lemma ReadMore(s: Reader, m: ReadIn, a: nat)
    requires m.rready && Counting(s) && 0 < a <= |s.ar.Contents()| && !(s.ar.OutValid() && LastBeat(s))
    ensures var t := ClockReader(s, m);
      && Counting(t) && a <= |t.ar.Contents()| && t.ar.OutValid()
      && Left(t, a) == Left(s, a) - if s.ar.OutValid() then 1 else 0
  {
    QueueStays(s, m, a);
    InoutIsQueue(s.ar, m.arvalid, m.ar, RequestReady(s, m));
    assert ClockReader(s, m).count == s.count + if s.ar.OutValid() then 1 else 0;
  }

  lemma FrontKept(was: seq<Request>, more: seq<Request>, a: nat)
    requires 0 < a <= |was|
    ensures (was + more)[..a] == was[..a] && (was + more)[0] == was[0]
  {
  }

  /** All requests of the start are answered, or there is one beat less to come for each clock but the first. */
  ghost predicate OnTheWay(s: Reader, t: Reader, done: nat, clocks: nat) {
    var a := |s.ar.Contents()|;
    Counting(s) && (done >= a ||
      (Counting(t) && t.ar.OutValid() && a - done <= |t.ar.Contents()| && Left(t, a - done) + clocks - 1 <= Left(s, a)))
  }

  lemma StaysOnTheWay(s: Reader, t: Reader, done: nat, clocks: nat, m: ReadIn)
    requires m.rready && OnTheWay(s, t, done, clocks)
    ensures OnTheWay(s, ClockReader(t, m), done + if t.ar.OutValid() && RequestReady(t, m) then 1 else 0, clocks + 1)
  {
    var a := |s.ar.Contents()|;
    if done < a {
      if LastBeat(t) { ReadLast(t, m, a - done); } else { ReadMore(t, m, a - done); }
    }
  }

  lemma StartsOnTheWay(s: Reader, m: ReadIn)
    requires m.rready && Counting(s)
    ensures OnTheWay(s, ClockReader(s, m), if s.ar.OutValid() && RequestReady(s, m) then 1 else 0, 1)
  {
    var a := |s.ar.Contents()|;
    if a > 0 {
      if s.ar.OutValid() && LastBeat(s) { ReadLast(s, m, a); } else { ReadMore(s, m, a); }
    }
  }

  /** After the first clock a beat is handed over in every clock until the requests in the queue are answered. */
  lemma {:induction false} ReadBeatPerClock(s: Reader, ms: seq<ReadIn>)
    requires ms != [] && Counting(s) && forall k | 0 <= k < |ms| :: ms[k].rready
    ensures var (t, log) := Reads.Run(s, ms); OnTheWay(s, t, log.done, |ms|)
  {
    var init, m := ms[..|ms| - 1], ms[|ms| - 1];
    if init == [] {
      StartsOnTheWay(s, m);
    } else {
      ReadBeatPerClock(s, init);
      var (t, log) := Reads.Run(s, init);
      StaysOnTheWay(s, t, log.done, |init|, m);
    }
  }

  lemma {:induction false} DeliveredFollow(s: Reader, ms: seq<ReadIn>)
    ensures var (t, log) := Reads.Run(s, ms);
      |log.delivered| + |t.r.Contents()| == |s.r.Contents()| + |log.pushed|
  {
    if ms != [] { DeliveredFollow(s, ms[..|ms| - 1]); }
  }

  /**
   While the master keeps its ready wire high, every request that had been accepted is
   answered in time: after as many clocks as beats are owed, and one more, all its beats
   are handed over, and the master has them one clock later.
   */
  lemma ReadsAnswered(s: Reader, ms: seq<ReadIn>)
    requires Counting(s) && |ms| == Left(s, |s.ar.Contents()|) + 2
    requires forall k | 0 <= k < |ms| :: ms[k].rready
    ensures var before := Reads.Run(s, ms[..|ms| - 1]).1;
      && before.done >= |s.ar.Contents()|
      && |Reads.Run(s, ms).1.delivered| >= |s.r.Contents()| + |before.pushed|
  {
    var init := ms[..|ms| - 1];
    ReadBeatPerClock(s, init);
    DeliveredFollow(s, init);
  }

  /** Every state that the hub reaches counts that way. */
  lemma ReachedCounts(s: Reader, ms: seq<ReadIn>)
    requires ReaderReset(s)
    ensures Counting(Reads.Run(s, ms).0)
  {
    Reads.RunKeeps(s, ms);
    var (t, log) := Reads.Run(s, ms);
    if t.ar.Contents() != [] { assert log.requests[log.done..][0] == log.requests[log.done]; }
  }
}
