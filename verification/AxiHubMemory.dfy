/** Both halves of the hub together: a read of the configuration words returns what write bursts have stored. */
module AxiHubMemory {
  import opened AxiHub
  import Writes = AxiHubWrites
  import Reads = AxiHubReads

  /** Inputs for a run of the whole hub: in each clock the read half sees the register file as it is before the edge. */
  ghost predicate Joined(s: Writer, ws: seq<WriteIn>, rs: seq<ReadIn>) {
    |ws| == |rs| && forall k | 0 <= k < |rs| :: rs[k].cfg == Writes.Run(s, ws[..k]).0.cfg
  }

  /** The word of the register file that a read beat asks for. */
  function Asked(size: nat, p: Reads.Pushed): nat { WordAddress(p.addr, p.number) % Span(size) }

  /**
   In every run of the hub, beat i of a read of the configuration words carries the i-th
   word from its address on, as the beats written before the clock that made it have
   left it in the memory.
   */
  lemma ReadsSeeWrites(sw: Writer, sr: Reader, ws: seq<WriteIn>, rs: seq<ReadIn>, n: nat)
    requires WriterReset(sw) && ReaderReset(sr) && Joined(sw, ws, rs)
    requires n < |Reads.Run(sr, rs).1.pushed| && Port(Reads.Run(sr, rs).1.pushed[n].addr) == 0
    ensures var p := Reads.Run(sr, rs).1.pushed[n];
      && p.clock < |ws|
      && var log := Writes.Run(sw, ws[..p.clock]).1;
      p.beat.payload ==
        if Asked(|sw.cfg|, p) < |sw.cfg| then
          Direct(Writes.Memory(|sw.cfg|, Writes.COUNTED, log.addresses, log.done)[Asked(|sw.cfg|, p)])
        else Undefined
  {
    Reads.RunFetches(sr, rs, n);
    var p := Reads.Run(sr, rs).1.pushed[n];
    Writes.WriteBursts(sw, ws[..p.clock]);
  }

  /** What drives the read half from outside. */
  datatype Pins = Pins(arvalid: bool, ar: Request, rready: bool, sts: seq<Word>, streams: seq<Stream>) {
    function With(cfg: seq<Word>): ReadIn { ReadIn(arvalid, ar, rready, cfg, sts, streams) }
  }

  ghost predicate Driven(pins: seq<Pins>, rs: seq<ReadIn>) {
    |rs| <= |pins| && forall k | 0 <= k < |rs| :: rs[k] == pins[k].With(rs[k].cfg)
  }

  /** Both halves as they are after such a run. */
  ghost predicate InRun(sw: Writer, sr: Reader, ws: seq<WriteIn>, pins: seq<Pins>, rs: seq<ReadIn>, w: Writer, r: Reader) {
    && Joined(sw, ws, rs) && Driven(pins, rs)
    && w == Writes.Run(sw, ws).0 && r == Reads.Run(sr, rs).0
  }

  /** The hub, clocked once for each input: its two halves are in such a run. */
  method Drive(hub: Hub, ws: seq<WriteIn>, pins: seq<Pins>) returns (rs: seq<ReadIn>)
    requires |ws| == |pins|
    modifies hub
    ensures InRun(old(hub.WriterState()), old(hub.ReaderState()), ws, pins, rs, hub.WriterState(), hub.ReaderState())
  {
    rs := [];
    ghost var sw, sr := hub.WriterState(), hub.ReaderState();
    for i := 0 to |ws|
      invariant |rs| == i && InRun(sw, sr, ws[..i], pins, rs, hub.WriterState(), hub.ReaderState())
    {
      var read := pins[i].With(hub.cfg);
      RunOn(sw, sr, ws[..i], pins, rs, hub.WriterState(), hub.ReaderState(), ws[i]);
      assert ws[..i + 1] == ws[..i] + [ws[i]];
      hub.Clock(ws[i], read);
      rs := rs + [read];
    }
    assert ws[..|ws|] == ws;
  }

  lemma RunOn(sw: Writer, sr: Reader, ws: seq<WriteIn>, pins: seq<Pins>, rs: seq<ReadIn>, w: Writer, r: Reader, write: WriteIn)
    requires InRun(sw, sr, ws, pins, rs, w, r) && |rs| < |pins|
    ensures var read := pins[|rs|].With(w.cfg);
      InRun(sw, sr, ws + [write], pins, rs + [read], ClockWriter(w, write), ClockReader(r, read))
  {
    var read := pins[|rs|].With(w.cfg);
    assert (ws + [write])[..|ws|] == ws && (rs + [read])[..|rs|] == rs;
    assert forall k | 0 <= k < |rs| :: (ws + [write])[..k] == ws[..k];
  }
}
