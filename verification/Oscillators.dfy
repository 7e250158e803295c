/**
 What the four oscillators of the transceiver are tuned to, as a function of the frames
 that the client has sent.  Frequencies are in hertz, registers hold phase increments.
 */
module Oscillators {
  import opened Registers
  import opened RegistersTheorems

  /** What tuning depends on: frames, and the starts of the EP6 sender, which leave synchronous mode. */
  datatype Event = Given(frame: Frame) | Started

  function EventsOf(m: Message): seq<Event> {
    match m
    case Frames(first, second) => [Given(first), Given(second)]
    case Start => [Started]
  }

  function History(messages: seq<Message>): seq<Event> {
    if messages == [] then [] else History(messages[..|messages| - 1]) + EventsOf(messages[|messages| - 1])
  }

  function RunHistory(passes: seq<Pass>, n: nat): seq<Event>
    requires n <= |passes|
  {
    if n == 0 then [] else RunHistory(passes, n - 1) + History(passes[n - 1].messages)
  }

  // ---------- What the client has asked for ----------

  predicate Code(e: Event, code: bv8) { e.Given? && (e.frame[0] == code || e.frame[0] == code + 1) }

  /** A frame with an allowed frequency, up to 61.44 MHz, for one of the oscillators. */
  predicate Tunes(e: Event, code: bv8) { Code(e, code) && FreqOf(e.frame) <= 61_440_000 }

  predicate WantsSync(e: Event)
    requires e.Given?
  {
    e.frame[4] & 0x80 != 0
  }

  /** Whether synchronous mode is on after the events. */
  function Sync(es: seq<Event>): bool {
    if es == [] then false
    else
      var e := es[|es| - 1];
      if e.Started? then false else if Code(e, 0) then WantsSync(e) else Sync(es[..|es| - 1])
  }

  /** The last frequency asked for with a code, if any was. */
  function Asked(es: seq<Event>, code: bv8, default: nat): nat {
    if es == [] then default
    else if Tunes(es[|es| - 1], code) then FreqOf(es[|es| - 1].frame)
    else Asked(es[..|es| - 1], code, default)
  }

  /** Event k tunes the second receiver: the program ignores such frames in synchronous mode. */
  predicate TunesSecond(es: seq<Event>, k: nat)
    requires k < |es|
  {
    Tunes(es[k], 6) && !Sync(es[..k])
  }

  predicate SwitchesOn(es: seq<Event>, k: nat)
    requires k < |es|
  {
    Code(es[k], 0) && WantsSync(es[k]) && !Sync(es[..k])
  }

  /** The frequency of the second receiver in the program's table, 0 at the start. */
  function SecondFreq(es: seq<Event>): nat {
    if es == [] then 0
    else if TunesSecond(es, |es| - 1) then FreqOf(es[|es| - 1].frame)
    else SecondFreq(es[..|es| - 1])
  }

  /** Where the second oscillator has its frequency from: the start, its own frame, or the first receiver. */
  datatype Source = Default | Own(freq: nat) | Copied(freq: nat) {
    function Hertz(): nat { if Default? then 600000 else freq }
  }

  function Second(es: seq<Event>): Source {
    if es == [] then Default
    else
      var k, before := |es| - 1, es[..|es| - 1];
      if TunesSecond(es, k) then Own(FreqOf(es[k].frame))
      else if SwitchesOn(es, k) then Copied(Asked(before, 4, 600000))
      else if Tunes(es[k], 4) && Sync(before) then Copied(FreqOf(es[k].frame))
      else Second(before)
  }

  // ---------- The registers agree ----------

  ghost predicate Agrees(s: Settings, es: seq<Event>) {
    && s.sync == Sync(es)
    && s.freq == [Asked(es, 2, 0), Asked(es, 4, 0), SecondFreq(es)]
    && s.txFreq == PhaseIncrement(Asked(es, 2, 600000))
    && s.rxFreq == [PhaseIncrement(Asked(es, 4, 600000)), PhaseIncrement(Second(es).Hertz()), PhaseIncrement(Asked(es, 8, 600000))]
  }

  /** What one more frame makes of the history. */
  lemma OneMoreFrame(es: seq<Event>, f: Frame)
    ensures var now, e := es + [Given(f)], Given(f);
      && Sync(now) == (if Code(e, 0) then WantsSync(e) else Sync(es))
      && (forall code, default :: Asked(now, code, default) == if Tunes(e, code) then FreqOf(f) else Asked(es, code, default))
      && SecondFreq(now) == (if Tunes(e, 6) && !Sync(es) then FreqOf(f) else SecondFreq(es))
      && Second(now) ==
        if Tunes(e, 6) && !Sync(es) then Own(FreqOf(f))
        else if Code(e, 0) && WantsSync(e) && !Sync(es) then Copied(Asked(es, 4, 600000))
        else if Tunes(e, 4) && Sync(es) then Copied(FreqOf(f))
        else Second(es)
  {
    assert (es + [Given(f)])[..|es|] == es;
  }

  lemma FrameAgrees(s: Settings, hasMisc: bool, es: seq<Event>, f: Frame)
    requires Agrees(s, es)
    ensures Agrees(Received(s, hasMisc, f), es + [Given(f)])
  {
    if f[0] < 2 { ControlAgrees(s, es, f); }
    else if f[0] < 10 { TunedAgrees(s, es, f); }
    else { OtherAgrees(s, hasMisc, es, f); }
  }

  lemma OtherAgrees(s: Settings, hasMisc: bool, es: seq<Event>, f: Frame)
    requires Agrees(s, es) && f[0] >= 10
    ensures Agrees(Received(s, hasMisc, f), es + [Given(f)])
  {
    OneMoreFrame(es, f);
  }

  lemma ControlAgrees(s: Settings, es: seq<Event>, f: Frame)
    requires Agrees(s, es) && f[0] < 2
    ensures Agrees(Tuned(s, f), es + [Given(f)])
  {
    OneMoreFrame(es, f);
    if Sync(es) { SyncCopies(es); }
  }

  lemma TunedAgrees(s: Settings, es: seq<Event>, f: Frame)
    requires Agrees(s, es) && 2 <= f[0] < 10
    ensures Agrees(Tuned(s, f), es + [Given(f)])
  {
    if f[0] == 4 || f[0] == 5 {
      FirstAgrees(s, es, f);
    } else if f[0] == 6 || f[0] == 7 {
      SecondAgrees(s, es, f);
    } else {
      SingleAgrees(s, es, f);
    }
  }

  lemma SingleAgrees(s: Settings, es: seq<Event>, f: Frame)
    requires Agrees(s, es) && (f[0] == 2 || f[0] == 3 || f[0] == 8 || f[0] == 9)
    ensures Agrees(Tuned(s, f), es + [Given(f)])
  {
    OneMoreFrame(es, f);
  }

  lemma FirstAgrees(s: Settings, es: seq<Event>, f: Frame)
    requires Agrees(s, es) && (f[0] == 4 || f[0] == 5)
    ensures Agrees(Tuned(s, f), es + [Given(f)])
  {
    OneMoreFrame(es, f);
  }

  lemma SecondAgrees(s: Settings, es: seq<Event>, f: Frame)
    requires Agrees(s, es) && (f[0] == 6 || f[0] == 7)
    ensures Agrees(Tuned(s, f), es + [Given(f)])
  {
    OneMoreFrame(es, f);
  }

  lemma MessageAgrees(s: Settings, hasMisc: bool, es: seq<Event>, m: Message)
    requires Agrees(s, es)
    ensures Agrees(Delivered(s, hasMisc, m), es + EventsOf(m))
  {
    match m {
      case Frames(first, second) =>
        FrameAgrees(s, hasMisc, es, first);
        FrameAgrees(Received(s, hasMisc, first), hasMisc, es + [Given(first)], second);
        assert es + [Given(first)] + [Given(second)] == es + EventsOf(m);
      case Start =>
        assert (es + [Started])[..|es|] == es;
    }
  }

  lemma {:induction false} MessagesAgree(s: Settings, hasMisc: bool, es: seq<Event>, messages: seq<Message>)
    requires Agrees(s, es)
    ensures Agrees(AllDelivered(s, hasMisc, messages), es + History(messages))
  {
    if messages == [] {
      assert es + [] == es;
    } else {
      var before, m := messages[..|messages| - 1], messages[|messages| - 1];
      MessagesAgree(s, hasMisc, es, before);
      MessageAgrees(AllDelivered(s, hasMisc, before), hasMisc, es + History(before), m);
      assert es + History(before) + EventsOf(m) == es + History(messages);
    }
  }

  /** After every pass of every run, all four oscillators and the table of frequencies are as the frames so far say. */
  lemma {:induction false} OscillatorsFollow(passes: seq<Pass>, hasMisc: bool, n: nat)
    requires n <= |passes|
    ensures Agrees(After(passes, hasMisc, n), RunHistory(passes, n))
  {
    if n > 0 {
      OscillatorsFollow(passes, hasMisc, n - 1);
      MessagesAgree(After(passes, hasMisc, n - 1), hasMisc, RunHistory(passes, n - 1), passes[n - 1].messages);
    }
  }

  /** A frame asks for a frequency exactly if C1 to C4 are its bytes, from the highest on. */
  lemma BigEndian(f: Frame, freq: nat)
    requires freq < 0x1_0000_0000
    ensures FreqOf(f) == freq <==>
      && f[1] as nat == freq / 0x100_0000 && f[2] as nat == freq / 0x1_0000 % 0x100
      && f[3] as nat == freq / 0x100 % 0x100 && f[4] as nat == freq % 0x100
  {
    Digits(f[1] as nat, f[2] as nat, f[3] as nat, f[4] as nat, freq);
  }

  lemma Digits(a: nat, b: nat, c: nat, d: nat, freq: nat)
    requires a < 0x100 && b < 0x100 && c < 0x100 && d < 0x100
    ensures a * 0x100_0000 + b * 0x1_0000 + c * 0x100 + d == freq <==>
      a == freq / 0x100_0000 && b == freq / 0x1_0000 % 0x100 && c == freq / 0x100 % 0x100 && d == freq % 0x100
  {
    assert freq / 0x1_0000 == freq / 0x100 / 0x100 && freq / 0x100_0000 == freq / 0x100 / 0x100 / 0x100;
  }

  // ---------- When the second receiver is in tune ----------

  /** In synchronous mode the second oscillator runs at the frequency of the first. */
  lemma {:induction false} SyncCopies(es: seq<Event>)
    requires Sync(es)
    ensures Second(es) == Copied(Asked(es, 4, 600000))
  {
    var e := es[|es| - 1];
    if !SwitchesOn(es, |es| - 1) { SyncCopies(es[..|es| - 1]); }
  }

  /** Event k has tuned the second receiver, and synchronous mode has not been switched on since. */
  predicate TunedAt(es: seq<Event>, k: nat) {
    k < |es| && TunesSecond(es, k) && forall j: nat | k < j < |es| :: !SwitchesOn(es, j)
  }

  lemma TunedBefore(es: seq<Event>, k: nat)
    requires es != [] && k < |es| - 1
    ensures TunedAt(es, k) <==> TunedAt(es[..|es| - 1], k) && !SwitchesOn(es, |es| - 1)
  {
    var before := es[..|es| - 1];
    assert forall j: nat | j < |before| :: before[j] == es[j] && before[..j] == es[..j];
    assert forall j: nat | j < |before| :: SwitchesOn(before, j) == SwitchesOn(es, j);
  }

  /** A frame that tunes the second receiver comes outside of synchronous mode, which then needs a switch. */
  lemma {:induction false} StillOff(es: seq<Event>, k: nat)
    requires TunedAt(es, k)
    ensures !Sync(es)
  {
    if k < |es| - 1 {
      TunedBefore(es, k);
      StillOff(es[..|es| - 1], k);
    }
  }

  /** The second oscillator has its own frequency exactly if it has been tuned and not been synchronized since. */
  lemma {:induction false} OwnIff(es: seq<Event>)
    ensures Second(es).Own? <==> exists k: nat :: TunedAt(es, k)
  {
    if es != [] {
      var last, before := |es| - 1, es[..|es| - 1];
      OwnIff(before);
      if TunesSecond(es, last) {
        assert TunedAt(es, last);
      } else {
        if k: nat :| TunedAt(es, k) {
          TunedBefore(es, k);
          StillOff(before, k);
        }
        if k: nat :| TunedAt(before, k) { TunedBefore(es, k); }
      }
    }
  }

  lemma {:induction false} OwnIsTable(es: seq<Event>)
    ensures Second(es).Own? ==> Second(es).freq == SecondFreq(es)
    ensures Second(es).Default? ==> SecondFreq(es) == 0
  {
    if es != [] { OwnIsTable(es[..|es| - 1]); }
  }

  /** Frequencies a hertz apart have different increments. */
  lemma IncrementsDiffer(f: nat, g: nat)
    ensures PhaseIncrement(f) == PhaseIncrement(g) <==> f == g
  {
    if f < g { IncrementGrows(f, g); } else if g < f { IncrementGrows(g, f); }
  }

  lemma IncrementGrows(f: nat, g: nat)
    requires f < g
    ensures PhaseIncrement(f) < PhaseIncrement(g)
  {
  }

  /**
   The second oscillator runs at the frequency that the table has for it exactly if it was
   tuned and synchronous mode has not been switched on since, or if it was synchronized to
   the same frequency.
   */
  lemma SecondInTuneIff(passes: seq<Pass>, hasMisc: bool, n: nat)
    requires n <= |passes|
    ensures var s, es := After(passes, hasMisc, n), RunHistory(passes, n);
      s.rxFreq[1] == PhaseIncrement(s.freq[2]) <==>
        (exists k: nat :: TunedAt(es, k)) || Second(es) == Copied(s.freq[2])
  {
    OwnIff(RunHistory(passes, n));
    OscillatorsFollow(passes, hasMisc, n);
    OwnIsTable(RunHistory(passes, n));
    IncrementsDiffer(Second(RunHistory(passes, n)).Hertz(), SecondFreq(RunHistory(passes, n)));
  }

  /** In synchronous mode both receivers have the same increment. */
  lemma AlwaysInSync(passes: seq<Pass>, hasMisc: bool, n: nat)
    requires n <= |passes| && After(passes, hasMisc, n).sync
    ensures After(passes, hasMisc, n).rxFreq[1] == After(passes, hasMisc, n).rxFreq[0]
  {
    OscillatorsFollow(passes, hasMisc, n);
    SyncCopies(RunHistory(passes, n));
  }

  /** Synchronous mode, once switched on and off, leaves the second receiver at the frequency of the first. */
  lemma SyncDetunes(tune2: Frame, tune1: Frame, on: Frame, off: Frame)
    requires tune2[0] == 6 && tune1[0] == 4 && on[0] == off[0] == 0
    requires FreqOf(tune1) != FreqOf(tune2) && FreqOf(tune1) <= FREQ_MAX && FreqOf(tune2) <= FREQ_MAX
    requires on[4] & 0x80 != 0 && off[4] & 0x80 == 0
    ensures var s := After([Pass([Frames(tune2, tune1), Frames(on, off)], 0)], false, 1);
      && !s.sync && s.freq[2] == FreqOf(tune2) && s.rxFreq[1] == PhaseIncrement(FreqOf(tune1))
      && s.rxFreq[1] != PhaseIncrement(s.freq[2])
  {
    var passes := [Pass([Frames(tune2, tune1), Frames(on, off)], 0)];
    OscillatorsFollow(passes, false, 1);
    FourEvents(passes, tune2, tune1, on, off);
    DetunedHistory(tune2, tune1, on, off);
    IncrementsDiffer(FreqOf(tune1), FreqOf(tune2));
  }

  /** For one, with the second receiver tuned to 10 MHz and the first to 1048576 Hz. */
  lemma SyncDetunesTenMegahertz() returns (passes: seq<Pass>)
    ensures |passes| == 1
    ensures var s := After(passes, false, 1);
      !s.sync && s.freq[2] == 10000000 && s.rxFreq[1] == PhaseIncrement(1048576) != PhaseIncrement(s.freq[2])
  {
    var tune2, tune1: Frame := [6, 0x00, 0x98, 0x96, 0x80], [4, 0x00, 0x10, 0x00, 0x00];
    var on, off: Frame := [0, 0, 0, 0, 0x80], [0, 0, 0, 0, 0];
    passes := [Pass([Frames(tune2, tune1), Frames(on, off)], 0)];
    assert FreqOf(tune2) == 10000000 && FreqOf(tune1) == 1048576;
    SyncDetunes(tune2, tune1, on, off);
  }

  lemma DetunedHistory(tune2: Frame, tune1: Frame, on: Frame, off: Frame)
    requires tune2[0] == 6 && tune1[0] == 4 && on[0] == off[0] == 0
    requires FreqOf(tune1) <= FREQ_MAX && FreqOf(tune2) <= FREQ_MAX
    requires on[4] & 0x80 != 0 && off[4] & 0x80 == 0
    ensures var es := [Given(tune2), Given(tune1), Given(on), Given(off)];
      !Sync(es) && SecondFreq(es) == FreqOf(tune2) && Second(es) == Copied(FreqOf(tune1))
  {
    OneMoreFrame([], tune2);
    OneMoreFrame([] + [Given(tune2)], tune1);
    OneMoreFrame([] + [Given(tune2)] + [Given(tune1)], on);
    OneMoreFrame([] + [Given(tune2)] + [Given(tune1)] + [Given(on)], off);
    assert [] + [Given(tune2)] + [Given(tune1)] + [Given(on)] + [Given(off)]
      == [Given(tune2), Given(tune1), Given(on), Given(off)];
  }

  lemma FourEvents(passes: seq<Pass>, a: Frame, b: Frame, c: Frame, d: Frame)
    requires passes == [Pass([Frames(a, b), Frames(c, d)], 0)]
    ensures RunHistory(passes, 1) == [Given(a), Given(b), Given(c), Given(d)]
  {
    var ms := [Frames(a, b), Frames(c, d)];
    assert ms[..1] == [Frames(a, b)] && ms[..1][..0] == [];
    assert History(ms[..1]) == [Given(a), Given(b)];
  }

  /** The increment is the nearest integer, never a tie, and fits the 30-bit accumulator. */
  lemma NearestIncrement(freq: nat)
    requires freq <= 61_440_000
    ensures var error := freq * 0x4000_0000 - PhaseIncrement(freq) * 125000000;
      -62500000 < error < 62500000
    ensures PhaseIncrement(freq) < 0x4000_0000
  {
    if 2 * freq * 0x4000_0000 + 125000000 == PhaseIncrement(freq) * 250000000 {
      NoTie(freq, PhaseIncrement(freq));
    }
  }

  lemma NoTie(freq: nat, q: nat)
    ensures 2 * freq * 0x4000_0000 + 125000000 != q * 250000000
  {
    assert 2 * freq * 0x4000_0000 + 125000000 == 128 * (freq * 0x100_0000 + 976562) + 64;
    assert q * 250000000 == 128 * (q * 1953125);
  }
}
