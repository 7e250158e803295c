/** What every run of the keyer keeps: when RF and PTT are on, element timing, element order. */
module KeyerTheorems {
  import opened Keyer

  /** The PTT bit, the flag that copies it, the TX multiplexer and its flag move together. */
  ghost predicate Linked(s: Rig) {
    s.cwPtt == s.ptt && s.mux == s.ptt && s.txMux == s.ptt
  }

  /** The millisecond at which PTT is dropped, if nothing is keyed before. */
  function Release(e: Elem): nat { e.off + Hang(e.config) }

  function Until(log: seq<Elem>, k: nat, end: nat): nat
    requires k < |log|
  {
    if k + 1 < |log| then log[k + 1].begin else end
  }

  /**
   From the start of element k to the start of the next one (or to `end`), RF is on
   exactly in [on, off) and PTT exactly until release.
   */
  ghost predicate Window(trace: seq<Tick>, log: seq<Elem>, k: nat, end: nat)
    requires k < |log|
  {
    var e, until := log[k], Until(log, k, end);
    && until <= |trace|
    && e.begin <= e.on <= e.off <= until
    && forall t | e.begin <= t < until ::
         trace[t] == Tick(e.on <= t < e.off, t < Release(e), t < Release(e))
  }

  /** The windows of the log account for every millisecond before `end`. */
  ghost predicate History(trace: seq<Tick>, log: seq<Elem>, end: nat) {
    && end <= |trace|
    && (forall k | 0 <= k < |log| :: Window(trace, log, k, end))
    && forall t | 0 <= t < if log == [] then end else log[0].begin ::
         t < |trace| && trace[t] == Tick(false, false, false)
  }

  function Last(log: seq<Elem>): Elem
    requires log != []
  {
    log[|log| - 1]
  }

  /** No element is being keyed. */
  ghost predicate Released(s: Rig) {
    && Linked(s) && !s.rf
    && History(s.trace, s.log, s.Time())
    && (s.ptt <==> s.log != [] && s.Time() < Release(Last(s.log)))
    && (s.ptt ==> s.pttDelay == Release(Last(s.log)) - s.Time())
  }

  /** An element is being keyed; RF may or may not be up yet. */
  ghost predicate Keyed(s: Rig) {
    && Linked(s) && s.ptt
    && History(s.trace, s.log, s.begin)
    && s.begin <= s.Time()
    && (s.rf ==> s.begin <= s.on <= s.Time())
    && forall t | s.begin <= t < s.Time() :: s.trace[t] == Tick(s.rf && s.on <= t, true, true)
  }

  // ---------- Delay loops ----------

  /** `r` continues `s`: same log, longer trace. */
  ghost predicate Continues(s: Rig, r: Rig, n: nat) {
    && r.log == s.log && r.begin == s.begin && r.on == s.on && r.rf == s.rf
    && |r.trace| == |s.trace| + n
    && forall t | 0 <= t < |s.trace| :: r.trace[t] == s.trace[t]
  }

  lemma {:induction false} WaitHolds(c: Config, p: Contacts, phase: Phase, s: Rig, n: nat)
    requires !phase.Spacing?
    ensures var r := Wait(c, p, phase, s, n);
      && Continues(s, r, n)
      && r == s.(trace := r.trace, mem0 := r.mem0, mem1 := r.mem1)
      && forall t | |s.trace| <= t < |r.trace| :: r.trace[t] == Tick(s.rf, s.ptt, s.mux)
  {
    if n > 0 { WaitHolds(c, p, phase, s, n - 1); }
  }

  lemma {:induction false} SleepsHold(s: Rig, n: nat)
    ensures var r := Sleeps(s, n);
      && Continues(s, r, n)
      && r == s.(trace := r.trace)
      && forall t | |s.trace| <= t < |r.trace| :: r.trace[t] == Tick(s.rf, s.ptt, s.mux)
  {
    if n > 0 { SleepsHold(s, n - 1); }
  }

  /** Exactly the `pttDelay`-th call of `PttOff` drops PTT. */
  lemma {:induction false} SpacingHangs(c: Config, p: Contacts, s: Rig, n: nat)
    requires Linked(s) && !s.rf && (s.ptt ==> s.pttDelay > 0)
    ensures var r := Wait(c, p, Spacing, s, n);
      && Continues(s, r, n) && Linked(r)
      && (r.ptt <==> s.ptt && n < s.pttDelay)
      && (r.ptt ==> r.pttDelay == s.pttDelay - n)
      && forall t | |s.trace| <= t < |r.trace| ::
           var up := s.ptt && t - |s.trace| < s.pttDelay; r.trace[t] == Tick(false, up, up)
  {
    if n > 0 { SpacingHangs(c, p, s, n - 1); }
  }

  // ---------- Windows ----------

  lemma HistoryGrows(trace: seq<Tick>, log: seq<Elem>, end: nat, trace': seq<Tick>, end': nat)
    requires History(trace, log, end) && end <= end' <= |trace'| && |trace| <= |trace'|
    requires forall t | 0 <= t < end :: trace'[t] == trace[t]
    requires forall t | end <= t < end' ::
      var up := log != [] && t < Release(Last(log)); trace'[t] == Tick(false, up, up)
    ensures History(trace', log, end')
  {
    forall k | 0 <= k < |log| ensures Window(trace', log, k, end') {
      assert Window(trace, log, k, end);
      OrderedBegins(trace, log, end, k);
    }
    if log != [] { OrderedBegins(trace, log, end, 0); }
  }

  lemma {:induction false} OrderedBegins(trace: seq<Tick>, log: seq<Elem>, end: nat, k: nat)
    requires History(trace, log, end) && k < |log|
    ensures log[k].begin <= Until(log, k, end) <= end
    decreases |log| - k
  {
    assert Window(trace, log, k, end);
    if k + 1 < |log| { OrderedBegins(trace, log, end, k + 1); }
  }

  lemma SpacingKeepsReleased(c: Config, p: Contacts, s: Rig, n: nat)
    requires Released(s)
    ensures Released(Wait(c, p, Spacing, s, n))
  {
    SpacingHangs(c, p, s, n);
    var r := Wait(c, p, Spacing, s, n);
    HistoryGrows(s.trace, s.log, s.Time(), r.trace, r.Time());
  }

  lemma OnKeys(c: Config, p: Contacts, s: Rig)
    requires Released(s)
    ensures var r := On(c, p, s);
      && Keyed(r) && r.rf && r.log == s.log && r.begin == s.Time() && r.on == r.Time() == s.Time() + Lead(c)
  {
    var lead := s.(ptt := true, cwPtt := true, mux := true, txMux := true, begin := s.Time());
    WaitHolds(c, p, Keying, lead, Lead(c));
    HistoryGrows(s.trace, s.log, s.Time(), On(c, p, s).trace, s.Time());
  }

  lemma WaitKeepsKeyed(c: Config, p: Contacts, s: Rig, n: nat)
    requires Keyed(s) && s.rf
    ensures Keyed(Wait(c, p, Keying, s, n)) && Keyed(Sleeps(s, n))
  {
    WaitHolds(c, p, Keying, s, n);
    SleepsHold(s, n);
    HistoryGrows(s.trace, s.log, s.begin, Wait(c, p, Keying, s, n).trace, s.begin);
    HistoryGrows(s.trace, s.log, s.begin, Sleeps(s, n).trace, s.begin);
  }

  lemma HistoryAppends(trace: seq<Tick>, log: seq<Elem>, e: Elem, end: nat)
    requires History(trace, log, e.begin) && e.begin <= e.on <= e.off == end <= |trace|
    requires forall t | e.begin <= t < end :: trace[t] == Tick(e.on <= t, true, true)
    ensures History(trace, log + [e], end)
  {
    var log' := log + [e];
    forall k | 0 <= k < |log'| ensures Window(trace, log', k, end) {
      if k < |log| {
        assert Window(trace, log, k, e.begin);
        assert Until(log', k, end) == Until(log, k, e.begin);
      }
    }
  }

  lemma OffReleases(c: Config, p: Contacts, key: Key, s: Rig)
    requires Keyed(s) && s.rf
    ensures var r := Off(c, p, key, s);
      && Released(r) && r.Time() == s.Time() + Lead(c)
      && r.log == s.log + [Elem(key, c, s.begin, s.on, r.Time())]
  {
    WaitHolds(c, p, Trailing, s, Lead(c));
    var r := Off(c, p, key, s);
    HistoryGrows(s.trace, s.log, s.begin, r.trace, s.begin);
    HistoryAppends(r.trace, s.log, Elem(key, c, s.begin, s.on, r.Time()), r.Time());
    assert Release(Last(r.log)) == r.Time() + Hang(c);
  }

  // ---------- Timing ----------

  function OnLen(c: Config, k: Kind): nat { SignalLen(c, k) + Lead(c) }

  /** Silence between two elements of one inner run, the first sent under c, the second under d. */
  function Gap(follows: Follows, c: Config, d: Config): nat {
    SpaceLen(c) + (if follows.Spaced? then LetterLen(c) else 0) + Lead(d)
  }

  ghost predicate TimedAt(log: seq<Elem>, k: nat)
    requires k < |log|
  {
    var e := log[k];
    && (!e.key.Straight? ==> e.on - e.begin == Lead(e.config))
    && match e.key
       case Straight => true
       case Auto => e.off - e.on == Unit(e.config)
       case Iambic(kind, follows) =>
         && e.off - e.on == OnLen(e.config, kind)
         && (follows.First? ||
             (k > 0 && log[k - 1].key.Iambic? && e.on - log[k - 1].off == Gap(follows, log[k - 1].config, e.config)))
  }

  ghost predicate Timed(log: seq<Elem>) {
    forall k | 0 <= k < |log| :: TimedAt(log, k)
  }

  lemma TimedAppend(log: seq<Elem>, e: Elem)
    requires Timed(log) && TimedAt(log + [e], |log|)
    ensures Timed(log + [e])
  {
    forall k | 0 <= k < |log + [e]| ensures TimedAt(log + [e], k) {
      if k < |log| { assert TimedAt(log, k); }
    }
  }

  /** How long ago the last element of the inner run ended. */
  ghost predicate Following(s: Rig, follows: Follows) {
    follows.First? ||
    (s.log != [] && Last(s.log).key.Iambic? &&
     s.Time() == Last(s.log).off + SpaceLen(Last(s.log).config)
               + if follows.Spaced? then LetterLen(Last(s.log).config) else 0)
  }

  ghost predicate Inv(at: Control, s: Rig) {
    && Timed(s.log)
    && match at
       case Idle => Released(s)
       case Held => Keyed(s) && s.rf
       case Paddling(_, follows) => Released(s) && s.mem1.Pressed() && Following(s, follows)
  }

  lemma SplitUnit(c: Config)
    ensures SpaceLen(c) + Lead(c) == Unit(c) >= 19
  {
    assert c.speed <= 63;
    assert 1200 / c.speed >= 1200 / 63;
  }

  /** An element up to the moment RF goes off. */
  function Sent(c: Config, p: Contacts, kind: Kind, follows: Follows, s: Rig): Rig {
    Off(c, p, Iambic(kind, follows), Wait(c, p, Keying, On(c, p, s.(mem1 := NONE)), SignalLen(c, kind)))
  }

  lemma SentKeeps(c: Config, p: Contacts, kind: Kind, follows: Follows, s: Rig)
    requires Released(s) && Timed(s.log) && Following(s, follows)
    ensures var r := Sent(c, p, kind, follows, s);
      && Released(r) && Timed(r.log) && r.log != [] && Last(r.log).key == Iambic(kind, follows)
      && Last(r.log).config == c && Last(r.log).off == r.Time()
  {
    var on := On(c, p, s.(mem1 := NONE));
    OnKeys(c, p, s.(mem1 := NONE));
    var keyed := Wait(c, p, Keying, on, SignalLen(c, kind));
    WaitKeepsKeyed(c, p, on, SignalLen(c, kind));
    WaitHolds(c, p, Keying, on, SignalLen(c, kind));
    OffReleases(c, p, Iambic(kind, follows), keyed);
    TimedAppend(s.log, Last(Sent(c, p, kind, follows, s).log));
  }

  lemma ElementKeeps(c: Config, p: Contacts, kind: Kind, follows: Follows, s: Rig)
    requires Released(s) && Timed(s.log) && Following(s, follows)
    ensures var r := Element(c, p, kind, follows, s);
      Released(r) && Timed(r.log) && Following(r, Adjacent) && Last(r.log).config == c
  {
    SentKeeps(c, p, kind, follows, s);
    var off := Sent(c, p, kind, follows, s);
    SpacingKeepsReleased(c, p, off, SpaceLen(c));
    SpacingHangs(c, p, off, SpaceLen(c));
    var spaced := Wait(c, p, Spacing, off, SpaceLen(c));
    assert Following(spaced, Adjacent);
  }

  lemma AutoDotKeeps(c: Config, p: Contacts, s: Rig)
    requires Released(s) && Timed(s.log)
    ensures Released(AutoDot(c, p, s)) && Timed(AutoDot(c, p, s).log)
  {
    var on := On(c, p, s);
    OnKeys(c, p, s);
    WaitKeepsKeyed(c, p, on, SpaceLen(c));
    SleepsHold(on, SpaceLen(c));
    var off := Off(c, p, Auto, Sleeps(on, SpaceLen(c)));
    OffReleases(c, p, Auto, Sleeps(on, SpaceLen(c)));
    SplitUnit(c);
    TimedAppend(s.log, Last(off.log));
    SpacingKeepsReleased(c, p, off, SpaceLen(c));
    SpacingHangs(c, p, off, SpaceLen(c));
  }

  lemma IdleKeeps(c: Config, p: Contacts, s: Rig)
    requires Inv(Idle, s)
    ensures var (at, r) := IdlePass(c, p, s); Inv(at, r)
  {
    var slept := HangOn(Sleep(s));
    assert Released(slept) by {
      HistoryGrows(s.trace, s.log, s.Time(), slept.trace, slept.Time());
    }
    var read := slept.(mem0 := Input(c, p(s.Time())));
    if read.mem0.Pressed() && c.mode == 0 {
      if read.mem0.bit0 { OnKeys(c, p, read); } else { AutoDotKeeps(c, p, read); }
    }
  }

  lemma HeldKeeps(c: Config, p: Contacts, s: Rig)
    requires Inv(Held, s)
    ensures var (at, r) := HeldPass(c, p, s); Inv(at, r)
  {
    if s.mem0.bit0 {
      var r := Sleep(s);
      HistoryGrows(s.trace, s.log, s.begin, r.trace, s.begin);
    } else {
      OffReleases(c, p, Straight, s);
      TimedAppend(s.log, Last(Off(c, p, Straight, s).log));
    }
  }

  lemma SpacedFollows(c: Config, p: Contacts, r: Rig)
    requires Linked(r) && !r.rf && (r.ptt ==> r.pttDelay > 0)
    requires Timed(r.log) && Following(r, Adjacent) && Last(r.log).config == c
    ensures var w := Wait(c, p, Spacing, r, LetterLen(c)); Timed(w.log) && Following(w, Spaced)
  {
    SpacingHangs(c, p, r, LetterLen(c));
  }

  lemma PaddleKeeps(c: Config, p: Contacts, next: Kind, follows: Follows, s: Rig)
    requires Inv(Paddling(next, follows), s)
    ensures var (at, r) := PaddlePass(c, p, next, follows, s); Inv(at, r)
  {
    if s.mem1.Has(next) {
      ElementKeeps(c, p, next, follows, s);
      var r := Element(c, p, next, follows, s);
      SpacedFollows(c, p, r);
      SpacingKeepsReleased(c, p, r, LetterLen(c));
    }
  }

  lemma StepKeeps(c: Config, p: Contacts, at: Control, s: Rig)
    requires Inv(at, s)
    ensures var (at', s') := Step(c, p, at, s); Inv(at', s')
  {
    match at
    case Idle => IdleKeeps(c, p, s);
    case Held => HeldKeeps(c, p, s);
    case Paddling(next, follows) => PaddleKeeps(c, p, next, follows, s);
  }

  lemma {:induction false} RunKeeps(cs: seq<Config>, p: Contacts)
    ensures var (at, s) := Run(cs, p); Inv(at, s)
  {
    if cs != [] {
      RunKeeps(cs[..|cs| - 1], p);
      var (at, s) := Run(cs[..|cs| - 1], p);
      StepKeeps(cs[|cs| - 1], p, at, s);
    }
  }

  // ---------- Theorems over whole runs ----------

  /** RF is never on without PTT and the TX multiplexer, in any millisecond of any run. */
  lemma RfOnlyUnderPtt(cs: seq<Config>, p: Contacts, t: nat)
    requires t < |Run(cs, p).1.trace| && Run(cs, p).1.trace[t].rf
    ensures Run(cs, p).1.trace[t].ptt && Run(cs, p).1.trace[t].mux
  {
    RunKeeps(cs, p);
    var (at, s) := Run(cs, p);
    var end := if at.Held? then s.begin else s.Time();
    if t < end { var k := FindWindow(s.trace, s.log, end, t); }
  }

  /** Every millisecond before `end` with any output on lies in the window of one element. */
  lemma FindWindow(trace: seq<Tick>, log: seq<Elem>, end: nat, t: nat) returns (k: nat)
    requires History(trace, log, end) && t < end
    requires trace[t] != Tick(false, false, false)
    ensures k < |log| && log[k].begin <= t < Until(log, k, end)
    ensures trace[t] == Tick(log[k].on <= t < log[k].off, t < Release(log[k]), t < Release(log[k]))
  {
    assert log != [] && log[0].begin <= t;
    k := 0;
    while k + 1 < |log| && log[k + 1].begin <= t
      invariant k < |log| && log[k].begin <= t
    {
      k := k + 1;
    }
    assert t < Until(log, k, end);
    assert Window(trace, log, k, end);
  }

  /**
   After element k, PTT stays on for exactly the hang time, one `PttOff` call per
   millisecond, unless the next element begins sooner; RF is off throughout.
   */
  lemma PttHangsExactly(cs: seq<Config>, p: Contacts, k: nat, t: nat)
    requires var s := Run(cs, p).1; k < |s.log| && s.log[k].off <= t < s.Time()
    requires var s := Run(cs, p).1; k + 1 < |s.log| ==> t < s.log[k + 1].begin
    requires Run(cs, p).0.Held? ==> t < Run(cs, p).1.begin
    ensures var s := Run(cs, p).1;
      && !s.trace[t].rf
      && (s.trace[t].ptt <==> t - s.log[k].off < if s.log[k].config.hang > 0 then s.log[k].config.hang else 10)
      && s.trace[t].mux == s.trace[t].ptt
  {
    RunKeeps(cs, p);
    var (at, s) := Run(cs, p);
    var end := if at.Held? then s.begin else s.Time();
    assert Window(s.trace, s.log, k, end);
  }

  /** RF is on in every millisecond of [on, off) of every logged element. */
  lemma RfThroughoutElement(cs: seq<Config>, p: Contacts, k: nat, t: nat)
    requires var s := Run(cs, p).1; k < |s.log| && s.log[k].on <= t < s.log[k].off
    ensures var s := Run(cs, p).1; t < s.Time() && s.trace[t] == Tick(true, true, true)
  {
    RunKeeps(cs, p);
    var (at, s) := Run(cs, p);
    var end := if at.Held? then s.begin else s.Time();
    assert Window(s.trace, s.log, k, end);
    OrderedBegins(s.trace, s.log, end, k);
  }

  /** Every automatic and every iambic dot has RF on for exactly one unit, whatever the delay setting. */
  lemma DotLastsOneUnit(cs: seq<Config>, p: Contacts, k: nat)
    requires var s := Run(cs, p).1;
      k < |s.log| && (s.log[k].key.Auto? || (s.log[k].key.Iambic? && s.log[k].key.kind.Dot?))
    ensures var e := Run(cs, p).1.log[k]; e.off - e.on == 1200 / e.config.speed
  {
    RunKeeps(cs, p);
    assert TimedAt(Run(cs, p).1.log, k);
    SplitUnit(Run(cs, p).1.log[k].config);
  }

  /** PTT comes on before RF by the delay setting, or by one unit if that is less. */
  lemma PttLeadsRf(cs: seq<Config>, p: Contacts, k: nat, t: nat)
    requires var s := Run(cs, p).1;
      k < |s.log| && !s.log[k].key.Straight? && s.log[k].begin <= t < s.log[k].on
    ensures var s := Run(cs, p).1;
      var e := s.log[k];
      && t < s.Time() && s.trace[t] == Tick(false, true, true)
      && e.on - e.begin == if e.config.delay < 1200 / e.config.speed then e.config.delay else 1200 / e.config.speed
  {
    RunKeeps(cs, p);
    var (at, s) := Run(cs, p);
    var end := if at.Held? then s.begin else s.Time();
    assert Window(s.trace, s.log, k, end) && TimedAt(s.log, k);
    OrderedBegins(s.trace, s.log, end, k);
  }

  /**
   The delay shortens the signal and the lead-out makes up for it, up to one unit.  So a dash has
   its nominal length exactly when the delay is at most both lengths, or they are equal.
   */
  lemma DashExactIff(cs: seq<Config>, p: Contacts, k: nat)
    requires var s := Run(cs, p).1;
      k < |s.log| && s.log[k].key.Iambic? && s.log[k].key.kind.Dash?
    ensures var e := Run(cs, p).1.log[k];
      var nominal, unit := 3600 * e.config.weight / (50 * e.config.speed), 1200 / e.config.speed;
      && e.off - e.on == (if nominal < e.config.delay then 0 else nominal - e.config.delay)
                         + (if e.config.delay < unit then e.config.delay else unit)
      && (e.off - e.on == nominal <==> (e.config.delay <= unit && e.config.delay <= nominal) || unit == nominal)
  {
    RunKeeps(cs, p);
    assert TimedAt(Run(cs, p).1.log, k);
  }

  /**
   Consecutive elements of one inner run, sent under one configuration, are one unit
   apart, or one unit and a letter space when the keyer inserted one.
   */
  lemma GapIsOneUnit(cs: seq<Config>, p: Contacts, k: nat)
    requires var s := Run(cs, p).1;
      k < |s.log| && s.log[k].key.Iambic? && !s.log[k].key.follows.First?
    requires k > 0 ==> var log := Run(cs, p).1.log; log[k].config == log[k - 1].config
    ensures k > 0
    ensures var log := Run(cs, p).1.log;
      log[k].on - log[k - 1].off == 1200 / log[k].config.speed
        + if log[k].key.follows.Spaced? then 2400 / log[k].config.speed else 0
  {
    RunKeeps(cs, p);
    assert TimedAt(Run(cs, p).1.log, k);
    SplitUnit(Run(cs, p).1.log[k].config);
  }

  /** Two consecutive passes always let time go by: no loop of the keyer spins. */
  lemma NeverSpins(c: Config, d: Config, p: Contacts, at: Control, s: Rig)
    requires Inv(at, s)
    ensures var (at1, s1) := Step(c, p, at, s); Step(d, p, at1, s1).1.Time() > s.Time()
  {
    StepKeeps(c, p, at, s);
    TimeAdvances(c, p, at, s);
    var (at1, s1) := Step(c, p, at, s);
    TimeAdvances(d, p, at1, s1);
  }

  /** A pass takes no time exactly to leave a released key without delay or to turn to the other paddle. */
  lemma TimeAdvances(c: Config, p: Contacts, at: Control, s: Rig)
    requires Inv(at, s)
    ensures var (at', r) := Step(c, p, at, s);
      && r.Time() >= s.Time()
      && (r.Time() == s.Time() <==>
          (at == Held && !s.mem0.bit0 && c.delay == 0) || (at.Paddling? && !s.mem1.Has(at.next)))
      && (at == Held && !s.mem0.bit0 ==> at' == Idle)
      && (at.Paddling? && !s.mem1.Has(at.next) ==> at' == Paddling(at.next.Other(), at.follows) && r == s)
  {
    match at
    case Idle =>
      var read := HangOn(Sleep(s)).(mem0 := Input(c, p(s.Time())));
      OnTime(c, p, read);
      OffTime(c, p, Auto, Sleeps(On(c, p, read), SpaceLen(c)));
      SleepsHold(On(c, p, read), SpaceLen(c));
      WaitTime(c, p, Spacing, Off(c, p, Auto, Sleeps(On(c, p, read), SpaceLen(c))), SpaceLen(c));
    case Held => OffTime(c, p, Straight, s);
    case Paddling(next, follows) =>
      var e := Element(c, p, next, follows, s);
      ElementTime(c, p, next, follows, s);
      WaitTime(c, p, Spacing, if s.mem1.Has(next) then e else s, LetterLen(c));
  }

  lemma {:induction false} WaitTime(c: Config, p: Contacts, phase: Phase, s: Rig, n: nat)
    ensures Wait(c, p, phase, s, n).Time() == s.Time() + n
  {
    if n > 0 { WaitTime(c, p, phase, s, n - 1); }
  }

  lemma OnTime(c: Config, p: Contacts, s: Rig)
    ensures On(c, p, s).Time() == s.Time() + Lead(c)
  {
    WaitTime(c, p, Keying, s.(ptt := true, cwPtt := true, mux := true, txMux := true, begin := s.Time()), Lead(c));
  }

  lemma OffTime(c: Config, p: Contacts, key: Key, s: Rig)
    ensures Off(c, p, key, s).Time() == s.Time() + Lead(c)
  {
    WaitTime(c, p, Trailing, s, Lead(c));
  }

  lemma ElementTime(c: Config, p: Contacts, kind: Kind, follows: Follows, s: Rig)
    ensures Element(c, p, kind, follows, s).Time() == s.Time() + OnLen(c, kind) + Unit(c) > s.Time()
  {
    var on := On(c, p, s.(mem1 := NONE));
    OnTime(c, p, s.(mem1 := NONE));
    WaitTime(c, p, Keying, on, SignalLen(c, kind));
    var keyed := Wait(c, p, Keying, on, SignalLen(c, kind));
    OffTime(c, p, Iambic(kind, follows), keyed);
    WaitTime(c, p, Spacing, Off(c, p, Iambic(kind, follows), keyed), SpaceLen(c));
    SplitUnit(c);
  }
}
