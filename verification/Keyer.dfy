/**
 The CW keyer thread of the HPSDR transceiver server.

 Time is counted in calls of `usleep(1000)`.  The paddle contacts are a function from
 time to contact state, so every statement below holds for every operator.  The state
 carries two pieces of history that the program does not keep: `trace`, what the output
 bits were during each millisecond, and `log`, when each element was keyed.
 */
module Keyer {

  /** An element, numbered by the bit of the paddle latch that requests it: 0 or 1. */
  datatype Kind = Dash | Dot {
    function Other(): Kind { if Dash? then Dot else Dash }
  }

  /** The two paddle bits, as read from the GPIO register or as latched. */
  datatype Paddles = Paddles(bit0: bool, bit1: bool) {
    predicate Pressed() { bit0 || bit1 }

    predicate Has(k: Kind) { if k.Dash? then bit0 else bit1 }

    function Or(other: Paddles): Paddles {
      Paddles(bit0 || other.bit0, bit1 || other.bit1)
    }

    function Without(k: Kind): Paddles {
      if k.Dash? then this.(bit0 := false) else this.(bit1 := false)
    }
  }

  const NONE := Paddles(false, false)

  /** The keyer settings, in the ranges that the EP2 command frames can carry, but for a speed of 0. */
  datatype Settings = Settings(internal: bool, reversed: bool, speed: nat, mode: nat,
                               weight: nat, spacing: bool, delay: nat, hang: nat)

  type Config = c: Settings |
      0 < c.speed < 64 && c.mode < 4 && c.weight < 128 && c.delay < 256 && c.hang < 1024
    witness Settings(false, false, 25, 0, 50, false, 0, 0)

  type Contacts = nat -> Paddles

  function Input(c: Config, raw: Paddles): Paddles {
    if !c.internal then NONE
    else if c.reversed then Paddles(raw.bit1, raw.bit0)
    else raw
  }

  // Durations in milliseconds.  All operands are non-negative, so `/` is C's division.

  function Unit(c: Config): nat { 1200 / c.speed }

  function DashLen(c: Config): nat { 3600 * c.weight / (50 * c.speed) }

  function NominalLen(c: Config, k: Kind): nat { if k.Dot? then Unit(c) else DashLen(c) }

  function Lead(c: Config): nat { if c.delay < Unit(c) then c.delay else Unit(c) }

  function SignalLen(c: Config, k: Kind): nat {
    if NominalLen(c, k) < c.delay then 0 else NominalLen(c, k) - c.delay
  }

  function SpaceLen(c: Config): nat {
    if Unit(c) < c.delay then 0 else Unit(c) - c.delay
  }

  function LetterLen(c: Config): nat { 2400 / c.speed }

  function Hang(c: Config): nat
    ensures Hang(c) > 0
  { if c.hang > 0 then c.hang else 10 }

  /** The output bits during one millisecond. */
  datatype Tick = Tick(rf: bool, ptt: bool, mux: bool)

  /** What keyed an element, and for an iambic element what preceded it. */
  datatype Key = Straight | Auto | Iambic(kind: Kind, follows: Follows)
  datatype Follows = First | Adjacent | Spaced

  datatype Elem = Elem(key: Key, config: Config, begin: nat, on: nat, off: nat)

  datatype Rig = Rig(mem0: Paddles, mem1: Paddles, pttDelay: int,
                     cwPtt: bool, ptt: bool, mux: bool, txMux: bool, rf: bool,
                     trace: seq<Tick>, log: seq<Elem>, begin: nat, on: nat) {
    function Time(): nat { |trace| }
  }

  const INITIAL := Rig(NONE, NONE, 0, false, false, false, false, false, [], [], 0, 0)

  /** Which of the three kinds of delay loop a millisecond belongs to. */
  datatype Phase = Keying | Trailing | Spacing

  function Latch(c: Config, phase: Phase, latched: Paddles, input: Paddles): Paddles {
    if phase.Keying? && c.mode == 1 && !input.Pressed() then NONE else latched.Or(input)
  }

  function Sleep(s: Rig): Rig {
    s.(trace := s.trace + [Tick(s.rf, s.ptt, s.mux)])
  }

  function Sleeps(s: Rig, n: nat): Rig {
    if n == 0 then s else Sleep(Sleeps(s, n - 1))
  }

  function PttOff(s: Rig): Rig {
    var s := s.(pttDelay := s.pttDelay - 1);
    if s.pttDelay > 0 then s
    else s.(ptt := false, cwPtt := false, mux := false, txMux := false)
  }

  function HangOn(s: Rig): Rig { if s.cwPtt then PttOff(s) else s }

  /** One millisecond of a delay loop that samples the paddles. */
  function Millisecond(c: Config, p: Contacts, phase: Phase, s: Rig): Rig {
    var slept := if phase.Spacing? then HangOn(Sleep(s)) else Sleep(s);
    var input := Input(c, p(s.Time()));
    slept.(mem0 := input, mem1 := Latch(c, phase, s.mem1, input))
  }

  function Wait(c: Config, p: Contacts, phase: Phase, s: Rig, n: nat): Rig {
    if n == 0 then s else Millisecond(c, p, phase, Wait(c, p, phase, s, n - 1))
  }

  function On(c: Config, p: Contacts, s: Rig): Rig {
    var lead := s.(ptt := true, cwPtt := true, mux := true, txMux := true, begin := s.Time());
    var done := Wait(c, p, Keying, lead, Lead(c));
    done.(rf := true, on := done.Time())
  }

  function Off(c: Config, p: Contacts, key: Key, s: Rig): Rig {
    var done := Wait(c, p, Trailing, s, Lead(c));
    done.(rf := false, pttDelay := Hang(c),
          log := done.log + [Elem(key, c, done.begin, done.on, done.Time())])
  }

  function Element(c: Config, p: Contacts, kind: Kind, follows: Follows, s: Rig): Rig {
    var keyed := Wait(c, p, Keying, On(c, p, s.(mem1 := NONE)), SignalLen(c, kind));
    var spaced := Wait(c, p, Spacing, Off(c, p, Iambic(kind, follows), keyed), SpaceLen(c));
    spaced.(mem1 := spaced.mem1.Without(kind).Or(spaced.mem0))
  }

  /** The loop of the thread whose head is reached next. */
  datatype Control = Idle | Held | Paddling(next: Kind, follows: Follows)

  /** The dot sent in mode 0, whose length is waited out without reading the paddles. */
  function AutoDot(c: Config, p: Contacts, s: Rig): Rig {
    Wait(c, p, Spacing, Off(c, p, Auto, Sleeps(On(c, p, s), SpaceLen(c))), SpaceLen(c))
  }

  function IdlePass(c: Config, p: Contacts, s: Rig): (Control, Rig) {
    Woken(c, p, HangOn(Sleep(s)).(mem0 := Input(c, p(s.Time()))))
  }

  /** What an idle pass does once it has read the paddles. */
  function Woken(c: Config, p: Contacts, s: Rig): (Control, Rig) {
    if !s.mem0.Pressed() then (Idle, s)
    else if c.mode == 0 then
      if s.mem0.bit0 then (Held, On(c, p, s))
      else (Idle, AutoDot(c, p, s))
    else (Paddling(Dot, First), s.(mem1 := s.mem0))
  }

  function HeldPass(c: Config, p: Contacts, s: Rig): (Control, Rig) {
    if s.mem0.bit0 then (Held, Sleep(s).(mem0 := Input(c, p(s.Time()))))
    else (Idle, Off(c, p, Straight, s))
  }

  function PaddlePass(c: Config, p: Contacts, next: Kind, follows: Follows, s: Rig): (Control, Rig) {
    var sends := s.mem1.Has(next);
    var s := if sends then Element(c, p, next, follows, s) else s;
    if s.mem1.Pressed() then (Paddling(next.Other(), if sends then Adjacent else follows), s)
    else if c.spacing then
      var s := Wait(c, p, Spacing, s, LetterLen(c));
      (if s.mem1.Pressed() then Paddling(Dot, Spaced) else Idle, s)
    else (Idle, s)
  }

  /** One pass of whichever loop the thread is in. */
  function Step(c: Config, p: Contacts, at: Control, s: Rig): (Control, Rig) {
    match at
    case Idle => IdlePass(c, p, s)
    case Held => HeldPass(c, p, s)
    case Paddling(next, follows) => PaddlePass(c, p, next, follows, s)
  }

  /** The state after |cs| passes; pass i runs under settings cs[i]. */
  function Run(cs: seq<Config>, p: Contacts): (Control, Rig) {
    if cs == [] then (Idle, INITIAL)
    else
      var (at, s) := Run(cs[..|cs| - 1], p);
      Step(cs[|cs| - 1], p, at, s)
  }

  /** The keyer thread itself, updating its globals in place. */
  class Thread {
    var mem0: Paddles
    var mem1: Paddles
    var pttDelay: int
    var cwPtt: bool
    var ptt: bool
    var mux: bool
    var txMux: bool
    var rf: bool
    var trace: seq<Tick>
    var log: seq<Elem>
    var begin: nat
    var on: nat

    ghost function State(): Rig
      reads this
    {
      Rig(mem0, mem1, pttDelay, cwPtt, ptt, mux, txMux, rf, trace, log, begin, on)
    }

    constructor ()
      ensures State() == INITIAL
    {
      mem0, mem1, pttDelay := NONE, NONE, 0;
      cwPtt, ptt, mux, txMux, rf := false, false, false, false, false;
      trace, log, begin, on := [], [], 0, 0;
    }

    method USleep()
      modifies this
      ensures State() == Sleep(old(State()))
    {
      trace := trace + [Tick(rf, ptt, mux)];
    }

    method Sample(c: Config, p: Contacts, phase: Phase)
      modifies this
      ensures State() == Millisecond(c, p, phase, old(State()))
    {
      USleep();
      if phase.Spacing? && cwPtt { CwPttOff(); }
      mem0 := Input(c, p(|trace| - 1));
      if phase.Keying? && c.mode == 1 && !mem0.Pressed() { mem1 := NONE; } else { mem1 := mem1.Or(mem0); }
    }

    /** The sampling delay loop, which the program repeats in each of the four functions below. */
    method Delay(c: Config, p: Contacts, phase: Phase, delay: nat)
      modifies this
      ensures State() == Wait(c, p, phase, old(State()), delay)
    {
      var i := 0;
      while i < delay
        invariant i <= delay && State() == Wait(c, p, phase, old(State()), i)
      {
        Sample(c, p, phase);
        i := i + 1;
      }
    }

    method CwOn(c: Config, p: Contacts)
      modifies this
      ensures State() == On(c, p, old(State()))
    {
      var delay := Unit(c);
      if c.delay < delay { delay := c.delay; }
      ptt, cwPtt, mux, txMux := true, true, true, true;
      begin := |trace|;
      assert State() == old(State()).(ptt := true, cwPtt := true, mux := true, txMux := true, begin := begin);
      Delay(c, p, Keying, delay);
      ghost var done := State();
      rf, on := true, |trace|;
      assert State() == done.(rf := true, on := on);
    }

    method CwOff(c: Config, p: Contacts, key: Key)
      modifies this
      ensures State() == Off(c, p, key, old(State()))
    {
      var delay := Unit(c);
      if c.delay < delay { delay := c.delay; }
      Delay(c, p, Trailing, delay);
      ghost var done := State();
      rf := false;
      pttDelay := if c.hang > 0 then c.hang else 10;
      log := log + [Elem(key, c, begin, on, |trace|)];
      assert State() == done.(rf := false, pttDelay := Hang(c), log := log);
    }

    method CwPttOff()
      modifies this
      ensures State() == PttOff(old(State()))
    {
      pttDelay := pttDelay - 1;
      if pttDelay > 0 { return; }
      ptt, cwPtt, mux, txMux := false, false, false, false;
    }

    method CwSignalDelay(c: Config, p: Contacts, kind: Kind)
      modifies this
      ensures State() == Wait(c, p, Keying, old(State()), SignalLen(c, kind))
    {
      var delay: int := if kind.Dot? then Unit(c) else DashLen(c);
      delay := delay - c.delay;
      if delay < 0 { delay := 0; }
      Delay(c, p, Keying, delay);
    }

    method CwSpaceDelay(c: Config, p: Contacts, element: bool)
      modifies this
      ensures State() == Wait(c, p, Spacing, old(State()), if element then SpaceLen(c) else LetterLen(c))
    {
      var delay: int := if element then Unit(c) - c.delay else LetterLen(c);
      if delay < 0 { delay := 0; }
      Delay(c, p, Spacing, delay);
    }

    method BlindDelay(delay: nat)
      modifies this
      ensures State() == Sleeps(old(State()), delay)
    {
      var i := 0;
      while i < delay
        invariant i <= delay && State() == Sleeps(old(State()), i)
      {
        USleep();
        i := i + 1;
      }
    }

    method SendDot(c: Config, p: Contacts)
      modifies this
      ensures State() == AutoDot(c, p, old(State()))
    {
      CwOn(c, p);
      var delay: int := Unit(c) - c.delay;
      if delay < 0 { delay := 0; }
      BlindDelay(delay);
      CwOff(c, p, Auto);
      CwSpaceDelay(c, p, true);
    }

    method IdleLoop(c: Config, p: Contacts) returns (at: Control)
      modifies this
      ensures (at, State()) == IdlePass(c, p, old(State()))
    {
      USleep();
      if cwPtt { CwPttOff(); }
      ghost var slept := State();
      mem0 := Input(c, p(|trace| - 1));
      assert State() == slept.(mem0 := mem0);
      at := Wake(c, p);
    }

    method Wake(c: Config, p: Contacts) returns (at: Control)
      modifies this
      ensures (at, State()) == Woken(c, p, old(State()))
    {
      if !mem0.Pressed() { return Idle; }
      if c.mode == 0 {
        if mem0.bit0 {
          CwOn(c, p);
          return Held;
        }
        SendDot(c, p);
        return Idle;
      }
      mem1 := mem0;
      assert State() == old(State()).(mem1 := mem0);
      return Paddling(Dot, First);
    }

    method HeldLoop(c: Config, p: Contacts) returns (at: Control)
      modifies this
      ensures (at, State()) == HeldPass(c, p, old(State()))
    {
      if mem0.bit0 {
        USleep();
        mem0 := Input(c, p(|trace| - 1));
        return Held;
      }
      CwOff(c, p, Straight);
      return Idle;
    }

    method Send(c: Config, p: Contacts, kind: Kind, follows: Follows)
      modifies this
      ensures State() == Element(c, p, kind, follows, old(State()))
    {
      mem1 := NONE;
      assert State() == old(State()).(mem1 := NONE);
      CwOn(c, p);
      CwSignalDelay(c, p, kind);
      CwOff(c, p, Iambic(kind, follows));
      CwSpaceDelay(c, p, true);
      ghost var spaced := State();
      mem1 := mem1.Without(kind);
      mem1 := mem1.Or(mem0);
      assert State() == spaced.(mem1 := mem1);
    }

    method PaddleLoop(c: Config, p: Contacts, next: Kind, follows: Follows) returns (at: Control)
      modifies this
      ensures (at, State()) == PaddlePass(c, p, next, follows, old(State()))
    {
      var before := follows;
      if mem1.Has(next) {
        Send(c, p, next, follows);
        before := Adjacent;
      }
      if mem1.Pressed() { return Paddling(next.Other(), before); }
      if c.spacing {
        CwSpaceDelay(c, p, false);
        if mem1.Pressed() { return Paddling(Dot, Spaced); }
      }
      return Idle;
    }

    /** The thread, run for |cs| passes. */
    method Handler(cs: seq<Config>, p: Contacts) returns (at: Control)
      requires State() == INITIAL
      modifies this
      ensures (at, State()) == Run(cs, p)
    {
      at := Idle;
      for i := 0 to |cs|
        invariant (at, State()) == Run(cs[..i], p)
      {
        assert cs[..i + 1][..i] == cs[..i];
        match at {
          case Idle => at := IdleLoop(cs[i], p);
          case Held => at := HeldLoop(cs[i], p);
          case Paddling(next, follows) => at := PaddleLoop(cs[i], p, next, follows);
        }
      }
      assert cs[..|cs|] == cs;
    }
  }
}
