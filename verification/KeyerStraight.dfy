/** The straight key: RF follows the contact, a lead later; and what an idle keyer does with each paddle. */
module KeyerStraight {
  import opened Keyer
  import opened KeyerTheorems
  import opened KeyerOrder

  /** The contact that keys by hand, and dashes: the one on bit 0, or on bit 1 when the paddles are reversed. */
  predicate KeyDown(c: Config, p: Contacts, t: nat) {
    c.internal && if c.reversed then p(t).bit1 else p(t).bit0
  }

  /** The contact that sends dots. */
  predicate DotDown(c: Config, p: Contacts, t: nat) {
    c.internal && if c.reversed then p(t).bit0 else p(t).bit1
  }

  lemma Sampled(c: Config, p: Contacts, t: nat)
    ensures At(c, p, t) == Paddles(KeyDown(c, p, t), DotDown(c, p, t))
  {
  }

  // ---------- From idle ----------

  /** What one idle pass that begins at time t makes of the two contacts. */
  lemma IdleDecides(c: Config, p: Contacts, s: Rig)
    ensures var (at, r) := Step(c, p, Idle, s);
      var t := s.Time();
      if !KeyDown(c, p, t) && !DotDown(c, p, t) then
        at == Idle && r.log == s.log && r.Time() == t + 1
      else if c.mode != 0 then
        && at == Paddling(Dot, First) && r.log == s.log && r.Time() == t + 1
        && r.mem1 == Paddles(KeyDown(c, p, t), DotDown(c, p, t))
      else if KeyDown(c, p, t) then
        && at == Held && r.log == s.log && r.rf
        && r.begin == t + 1 && r.on == r.Time() == t + 1 + Lead(c)
      else
        && at == Idle && r.Time() == t + 1 + Lead(c) + Unit(c) + SpaceLen(c)
        && r.log == s.log + [Elem(Auto, c, t + 1, t + 1 + Lead(c), t + 1 + Lead(c) + Unit(c))]
  {
    Sampled(c, p, s.Time());
    var woken := HangOn(Sleep(s)).(mem0 := Input(c, p(s.Time())));
    KeyedOn(c, p, woken);
    if woken.mem0.Pressed() && c.mode == 0 && !woken.mem0.bit0 { DotKeyed(c, p, woken); }
  }

  lemma KeyedOn(c: Config, p: Contacts, s: Rig)
    ensures var r := On(c, p, s);
      && r.log == s.log && r.rf && r.begin == s.Time() && r.on == r.Time() == s.Time() + Lead(c)
      && r.mem0 == if Lead(c) == 0 then s.mem0 else At(c, p, r.Time() - 1)
  {
    var lead := s.(ptt := true, cwPtt := true, mux := true, txMux := true, begin := s.Time());
    WaitHolds(c, p, Keying, lead, Lead(c));
    WaitLatches(c, p, Keying, lead, Lead(c), Dot);
    assert Wait(c, p, Keying, lead, 0) == lead;
  }

  lemma KeyedOff(c: Config, p: Contacts, key: Key, s: Rig)
    ensures var r := Off(c, p, key, s);
      && !r.rf && r.Time() == s.Time() + Lead(c)
      && r.log == s.log + [Elem(key, c, s.begin, s.on, s.Time() + Lead(c))]
  {
    WaitHolds(c, p, Trailing, s, Lead(c));
  }

  lemma DotKeyed(c: Config, p: Contacts, s: Rig)
    ensures var r, t := AutoDot(c, p, s), s.Time();
      && r.Time() == t + Lead(c) + Unit(c) + SpaceLen(c)
      && r.log == s.log + [Elem(Auto, c, t, t + Lead(c), t + Lead(c) + Unit(c))]
  {
    KeyedOn(c, p, s);
    SleepsHold(On(c, p, s), SpaceLen(c));
    var sent := Sleeps(On(c, p, s), SpaceLen(c));
    KeyedOff(c, p, Auto, sent);
    SplitUnit(c);
    WaitTime(c, p, Spacing, Off(c, p, Auto, sent), SpaceLen(c));
    WaitKeepsLog(c, p, Spacing, Off(c, p, Auto, sent), SpaceLen(c));
  }

  // ---------- The held key ----------

  /** The key is down in every millisecond of [lo, hi). */
  ghost predicate DownIn(c: Config, p: Contacts, lo: int, hi: int) {
    forall t: nat | lo <= t < hi :: KeyDown(c, p, t)
  }

  /** Still in the loop after n milliseconds: nothing logged, RF as it was, the contact last seen down. */
  ghost predicate StillHeld(s: Rig, n: nat, now: (Control, Rig)) {
    var (at, r) := now;
    at == Held && r == s.(mem0 := r.mem0, trace := r.trace) && r.mem0.bit0 && r.Time() == s.Time() + n
  }

  lemma HeldOn(c: Config, p: Contacts, s: Rig, n: nat, now: (Control, Rig))
    requires StillHeld(s, n, now)
    ensures var (at, r) := Step(c, p, now.0, now.1);
      && at == Held && r == s.(mem0 := r.mem0, trace := r.trace) && r.Time() == s.Time() + n + 1
      && r.mem0.bit0 == KeyDown(c, p, s.Time() + n)
  {
    Sampled(c, p, s.Time() + n);
  }

  /** As long as the key is down the thread stays in its loop. */
  lemma {:induction false} HoldsWhileDown(c: Config, p: Contacts, s: Rig, n: nat)
    requires s.mem0.bit0 && DownIn(c, p, s.Time(), s.Time() + n)
    ensures StillHeld(s, n, Passes(c, p, Held, s, n))
  {
    if n > 0 {
      HoldsWhileDown(c, p, s, n - 1);
      HeldOn(c, p, s, n - 1, Passes(c, p, Held, s, n - 1));
    }
  }

  /** The first sample that finds the key up ends the element: RF goes off a lead after it. */
  lemma ReleaseEnds(c: Config, p: Contacts, s: Rig, n: nat)
    requires s.mem0.bit0 && DownIn(c, p, s.Time(), s.Time() + n) && !KeyDown(c, p, s.Time() + n)
    ensures var (at, r) := Passes(c, p, Held, s, n + 2);
      var off := s.Time() + n + 1 + Lead(c);
      at == Idle && !r.rf && r.Time() == off && r.log == s.log + [Elem(Straight, c, s.begin, s.on, off)]
  {
    HoldsWhileDown(c, p, s, n);
    HeldOn(c, p, s, n, Passes(c, p, Held, s, n));
    LetGo(c, p, s, Passes(c, p, Held, s, n + 1));
  }

  lemma LetGo(c: Config, p: Contacts, s: Rig, now: (Control, Rig))
    requires var (at, r) := now; at == Held && !r.mem0.bit0 && r == s.(mem0 := r.mem0, trace := r.trace)
    ensures var (at, r) := Step(c, p, now.0, now.1);
      var off := now.1.Time() + Lead(c);
      at == Idle && !r.rf && r.Time() == off && r.log == s.log + [Elem(Straight, c, s.begin, s.on, off)]
  {
    KeyedOff(c, p, Straight, now.1);
  }

  // ---------- Over whole runs ----------

  /**
   The key went down just before `begin`, was down from the moment RF came on, and was up
   for the first time in the sample a lead before RF went off.
   */
  ghost predicate FollowsKey(c: Config, p: Contacts, e: Elem) {
    var released := e.off - Lead(e.config);
    && 1 <= e.begin <= e.on <= released && KeyDown(c, p, e.begin - 1)
    && DownIn(c, p, e.on - 1, released - 1) && !KeyDown(c, p, released - 1)
  }

  ghost predicate AllFollow(c: Config, p: Contacts, log: seq<Elem>) {
    forall k | 0 <= k < |log| && log[k].key.Straight? :: FollowsKey(c, p, log[k])
  }

  ghost predicate HeldSince(c: Config, p: Contacts, s: Rig) {
    && 1 <= s.begin <= s.on <= s.Time() && KeyDown(c, p, s.begin - 1)
    && s.mem0 == At(c, p, s.Time() - 1) && DownIn(c, p, s.on - 1, s.Time() - 1)
  }

  ghost predicate KeyInv(c: Config, p: Contacts, at: Control, s: Rig) {
    AllFollow(c, p, s.log) && (at == Held ==> HeldSince(c, p, s))
  }

  /** Both settings read the paddles the same way. */
  predicate SameWiring(c: Config, d: Config) { c.internal == d.internal && c.reversed == d.reversed }

  lemma FromIdle(c: Config, d: Config, p: Contacts, s: Rig)
    requires SameWiring(c, d) && KeyInv(c, p, Idle, s)
    ensures var (at, r) := Step(d, p, Idle, s); KeyInv(c, p, at, r)
  {
    IdleDecides(d, p, s);
    Sampled(d, p, s.Time());
    KeyedOn(d, p, HangOn(Sleep(s)).(mem0 := Input(d, p(s.Time()))));
  }

  lemma FromHeld(c: Config, d: Config, p: Contacts, s: Rig)
    requires SameWiring(c, d) && KeyInv(c, p, Held, s)
    ensures var (at, r) := Step(d, p, Held, s); KeyInv(c, p, at, r)
  {
    Sampled(c, p, s.Time() - 1);
    if !s.mem0.bit0 {
      KeyedOff(d, p, Straight, s);
      assert FollowsKey(c, p, Elem(Straight, d, s.begin, s.on, s.Time() + Lead(d)));
    }
  }

  lemma FromPaddling(c: Config, d: Config, p: Contacts, next: Kind, follows: Follows, s: Rig)
    requires KeyInv(c, p, Paddling(next, follows), s)
    ensures var (at, r) := Step(d, p, Paddling(next, follows), s); KeyInv(c, p, at, r)
  {
    OneElementLogged(d, p, next, follows, s);
    var sent := if s.mem1.Has(next) then Element(d, p, next, follows, s) else s;
    WaitKeepsLog(d, p, Spacing, sent, LetterLen(d));
  }

  lemma {:induction false} RunFollowsKey(cs: seq<Config>, p: Contacts, c: Config)
    requires forall i | 0 <= i < |cs| :: SameWiring(c, cs[i])
    ensures var (at, s) := Run(cs, p); KeyInv(c, p, at, s)
  {
    if cs != [] {
      var d := cs[|cs| - 1];
      RunFollowsKey(cs[..|cs| - 1], p, c);
      var (at, s) := Run(cs[..|cs| - 1], p);
      match at
      case Idle => FromIdle(c, d, p, s);
      case Held => FromHeld(c, d, p, s);
      case Paddling(next, follows) => FromPaddling(c, d, p, next, follows, s);
    }
  }

  /**
   In every run in which the paddles stay wired as they are, every straight element follows
   the key; and while one is being keyed, RF is on and the key has been down since.
   */
  lemma StraightFollowsKey(cs: seq<Config>, p: Contacts, c: Config)
    requires forall i | 0 <= i < |cs| :: SameWiring(c, cs[i])
    ensures var (at, s) := Run(cs, p);
      && (forall k | 0 <= k < |s.log| && s.log[k].key.Straight? :: FollowsKey(c, p, s.log[k]))
      && (at == Held ==> s.rf && 1 <= s.on <= s.Time() && DownIn(c, p, s.on - 1, s.Time() - 1))
  {
    RunFollowsKey(cs, p, c);
    RunKeeps(cs, p);
  }
}
