/** Which element the keyer sends next, as a function of the paddle samples of the last one. */
module KeyerOrder {
  import opened Keyer
  import opened KeyerTheorems

  /** The paddles as sampled in millisecond i. */
  function At(c: Config, p: Contacts, i: nat): Paddles { Input(c, p(i)) }

  /** In mode 1 a latch is lost as soon as a keying sample in [lo, hi) finds both paddles released. */
  ghost predicate Unbroken(c: Config, p: Contacts, phase: Phase, lo: nat, hi: nat) {
    phase.Keying? && c.mode == 1 ==> forall j | lo <= j < hi :: At(c, p, j).Pressed()
  }

  /** Paddle k is sampled down in some millisecond of [lo, hi), and not lost afterwards. */
  ghost predicate Caught(c: Config, p: Contacts, phase: Phase, k: Kind, lo: nat, hi: nat) {
    exists i | lo <= i < hi :: At(c, p, i).Has(k) && Unbroken(c, p, phase, i + 1, hi)
  }

  lemma {:induction false} WaitLatches(c: Config, p: Contacts, phase: Phase, s: Rig, n: nat, k: Kind)
    ensures var r := Wait(c, p, phase, s, n);
      && r.Time() == s.Time() + n
      && (r.mem1.Has(k) <==> (s.mem1.Has(k) && Unbroken(c, p, phase, s.Time(), r.Time()))
                             || Caught(c, p, phase, k, s.Time(), r.Time()))
      && (n > 0 ==> r.mem0 == At(c, p, r.Time() - 1))
  {
    if n > 0 {
      WaitLatches(c, p, phase, s, n - 1, k);
      var q := Wait(c, p, phase, s, n - 1);
      LatchStep(c, p, phase, q, k, s.mem1.Has(k), s.Time());
    }
  }

  lemma LatchStep(c: Config, p: Contacts, phase: Phase, q: Rig, k: Kind, had: bool, lo: nat)
    requires lo <= q.Time()
    requires q.mem1.Has(k) <==> (had && Unbroken(c, p, phase, lo, q.Time())) || Caught(c, p, phase, k, lo, q.Time())
    ensures var r := Millisecond(c, p, phase, q);
      && r.Time() == q.Time() + 1 && r.mem0 == At(c, p, q.Time())
      && (r.mem1.Has(k) <==> (had && Unbroken(c, p, phase, lo, r.Time())) || Caught(c, p, phase, k, lo, r.Time()))
  {
    var mid := q.Time();
    CaughtExtends(c, p, phase, k, lo, mid);
    UnbrokenExtends(c, p, phase, lo, mid);
    LatchHas(c, p, phase, q.mem1, mid, k);
  }

  lemma UnbrokenExtends(c: Config, p: Contacts, phase: Phase, lo: nat, mid: nat)
    requires lo <= mid
    ensures Unbroken(c, p, phase, lo, mid + 1) <==>
      Unbroken(c, p, phase, lo, mid) && Unbroken(c, p, phase, mid, mid + 1)
  {
  }

  lemma LatchHas(c: Config, p: Contacts, phase: Phase, latched: Paddles, i: nat, k: Kind)
    ensures Latch(c, phase, latched, At(c, p, i)).Has(k) <==>
      At(c, p, i).Has(k) || (latched.Has(k) && Unbroken(c, p, phase, i, i + 1))
  {
    if phase.Keying? && c.mode == 1 {
      assert Unbroken(c, p, phase, i, i + 1) <==> At(c, p, i).Pressed();
    }
  }

  lemma CaughtExtends(c: Config, p: Contacts, phase: Phase, k: Kind, lo: nat, mid: nat)
    requires lo <= mid
    ensures Caught(c, p, phase, k, lo, mid + 1) <==>
      At(c, p, mid).Has(k) || (Caught(c, p, phase, k, lo, mid) && Unbroken(c, p, phase, mid, mid + 1))
  {
    if At(c, p, mid).Has(k) {
      assert Unbroken(c, p, phase, mid + 1, mid + 1);
    }
    if Caught(c, p, phase, k, lo, mid) && Unbroken(c, p, phase, mid, mid + 1) {
      var i :| lo <= i < mid && At(c, p, i).Has(k) && Unbroken(c, p, phase, i + 1, mid);
      assert Unbroken(c, p, phase, i + 1, mid + 1);
    }
    if Caught(c, p, phase, k, lo, mid + 1) && !At(c, p, mid).Has(k) {
      var i :| lo <= i < mid + 1 && At(c, p, i).Has(k) && Unbroken(c, p, phase, i + 1, mid + 1);
      assert Unbroken(c, p, phase, i + 1, mid);
    }
  }

  /** The millisecond at which an element started at `begin` turns from keying to trailing. */
  function Turn(c: Config, kind: Kind, begin: nat): nat { begin + OnLen(c, kind) }

  function End(c: Config, kind: Kind, begin: nat): nat { begin + OnLen(c, kind) + Unit(c) }

  /**
   Paddle k counts for the element that follows: it is down in some millisecond of the
   element; in mode 1 no later keying sample may find both paddles released.
   */
  ghost predicate Wanted(c: Config, p: Contacts, k: Kind, begin: nat, turn: nat, end: nat) {
    exists i | begin <= i < end ::
      At(c, p, i).Has(k) && (c.mode == 1 ==> forall j | i < j < turn :: At(c, p, j).Pressed())
  }

  function Signalled(c: Config, p: Contacts, kind: Kind, s: Rig): Rig {
    Wait(c, p, Keying, On(c, p, s.(mem1 := NONE)), SignalLen(c, kind))
  }

  /** The lead-in of `On`, then the signal. */
  lemma KeyingLatches(c: Config, p: Contacts, kind: Kind, s: Rig, k: Kind)
    ensures var r := Signalled(c, p, kind, s);
      && r.Time() == Turn(c, kind, s.Time())
      && (r.mem1.Has(k) <==> Caught(c, p, Keying, k, s.Time(), r.Time()))
  {
    var s0 := s.(mem1 := NONE, ptt := true, cwPtt := true, mux := true, txMux := true, begin := s.Time());
    WaitLatches(c, p, Keying, s0, Lead(c), k);
    var on := On(c, p, s.(mem1 := NONE));
    assert on == Wait(c, p, Keying, s0, Lead(c)).(rf := true, on := on.Time());
    WaitLatches(c, p, Keying, on, SignalLen(c, kind), k);
    CaughtJoins(c, p, Keying, k, s.Time(), on.Time(), Turn(c, kind, s.Time()));
  }

  /** The rest of `Off`, then the space. */
  lemma TrailingLatches(c: Config, p: Contacts, key: Key, s: Rig, k: Kind)
    ensures var r := Wait(c, p, Spacing, Off(c, p, key, s), SpaceLen(c));
      && r.Time() == s.Time() + Unit(c) > s.Time()
      && r.mem0 == At(c, p, r.Time() - 1)
      && (r.mem1.Has(k) <==> s.mem1.Has(k) || Caught(c, p, Trailing, k, s.Time(), r.Time()))
  {
    TrailingTime(c, p, key, s, k);
    WaitLatches(c, p, Trailing, s, Lead(c), k);
    var off := Off(c, p, key, s);
    WaitLatches(c, p, Spacing, off, SpaceLen(c), k);
    CaughtJoins(c, p, Trailing, k, s.Time(), off.Time(), s.Time() + Unit(c));
    SpacingIsTrailing(c, p, k, off.Time(), s.Time() + Unit(c));
  }

  lemma TrailingTime(c: Config, p: Contacts, key: Key, s: Rig, k: Kind)
    ensures var r := Wait(c, p, Spacing, Off(c, p, key, s), SpaceLen(c));
      r.Time() == s.Time() + Unit(c) > s.Time() && r.mem0 == At(c, p, r.Time() - 1)
  {
    SplitUnit(c);
    WaitLatches(c, p, Trailing, s, Lead(c), k);
    WaitLatches(c, p, Spacing, Off(c, p, key, s), SpaceLen(c), k);
  }

  lemma SpacingIsTrailing(c: Config, p: Contacts, k: Kind, lo: nat, hi: nat)
    ensures Caught(c, p, Spacing, k, lo, hi) <==> Caught(c, p, Trailing, k, lo, hi)
  {
    if Caught(c, p, Spacing, k, lo, hi) {
      var i :| lo <= i < hi && At(c, p, i).Has(k) && Unbroken(c, p, Spacing, i + 1, hi);
      assert Unbroken(c, p, Trailing, i + 1, hi);
    }
  }

  lemma OppositeLatches(c: Config, p: Contacts, kind: Kind, key: Key, s: Rig, k: Kind)
    ensures var r := Wait(c, p, Spacing, Off(c, p, key, Signalled(c, p, kind, s)), SpaceLen(c));
      var begin, turn, end := s.Time(), Turn(c, kind, s.Time()), End(c, kind, s.Time());
      && r.Time() == end > begin
      && r.mem0 == At(c, p, end - 1)
      && (r.mem1.Has(k) <==> Wanted(c, p, k, begin, turn, end))
  {
    var begin, turn, end := s.Time(), Turn(c, kind, s.Time()), End(c, kind, s.Time());
    KeyingLatches(c, p, kind, s, k);
    TrailingLatches(c, p, key, Signalled(c, p, kind, s), k);
    WantedSplits(c, p, k, begin, turn, end);
  }

  lemma LatchAfterElement(c: Config, p: Contacts, kind: Kind, follows: Follows, s: Rig)
    ensures var r := Element(c, p, kind, follows, s);
      var begin, turn, end := s.Time(), Turn(c, kind, s.Time()), End(c, kind, s.Time());
      && r.Time() == end > begin
      && (r.mem1.Has(kind.Other()) <==> Wanted(c, p, kind.Other(), begin, turn, end))
      && (r.mem1.Has(kind) <==> At(c, p, end - 1).Has(kind))
  {
    var spaced := Wait(c, p, Spacing, Off(c, p, Iambic(kind, follows), Signalled(c, p, kind, s)), SpaceLen(c));
    var r := Element(c, p, kind, follows, s);
    assert r == spaced.(mem1 := spaced.mem1.Without(kind).Or(spaced.mem0));
    OppositeLatches(c, p, kind, Iambic(kind, follows), s, kind.Other());
    if spaced.mem0.Has(kind.Other()) {
      LastIsWanted(c, p, kind, s.Time());
    }
  }

  lemma LastIsWanted(c: Config, p: Contacts, kind: Kind, begin: nat)
    requires End(c, kind, begin) > begin && At(c, p, End(c, kind, begin) - 1).Has(kind.Other())
    ensures Wanted(c, p, kind.Other(), begin, Turn(c, kind, begin), End(c, kind, begin))
  {
  }

  lemma CaughtJoins(c: Config, p: Contacts, phase: Phase, k: Kind, lo: nat, mid: nat, hi: nat)
    requires lo <= mid <= hi
    ensures Caught(c, p, phase, k, lo, hi) <==>
      (Caught(c, p, phase, k, lo, mid) && Unbroken(c, p, phase, mid, hi)) || Caught(c, p, phase, k, mid, hi)
  {
    if Caught(c, p, phase, k, lo, mid) && Unbroken(c, p, phase, mid, hi) {
      var i :| lo <= i < mid && At(c, p, i).Has(k) && Unbroken(c, p, phase, i + 1, mid);
      assert Unbroken(c, p, phase, i + 1, hi);
    }
    if Caught(c, p, phase, k, lo, hi) {
      var i :| lo <= i < hi && At(c, p, i).Has(k) && Unbroken(c, p, phase, i + 1, hi);
      if i < mid { assert Unbroken(c, p, phase, i + 1, mid); }
    }
  }

  lemma WantedSplits(c: Config, p: Contacts, k: Kind, begin: nat, turn: nat, end: nat)
    requires begin <= turn <= end
    ensures Wanted(c, p, k, begin, turn, end) <==>
      Caught(c, p, Keying, k, begin, turn) || Caught(c, p, Trailing, k, turn, end)
  {
    if Wanted(c, p, k, begin, turn, end) {
      var i :| begin <= i < end && At(c, p, i).Has(k)
            && (c.mode == 1 ==> forall j | i < j < turn :: At(c, p, j).Pressed());
      if i < turn { assert Unbroken(c, p, Keying, i + 1, turn); }
      else { assert Unbroken(c, p, Trailing, i + 1, end); }
    }
  }

  /**
   After an element the keyer goes on as the samples say: to the opposite element if it
   is wanted; otherwise back to the same one, past one pass that sends nothing, if its
   paddle is down in the last millisecond; otherwise the inner run is over, unless
   letter spacing is on and a paddle goes down during the letter space.
   */
  lemma NextElement(c: Config, p: Contacts, kind: Kind, follows: Follows, s: Rig)
    requires s.mem1.Has(kind)
    ensures var (at, r) := Step(c, p, Paddling(kind, follows), s);
      var begin, turn, end := s.Time(), Turn(c, kind, s.Time()), End(c, kind, s.Time());
      if Wanted(c, p, kind.Other(), begin, turn, end) then
        at == Paddling(kind.Other(), Adjacent) && r.mem1.Has(kind.Other()) && r.Time() == end
      else if At(c, p, end - 1).Has(kind) then
        && at == Paddling(kind.Other(), Adjacent) && r.Time() == end
        && (forall d: Config :: Step(d, p, at, r) == (Paddling(kind, Adjacent), r)) && r.mem1.Has(kind)
      else if c.spacing && exists i | end <= i < end + LetterLen(c) :: At(c, p, i).Pressed() then
        at == Paddling(Dot, Spaced) && r.mem1.Pressed() && r.Time() == end + LetterLen(c)
      else at == Idle
  {
    LatchAfterElement(c, p, kind, follows, s);
    var begin, turn, end := s.Time(), Turn(c, kind, s.Time()), End(c, kind, s.Time());
    var e := Element(c, p, kind, follows, s);
    if !e.mem1.Pressed() && c.spacing {
      WaitLatches(c, p, Spacing, e, LetterLen(c), Dot);
      WaitLatches(c, p, Spacing, e, LetterLen(c), Dash);
      PressedIsCaught(c, p, end, end + LetterLen(c));
    }
  }

  lemma PressedIsCaught(c: Config, p: Contacts, lo: nat, hi: nat)
    ensures (exists i | lo <= i < hi :: At(c, p, i).Pressed()) <==>
      Caught(c, p, Spacing, Dot, lo, hi) || Caught(c, p, Spacing, Dash, lo, hi)
  {
    if i :| lo <= i < hi && At(c, p, i).Pressed() {
      assert Unbroken(c, p, Spacing, i + 1, hi);
    }
  }

  /** Outside mode 1, pressing the opposite paddle at any moment of an element makes it come next. */
  lemma AnyPressIsRemembered(c: Config, p: Contacts, kind: Kind, follows: Follows, s: Rig, i: nat)
    requires s.mem1.Has(kind) && c.mode != 1
    requires s.Time() <= i < End(c, kind, s.Time()) && At(c, p, i).Has(kind.Other())
    ensures var (at, r) := Step(c, p, Paddling(kind, follows), s);
      at == Paddling(kind.Other(), Adjacent) && r.mem1.Has(kind.Other())
  {
    assert Wanted(c, p, kind.Other(), s.Time(), Turn(c, kind, s.Time()), End(c, kind, s.Time()));
    NextElement(c, p, kind, follows, s);
  }

  /** n passes under one configuration. */
  function Passes(c: Config, p: Contacts, at: Control, s: Rig, n: nat): (Control, Rig) {
    if n == 0 then (at, s)
    else var (at', s') := Passes(c, p, at, s, n - 1); Step(c, p, at', s')
  }

  function Alternate(kind: Kind, n: nat): Kind { if n % 2 == 0 then kind else kind.Other() }

  lemma AlternateNext(kind: Kind, n: nat)
    ensures Alternate(kind, n + 1) == Alternate(kind, n).Other()
  {
    if n % 2 == 0 { assert (n + 1) % 2 == 1; } else { assert (n + 1) % 2 == 0; }
  }

  lemma SqueezeStep(c: Config, p: Contacts, kind: Kind, follows: Follows, s: Rig)
    requires forall i :: At(c, p, i) == Paddles(true, true)
    requires s.mem1.Has(kind)
    ensures var (at, r) := Step(c, p, Paddling(kind, follows), s);
      && at == Paddling(kind.Other(), Adjacent) && r.mem1.Has(kind.Other())
      && s.log <= r.log && |r.log| == |s.log| + 1 && Last(r.log).key == Iambic(kind, follows)
  {
    var begin, end := s.Time(), End(c, kind, s.Time());
    SplitUnit(c);
    assert At(c, p, begin).Has(kind.Other());
    assert Wanted(c, p, kind.Other(), begin, Turn(c, kind, begin), end);
    LatchAfterElement(c, p, kind, follows, s);
    OneElementLogged(c, p, kind, follows, s);
  }

  /** From index `from` on, the log alternates between the two elements, starting with `kind`. */
  ghost predicate Alternates(log: seq<Elem>, from: nat, kind: Kind) {
    forall j | from <= j < |log| :: log[j].key.Iambic? && log[j].key.kind == Alternate(kind, j - from)
  }

  /** The state after n elements sent alternately from `s`, starting with `kind`. */
  ghost predicate Squeezed(kind: Kind, n: nat, s: Rig, now: (Control, Rig)) {
    var (at, r) := now;
    && at.Paddling? && at.next == Alternate(kind, n) && r.mem1.Has(at.next)
    && |r.log| == |s.log| + n && s.log <= r.log && Alternates(r.log, |s.log|, kind)
  }

  lemma SqueezedNext(c: Config, p: Contacts, kind: Kind, n: nat, s: Rig, now: (Control, Rig))
    requires forall i :: At(c, p, i) == Paddles(true, true)
    requires Squeezed(kind, n, s, now)
    ensures Squeezed(kind, n + 1, s, Step(c, p, now.0, now.1))
  {
    var (at, q) := now;
    SqueezeStep(c, p, at.next, at.follows, q);
    AlternateNext(kind, n);
    AlternatesAppend(q.log, Step(c, p, at, q).1.log, |s.log|, kind);
  }

  /** Squeezing both paddles sends dots and dashes in strict alternation, one element a pass. */
  lemma {:induction false} SqueezeAlternates(c: Config, p: Contacts, kind: Kind, follows: Follows, s: Rig, n: nat)
    requires forall i :: At(c, p, i) == Paddles(true, true)
    requires s.mem1.Has(kind)
    ensures Squeezed(kind, n, s, Passes(c, p, Paddling(kind, follows), s, n))
  {
    if n > 0 {
      SqueezeAlternates(c, p, kind, follows, s, n - 1);
      SqueezedNext(c, p, kind, n - 1, s, Passes(c, p, Paddling(kind, follows), s, n - 1));
    }
  }

  lemma AlternatesAppend(log: seq<Elem>, log': seq<Elem>, from: nat, kind: Kind)
    requires Alternates(log, from, kind) && from <= |log| < |log'| && |log'| == |log| + 1 && log <= log'
    requires Last(log').key.Iambic? && Last(log').key.kind == Alternate(kind, |log| - from)
    ensures Alternates(log', from, kind)
  {
    forall j | from <= j < |log'|
      ensures log'[j].key.Iambic? && log'[j].key.kind == Alternate(kind, j - from)
    {
      if j < |log| { assert log'[j] == log[j]; }
    }
  }

  lemma OneElementLogged(c: Config, p: Contacts, kind: Kind, follows: Follows, s: Rig)
    ensures var r := Element(c, p, kind, follows, s);
      && s.log <= r.log && |r.log| == |s.log| + 1
      && Last(r.log).key == Iambic(kind, follows) && Last(r.log).config == c
  {
    var s0 := s.(mem1 := NONE, ptt := true, cwPtt := true, mux := true, txMux := true, begin := s.Time());
    WaitKeepsLog(c, p, Keying, s0, Lead(c));
    var on := On(c, p, s.(mem1 := NONE));
    assert on == Wait(c, p, Keying, s0, Lead(c)).(rf := true, on := on.Time());
    WaitKeepsLog(c, p, Keying, on, SignalLen(c, kind));
    var keyed := Signalled(c, p, kind, s);
    WaitKeepsLog(c, p, Trailing, keyed, Lead(c));
    WaitKeepsLog(c, p, Spacing, Off(c, p, Iambic(kind, follows), keyed), SpaceLen(c));
  }

  lemma {:induction false} WaitKeepsLog(c: Config, p: Contacts, phase: Phase, s: Rig, n: nat)
    ensures Wait(c, p, phase, s, n).log == s.log
  {
    if n > 0 { WaitKeepsLog(c, p, phase, s, n - 1); }
  }
}
