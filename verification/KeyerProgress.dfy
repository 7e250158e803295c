/** Pressed paddles get their elements: what a pass of the inner loop sends. */
module KeyerProgress {
  import opened Keyer
  import opened KeyerTheorems
  import opened KeyerOrder

  /** `r` has sent one more element than `s`. */
  predicate SentOne(s: Rig, r: Rig, c: Config, kind: Kind, follows: Follows) {
    && s.log <= r.log && |r.log| == |s.log| + 1
    && Last(r.log).key == Iambic(kind, follows) && Last(r.log).config == c
  }

  /**
   While a latch is set, the pass sends the element that is due if that is the one latched;
   otherwise it does nothing but turn to the other element, which the next pass sends.
   */
  lemma SentWithinTwo(c: Config, d: Config, p: Contacts, next: Kind, follows: Follows, s: Rig)
    requires s.mem1.Pressed()
    ensures var (at, r) := Step(c, p, Paddling(next, follows), s);
      if s.mem1.Has(next) then SentOne(s, r, c, next, follows)
      else
        && at == Paddling(next.Other(), follows) && r == s
        && SentOne(s, Step(d, p, at, r).1, d, next.Other(), follows)
  {
    if s.mem1.Has(next) { PassSends(c, p, next, follows, s); }
    else { PassSends(d, p, next.Other(), follows, s); }
  }

  lemma PassSends(c: Config, p: Contacts, next: Kind, follows: Follows, s: Rig)
    requires s.mem1.Has(next)
    ensures SentOne(s, Step(c, p, Paddling(next, follows), s).1, c, next, follows)
  {
    OneElementLogged(c, p, next, follows, s);
    WaitKeepsLog(c, p, Spacing, Element(c, p, next, follows, s), LetterLen(c));
  }

  /** A dash at 20 words a minute with a delay of 100 ms: 140 ms instead of 180. */
  lemma DashCanBeShort() returns (cs: seq<Config>, p: Contacts)
    ensures var log := Run(cs, p).1.log;
      |log| == 1 && log[0].key == Iambic(Dash, First) && log[0].off - log[0].on == 140 && DashLen(log[0].config) == 180
  {
    var c: Config := Settings(true, false, 20, 2, 50, false, 100, 0);
    cs, p := [c, c, c], _ => Paddles(true, false);
    FirstDash(c, p);
    DashShortened(cs, p, c);
  }

  /** With the dash paddle down, the third pass sends the first dash. */
  lemma FirstDash(c: Config, p: Contacts)
    requires c.internal && c.mode != 0 && !c.reversed && p(0) == Paddles(true, false)
    ensures var log := Run([c, c, c], p).1.log;
      |log| == 1 && log[0].key == Iambic(Dash, First) && log[0].config == c
  {
    FirstPress(c, p);
    assert [c, c, c][..2] == [c, c] && [c, c][..1] == [c];
    SentWithinTwo(c, c, p, Dot, First, Run([c], p).1);
  }

  lemma FirstPress(c: Config, p: Contacts)
    requires c.internal && c.mode != 0 && !c.reversed && p(0) == Paddles(true, false)
    ensures var (at, s) := Run([c], p); at == Paddling(Dot, First) && s.mem1 == Paddles(true, false) && s.log == []
  {
    assert [c][..0] == [];
  }

  lemma DashShortened(cs: seq<Config>, p: Contacts, c: Config)
    requires Unit(c) <= c.delay <= DashLen(c)
    requires var log := Run(cs, p).1.log; |log| == 1 && log[0].key == Iambic(Dash, First) && log[0].config == c
    ensures var log := Run(cs, p).1.log; log[0].off - log[0].on == DashLen(c) - c.delay + Unit(c)
  {
    RunKeeps(cs, p);
    assert TimedAt(Run(cs, p).1.log, 0);
  }
}
