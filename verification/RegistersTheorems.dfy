/** Lazy against eager: the loop with dirty flags against one that recomputes every word in every pass. */
module RegistersTheorems {
  import opened Relays
  import opened Registers

  // ---------- The loop with flags ----------

  function RaisedBy(c: Cache, hasMisc: bool, s: Settings, m: Message): Cache {
    match m
    case Frames(first, second) =>
      var t := Received(s, hasMisc, first);
      Raised(Raised(c, hasMisc, s, t), hasMisc, t, Received(t, hasMisc, second))
    case Start => c
  }

  function RaisedByAll(c: Cache, hasMisc: bool, s: Settings, messages: seq<Message>): Cache {
    if messages == [] then c
    else
      var before := messages[..|messages| - 1];
      RaisedBy(RaisedByAll(c, hasMisc, s, before), hasMisc, AllDelivered(s, hasMisc, before), messages[|messages| - 1])
  }

  /** The end of a pass, once the keyer's PTT is in: only what is flagged is recomputed. */
  function Flagged(c: Cache, hasCodec: bool, s: Settings): Cache {
    var a :=
      if !c.alexUpdate then c
      else if hasCodec then c.(alexUpdate := false)
      else AlexSent(c.(alexUpdate := false), s);
    if !a.miscUpdate then a else MiscSent(a.(miscUpdate := false), MiscWord(s.freq, s.misc))
  }

  /** The cache as the keyer's PTT finds it. */
  function BeforeFinish(c: Cache, hasMisc: bool, s: Settings, p: Pass): Cache {
    Raised(RaisedByAll(c, hasMisc, s, p.messages), hasMisc, AllDelivered(s, hasMisc, p.messages), AfterPass(s, hasMisc, p))
  }

  /** The settings after n passes. */
  function After(passes: seq<Pass>, hasMisc: bool, n: nat): Settings
    requires n <= |passes|
  {
    if n == 0 then Initial() else AfterPass(After(passes, hasMisc, n - 1), hasMisc, passes[n - 1])
  }

  /** What the program keeps, and has sent, after n passes. */
  function LazyAfter(passes: seq<Pass>, hasMisc: bool, hasCodec: bool, n: nat): Cache
    requires n <= |passes|
  {
    if n == 0 then InitialCache()
    else
      var c := BeforeFinish(LazyAfter(passes, hasMisc, hasCodec, n - 1), hasMisc, After(passes, hasMisc, n - 1), passes[n - 1]);
      Flagged(c, hasCodec, After(passes, hasMisc, n))
  }

  method Deliver(board: Board, m: Message)
    modifies board
    ensures board.State() == Delivered(old(board.State()), board.hasMisc, m)
    ensures board.Cached() == RaisedBy(old(board.Cached()), board.hasMisc, old(board.State()), m)
  {
    match m {
      case Frames(first, second) =>
        board.ProcessEp2(first);
        board.ProcessEp2(second);
      case Start =>
        board.rxSync := false;
    }
  }

  method Receive(board: Board, messages: seq<Message>)
    modifies board
    ensures board.State() == AllDelivered(old(board.State()), board.hasMisc, messages)
    ensures board.Cached() == RaisedByAll(old(board.Cached()), board.hasMisc, old(board.State()), messages)
  {
    for i := 0 to |messages|
      invariant board.State() == AllDelivered(old(board.State()), board.hasMisc, messages[..i])
      invariant board.Cached() == RaisedByAll(old(board.Cached()), board.hasMisc, old(board.State()), messages[..i])
    {
      Deliver(board, messages[i]);
      assert messages[..i + 1][..i] == messages[..i];
    }
    assert messages[..|messages|] == messages;
  }

  method Finish(board: Board)
    modifies board
    ensures board.State() == old(board.State())
    ensures board.Cached() == Flagged(old(board.Cached()), board.hasCodec, board.State())
  {
    board.FinishAlex();
    board.FinishMisc();
  }

  method OnePass(board: Board, p: Pass)
    modifies board
    ensures board.State() == AfterPass(old(board.State()), board.hasMisc, p)
    ensures board.Cached() == Flagged(BeforeFinish(old(board.Cached()), board.hasMisc, old(board.State()), p), board.hasCodec, board.State())
  {
    Receive(board, p.messages);
    board.TakeKeyer(p.cwPtt);
    Finish(board);
  }

  /** The main loop: cache and words sent come out as those of the eager loop. */
  method MainLoop(hasMisc: bool, hasCodec: bool, passes: seq<Pass>) returns (settings: Settings, cache: Cache)
    ensures settings == After(passes, hasMisc, |passes|)
    ensures cache == EagerAfter(passes, hasMisc, hasCodec, |passes|)
  {
    var board := new Board(hasMisc, hasCodec);
    for n := 0 to |passes|
      invariant fresh(board) && board.hasMisc == hasMisc && board.hasCodec == hasCodec
      invariant board.State() == After(passes, hasMisc, n)
      invariant board.Cached() == LazyAfter(passes, hasMisc, hasCodec, n)
    {
      OnePass(board, passes[n]);
    }
    settings, cache := board.State(), board.Cached();
    LazyIsEager(passes, hasMisc, hasCodec, |passes|);
  }

  // ---------- The loop without flags ----------

  /** The end of a pass without flags: every word is recomputed, and sent if it differs from the last. */
  function Eager(c: Cache, hasMisc: bool, hasCodec: bool, s: Settings): Cache {
    var a := if hasCodec || !s.touched then c else AlexSent(c, s);
    if hasMisc then MiscSent(a, MiscWord(s.freq, s.misc)) else a
  }

  function EagerAfter(passes: seq<Pass>, hasMisc: bool, hasCodec: bool, n: nat): (c: Cache)
    requires n <= |passes|
    ensures !c.alexUpdate && !c.miscUpdate
  {
    if n == 0 then InitialCache()
    else Eager(EagerAfter(passes, hasMisc, hasCodec, n - 1), hasMisc, hasCodec, After(passes, hasMisc, n))
  }

  /** A clear flag means that the word last sent is current. */
  predicate Lazy(c: Cache, hasMisc: bool, hasCodec: bool, s: Settings) {
    && (c.alexUpdate ==> s.touched)
    && (!c.alexUpdate && s.touched && !hasCodec ==> c.rx == RxWord(s.freq, s.alex) && c.tx == TxWord(s.freq, s.alex))
    && (c.miscUpdate ==> hasMisc)
    && (!c.miscUpdate && hasMisc ==> c.misc == MiscWord(s.freq, s.misc))
  }

  function Clear(c: Cache): Cache { c.(alexUpdate := false, miscUpdate := false) }

  /** Raising flags is enough: no word goes stale unflagged. */
  lemma RaisedKeeps(c: Cache, hasMisc: bool, hasCodec: bool, s: Settings, t: Settings)
    requires Lazy(c, hasMisc, hasCodec, s) && t == s.Note(t) && (!hasMisc ==> t.misc == s.misc)
    ensures Lazy(Raised(c, hasMisc, s, t), hasMisc, hasCodec, t) && Clear(Raised(c, hasMisc, s, t)) == Clear(c)
  {
  }

  lemma CommandNotes(s: Settings, hasMisc: bool, f: Frame)
    ensures var t := Received(s, hasMisc, f);
      t == s.Note(t) && (!hasMisc ==> t.misc == s.misc)
  {
  }

  lemma {:induction false} MessagesKeep(c: Cache, hasMisc: bool, hasCodec: bool, s: Settings, messages: seq<Message>)
    requires Lazy(c, hasMisc, hasCodec, s)
    ensures Lazy(RaisedByAll(c, hasMisc, s, messages), hasMisc, hasCodec, AllDelivered(s, hasMisc, messages))
    ensures Clear(RaisedByAll(c, hasMisc, s, messages)) == Clear(c)
  {
    if messages != [] {
      var before := messages[..|messages| - 1];
      MessagesKeep(c, hasMisc, hasCodec, s, before);
      MessageKeeps(RaisedByAll(c, hasMisc, s, before), hasMisc, hasCodec, AllDelivered(s, hasMisc, before), messages[|messages| - 1]);
    }
  }

  lemma MessageKeeps(c: Cache, hasMisc: bool, hasCodec: bool, s: Settings, m: Message)
    requires Lazy(c, hasMisc, hasCodec, s)
    ensures Lazy(RaisedBy(c, hasMisc, s, m), hasMisc, hasCodec, Delivered(s, hasMisc, m))
    ensures Clear(RaisedBy(c, hasMisc, s, m)) == Clear(c)
  {
    match m {
      case Frames(first, second) =>
        var t := Received(s, hasMisc, first);
        CommandNotes(s, hasMisc, first);
        CommandNotes(t, hasMisc, second);
        RaisedKeeps(c, hasMisc, hasCodec, s, t);
        RaisedKeeps(Raised(c, hasMisc, s, t), hasMisc, hasCodec, t, Received(t, hasMisc, second));
      case Start =>
    }
  }

  /** With only the flagged words recomputed, cache and words sent come out as with all of them. */
  lemma FlagsSuffice(c: Cache, hasMisc: bool, hasCodec: bool, s: Settings)
    requires Lazy(c, hasMisc, hasCodec, s)
    ensures Flagged(c, hasCodec, s) == Eager(Clear(c), hasMisc, hasCodec, s)
    ensures Lazy(Flagged(c, hasCodec, s), hasMisc, hasCodec, s)
  {
    assert c.rxLog + [] == c.rxLog && c.txLog + [] == c.txLog && c.miscLog + [] == c.miscLog;
  }

  lemma {:induction false} LazyIsEager(passes: seq<Pass>, hasMisc: bool, hasCodec: bool, n: nat)
    requires n <= |passes|
    ensures LazyAfter(passes, hasMisc, hasCodec, n) == EagerAfter(passes, hasMisc, hasCodec, n)
    ensures Lazy(LazyAfter(passes, hasMisc, hasCodec, n), hasMisc, hasCodec, After(passes, hasMisc, n))
  {
    if n == 0 {
      MiscStarts();
    } else {
      LazyIsEager(passes, hasMisc, hasCodec, n - 1);
      PassIsEager(LazyAfter(passes, hasMisc, hasCodec, n - 1), hasMisc, hasCodec, After(passes, hasMisc, n - 1), passes[n - 1]);
    }
  }

  lemma PassIsEager(c: Cache, hasMisc: bool, hasCodec: bool, s: Settings, p: Pass)
    requires Lazy(c, hasMisc, hasCodec, s)
    ensures var b, t := BeforeFinish(c, hasMisc, s, p), AfterPass(s, hasMisc, p);
      Flagged(b, hasCodec, t) == Eager(Clear(c), hasMisc, hasCodec, t) && Lazy(Flagged(b, hasCodec, t), hasMisc, hasCodec, t)
  {
    MessagesKeep(c, hasMisc, hasCodec, s, p.messages);
    RaisedKeeps(RaisedByAll(c, hasMisc, s, p.messages), hasMisc, hasCodec, AllDelivered(s, hasMisc, p.messages), AfterPass(s, hasMisc, p));
    FlagsSuffice(BeforeFinish(c, hasMisc, s, p), hasMisc, hasCodec, AfterPass(s, hasMisc, p));
  }

  // ---------- What the boards see ----------

  /** Those words of a sequence that differ from the one before, the first from `last`. */
  function Changes(last: bv16, words: seq<bv16>): seq<bv16> {
    if words == [] then []
    else
      var n := |words| - 1;
      Changes(last, words[..n]) + Sent(if n == 0 then last else words[n - 1], words[n])
  }

  predicate NoRepeats(log: seq<bv16>) { forall i | 0 < i < |log| :: log[i] != log[i - 1] }

  /** A board is left with the last word, and never gets the same word twice in a row. */
  lemma {:induction false} ChangesArrive(last: bv16, words: seq<bv16>)
    ensures var log := [last] + Changes(last, words);
      log[|log| - 1] == (if words == [] then last else words[|words| - 1]) && NoRepeats(log)
  {
    if words != [] {
      var n := |words| - 1;
      ChangesArrive(last, words[..n]);
      assert [last] + Changes(last, words) ==
        ([last] + Changes(last, words[..n])) + Sent(if n == 0 then last else words[n - 1], words[n]);
    }
  }

  /** The misc word of each pass, as recomputed at its end. */
  function MiscWords(passes: seq<Pass>, hasMisc: bool, n: nat): (r: seq<bv16>)
    requires n <= |passes|
    ensures |r| == n
  {
    if n == 0 then [] else
      var s := After(passes, hasMisc, n);
      MiscWords(passes, hasMisc, n - 1) + [MiscWord(s.freq, s.misc)]
  }

  /** The words of one ALEX board, for the passes since the first change of any setting. */
  function AlexWords(passes: seq<Pass>, hasMisc: bool, rx: bool, n: nat): seq<bv16>
    requires n <= |passes|
  {
    if n == 0 then [] else
      var s := After(passes, hasMisc, n);
      Grown(AlexWords(passes, hasMisc, rx, n - 1), s.touched, if rx then RxWord(s.freq, s.alex) else TxWord(s.freq, s.alex))
  }

  function Grown(words: seq<bv16>, touched: bool, w: bv16): seq<bv16> { if touched then words + [w] else words }

  function LastOf(words: seq<bv16>): bv16 { if words == [] then 0 else words[|words| - 1] }

  lemma ChangesGrow(words: seq<bv16>, w: bv16)
    ensures Changes(0, words + [w]) == Changes(0, words) + Sent(LastOf(words), w) && LastOf(words + [w]) == w
  {
    assert (words + [w])[..|words|] == words;
  }

  predicate MiscFollows(c: Cache, words: seq<bv16>) { c.miscLog == [0] + Changes(0, words) && c.misc == LastOf(words) }

  lemma {:induction false} MiscTraffic(passes: seq<Pass>, hasCodec: bool, n: nat)
    requires n <= |passes|
    ensures MiscFollows(EagerAfter(passes, true, hasCodec, n), MiscWords(passes, true, n))
  {
    if n > 0 {
      MiscTraffic(passes, hasCodec, n - 1);
      OnePassMore(passes, hasCodec, n);
      MiscStep(EagerAfter(passes, true, hasCodec, n - 1), EagerAfter(passes, true, hasCodec, n), hasCodec, After(passes, true, n),
               MiscWords(passes, true, n - 1), MiscWords(passes, true, n));
    }
  }

  lemma OnePassMore(passes: seq<Pass>, hasCodec: bool, n: nat)
    requires 0 < n <= |passes|
    ensures EagerAfter(passes, true, hasCodec, n) == Eager(EagerAfter(passes, true, hasCodec, n - 1), true, hasCodec, After(passes, true, n))
    ensures var s := After(passes, true, n);
      MiscWords(passes, true, n) == MiscWords(passes, true, n - 1) + [MiscWord(s.freq, s.misc)]
  {
  }

  lemma MiscStep(c: Cache, d: Cache, hasCodec: bool, s: Settings, words: seq<bv16>, next: seq<bv16>)
    requires MiscFollows(c, words)
    requires d == Eager(c, true, hasCodec, s) && next == words + [MiscWord(s.freq, s.misc)]
    ensures MiscFollows(d, next)
  {
    ChangesGrow(words, MiscWord(s.freq, s.misc));
  }

  predicate Follows(c: Cache, rx: seq<bv16>, tx: seq<bv16>) {
    c.rxLog == Changes(0, rx) && c.rx == LastOf(rx) && c.txLog == Changes(0, tx) && c.tx == LastOf(tx)
  }

  lemma {:induction false} AlexTraffic(passes: seq<Pass>, hasMisc: bool, n: nat)
    requires n <= |passes|
    ensures Follows(EagerAfter(passes, hasMisc, false, n),
                    AlexWords(passes, hasMisc, true, n), AlexWords(passes, hasMisc, false, n))
  {
    if n > 0 {
      AlexTraffic(passes, hasMisc, n - 1);
      AlexStep(EagerAfter(passes, hasMisc, false, n - 1), hasMisc, After(passes, hasMisc, n),
               AlexWords(passes, hasMisc, true, n - 1), AlexWords(passes, hasMisc, false, n - 1));
    }
  }

  lemma AlexStep(c: Cache, hasMisc: bool, s: Settings, rx: seq<bv16>, tx: seq<bv16>)
    requires Follows(c, rx, tx)
    ensures Follows(Eager(c, hasMisc, false, s),
                    Grown(rx, s.touched, RxWord(s.freq, s.alex)), Grown(tx, s.touched, TxWord(s.freq, s.alex)))
  {
    ChangesGrow(rx, RxWord(s.freq, s.alex));
    ChangesGrow(tx, TxWord(s.freq, s.alex));
  }

  lemma Arrived(log: seq<bv16>, words: seq<bv16>)
    requires log == Changes(0, words)
    ensures LastOf(words) != 0 ==> log != [] && LastOf(log) == LastOf(words)
    ensures NoRepeats(log)
  {
    ChangesArrive(0, words);
    var all := [0] + log;
    assert forall i | 0 <= i < |log| :: all[i + 1] == log[i];
  }

  /** After every pass the misc board holds the word of the settings, and got no word twice in a row. */
  lemma MiscIsCurrent(passes: seq<Pass>, hasCodec: bool, n: nat)
    requires n <= |passes|
    ensures var c, s := LazyAfter(passes, true, hasCodec, n), After(passes, true, n);
      LastOf(c.miscLog) == MiscWord(s.freq, s.misc) && NoRepeats(c.miscLog)
  {
    LazyIsEager(passes, true, hasCodec, n);
    MiscTraffic(passes, hasCodec, n);
    ChangesArrive(0, MiscWords(passes, true, n));
  }

  /** With the codec present nothing goes to the ALEX boards. */
  lemma {:induction false} NoAlexWithCodec(passes: seq<Pass>, hasMisc: bool, n: nat)
    requires n <= |passes|
    ensures var c := EagerAfter(passes, hasMisc, true, n); c.rxLog == c.txLog == []
  {
    if n > 0 { NoAlexWithCodec(passes, hasMisc, n - 1); }
  }

  /** So do the ALEX boards, from the first change of any of their settings on; with a codec nothing goes to them. */
  lemma AlexIsCurrent(passes: seq<Pass>, hasMisc: bool, hasCodec: bool, n: nat)
    requires n <= |passes|
    ensures var c, s := LazyAfter(passes, hasMisc, hasCodec, n), After(passes, hasMisc, n);
      if hasCodec then c.rxLog == c.txLog == []
      else
        && NoRepeats(c.rxLog) && NoRepeats(c.txLog)
        && (s.touched ==> LastOf(c.rxLog) == RxWord(s.freq, s.alex) && LastOf(c.txLog) == TxWord(s.freq, s.alex))
  {
    LazyIsEager(passes, hasMisc, hasCodec, n);
    if hasCodec { NoAlexWithCodec(passes, hasMisc, n); } else { LastAlexWords(passes, hasMisc, n); }
  }

  lemma LastAlexWords(passes: seq<Pass>, hasMisc: bool, n: nat)
    requires n <= |passes|
    ensures var c, s := EagerAfter(passes, hasMisc, false, n), After(passes, hasMisc, n);
      && NoRepeats(c.rxLog) && NoRepeats(c.txLog)
      && (s.touched ==> LastOf(c.rxLog) == RxWord(s.freq, s.alex) && LastOf(c.txLog) == TxWord(s.freq, s.alex))
  {
    var s := After(passes, hasMisc, n);
    AlexTraffic(passes, hasMisc, n);
    Arrived(EagerAfter(passes, hasMisc, false, n).rxLog, AlexWords(passes, hasMisc, true, n));
    Arrived(EagerAfter(passes, hasMisc, false, n).txLog, AlexWords(passes, hasMisc, false, n));
    PttAgrees(s.freq, s.alex);
  }
}
