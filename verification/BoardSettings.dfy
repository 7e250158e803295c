/**
 What the misc and ALEX boards are set to, as a function of the frames that the client has
 sent and of the keyer: by bytes and bits of the frames, down to the bits of the words sent.
 */
module BoardSettings {
  import opened Relays
  import opened Registers
  import opened RegistersTheorems
  import opened Oscillators

  /** The last frame with a code or the code after it; all zeros if there was none. */
  function LastFrame(es: seq<Event>, code: bv8): Frame {
    if es == [] then [0, 0, 0, 0, 0]
    else if Oscillators.Code(es[|es| - 1], code) then es[|es| - 1].frame
    else LastFrame(es[..|es| - 1], code)
  }

  predicate HasFrame(es: seq<Event>, code: bv8) {
    exists k :: 0 <= k < |es| && Oscillators.Code(es[k], code)
  }

  /** The keyer's PTT in any pass since the one that brought the last frame of code 0 or 1. */
  function KeyedSince(passes: seq<Pass>, n: nat): Flag
    requires n <= |passes|
  {
    if n == 0 then 0
    else if HasFrame(History(passes[n - 1].messages), 0) then passes[n - 1].cwPtt
    else KeyedSince(passes, n - 1) | passes[n - 1].cwPtt
  }

  lemma {:induction false} KeyedIff(passes: seq<Pass>, n: nat)
    requires n <= |passes|
    ensures KeyedSince(passes, n) == 1 <==> exists k: nat :: KeyedAt(passes, n, k)
  {
    if n > 0 {
      KeyedIff(passes, n - 1);
      OrIsOne(KeyedSince(passes, n - 1), passes[n - 1].cwPtt);
      KeyedEarlier(passes, n - 1, n);
    }
  }

  lemma KeyedEarlier(passes: seq<Pass>, m: nat, n: nat)
    requires m + 1 == n <= |passes|
    ensures (exists k: nat :: KeyedAt(passes, n, k)) <==>
      || passes[m].cwPtt == 1
      || (!HasFrame(History(passes[m].messages), 0) && exists k: nat :: KeyedAt(passes, m, k))
  {
    if passes[m].cwPtt == 1 { assert KeyedAt(passes, n, m); }
    if k: nat :| KeyedAt(passes, m, k) {
      assert !HasFrame(History(passes[m].messages), 0) ==> KeyedAt(passes, n, k);
    }
    if k: nat :| KeyedAt(passes, n, k) {
      assert k < m ==> KeyedAt(passes, m, k);
    }
  }

  /** Keyed at the end of pass k, and no frame of code 0 or 1 in the passes since. */
  predicate KeyedAt(passes: seq<Pass>, n: nat, k: nat)
    requires n <= |passes|
  {
    k < n && passes[k].cwPtt == 1 && forall j: nat | k < j < n :: !HasFrame(History(passes[j].messages), 0)
  }

  lemma OrIsOne(a: Flag, b: Flag)
    ensures a | b <= 1 && (a | b == 1 <==> a == 1 || b == 1)
  {
  }

  // ---------- The settings agree ----------

  /** Bits of the last frames, by board. */
  function MiscOf(es: seq<Event>): Misc {
    var tx := LastFrame(es, 18)[3];
    MiscSet(LastFrame(es, 20)[4] as bv16 % 32, LastFrame(es, 22)[1] as bv16 % 32,
            (if tx & 0x20 != 0 then 1 else 0) + if tx & 0x80 != 0 then 2 else 0)
  }

  function AlexOf(es: seq<Event>, keyed: Flag): Alex {
    AlexSet(Alex0Of(LastFrame(es, 0)) | keyed, Alex1Of(LastFrame(es, 18)))
  }

  ghost predicate SetBy(s: Settings, hasMisc: bool, es: seq<Event>, keyed: Flag) {
    s.misc == (if hasMisc then MiscOf(es) else MiscSet(0, 0, 0)) && s.alex == AlexOf(es, keyed)
  }

  lemma LastAppends(es: seq<Event>, e: Event)
    ensures forall code :: LastFrame(es + [e], code) == if Oscillators.Code(e, code) then e.frame else LastFrame(es, code)
  {
    assert (es + [e])[..|es|] == es;
  }

  function Keeps(keyed: Flag, es: seq<Event>): Flag { if HasFrame(es, 0) then 0 else keyed }

  lemma MiscBits(f: Frame)
    ensures f[4] as bv16 & 0x1f == f[4] as bv16 % 32 && f[1] as bv16 & 0x1f == f[1] as bv16 % 32
    ensures Misc2Of(f) == (if f[3] & 0x20 != 0 then 1 else 0) + if f[3] & 0x80 != 0 then 2 else 0
  {
  }

  lemma FrameSets(s: Settings, hasMisc: bool, es: seq<Event>, keyed: Flag, f: Frame)
    requires SetBy(s, hasMisc, es, keyed)
    ensures SetBy(Received(s, hasMisc, f), hasMisc, es + [Given(f)], if f[0] < 2 then 0 else keyed)
  {
    CommandSets(s, hasMisc, f);
    MiscAppends(es, f);
    AlexAppends(es, keyed, f);
  }

  /** What a frame sets on the boards. */
  lemma CommandSets(s: Settings, hasMisc: bool, f: Frame)
    ensures var r := Received(s, hasMisc, f);
      && r.alex == AlexAfter(s.alex, f)
      && r.misc == if hasMisc then MiscAfter(s.misc, f) else s.misc
  {
  }

  function MiscAfter(x: Misc, f: Frame): Misc {
    MiscSet(if f[0] == 20 || f[0] == 21 then f[4] as bv16 & 0x1f else x.data0,
            if f[0] == 22 || f[0] == 23 then f[1] as bv16 & 0x1f else x.data1,
            if f[0] == 18 || f[0] == 19 then Misc2Of(f) else x.data2)
  }

  function AlexAfter(x: Alex, f: Frame): Alex {
    AlexSet(if f[0] < 2 then Alex0Of(f) else x.data0, if f[0] == 18 || f[0] == 19 then Alex1Of(f) else x.data1)
  }

  lemma AlexAppends(es: seq<Event>, keyed: Flag, f: Frame)
    ensures AlexOf(es + [Given(f)], if f[0] < 2 then 0 else keyed) == AlexAfter(AlexOf(es, keyed), f)
  {
    LastAppends(es, Given(f));
  }

  lemma MiscAppends(es: seq<Event>, f: Frame)
    ensures MiscOf(es + [Given(f)]) == MiscAfter(MiscOf(es), f)
  {
    LastAppends(es, Given(f));
    MiscBits(f);
  }

  lemma MessageSets(s: Settings, hasMisc: bool, es: seq<Event>, keyed: Flag, m: Message)
    requires SetBy(s, hasMisc, es, keyed)
    ensures SetBy(Delivered(s, hasMisc, m), hasMisc, es + EventsOf(m), Keeps(keyed, EventsOf(m)))
  {
    match m {
      case Frames(first, second) =>
        FrameSets(s, hasMisc, es, keyed, first);
        FrameSets(Received(s, hasMisc, first), hasMisc, es + [Given(first)], if first[0] < 2 then 0 else keyed, second);
        assert es + [Given(first)] + [Given(second)] == es + EventsOf(m);
        TwoFrames(first, second);
      case Start =>
        LastAppends(es, Started);
        assert EventsOf(m) == [Started];
    }
  }

  lemma TwoFrames(first: Frame, second: Frame)
    ensures HasFrame([Given(first), Given(second)], 0) <==> first[0] < 2 || second[0] < 2
  {
    var es := [Given(first), Given(second)];
    assert Oscillators.Code(es[0], 0) <==> first[0] < 2;
    assert Oscillators.Code(es[1], 0) <==> second[0] < 2;
  }

  lemma FrameInEither(es: seq<Event>, more: seq<Event>, code: bv8)
    ensures HasFrame(es + more, code) <==> HasFrame(es, code) || HasFrame(more, code)
  {
    var all := es + more;
    if k :| 0 <= k < |es| && Oscillators.Code(es[k], code) { assert Oscillators.Code(all[k], code); }
    if k :| 0 <= k < |more| && Oscillators.Code(more[k], code) { assert Oscillators.Code(all[|es| + k], code); }
  }

  lemma {:induction false} MessagesSet(s: Settings, hasMisc: bool, es: seq<Event>, keyed: Flag, messages: seq<Message>)
    requires SetBy(s, hasMisc, es, keyed)
    ensures SetBy(AllDelivered(s, hasMisc, messages), hasMisc, es + History(messages), Keeps(keyed, History(messages)))
  {
    if messages == [] {
      assert es + [] == es;
    } else {
      var before, m := messages[..|messages| - 1], messages[|messages| - 1];
      MessagesSet(s, hasMisc, es, keyed, before);
      MessageSets(AllDelivered(s, hasMisc, before), hasMisc, es + History(before), Keeps(keyed, History(before)), m);
      assert es + History(before) + EventsOf(m) == es + History(messages);
      FrameInEither(History(before), EventsOf(m), 0);
    }
  }

  /** The bits of the initial settings. */
  lemma StartsZero()
    ensures SetBy(Initial(), true, [], 0) && SetBy(Initial(), false, [], 0)
  {
  }

  /** After every pass of every run, the settings of both boards are those of the last frames of each code, and of the keyer. */
  lemma {:induction false} SettingsFollow(passes: seq<Pass>, hasMisc: bool, n: nat)
    requires n <= |passes|
    ensures SetBy(After(passes, hasMisc, n), hasMisc, RunHistory(passes, n), KeyedSince(passes, n))
  {
    if n == 0 {
      StartsZero();
    } else {
      SettingsFollow(passes, hasMisc, n - 1);
      var messages, keyed := passes[n - 1].messages, KeyedSince(passes, n - 1);
      MessagesSet(After(passes, hasMisc, n - 1), hasMisc, RunHistory(passes, n - 1), keyed, messages);
      KeyerJoins(AllDelivered(After(passes, hasMisc, n - 1), hasMisc, messages), hasMisc,
                 RunHistory(passes, n), Keeps(keyed, History(messages)), passes[n - 1].cwPtt);
    }
  }

  lemma KeyerJoins(s: Settings, hasMisc: bool, es: seq<Event>, keyed: Flag, cwPtt: Flag)
    requires SetBy(s, hasMisc, es, keyed)
    ensures SetBy(WithKeyer(s, cwPtt), hasMisc, es, keyed | cwPtt)
  {
  }

  // ---------- The bits of the words sent ----------

  /** The last word that the board got in n passes. */
  function MiscSeen(passes: seq<Pass>, hasCodec: bool, n: nat): bv16
    requires n <= |passes|
  {
    LastOf(LazyAfter(passes, true, hasCodec, n).miscLog)
  }

  /**
   The misc word, bit by bit: the band codes of the two receivers, whether the transmitter is
   elsewhere than the first, bits 3 and 4 of both attenuators, and two bits of C3 of the filter frame.
   */
  ghost predicate MiscBitsAre(w: bv16, es: seq<Event>) {
    && BandsAre(w, Asked(es, 2, 0), Asked(es, 4, 0), SecondFreq(es))
    && SwitchesAre(w, LastFrame(es, 20)[4], LastFrame(es, 22)[1], LastFrame(es, 18)[3])
  }

  /** A band is coded by its number: see Relays.CodeNamesBand. */
  predicate BandsAre(w: bv16, tx: nat, rx1: nat, rx2: nat) {
    w & 15 == Relays.Code(rx1) && (w >> 4) & 15 == Relays.Code(rx2) && ((w >> 8) & 1 == 1 <==> Band(tx) != Band(rx1))
  }

  predicate SwitchesAre(w: bv16, att1: bv8, att2: bv8, c3: bv8) {
    && (w >> 9) & 3 == (att1 as bv16 >> 3) & 3 && (w >> 11) & 3 == (att2 as bv16 >> 3) & 3
    && ((w >> 13) & 1 == 1 <==> c3 & 0x20 != 0) && ((w >> 14) & 1 == 1 <==> c3 & 0x80 != 0)
    && w >> 15 == 0
  }

  lemma SwitchesRead(w: bv16, elsewhere: bool, b1: bv16, b2: bv16, att1: bv8, att2: bv8, c3: bv8)
    requires MiscReads(w, elsewhere, b1, b2, att1 as bv16 % 32, att2 as bv16 % 32,
                       (if c3 & 0x20 != 0 then 1 else 0) + if c3 & 0x80 != 0 then 2 else 0)
    ensures SwitchesAre(w, att1, att2, c3)
  {
  }

  lemma CodesRead(w: bv16, elsewhere: bool, b1: bv16, b2: bv16, m0: bv16, m1: bv16, m2: bv16)
    requires MiscReads(w, elsewhere, b1, b2, m0, m1, m2)
    ensures w & 15 == b1 && (w >> 4) & 15 == b2 && ((w >> 8) & 1 == 1 <==> elsewhere)
  {
  }

  /** After every pass, the bits of the word that the misc board got last are those of the last frames. */
  lemma MiscBoardFollows(passes: seq<Pass>, hasCodec: bool, n: nat)
    requires n <= |passes|
    ensures MiscBitsAre(MiscSeen(passes, hasCodec, n), RunHistory(passes, n))
  {
    var s, es := After(passes, true, n), RunHistory(passes, n);
    MiscIsCurrent(passes, hasCodec, n);
    SettingsFollow(passes, true, n);
    OscillatorsFollow(passes, true, n);
    MiscFromHistory(MiscSeen(passes, hasCodec, n), s.freq, s.misc, es);
  }

  lemma MiscFromHistory(w: bv16, freq: Freqs, misc: Misc, es: seq<Event>)
    requires freq == [Asked(es, 2, 0), Asked(es, 4, 0), SecondFreq(es)] && misc == MiscOf(es)
    requires w == MiscWord(freq, misc)
    ensures MiscBitsAre(w, es)
  {
    BandsFrom(freq, misc);
    SwitchesFrom(freq, misc, LastFrame(es, 20)[4], LastFrame(es, 22)[1], LastFrame(es, 18)[3]);
  }

  lemma BandsFrom(freq: Freqs, x: Misc)
    ensures BandsAre(MiscWord(freq, x), freq[0], freq[1], freq[2])
  {
    MiscFields(freq, x);
    CodesRead(MiscWord(freq, x), Band(freq[0]) != Band(freq[1]), Relays.Code(freq[1]), Relays.Code(freq[2]), x.data0, x.data1, x.data2);
  }

  lemma SwitchesFrom(freq: Freqs, x: Misc, att1: bv8, att2: bv8, c3: bv8)
    requires x == MiscSet(att1 as bv16 % 32, att2 as bv16 % 32, (if c3 & 0x20 != 0 then 1 else 0) + if c3 & 0x80 != 0 then 2 else 0)
    ensures SwitchesAre(MiscWord(freq, x), att1, att2, c3)
  {
    MiscFields(freq, x);
    SwitchesRead(MiscWord(freq, x), Band(freq[0]) != Band(freq[1]), Relays.Code(freq[1]), Relays.Code(freq[2]), att1, att2, c3);
  }

  // ---------- The ALEX words ----------

  /** Some input of the ALEX words has changed, if any of them is not as at the start. */
  lemma {:induction false} UntouchedIsInitial(passes: seq<Pass>, hasMisc: bool, n: nat)
    requires n <= |passes|
    ensures var s := After(passes, hasMisc, n); Untouched(s)
  {
    if n > 0 {
      UntouchedIsInitial(passes, hasMisc, n - 1);
      UntouchedThrough(After(passes, hasMisc, n - 1), hasMisc, passes[n - 1].messages);
    }
  }

  predicate Untouched(s: Settings) { !s.touched ==> s.freq == [0, 0, 0] && s.alex == AlexSet(0, 0) }

  lemma {:induction false} UntouchedThrough(s: Settings, hasMisc: bool, messages: seq<Message>)
    requires Untouched(s)
    ensures Untouched(AllDelivered(s, hasMisc, messages))
  {
    if messages != [] {
      UntouchedThrough(s, hasMisc, messages[..|messages| - 1]);
      UntouchedMessage(AllDelivered(s, hasMisc, messages[..|messages| - 1]), hasMisc, messages[|messages| - 1]);
    }
  }

  lemma UntouchedMessage(s: Settings, hasMisc: bool, m: Message)
    requires Untouched(s)
    ensures Untouched(Delivered(s, hasMisc, m))
  {
    if m.Frames? {
      CommandNotes(s, hasMisc, m.first);
      CommandNotes(Received(s, hasMisc, m.first), hasMisc, m.second);
    }
  }

  /** Relays and antennas of the receive board: `control` is the last frame of code 0 or 1, `keyed` the keyer's PTT since. */
  predicate RxBitsAre(w: bv16, control: Frame, keyed: Flag) {
    var antenna := (control[3] >> 5) & 3;
    && (w >> 15 == 1 <==> control[0] & 1 == 1 || keyed == 1)
    && ((w >> 14) & 1 == 1 <==> control[3] & 0x01 != 0) && ((w >> 13) & 1 == 1 <==> control[3] & 0x02 != 0)
    && ((w >> 11) & 1 == 1 <==> control[3] & 0x80 != 0)
    && ((w >> 10) & 1 == 1 <==> antenna == 1) && ((w >> 9) & 1 == 1 <==> antenna == 2) && ((w >> 8) & 1 == 1 <==> antenna == 3)
    && w & 1 == 1
  }

  /** The transmit board: besides, `filters` is the last frame of code 18 or 19. */
  predicate TxBitsAre(w: bv16, control: Frame, filters: Frame, keyed: Flag) {
    var antenna, ptt := control[4] & 3, control[0] & 1 == 1 || keyed == 1;
    && ((w >> 12) & 1 == 1 <==> ptt) && ((w >> 11) & 1 == 1 <==> ptt && filters[3] & 0x80 == 0)
    && ((w >> 10) & 1 == 1 <==> antenna == 2) && ((w >> 9) & 1 == 1 <==> antenna == 1) && ((w >> 8) & 1 == 1 <==> antenna == 0)
    && w & 15 == 8
  }

  /** In manual mode, which two bits of the filter frame ask for, its bytes are the filters; otherwise frequencies choose them. */
  ghost predicate FiltersAre(rx: bv16, tx: bv16, filters: Frame, ptt: bool, es: seq<Event>) {
    if filters[2] & 0x40 != 0 || filters[4] & 0x80 != 0 then
      && ((rx >> 3) & 1 == 1 <==> filters[3] & 0x40 != 0)
      && HpfRelays(rx) == (if filters[3] & 0x40 != 0 then 0 else filters[3] as bv16 & 0x3f)
      && LpfRelays(tx) == filters[4] as bv16 & 0x7f
    else
      AutomaticAre(rx, tx, [Asked(es, 2, 0), Asked(es, 4, 0), SecondFreq(es)], ptt)
  }

  lemma RxBits(w: bv16, x: bv16, control: Frame, keyed: Flag)
    requires x == Alex0Of(control) | keyed
    requires w >> 15 == x & 1 && w & 1 == 1
    requires (w >> 14) & 1 == (x >> 1) & 1 && (w >> 13) & 1 == (x >> 2) & 1 && (w >> 11) & 1 == (x >> 7) & 1
    requires (w >> 10) & 1 == 1 <==> (x >> 5) & 3 == 1
    requires (w >> 9) & 1 == 1 <==> (x >> 5) & 3 == 2
    requires (w >> 8) & 1 == 1 <==> (x >> 5) & 3 == 3
    ensures RxBitsAre(w, control, keyed)
  {
  }

  lemma TxBits(w: bv16, x: bv16, x1: bv16, control: Frame, filters: Frame, keyed: Flag)
    requires x == Alex0Of(control) | keyed && x1 == Alex1Of(filters)
    requires (w >> 12) & 1 == x & 1 && w & 15 == 8
    requires (w >> 11) & 1 == 1 <==> x & 1 == 1 && x1 & 0x80 == 0
    requires (w >> 10) & 1 == 1 <==> (x >> 8) & 3 == 2
    requires (w >> 9) & 1 == 1 <==> (x >> 8) & 3 == 1
    requires (w >> 8) & 1 == 1 <==> (x >> 8) & 3 == 0
    ensures TxBitsAre(w, control, filters, keyed)
  {
  }

  lemma FilterBits(freq: Freqs, x: Alex, filters: Frame)
    requires x.data1 == Alex1Of(filters)
    ensures Manual(x) <==> filters[2] & 0x40 != 0 || filters[4] & 0x80 != 0
    ensures (x.data1 >> 6) & 1 == 1 <==> filters[3] & 0x40 != 0
    ensures x.data1 & 0x3f == filters[3] as bv16 & 0x3f && (x.data1 >> 8) & 0x7f == filters[4] as bv16 & 0x7f
  {
  }

  /**
   After every pass, once any setting of the ALEX boards has changed, the words they got last
   show the bits of the last frames of codes 0 and 1 and of codes 18 and 19, and the keyer's PTT.
   */
  lemma AlexBoardsFollow(passes: seq<Pass>, hasMisc: bool, n: nat)
    requires n <= |passes| && After(passes, hasMisc, n).touched
    ensures var c, es := LazyAfter(passes, hasMisc, false, n), RunHistory(passes, n);
      AlexBitsAre(LastOf(c.rxLog), LastOf(c.txLog), es, KeyedSince(passes, n))
  {
    var s, es := After(passes, hasMisc, n), RunHistory(passes, n);
    AlexIsCurrent(passes, hasMisc, false, n);
    SettingsFollow(passes, hasMisc, n);
    OscillatorsFollow(passes, hasMisc, n);
    AlexFromHistory(s.freq, s.alex, es, KeyedSince(passes, n));
  }

  ghost predicate AlexBitsAre(rx: bv16, tx: bv16, es: seq<Event>, keyed: Flag) {
    var control, filters := LastFrame(es, 0), LastFrame(es, 18);
    && RxBitsAre(rx, control, keyed) && TxBitsAre(tx, control, filters, keyed)
    && FiltersAre(rx, tx, filters, control[0] & 1 == 1 || keyed == 1, es)
  }

  lemma AlexFromHistory(freq: Freqs, x: Alex, es: seq<Event>, keyed: Flag)
    requires freq == [Asked(es, 2, 0), Asked(es, 4, 0), SecondFreq(es)] && x == AlexOf(es, keyed)
    ensures AlexBitsAre(RxWord(freq, x), TxWord(freq, x), es, keyed)
  {
    RxFromHistory(freq, x, LastFrame(es, 0), keyed);
    TxFromHistory(freq, x, LastFrame(es, 0), LastFrame(es, 18), keyed);
    FiltersFromHistory(freq, x, es, keyed);
  }

  lemma RxFromHistory(freq: Freqs, x: Alex, control: Frame, keyed: Flag)
    requires x.data0 == Alex0Of(control) | keyed
    ensures RxBitsAre(RxWord(freq, x), control, keyed)
  {
    RelayRanges(freq, x);
    RxPacked(x.data0, Hpf(freq, x), Preamp(freq, x));
    RxBits(RxWord(freq, x), x.data0, control, keyed);
  }

  lemma TxFromHistory(freq: Freqs, x: Alex, control: Frame, filters: Frame, keyed: Flag)
    requires x == AlexSet(Alex0Of(control) | keyed, Alex1Of(filters))
    ensures TxBitsAre(TxWord(freq, x), control, filters, keyed)
  {
    RelayRanges(freq, x);
    TxPacked(x.data0, x.data1, Lpf(freq, x));
    TxBits(TxWord(freq, x), x.data0, x.data1, control, filters, keyed);
  }

  lemma FiltersFromHistory(freq: Freqs, x: Alex, es: seq<Event>, keyed: Flag)
    requires freq == [Asked(es, 2, 0), Asked(es, 4, 0), SecondFreq(es)] && x == AlexOf(es, keyed)
    ensures var control := LastFrame(es, 0);
      FiltersAre(RxWord(freq, x), TxWord(freq, x), LastFrame(es, 18), control[0] & 1 == 1 || keyed == 1, es)
  {
    FilterBits(freq, x, LastFrame(es, 18));
    PttBit(LastFrame(es, 0), keyed);
    if Manual(x) { ManualFilters(freq, x); } else { AutomaticFilters(freq, x); }
  }

  lemma PttBit(control: Frame, keyed: Flag)
    ensures (Alex0Of(control) | keyed) & 1 != 0 <==> control[0] & 1 == 1 || keyed == 1
  {
  }
}
