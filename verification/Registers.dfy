/**
 The main loop of the transceiver server, as far as the registers for frequencies, filters
 and bands go.  The program keeps dirty flags and the last word sent, and recomputes a word
 only when a flag is set.  Here the settings are a value that changes frame by frame, and
 the class is shown to send what recomputing every word in every pass would send.
 */
module Registers {
  import opened Relays

  type Frame = f: seq<bv8> | |f| == 5 witness [0, 0, 0, 0, 0]

  const FREQ_MAX := 61440000

  /** Steps of a 30-bit phase accumulator at 125 MHz, to the nearest integer. */
  function PhaseIncrement(freq: nat): nat { (2 * freq * 0x4000_0000 + 125000000) / 250000000 }

  /** Big-endian, as ntohl reads it. */
  function FreqOf(f: Frame): nat {
    f[1] as nat * 0x100_0000 + f[2] as nat * 0x1_0000 + f[3] as nat * 0x100 + f[4] as nat
  }

  /**
   The settings that the frames have made, with no caching.  rxFreq and txFreq are the
   hardware registers; touched is set once an input of the ALEX words has changed.
   */
  datatype Settings = Settings(freq: Freqs, misc: Misc, alex: Alex, sync: bool, rxFreq: Freqs, txFreq: nat, touched: bool) {
    function Note(next: Settings): Settings {
      next.(touched := touched || next.freq != freq || next.alex != alex)
    }
  }

  function Initial(): Settings {
    var inc := PhaseIncrement(600000);
    Settings([0, 0, 0], MiscSet(0, 0, 0), AlexSet(0, 0), false, [inc, inc, inc], inc, false)
  }

  function Alex0Of(f: Frame): bv16 {
    ((f[4] as bv16 & 0x03) << 8) | (f[3] as bv16 & 0xe0) | ((f[3] as bv16 & 0x03) << 1) | (f[0] as bv16 & 0x01)
  }

  function Alex1Of(f: Frame): bv16 {
    ((f[2] as bv16 & 0x40) << 9) | (f[4] as bv16 << 8) | f[3] as bv16
  }

  function Misc2Of(f: Frame): bv16 {
    ((f[3] as bv16 & 0x80) >> 6) | ((f[3] as bv16 & 0x20) >> 5)
  }

  /** What a frame from the client sets; hasMisc tells whether the misc board answered at the start. */
  function Command(s: Settings, hasMisc: bool, f: Frame): Settings {
    if f[0] < 10 then Tuned(s, f) else Switched(s, hasMisc, f)
  }

  function Tuned(s: Settings, f: Frame): Settings
    requires f[0] < 10
  {
    var code, freq := f[0], FreqOf(f);
    var inc := PhaseIncrement(freq);
    if code == 0 || code == 1 then
      var sync := f[4] & 0x80 != 0;
      var rx := if sync && !s.sync then s.rxFreq[1 := s.rxFreq[0]] else s.rxFreq;
      s.(sync := sync, rxFreq := rx, alex := AlexSet(Alex0Of(f), s.alex.data1))
    else if freq > FREQ_MAX then s
    else if code == 2 || code == 3 then
      s.(txFreq := inc, freq := s.freq[0 := freq])
    else if code == 4 || code == 5 then
      s.(rxFreq := if s.sync then s.rxFreq[0 := inc][1 := inc] else s.rxFreq[0 := inc], freq := s.freq[1 := freq])
    else if code == 6 || code == 7 then
      if s.sync then s else s.(rxFreq := s.rxFreq[1 := inc], freq := s.freq[2 := freq])
    else s.(rxFreq := s.rxFreq[2 := inc])
  }

  function Switched(s: Settings, hasMisc: bool, f: Frame): Settings {
    var code := f[0];
    if code == 18 || code == 19 then
      s.(alex := AlexSet(s.alex.data0, Alex1Of(f)),
         misc := if hasMisc then MiscSet(s.misc.data0, s.misc.data1, Misc2Of(f)) else s.misc)
    else if (code == 20 || code == 21) && hasMisc then
      s.(misc := MiscSet(f[4] as bv16 & 0x1f, s.misc.data1, s.misc.data2))
    else if (code == 22 || code == 23) && hasMisc then
      s.(misc := MiscSet(s.misc.data0, f[1] as bv16 & 0x1f, s.misc.data2))
    else s
  }

  function Received(s: Settings, hasMisc: bool, f: Frame): Settings { s.Note(Command(s, hasMisc, f)) }

  /** What one datagram brings: two frames, or the command that starts the EP6 sender. */
  datatype Message = Frames(first: Frame, second: Frame) | Start

  function Delivered(s: Settings, hasMisc: bool, m: Message): Settings {
    match m
    case Frames(first, second) => Received(Received(s, hasMisc, first), hasMisc, second)
    case Start => s.(sync := false)
  }

  function AllDelivered(s: Settings, hasMisc: bool, messages: seq<Message>): Settings {
    if messages == [] then s
    else Delivered(AllDelivered(s, hasMisc, messages[..|messages| - 1]), hasMisc, messages[|messages| - 1])
  }

  /** The keyer's PTT joins the ALEX settings at the end of a pass. */
  function WithKeyer(s: Settings, cwPtt: bv16): Settings {
    s.Note(s.(alex := AlexSet(s.alex.data0 | cwPtt, s.alex.data1)))
  }

  type Flag = b: bv16 | b <= 1

  /** What one pass of the main loop receives, and the keyer's PTT at its end. */
  datatype Pass = Pass(messages: seq<Message>, cwPtt: Flag)

  function AfterPass(s: Settings, hasMisc: bool, p: Pass): Settings {
    WithKeyer(AllDelivered(s, hasMisc, p.messages), p.cwPtt)
  }

  // ---------- What the program keeps besides the settings ----------

  /** The dirty flags, the last word of each board, and the words sent so far. */
  datatype Cache = Cache(miscUpdate: bool, alexUpdate: bool, misc: bv16, rx: bv16, tx: bv16,
                         miscLog: seq<bv16>, rxLog: seq<bv16>, txLog: seq<bv16>)

  /** A board's pins are set low before the loop; ALEX has been sent nothing. */
  function InitialCache(): Cache { Cache(false, false, 0, 0, 0, [0], [], []) }

  /** Settings that change raise flags. */
  function Raised(c: Cache, hasMisc: bool, s: Settings, t: Settings): Cache {
    var freq := s.freq != t.freq;
    c.(alexUpdate := c.alexUpdate || freq || s.alex != t.alex,
       miscUpdate := c.miscUpdate || (hasMisc && freq) || s.misc != t.misc)
  }

  /** A word is sent when it differs from the one before. */
  function Sent(last: bv16, word: bv16): seq<bv16> { if word == last then [] else [word] }

  function MiscSent(c: Cache, word: bv16): Cache { c.(misc := word, miscLog := c.miscLog + Sent(c.misc, word)) }

  function RxSent(c: Cache, word: bv16): Cache { c.(rx := word, rxLog := c.rxLog + Sent(c.rx, word)) }

  function TxSent(c: Cache, word: bv16): Cache { c.(tx := word, txLog := c.txLog + Sent(c.tx, word)) }

  function AlexSent(c: Cache, s: Settings): Cache {
    TxSent(RxSent(c, RxWord(s.freq, s.alex)), TxWord(s.freq, s.alex))
  }

  lemma Updated(f: Freqs, i: nat, freq: nat)
    requires i < 3
    ensures f[i := freq] == f <==> f[i] == freq
  {
    assert f[i := freq][i] == freq;
  }

  class Board {
    const hasMisc: bool
    const hasCodec: bool
    var freqData: Freqs
    var misc0: bv16
    var misc1: bv16
    var misc2: bv16
    var miscUpdate: bool
    var miscData: bv16
    var alex0: bv16
    var alex1: bv16
    var alexUpdate: bool
    var alexRx: bv16
    var alexTx: bv16
    var rxSync: bool
    var rxFreq: Freqs
    var txFreq: nat
    /** Histories that the program does not keep: a flag for Settings.touched, and the words each board got. */
    var touched: bool
    var miscLog: seq<bv16>
    var rxLog: seq<bv16>
    var txLog: seq<bv16>

    function State(): Settings
      reads this
    {
      Settings(freqData, MiscSet(misc0, misc1, misc2), AlexSet(alex0, alex1), rxSync, rxFreq, txFreq, touched)
    }

    function Cached(): Cache
      reads this
    {
      Cache(miscUpdate, alexUpdate, miscData, alexRx, alexTx, miscLog, rxLog, txLog)
    }

    constructor (misc: bool, codec: bool)
      ensures State() == Initial() && Cached() == InitialCache() && hasMisc == misc && hasCodec == codec
    {
      hasMisc, hasCodec := misc, codec;
      freqData, misc0, misc1, misc2, alex0, alex1, rxSync := [0, 0, 0], 0, 0, 0, 0, 0, false;
      miscUpdate, alexUpdate, miscData, alexRx, alexTx, touched := false, false, 0, 0, 0, false;
      var inc := PhaseIncrement(600000);
      rxFreq, txFreq := [inc, inc, inc], inc;
      miscLog, rxLog, txLog := [0], [], [];
    }

    method SetAlex0(data: bv16)
      modifies `alex0, `alexUpdate, `touched
      ensures State() == old(State()).Note(old(State()).(alex := AlexSet(data, alex1)))
      ensures Cached() == Raised(old(Cached()), hasMisc, old(State()), State())
    {
      if alex0 != data {
        alex0, alexUpdate, touched := data, true, true;
      }
    }

    method SetAlex1(data: bv16)
      modifies `alex1, `alexUpdate, `touched
      ensures State() == old(State()).Note(old(State()).(alex := AlexSet(alex0, data)))
      ensures Cached() == Raised(old(Cached()), hasMisc, old(State()), State())
    {
      if alex1 != data {
        alex1, alexUpdate, touched := data, true, true;
      }
    }

    method SetFreq(i: nat, freq: nat)
      requires i < 3
      modifies `freqData, `alexUpdate, `miscUpdate, `touched
      ensures State() == old(State()).Note(old(State()).(freq := old(freqData)[i := freq]))
      ensures Cached() == Raised(old(Cached()), hasMisc, old(State()), State())
    {
      Updated(freqData, i, freq);
      if freqData[i] != freq {
        freqData := freqData[i := freq];
        alexUpdate, touched := true, true;
        if hasMisc { miscUpdate := true; }
      }
    }

    method SetMisc0(data: bv16)
      modifies `misc0, `miscUpdate
      ensures State() == old(State()).Note(old(State()).(misc := MiscSet(data, misc1, misc2)))
      ensures Cached() == Raised(old(Cached()), hasMisc, old(State()), State())
    {
      if misc0 != data { misc0, miscUpdate := data, true; }
    }

    method SetMisc1(data: bv16)
      modifies `misc1, `miscUpdate
      ensures State() == old(State()).Note(old(State()).(misc := MiscSet(misc0, data, misc2)))
      ensures Cached() == Raised(old(Cached()), hasMisc, old(State()), State())
    {
      if misc1 != data { misc1, miscUpdate := data, true; }
    }

    method SetMisc2(data: bv16)
      modifies `misc2, `miscUpdate
      ensures State() == old(State()).Note(old(State()).(misc := MiscSet(misc0, misc1, data)))
      ensures Cached() == Raised(old(Cached()), hasMisc, old(State()), State())
    {
      if misc2 != data { misc2, miscUpdate := data, true; }
    }

    /** process_ep2, for the frames that set any of the modelled registers. */
    method ProcessEp2(f: Frame)
      modifies `freqData, `misc0, `misc1, `misc2, `miscUpdate, `alex0, `alex1, `alexUpdate, `rxSync, `rxFreq, `txFreq, `touched
      ensures State() == Received(old(State()), hasMisc, f)
      ensures Cached() == Raised(old(Cached()), hasMisc, old(State()), State())
    {
      if f[0] < 10 { Tune(f); } else { Switch(f); }
    }

    method Tune(f: Frame)
      requires f[0] < 10
      modifies `freqData, `miscUpdate, `alex0, `alexUpdate, `rxSync, `rxFreq, `txFreq, `touched
      ensures State() == old(State()).Note(Tuned(old(State()), f))
      ensures Cached() == Raised(old(Cached()), hasMisc, old(State()), State())
    {
      if f[0] == 0 || f[0] == 1 {
        Control(f);
      } else if f[0] == 2 || f[0] == 3 {
        TuneTransmitter(f);
      } else if f[0] == 4 || f[0] == 5 {
        TuneFirst(f);
      } else if f[0] == 6 || f[0] == 7 {
        TuneSecond(f);
      } else if FreqOf(f) <= FREQ_MAX {
        rxFreq := rxFreq[2 := PhaseIncrement(FreqOf(f))];
      }
    }

    method Switch(f: Frame)
      requires f[0] >= 10
      modifies `misc0, `misc1, `misc2, `miscUpdate, `alex1, `alexUpdate, `touched
      ensures State() == old(State()).Note(Switched(old(State()), hasMisc, f))
      ensures Cached() == Raised(old(Cached()), hasMisc, old(State()), State())
    {
      if f[0] == 18 || f[0] == 19 {
        Filters(f);
      } else if f[0] == 20 || f[0] == 21 {
        if hasMisc { SetMisc0(f[4] as bv16 & 0x1f); }
      } else if f[0] == 22 || f[0] == 23 {
        if hasMisc { SetMisc1(f[1] as bv16 & 0x1f); }
      }
    }

    method Control(f: Frame)
      requires f[0] == 0 || f[0] == 1
      modifies `alex0, `alexUpdate, `rxSync, `rxFreq, `touched
      ensures State() == old(State()).Note(Tuned(old(State()), f))
      ensures Cached() == Raised(old(Cached()), hasMisc, old(State()), State())
    {
      var data := f[4] & 0x80 != 0;
      if rxSync != data {
        rxSync := data;
        if rxSync { rxFreq := rxFreq[1 := rxFreq[0]]; }
      }
      SetAlex0(Alex0Of(f));
    }

    method TuneTransmitter(f: Frame)
      requires f[0] == 2 || f[0] == 3
      modifies `freqData, `miscUpdate, `alexUpdate, `txFreq, `touched
      ensures State() == old(State()).Note(Tuned(old(State()), f))
      ensures Cached() == Raised(old(Cached()), hasMisc, old(State()), State())
    {
      var freq := FreqOf(f);
      if freq > FREQ_MAX { return; }
      txFreq := PhaseIncrement(freq);
      SetFreq(0, freq);
    }

    method TuneFirst(f: Frame)
      requires f[0] == 4 || f[0] == 5
      modifies `freqData, `miscUpdate, `alexUpdate, `rxFreq, `touched
      ensures State() == old(State()).Note(Tuned(old(State()), f))
      ensures Cached() == Raised(old(Cached()), hasMisc, old(State()), State())
    {
      var freq := FreqOf(f);
      if freq > FREQ_MAX { return; }
      rxFreq := rxFreq[0 := PhaseIncrement(freq)];
      if rxSync { rxFreq := rxFreq[1 := rxFreq[0]]; }
      SetFreq(1, freq);
    }

    method TuneSecond(f: Frame)
      requires f[0] == 6 || f[0] == 7
      modifies `freqData, `miscUpdate, `alexUpdate, `rxFreq, `touched
      ensures State() == old(State()).Note(Tuned(old(State()), f))
      ensures Cached() == Raised(old(Cached()), hasMisc, old(State()), State())
    {
      if rxSync { return; }
      var freq := FreqOf(f);
      if freq > FREQ_MAX { return; }
      rxFreq := rxFreq[1 := PhaseIncrement(freq)];
      SetFreq(2, freq);
    }

    method Filters(f: Frame)
      requires f[0] == 18 || f[0] == 19
      modifies `misc2, `miscUpdate, `alex1, `alexUpdate, `touched
      ensures State() == old(State()).Note(Switched(old(State()), hasMisc, f))
      ensures Cached() == Raised(old(Cached()), hasMisc, old(State()), State())
    {
      SetAlex1(Alex1Of(f));
      if hasMisc { SetMisc2(Misc2Of(f)); }
    }

    method Codes() returns (code: seq<bv16>)
      ensures |code| == 3 && forall j | 0 <= j < 3 :: code[j] == Code(freqData[j])
    {
      code := [];
      for i := 0 to 3
        invariant |code| == i && forall j | 0 <= j < i :: code[j] == Code(freqData[j])
      {
        var c := BandCode(freqData[i]);
        code := code + [c];
      }
    }

    method ComputeMisc() returns (data: bv16)
      ensures data == MiscWord(freqData, MiscSet(misc0, misc1, misc2))
    {
      var code := Codes();
      data := PackMisc(code[0], code[1], code[2], misc0, misc1, misc2);
    }

    method MiscWrite()
      modifies `miscData, `miscLog
      ensures Cached() == MiscSent(old(Cached()), MiscWord(State().freq, State().misc))
    {
      var data := ComputeMisc();
      if miscData != data {
        miscData := data;
        miscLog := miscLog + [data];
      }
    }

    method RxWrite()
      modifies `alexRx, `rxLog
      ensures Cached() == RxSent(old(Cached()), RxWord(State().freq, State().alex))
    {
      var x := AlexSet(alex0, alex1);
      var data := PackRx(alex0, Hpf(freqData, x), Preamp(freqData, x));
      if alexRx != data {
        alexRx := data;
        rxLog := rxLog + [data];
      }
    }

    method TxWrite()
      modifies `alexTx, `txLog
      ensures Cached() == TxSent(old(Cached()), TxWord(State().freq, State().alex))
    {
      var x := AlexSet(alex0, alex1);
      var data := PackTx(alex0, alex1, Lpf(freqData, x));
      if alexTx != data {
        alexTx := data;
        txLog := txLog + [data];
      }
    }

    method AlexWrite()
      modifies `alexRx, `alexTx, `rxLog, `txLog
      ensures Cached() == if hasCodec then old(Cached()) else AlexSent(old(Cached()), State())
    {
      if hasCodec { return; }
      RxWrite();
      TxWrite();
    }

    /** The end of a pass, until the flags. */
    method TakeKeyer(cwPtt: bv16)
      modifies `alex0, `alexUpdate, `touched
      ensures State() == WithKeyer(old(State()), cwPtt)
      ensures Cached() == Raised(old(Cached()), hasMisc, old(State()), State())
    {
      SetAlex0(alex0 | cwPtt);
    }

    method FinishAlex()
      modifies `alexUpdate, `alexRx, `alexTx, `rxLog, `txLog
      ensures State() == old(State())
      ensures Cached() ==
        if !old(alexUpdate) then old(Cached())
        else if hasCodec then old(Cached()).(alexUpdate := false)
        else AlexSent(old(Cached()).(alexUpdate := false), State())
    {
      if alexUpdate {
        alexUpdate := false;
        AlexWrite();
      }
    }

    method FinishMisc()
      modifies `miscUpdate, `miscData, `miscLog
      ensures State() == old(State())
      ensures Cached() ==
        if !old(miscUpdate) then old(Cached())
        else MiscSent(old(Cached()).(miscUpdate := false), MiscWord(State().freq, State().misc))
    {
      if miscUpdate {
        miscUpdate := false;
        MiscWrite();
      }
    }
  }
}
