/** The uploader's buffer, filled in place, and the batches it sends. */
module PskUploader {
  import opened Bytes
  import opened Ipfix
  import opened PskReporter

  function ReceptionBytes(r: Reception): seq<Byte> { RecordBytes(RECEPTION_FIELDS, ReceptionValues(r)) }

  lemma RecordUnfold(fields: seq<Field>, values: seq<seq<Byte>>, i: nat)
    requires |values| == |fields| && i < |fields|
    ensures RecordBytes(fields[i..], values[i..]) ==
      ValueBytes(fields[i].length, values[i]) + RecordBytes(fields[i + 1..], values[i + 1..])
  {
    assert fields[i..][1..] == fields[i + 1..] && values[i..][1..] == values[i + 1..];
  }

  // The bytes of a record in the order in which the program copies them.

  function Texts(r: Reception): seq<Byte> { VariableBytes(r.call) + VariableBytes(r.grid) }

  function Signal(r: Reception): seq<Byte> { U32(r.freq) + [(r.snr % 256) as Byte] }

  function Mode(r: Reception): seq<Byte> { VariableBytes(FT8) + [1] + U32(r.time + 15) }

  function Copied(r: Reception): seq<Byte> { Texts(r) + Signal(r) + Mode(r) }

  lemma CopiedIsRecord(r: Reception)
    ensures ReceptionBytes(r) == Copied(r)
  {
    var f, v := RECEPTION_FIELDS, ReceptionValues(r);
    ModeUnfolds(r);
    SignalUnfolds(r);
    RecordUnfold(f, v, 1);
    RecordUnfold(f, v, 0);
    assert f[0..] == f && v[0..] == v;
    Reassociate(VariableBytes(r.call), VariableBytes(r.grid), Signal(r), Mode(r));
  }

  lemma SignalUnfolds(r: Reception)
    ensures RecordBytes(RECEPTION_FIELDS[2..], ReceptionValues(r)[2..]) ==
      Signal(r) + RecordBytes(RECEPTION_FIELDS[4..], ReceptionValues(r)[4..])
  {
    var f, v := RECEPTION_FIELDS, ReceptionValues(r);
    RecordUnfold(f, v, 3);
    RecordUnfold(f, v, 2);
    Associate(U32(r.freq), [(r.snr % 256) as Byte], RecordBytes(f[4..], v[4..]));
  }

  lemma ModeUnfolds(r: Reception)
    ensures RecordBytes(RECEPTION_FIELDS[4..], ReceptionValues(r)[4..]) == Mode(r)
  {
    var f, v := RECEPTION_FIELDS, ReceptionValues(r);
    RecordUnfold(f, v, 6);
    RecordUnfold(f, v, 5);
    RecordUnfold(f, v, 4);
    assert RecordBytes(f[7..], v[7..]) == [];
    assert U32(r.time + 15) + [] == U32(r.time + 15);
    Associate(VariableBytes(FT8), [1], U32(r.time + 15));
  }

  lemma Reassociate(a: seq<Byte>, b: seq<Byte>, c: seq<Byte>, d: seq<Byte>)
    ensures a + (b + (c + d)) == a + b + c + d
  {
  }

  lemma {:induction false} RecordsJoin(fields: seq<Field>, records: seq<seq<seq<Byte>>>, record: seq<seq<Byte>>)
    requires ValidRecords(fields, records) && ValidValues(fields, record)
    ensures RecordsBytes(fields, records + [record]) == RecordsBytes(fields, records) + RecordBytes(fields, record)
  {
    if records == [] {
      OneRecord(fields, record);
      assert [] + [record] == [record];
    } else {
      RecordsJoin(fields, records[1..], record);
      assert (records + [record])[1..] == records[1..] + [record];
      Associate(RecordBytes(fields, records[0]), RecordsBytes(fields, records[1..]), RecordBytes(fields, record));
    }
  }

  function BatchBytes(batch: seq<Reception>): seq<Byte> { RecordsBytes(RECEPTION_FIELDS, Values(batch)) }

  lemma BatchAppend(batch: seq<Reception>, r: Reception)
    ensures BatchBytes(batch + [r]) == BatchBytes(batch) + ReceptionBytes(r)
  {
    RecordsJoin(RECEPTION_FIELDS, Values(batch), ReceptionValues(r));
    assert Values(batch + [r]) == Values(batch) + [ReceptionValues(r)];
  }

  const CAPACITY := 512

  /** Whether the message for a batch fits the buffer. */
  predicate FitsBuffer(preamble: nat, batch: seq<Reception>) {
    12 + preamble + 4 + |Padded(BatchBytes(batch))| <= CAPACITY
  }

  /** What precedes the reception set, from the observation domain on. */
  function Preamble(s: Station): seq<Byte> { U32(s.domain) + TemplateSets() + StationSet(s) }

  /** How the buffer is laid out while a batch is open: only the version and what follows the header are final. */
  ghost predicate Layout(b: seq<Byte>, start: nat, dst: nat, preamble: seq<Byte>, batch: seq<Byte>) {
    && |b| == CAPACITY
    && start == 12 + |preamble| && start + 4 <= dst <= CAPACITY
    && b[0..2] == U16(10) && b[12..start] == preamble && b[start + 4..dst] == batch
  }

  lemma LayoutAppends(b: seq<Byte>, start: nat, dst: nat, preamble: seq<Byte>, batch: seq<Byte>, more: seq<Byte>)
    requires Layout(b, start, dst, preamble, batch) && dst + |more| <= CAPACITY
    ensures Layout(Overwrite(b, dst, more), start, dst + |more|, preamble, batch + more)
  {
    KeptBefore(b, dst, more, 0, 2);
    KeptBefore(b, dst, more, 12, start);
    Extended(b, start + 4, dst, more);
  }

  lemma KeptBefore(b: seq<Byte>, at: nat, bytes: seq<Byte>, i: nat, j: nat)
    requires i <= j <= at && at + |bytes| <= |b|
    ensures Overwrite(b, at, bytes)[i..j] == b[i..j]
  {
  }

  lemma Extended(b: seq<Byte>, from: nat, at: nat, bytes: seq<Byte>)
    requires from <= at && at + |bytes| <= |b|
    ensures Overwrite(b, at, bytes)[from..at + |bytes|] == b[from..at] + bytes
  {
  }

  class Uploader {
    const buffer: array<Byte>
    var start: nat
    var dst: nat
    var counter: nat
    var sequence: nat
    var sent: seq<seq<Byte>>
    ghost const preamble: seq<Byte>
    ghost var pending: seq<Reception>

    ghost predicate Valid()
      reads this, buffer
    {
      Layout(buffer[..], start, dst, preamble, BatchBytes(pending)) && counter == |pending| && sequence == |sent|
    }

    /** Writes the header, the template sets and the station set, and opens the first batch. */
    constructor (s: Station)
      requires WithinLimits(s)
      ensures Valid() && fresh(buffer) && preamble == Preamble(s)
      ensures pending == [] && sent == [] && sequence == 0
    {
      buffer := new Byte[CAPACITY](_ => 0);
      start, dst := 120, 124;
      counter, sequence, sent, pending := 0, 0, [], [];
      preamble := Preamble(s);
      new;
      EmptyBatch();
      Prepare(s);
    }

    method Prepare(s: Station)
      requires buffer.Length == CAPACITY && start == 120 && dst == 124 && WithinLimits(s)
      modifies buffer, `start, `dst
      ensures Layout(buffer[..], start, dst, Preamble(s), [])
    {
      StationFits(s);
      ghost var front := U32(s.domain) + TemplateSets();
      CopyFront(s);
      CopyStation(s, front);
      var size := CloseSet(0x9992, front, StationBytes(s));
      start := start + size;
      StationClosed(buffer[..], s, start);
      dst := start + 4;
    }

    /** The header with its observation domain, and the template sets behind it. */
    method CopyFront(s: Station)
      requires buffer.Length == CAPACITY
      modifies buffer
      ensures Layout(buffer[..], 120, 124, U32(s.domain) + TemplateSets(), [])
    {
      TemplateSetsSpelledOut();
      var header: seq<Byte> := [0x00, 0x0A, 0, 0, 0, 0, 0, 0, 0, 0, 0, 0];
      Copy(buffer, 0, header + (U32(s.domain) + TemplateSets()));
      FrontLayout(buffer[..], header, U32(s.domain) + TemplateSets());
    }

    method CopyStation(s: Station, ghost front: seq<Byte>)
      requires Layout(buffer[..], start, dst, front, []) && dst + |StationBytes(s)| <= CAPACITY
      modifies buffer, `dst
      ensures Layout(buffer[..], start, dst, front, StationBytes(s))
    {
      StationUnfolds(s);
      ghost var head, tail := VariableBytes(s.call) + VariableBytes(s.grid), VariableBytes(SOFTWARE) + VariableBytes(s.antenna);
      LayoutAppends(buffer[..], start, dst, front, [], head);
      LayoutAppends(Overwrite(buffer[..], dst, head), start, dst + |head|, front, head, tail);
      assert [] + head == head;
      CopyStationHead(s);
      CopyStationTail(s);
    }

    method CopyStationHead(s: Station)
      requires dst + |VariableBytes(s.call) + VariableBytes(s.grid)| <= buffer.Length
      modifies buffer, `dst
      ensures dst == old(dst) + |VariableBytes(s.call) + VariableBytes(s.grid)|
      ensures buffer[..] == Overwrite(old(buffer[..]), old(dst), VariableBytes(s.call) + VariableBytes(s.grid))
    {
      dst := CopyChar(dst, s.call);
      dst := CopyChar(dst, s.grid);
      OverwriteTwice(old(buffer[..]), old(dst), VariableBytes(s.call), VariableBytes(s.grid));
    }

    method CopyStationTail(s: Station)
      requires dst + |VariableBytes(SOFTWARE) + VariableBytes(s.antenna)| <= buffer.Length
      modifies buffer, `dst
      ensures dst == old(dst) + |VariableBytes(SOFTWARE) + VariableBytes(s.antenna)|
      ensures buffer[..] == Overwrite(old(buffer[..]), old(dst), VariableBytes(SOFTWARE) + VariableBytes(s.antenna))
    {
      dst := CopyChar(dst, SOFTWARE);
      dst := CopyChar(dst, s.antenna);
      OverwriteTwice(old(buffer[..]), old(dst), VariableBytes(SOFTWARE), VariableBytes(s.antenna));
    }

    method CopyChar(at: nat, value: Text) returns (next: nat)
      requires at + 1 + |value| <= buffer.Length
      modifies buffer
      ensures next == at + |VariableBytes(value)|
      ensures buffer[..] == Overwrite(old(buffer[..]), at, VariableBytes(value))
    {
      Copy(buffer, at, [|value| as Byte]);
      Copy(buffer, at + 1, value);
      OverwriteTwice(old(buffer[..]), at, [|value| as Byte], value);
      next := at + 1 + |value|;
    }

    method CopyInt1(at: nat, value: int) returns (next: nat)
      requires at + 1 <= buffer.Length
      modifies buffer
      ensures next == at + 1
      ensures buffer[..] == Overwrite(old(buffer[..]), at, [(value % 256) as Byte])
    {
      Copy(buffer, at, [(value % 256) as Byte]);
      next := at + 1;
    }

    method CopyInt2(at: nat, value: int) returns (next: nat)
      requires at + 2 <= buffer.Length
      modifies buffer
      ensures next == at + 2
      ensures buffer[..] == Overwrite(old(buffer[..]), at, U16(value))
    {
      Copy(buffer, at, U16(value));
      next := at + 2;
    }

    method CopyInt4(at: nat, value: int) returns (next: nat)
      requires at + 4 <= buffer.Length
      modifies buffer
      ensures next == at + 4
      ensures buffer[..] == Overwrite(old(buffer[..]), at, U32(value))
    {
      Copy(buffer, at, U32(value));
      next := at + 4;
    }

    method CopyTexts(at: nat, r: Reception) returns (next: nat)
      requires at + |Texts(r)| <= buffer.Length
      modifies buffer
      ensures next == at + |Texts(r)| && buffer[..] == Overwrite(old(buffer[..]), at, Texts(r))
    {
      next := CopyChar(at, r.call);
      next := CopyChar(next, r.grid);
      OverwriteTwice(old(buffer[..]), at, VariableBytes(r.call), VariableBytes(r.grid));
    }

    method CopySignal(at: nat, r: Reception) returns (next: nat)
      requires at + |Signal(r)| <= buffer.Length
      modifies buffer
      ensures next == at + |Signal(r)| && buffer[..] == Overwrite(old(buffer[..]), at, Signal(r))
    {
      next := CopyInt4(at, r.freq);
      next := CopyInt1(next, r.snr);
      OverwriteTwice(old(buffer[..]), at, U32(r.freq), [(r.snr % 256) as Byte]);
    }

    method CopyKind(at: nat) returns (next: nat)
      requires at + |VariableBytes(FT8)| + 1 <= buffer.Length
      modifies buffer
      ensures next == at + |VariableBytes(FT8)| + 1
      ensures buffer[..] == Overwrite(old(buffer[..]), at, VariableBytes(FT8) + [1])
    {
      next := CopyChar(at, FT8);
      next := CopyInt1(next, 1);
      assert (1 % 256) as Byte == 1;
      OverwriteTwice(old(buffer[..]), at, VariableBytes(FT8), [1]);
    }

    method CopyMode(at: nat, r: Reception) returns (next: nat)
      requires at + |Mode(r)| <= buffer.Length
      modifies buffer
      ensures next == at + |Mode(r)| && buffer[..] == Overwrite(old(buffer[..]), at, Mode(r))
    {
      next := CopyKind(at);
      next := CopyInt4(next, r.time + 15);
      OverwriteTwice(old(buffer[..]), at, VariableBytes(FT8) + [1], U32(r.time + 15));
    }

    method CopyRecord(at: nat, r: Reception) returns (next: nat)
      requires at + |ReceptionBytes(r)| <= buffer.Length
      modifies buffer
      ensures next == at + |ReceptionBytes(r)|
      ensures buffer[..] == Overwrite(old(buffer[..]), at, ReceptionBytes(r))
    {
      CopiedIsRecord(r);
      next := CopyTexts(at, r);
      next := CopySignal(next, r);
      OverwriteTwice(old(buffer[..]), at, Texts(r), Signal(r));
      next := CopyMode(next, r);
      OverwriteTwice(old(buffer[..]), at, Texts(r) + Signal(r), Mode(r));
    }

    /** One valid line of the file, appended to the open batch. */
    method AddRecord(r: Reception)
      requires Valid() && dst + |ReceptionBytes(r)| <= CAPACITY
      modifies this`dst, this`counter, this`pending, buffer
      ensures Valid() && pending == old(pending) + [r] && dst == old(dst) + |ReceptionBytes(r)|
    {
      LayoutAppends(buffer[..], start, dst, preamble, BatchBytes(pending), ReceptionBytes(r));
      BatchAppend(pending, r);
      dst := CopyRecord(dst, r);
      counter, pending := counter + 1, pending + [r];
    }

    /** Pads the set that starts at `start` and writes its head. */
    method CloseSet(id: nat, ghost front: seq<Byte>, ghost body: seq<Byte>) returns (size: nat)
      requires Layout(buffer[..], start, dst, front, body) && 16 + |front| + |Padded(body)| <= CAPACITY
      modifies buffer
      ensures size == 4 + |Padded(body)|
      ensures Closed(buffer[..], start + size, front + (U16(id) + U16(size)) + Padded(body))
    {
      LayoutPads(buffer[..], start, dst, front, body);
      var padding := Padding(dst - start);
      size := dst - start + padding;
      Copy(buffer, dst, Zero(padding));
      HeadFilled(buffer[..], start, start + size, front, Padded(body), U16(id) + U16(size));
      CopyHead(id, size);
    }

    method CopyHead(id: nat, size: nat)
      requires start + 4 <= buffer.Length
      modifies buffer
      ensures buffer[..] == Overwrite(old(buffer[..]), start, U16(id) + U16(size))
    {
      var at := CopyInt2(start, id);
      at := CopyInt2(at, size);
      OverwriteTwice(old(buffer[..]), start, U16(id), U16(size));
    }

    /** The variable part of the message header. */
    method CopyHeader(size: nat, time: nat)
      requires 12 <= buffer.Length
      modifies buffer
      ensures buffer[..] == Overwrite(old(buffer[..]), 2, U16(size) + U32(time) + U32(sequence))
    {
      var at := CopyInt2(2, size);
      at := CopyInt4(at, time);
      OverwriteTwice(old(buffer[..]), 2, U16(size), U32(time));
      at := CopyInt4(at, sequence);
      OverwriteTwice(old(buffer[..]), 2, U16(size) + U32(time), U32(sequence));
    }

    /** Sends the open batch. */
    method Send(time: nat, ghost batch: seq<Byte>)
      requires Layout(buffer[..], start, dst, preamble, batch) && 16 + |preamble| + |Padded(batch)| <= CAPACITY
      modifies this`dst, this`sequence, this`sent, buffer
      ensures Layout(buffer[..], start, dst, preamble, [])
      ensures dst == start + 4 && sequence == old(sequence) + 1
      ensures sent == old(sent) + [Sealed(preamble, batch, time, old(sequence))]
    {
      var size := CloseSet(0x9993, preamble, batch);
      ghost var tail := preamble + (U16(0x9993) + U16(size)) + Padded(batch);
      size := size + start;
      HeaderFilled(buffer[..], size, tail, U16(size) + U32(time) + U32(sequence));
      CopyHeader(size, time);
      Reopened(buffer[..], start, size, preamble, tail);
      sent := sent + [buffer[..][..size]];
      sequence, dst := sequence + 1, start + 4;
    }

    method Flush(time: nat)
      requires Valid() && FitsBuffer(|preamble|, pending)
      modifies this`dst, this`counter, this`sequence, this`sent, this`pending, buffer
      ensures Valid() && pending == [] && dst == start + 4
      ensures sent == old(sent) + [Sealed(preamble, BatchBytes(old(pending)), time, old(sequence))]
    {
      Send(time, BatchBytes(pending));
      EmptyBatch();
      counter, pending := 0, [];
    }
  }

  /** The message is complete but for bytes 2 to 11 of its header. */
  ghost predicate Closed(b: seq<Byte>, total: nat, tail: seq<Byte>) {
    12 <= total <= |b| == CAPACITY && b[0..2] == U16(10) && b[12..total] == tail
  }

  lemma LayoutPads(b: seq<Byte>, start: nat, dst: nat, preamble: seq<Byte>, batch: seq<Byte>)
    requires Layout(b, start, dst, preamble, batch) && 16 + |preamble| + |Padded(batch)| <= CAPACITY
    ensures dst - start == 4 + |batch| && dst + Padding(dst - start) <= CAPACITY
    ensures Layout(Overwrite(b, dst, Zero(Padding(dst - start))), start, dst + Padding(dst - start), preamble, Padded(batch))
  {
    assert dst - start == 4 + |batch|;
    LayoutAppends(b, start, dst, preamble, batch, Zero(Padding(dst - start)));
  }

  lemma HeadFilled(p: seq<Byte>, start: nat, total: nat, preamble: seq<Byte>, body: seq<Byte>, head: seq<Byte>)
    requires Layout(p, start, total, preamble, body) && |head| == 4
    ensures Closed(Overwrite(p, start, head), total, preamble + head + body)
  {
    KeptBefore(p, start, head, 0, 2);
    assert Overwrite(p, start, head)[12..total] == p[12..start] + head + p[start + 4..total];
  }

  lemma HeaderFilled(q: seq<Byte>, total: nat, tail: seq<Byte>, header: seq<Byte>)
    requires Closed(q, total, tail) && |header| == 10
    ensures Closed(Overwrite(q, 2, header), total, tail)
    ensures Overwrite(q, 2, header)[..total] == U16(10) + header + tail
  {
    KeptBefore(q, 2, header, 0, 2);
    assert Overwrite(q, 2, header)[12..total] == q[12..total];
    assert Overwrite(q, 2, header)[..total] == q[0..2] + header + q[12..total];
  }

  lemma Reopened(b: seq<Byte>, start: nat, total: nat, preamble: seq<Byte>, tail: seq<Byte>)
    requires Closed(b, total, tail) && preamble <= tail && start == 12 + |preamble| && start + 4 <= total
    ensures Layout(b, start, start + 4, preamble, [])
  {
    assert b[12..start] == b[12..total][..|preamble|];
  }

  lemma Regrouped(v: seq<Byte>, lts: seq<Byte>, d: seq<Byte>, t: seq<Byte>, s: seq<Byte>, h: seq<Byte>, b: seq<Byte>)
    ensures v + lts + ((d + t + s) + h + b) == (v + lts + d) + (t + s + (h + b))
  {
  }

  lemma HeaderGrouped(h: Header)
    ensures HeaderBytes(h) == U16(10) + (U16(h.length) + U32(h.time) + U32(h.sequence)) + U32(h.domain)
  {
    Associate(U16(10), U16(h.length), U32(h.time));
    Associate(U16(10), U16(h.length) + U32(h.time), U32(h.sequence));
  }

  lemma EmptyBatch()
    ensures BatchBytes([]) == []
  {
  }

  /** A message in terms of its fixed front part and the bytes of its records. */
  function Sealed(preamble: seq<Byte>, batch: seq<Byte>, time: nat, sequence: nat): seq<Byte> {
    var size := 4 + |Padded(batch)|;
    U16(10) + (U16(12 + |preamble| + size) + U32(time) + U32(sequence))
    + (preamble + (U16(0x9993) + U16(size)) + Padded(batch))
  }

  lemma GenericSealed(domain: nat, t: seq<Byte>, st: seq<Byte>, rs: seq<Byte>, body: seq<Byte>, batch: seq<Byte>,
                      time: nat, sequence: nat)
    requires rs == SetBytes(0x9993, Padded(batch)) && body == t + st + rs
    ensures HeaderBytes(Header(16 + |body|, time, sequence, domain)) + body
      == Sealed(U32(domain) + t + st, batch, time, sequence)
  {
    var size := 4 + |Padded(batch)|;
    var total := 16 + |t| + |st| + size;
    HeaderGrouped(Header(total, time, sequence, domain));
    Regrouped(U16(10), U16(total) + U32(time) + U32(sequence), U32(domain), t, st,
              U16(0x9993) + U16(size), Padded(batch));
  }

  lemma MessageIsSealed(s: Station, time: nat, sequence: nat, batch: seq<Reception>)
    ensures MessageBytes(s, time, sequence, batch) == Sealed(Preamble(s), BatchBytes(batch), time, sequence)
  {
    GenericSealed(s.domain, TemplateSets(), StationSet(s), ReceptionSet(batch), Body(s, batch), BatchBytes(batch), time, sequence);
  }

  // ---------- The station set ----------

  /** The limits that the program checks on its command line. */
  predicate WithinLimits(s: Station) { |s.call| <= 16 && |s.grid| <= 6 && |s.antenna| <= 64 }

  function StationBytes(s: Station): seq<Byte> { RecordBytes(STATION_FIELDS, StationValues(s)) }

  lemma StationUnfolds(s: Station)
    ensures StationBytes(s) ==
      VariableBytes(s.call) + VariableBytes(s.grid) + (VariableBytes(SOFTWARE) + VariableBytes(s.antenna))
    ensures |StationBytes(s)| == 26 + |s.call| + |s.grid| + |s.antenna|
  {
    var f, v := STATION_FIELDS, StationValues(s);
    RecordUnfold(f, v, 3);
    RecordUnfold(f, v, 2);
    RecordUnfold(f, v, 1);
    RecordUnfold(f, v, 0);
    assert f[0..] == f && v[0..] == v && RecordBytes(f[4..], v[4..]) == [];
    assert VariableBytes(s.antenna) + [] == VariableBytes(s.antenna);
    Associate(VariableBytes(s.call), VariableBytes(s.grid), VariableBytes(SOFTWARE) + VariableBytes(s.antenna));
  }

  lemma StationFits(s: Station)
    requires WithinLimits(s)
    ensures |StationBytes(s)| <= 112 && |StationSet(s)| == 4 + |Padded(StationBytes(s))| <= 119
    ensures |U32(s.domain) + TemplateSets()| == 108
  {
    StationUnfolds(s);
    TemplateSetsSpelledOut();
  }

  lemma FrontLayout(b: seq<Byte>, header: seq<Byte>, front: seq<Byte>)
    requires |b| == CAPACITY && |header| == 12 && |front| == 108 && header + front <= b && header[0..2] == U16(10)
    ensures Layout(b, 120, 124, front, [])
  {
    assert b[0..2] == (header + front)[0..2] && b[12..120] == (header + front)[12..120];
  }

  lemma StationClosed(b: seq<Byte>, s: Station, end: nat)
    requires end == 120 + |StationSet(s)| && end + 4 <= CAPACITY
    requires var size := 4 + |Padded(StationBytes(s))|;
      Closed(b, end, U32(s.domain) + TemplateSets() + (U16(0x9992) + U16(size)) + Padded(StationBytes(s)))
    ensures Layout(b, end, end + 4, Preamble(s), [])
  {
    var size := 4 + |Padded(StationBytes(s))|;
    Associate(U32(s.domain) + TemplateSets(), U16(0x9992) + U16(size), Padded(StationBytes(s)));
  }
}
