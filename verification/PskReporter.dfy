/** The uploader of FT8 reception reports: what its messages say, and which messages it sends. */
module PskReporter {
  import opened Bytes
  import opened Ipfix

  type Text = t: seq<Byte> | |t| < 128

  /** The reporting station, from the command line. */
  datatype Station = Station(call: Text, grid: Text, antenna: Text, domain: nat)

  /** A decoded line of the input file; the time is that of the start of the FT8 slot. */
  datatype Reception = Reception(call: Text, grid: Text, freq: int, snr: int, time: int)

  const PSK_REPORTER := Some(0x768F)

  const STATION_TEMPLATE := Template(0x9992, [
    Field(2, VARIABLE, PSK_REPORTER), Field(4, VARIABLE, PSK_REPORTER),
    Field(8, VARIABLE, PSK_REPORTER), Field(9, VARIABLE, PSK_REPORTER)])

  const RECEPTION_TEMPLATE := Template(0x9993, [
    Field(1, VARIABLE, PSK_REPORTER), Field(3, VARIABLE, PSK_REPORTER),
    Field(5, 4, PSK_REPORTER), Field(6, 1, PSK_REPORTER),
    Field(10, VARIABLE, PSK_REPORTER), Field(11, 1, PSK_REPORTER), Field(150, 4, None)])

  const STATION_FIELDS := STATION_TEMPLATE.fields
  const RECEPTION_FIELDS := RECEPTION_TEMPLATE.fields

  /** "Red Pitaya FT8 TRX 1.0" */
  const SOFTWARE: Text := [
    0x52, 0x65, 0x64, 0x20, 0x50, 0x69, 0x74, 0x61, 0x79, 0x61, 0x20, 0x46, 0x54, 0x38,
    0x20, 0x54, 0x52, 0x58, 0x20, 0x31, 0x2E, 0x30]

  const FT8: Text := [0x46, 0x54, 0x38]

  /** The two texts of the program, character by character. */
  lemma TextsSpellOut()
    ensures |SOFTWARE| == |"Red Pitaya FT8 TRX 1.0"| && |FT8| == |"FT8"|
    ensures forall k | 0 <= k < |SOFTWARE| :: SOFTWARE[k] as int == "Red Pitaya FT8 TRX 1.0"[k] as int
    ensures forall k | 0 <= k < |FT8| :: FT8[k] as int == "FT8"[k] as int
  {
  }

  function StationValues(s: Station): (r: seq<seq<Byte>>)
    ensures ValidValues(STATION_FIELDS, r)
  {
    [s.call, s.grid, SOFTWARE, s.antenna]
  }

  function ReceptionValues(r: Reception): (v: seq<seq<Byte>>)
    ensures ValidValues(RECEPTION_FIELDS, v)
  {
    [r.call, r.grid, U32(r.freq), [(r.snr % 256) as Byte], FT8, [1], U32(r.time + 15)]
  }

  /** The values of a batch, record by record. */
  function Values(batch: seq<Reception>): (r: seq<seq<seq<Byte>>>)
    ensures |r| == |batch| && ValidRecords(RECEPTION_FIELDS, r)
  {
    seq(|batch|, i requires 0 <= i < |batch| => ReceptionValues(batch[i]))
  }

  // ---------- The message ----------

  function Padding(size: nat): (r: nat)
    ensures r < 4
  {
    (4 - size % 4) % 4
  }

  /** The body of a set, filled up so that the whole set is a multiple of four bytes. */
  function Padded(body: seq<Byte>): seq<Byte> { body + Zero(Padding(4 + |body|)) }

  function StationSet(s: Station): seq<Byte> {
    SetBytes(0x9992, Padded(RecordBytes(STATION_FIELDS, StationValues(s))))
  }

  function ReceptionSet(batch: seq<Reception>): seq<Byte> {
    SetBytes(0x9993, Padded(RecordsBytes(RECEPTION_FIELDS, Values(batch))))
  }

  // The template sets as the program spells them out, row by row.

  function StationHead(): seq<Byte> { [0x00, 0x03, 0x00, 0x2C, 0x99, 0x92, 0x00, 0x04, 0x00, 0x00] }

  function StationRows(): seq<seq<Byte>> {
    [ [0x80, 0x02, 0xFF, 0xFF, 0x00, 0x00, 0x76, 0x8F],
      [0x80, 0x04, 0xFF, 0xFF, 0x00, 0x00, 0x76, 0x8F],
      [0x80, 0x08, 0xFF, 0xFF, 0x00, 0x00, 0x76, 0x8F],
      [0x80, 0x09, 0xFF, 0xFF, 0x00, 0x00, 0x76, 0x8F]]
  }

  function StationTail(): seq<Byte> { [0x00, 0x00] }

  function ReceptionHead(): seq<Byte> { [0x00, 0x02, 0x00, 0x3C, 0x99, 0x93, 0x00, 0x07] }

  function ReceptionRows(): seq<seq<Byte>> {
    [ [0x80, 0x01, 0xFF, 0xFF, 0x00, 0x00, 0x76, 0x8F],
      [0x80, 0x03, 0xFF, 0xFF, 0x00, 0x00, 0x76, 0x8F],
      [0x80, 0x05, 0x00, 0x04, 0x00, 0x00, 0x76, 0x8F],
      [0x80, 0x06, 0x00, 0x01, 0x00, 0x00, 0x76, 0x8F],
      [0x80, 0x0A, 0xFF, 0xFF, 0x00, 0x00, 0x76, 0x8F],
      [0x80, 0x0B, 0x00, 0x01, 0x00, 0x00, 0x76, 0x8F],
      [0x00, 0x96, 0x00, 0x04]]
  }

  function Join(rows: seq<seq<Byte>>): seq<Byte> {
    if rows == [] then [] else rows[0] + Join(rows[1..])
  }

  function StationTemplateSet(): seq<Byte> { StationHead() + Join(StationRows()) + StationTail() }

  function ReceptionTemplateSet(): seq<Byte> { ReceptionHead() + Join(ReceptionRows()) }

  function TemplateSets(): seq<Byte> { StationTemplateSet() + ReceptionTemplateSet() }

  function Body(s: Station, batch: seq<Reception>): seq<Byte> {
    TemplateSets() + StationSet(s) + ReceptionSet(batch)
  }

  function MessageBytes(s: Station, time: nat, sequence: nat, batch: seq<Reception>): seq<Byte> {
    HeaderBytes(Header(16 + |Body(s, batch)|, time, sequence, s.domain)) + Body(s, batch)
  }

  // ---------- What a decoder makes of it ----------

  lemma {:induction false} RowsAreFields(rows: seq<seq<Byte>>, fields: seq<Field>)
    requires |rows| == |fields| && forall i | 0 <= i < |rows| :: rows[i] == FieldBytes(fields[i])
    ensures Join(rows) == FieldsBytes(fields)
  {
    if rows != [] { RowsAreFields(rows[1..], fields[1..]); }
  }

  lemma JoinUnfold(rows: seq<seq<Byte>>, i: nat)
    requires i < |rows|
    ensures |Join(rows[i..])| == |rows[i]| + |Join(rows[i + 1..])|
  {
    assert rows[i..][1..] == rows[i + 1..];
  }

  lemma StationRowsAreFields()
    ensures Join(StationRows()) == FieldsBytes(STATION_FIELDS) && |Join(StationRows())| == 32
  {
    RowsAreFields(StationRows(), STATION_FIELDS);
    JoinUnfold(StationRows(), 0);
    JoinUnfold(StationRows(), 1);
    JoinUnfold(StationRows(), 2);
    JoinUnfold(StationRows(), 3);
  }

  lemma ReceptionRowsAreFields()
    ensures Join(ReceptionRows()) == FieldsBytes(RECEPTION_FIELDS) && |Join(ReceptionRows())| == 52
  {
    RowsAreFields(ReceptionRows(), RECEPTION_FIELDS);
    ReceptionRowsLength();
  }

  lemma ReceptionRowsLength()
    ensures |Join(ReceptionRows())| == 52
  {
    JoinUnfold(ReceptionRows(), 0);
    JoinUnfold(ReceptionRows(), 1);
    JoinUnfold(ReceptionRows(), 2);
    JoinUnfold(ReceptionRows(), 3);
    JoinUnfold(ReceptionRows(), 4);
    JoinUnfold(ReceptionRows(), 5);
    JoinUnfold(ReceptionRows(), 6);
  }

  /** The spelled-out bytes are an options template set and a template set for the two templates. */
  lemma TemplateSetsSpelledOut()
    ensures StationTemplateSet() == SetBytes(3, TemplateBytes(true, STATION_TEMPLATE) + Zero(2))
    ensures ReceptionTemplateSet() == SetBytes(2, TemplateBytes(false, RECEPTION_TEMPLATE) + Zero(0))
    ensures |StationTemplateSet()| == 44 && |ReceptionTemplateSet()| == 60
  {
    StationSpelledOut();
    ReceptionSpelledOut();
  }

  lemma SetOfParts(id: nat, prefix: seq<Byte>, fields: seq<Byte>, pad: seq<Byte>, size: nat)
    requires size == 4 + |prefix| + |fields| + |pad|
    ensures SetBytes(id, prefix + fields + pad) == U16(id) + U16(size) + prefix + fields + pad
    ensures |SetBytes(id, prefix + fields + pad)| == size
  {
    assert |prefix + fields + pad| == size - 4;
    var head := U16(id) + U16(size);
    assert head + (prefix + fields + pad) == head + prefix + fields + pad;
  }

  lemma StationSpelledOut()
    ensures StationTemplateSet() == SetBytes(3, TemplateBytes(true, STATION_TEMPLATE) + Zero(2))
    ensures |StationTemplateSet()| == 44
  {
    StationRowsAreFields();
    var prefix := U16(0x9992) + U16(4) + U16(0);
    StationHeadIs(prefix);
    assert StationTail() == Zero(2);
    SetOfParts(3, prefix, FieldsBytes(STATION_FIELDS), Zero(2), 44);
  }

  lemma StationHeadIs(prefix: seq<Byte>)
    requires prefix == U16(0x9992) + U16(4) + U16(0)
    ensures StationHead() == U16(3) + U16(44) + prefix && |prefix| == 6
  {
  }

  lemma ReceptionHeadIs(prefix: seq<Byte>)
    requires prefix == U16(0x9993) + U16(7)
    ensures ReceptionHead() == U16(2) + U16(60) + prefix && |prefix| == 4
  {
  }

  lemma ReceptionSpelledOut()
    ensures ReceptionTemplateSet() == SetBytes(2, TemplateBytes(false, RECEPTION_TEMPLATE) + Zero(0))
    ensures |ReceptionTemplateSet()| == 60
  {
    ReceptionRowsAreFields();
    var prefix := U16(0x9993) + U16(7);
    ReceptionHeadIs(prefix);
    var fields := FieldsBytes(RECEPTION_FIELDS);
    assert TemplateBytes(false, RECEPTION_TEMPLATE) == prefix + fields by {
      assert prefix + [] + fields == prefix + fields;
    }
    SetOfParts(2, prefix, fields, Zero(0), 60);
    assert ReceptionHead() + fields + Zero(0) == ReceptionHead() + fields;
  }

  const STATION_KNOWN: Templates := map[0x9992 := STATION_FIELDS]
  const BOTH_KNOWN: Templates := STATION_KNOWN[0x9993 := RECEPTION_FIELDS]

  lemma MinLengths()
    ensures MinLength(STATION_FIELDS) == 4 && MinLength(RECEPTION_FIELDS) == 13
  {
    var s, r := STATION_FIELDS, RECEPTION_FIELDS;
    MinUnfold(s, 0);
    MinUnfold(s, 1);
    MinUnfold(s, 2);
    MinUnfold(s, 3);
    assert s[0..] == s;
    ReceptionMinLength();
  }

  lemma ReceptionMinLength()
    ensures MinLength(RECEPTION_FIELDS) == 13
  {
    var r := RECEPTION_FIELDS;
    MinUnfold(r, 0);
    MinUnfold(r, 1);
    MinUnfold(r, 2);
    MinUnfold(r, 3);
    MinUnfold(r, 4);
    MinUnfold(r, 5);
    MinUnfold(r, 6);
    assert r[0..] == r;
  }

  lemma MinUnfold(fields: seq<Field>, i: nat)
    requires i < |fields|
    ensures MinLength(fields[i..]) ==
      (if fields[i].length == VARIABLE then 1 else fields[i].length) + MinLength(fields[i + 1..])
  {
    assert fields[i..][1..] == fields[i + 1..];
  }

  lemma TemplatesDecode(rest: seq<Byte>)
    ensures ParseSets(TemplateSets() + rest, map[]) == ParseSets(rest, BOTH_KNOWN)
  {
    TemplateSetsSpelledOut();
    assert TemplateSets() + rest == StationTemplateSet() + (ReceptionTemplateSet() + rest);
    StationTemplateDecodes(ReceptionTemplateSet() + rest);
    ReceptionTemplateDecodes(rest);
  }

  lemma StationTemplateDecodes(rest: seq<Byte>)
    ensures ParseSets(StationTemplateSet() + rest, map[]) == ParseSets(rest, STATION_KNOWN)
  {
    StationSpelledOut();
    TemplateSetRoundTrip(true, STATION_TEMPLATE, Zero(2), map[], rest);
  }

  lemma ReceptionTemplateDecodes(rest: seq<Byte>)
    ensures ParseSets(ReceptionTemplateSet() + rest, STATION_KNOWN) == ParseSets(rest, BOTH_KNOWN)
  {
    ReceptionSpelledOut();
    TemplateSetRoundTrip(false, RECEPTION_TEMPLATE, Zero(0), STATION_KNOWN, rest);
  }

  lemma PaddedSetDecodes(id: nat, fields: seq<Field>, records: seq<seq<seq<Byte>>>, known: Templates, rest: seq<Byte>)
    requires 4 <= id < 0x1_0000 && id in known && known[id] == fields && MinLength(fields) >= 4
    requires ValidRecords(fields, records)
    requires |SetBytes(id, Padded(RecordsBytes(fields, records)))| < 0x1_0000
    requires ParseSets(rest, known).Some?
    ensures ParseSets(SetBytes(id, Padded(RecordsBytes(fields, records))) + rest, known)
      == Some([DataSet(id, records)] + ParseSets(rest, known).value)
  {
    var bytes := RecordsBytes(fields, records);
    DataSetRoundTrip(id, fields, records, Zero(Padding(4 + |bytes|)), Padded(bytes), known, rest);
  }

  lemma LastSetDecodes(id: nat, fields: seq<Field>, records: seq<seq<seq<Byte>>>, known: Templates)
    requires 4 <= id < 0x1_0000 && id in known && known[id] == fields && MinLength(fields) >= 4
    requires ValidRecords(fields, records)
    requires |SetBytes(id, Padded(RecordsBytes(fields, records)))| < 0x1_0000
    ensures ParseSets(SetBytes(id, Padded(RecordsBytes(fields, records))), known) == Some([DataSet(id, records)])
  {
    var s := SetBytes(id, Padded(RecordsBytes(fields, records)));
    PaddedSetDecodes(id, fields, records, known, []);
    assert s + [] == s;
    assert [DataSet(id, records)] + [] == [DataSet(id, records)];
  }

  lemma ReceptionSetDecodes(batch: seq<Reception>)
    requires |ReceptionSet(batch)| < 0x1_0000
    ensures ParseSets(ReceptionSet(batch), BOTH_KNOWN) == Some([DataSet(0x9993, Values(batch))])
  {
    MinLengths();
    LastSetDecodes(0x9993, RECEPTION_FIELDS, Values(batch), BOTH_KNOWN);
  }

  lemma OneRecord(fields: seq<Field>, record: seq<seq<Byte>>)
    requires ValidValues(fields, record)
    ensures ValidRecords(fields, [record]) && RecordsBytes(fields, [record]) == RecordBytes(fields, record)
  {
    assert [record][1..] == [];
    assert RecordBytes(fields, record) + [] == RecordBytes(fields, record);
  }

  lemma StationSetDecodes(s: Station, rest: seq<Byte>)
    requires |StationSet(s)| < 0x1_0000 && ParseSets(rest, BOTH_KNOWN).Some?
    ensures ParseSets(StationSet(s) + rest, BOTH_KNOWN)
      == Some([DataSet(0x9992, [StationValues(s)])] + ParseSets(rest, BOTH_KNOWN).value)
  {
    MinLengths();
    OneRecord(STATION_FIELDS, StationValues(s));
    PaddedSetDecodes(0x9992, STATION_FIELDS, [StationValues(s)], BOTH_KNOWN, rest);
  }

  lemma DataSetsDecode(s: Station, batch: seq<Reception>)
    requires |StationSet(s)| < 0x1_0000 && |ReceptionSet(batch)| < 0x1_0000
    ensures ParseSets(StationSet(s) + ReceptionSet(batch), BOTH_KNOWN) ==
      Some([DataSet(0x9992, [StationValues(s)]), DataSet(0x9993, Values(batch))])
  {
    ReceptionSetDecodes(batch);
    StationSetDecodes(s, ReceptionSet(batch));
    PairOf(DataSet(0x9992, [StationValues(s)]), DataSet(0x9993, Values(batch)));
  }

  lemma PairOf(x: DataSet, y: DataSet)
    ensures [x] + [y] == [x, y]
  {
  }

  lemma BodyDecodes(s: Station, batch: seq<Reception>)
    requires |Body(s, batch)| < 0x1_0000
    ensures ParseSets(Body(s, batch), map[]) ==
      Some([DataSet(0x9992, [StationValues(s)]), DataSet(0x9993, Values(batch))])
  {
    var data := StationSet(s) + ReceptionSet(batch);
    DataSetsDecode(s, batch);
    TemplatesDecode(data);
    Associate(TemplateSets(), StationSet(s), ReceptionSet(batch));
  }

  lemma Associate(a: seq<Byte>, b: seq<Byte>, c: seq<Byte>)
    ensures a + b + c == a + (b + c)
  {
  }

  /** Decoding a message by the templates it carries returns exactly what was put in. */
  lemma MessageDecodes(s: Station, time: nat, sequence: nat, batch: seq<Reception>)
    requires |MessageBytes(s, time, sequence, batch)| < 0x1_0000
    ensures Parse(MessageBytes(s, time, sequence, batch)) == Some(Message(
      Header(|MessageBytes(s, time, sequence, batch)|, time % 0x1_0000_0000, sequence % 0x1_0000_0000, s.domain % 0x1_0000_0000),
      [DataSet(0x9992, [StationValues(s)]), DataSet(0x9993, Values(batch))]))
  {
    BodyDecodes(s, batch);
    MessageRoundTrip(Header(16 + |Body(s, batch)|, time, sequence, s.domain), Body(s, batch));
  }

  /** Every set, and so every message, is a whole number of four-byte words. */
  lemma SetsAreAligned(s: Station, time: nat, sequence: nat, batch: seq<Reception>)
    ensures |StationSet(s)| % 4 == 0 && |ReceptionSet(batch)| % 4 == 0
    ensures |MessageBytes(s, time, sequence, batch)| % 4 == 0
  {
    PaddingAligns(4 + |RecordBytes(STATION_FIELDS, StationValues(s))|);
    PaddingAligns(4 + |RecordsBytes(RECEPTION_FIELDS, Values(batch))|);
    TemplateSetsSpelledOut();
    AlignedSum(|StationSet(s)|, |ReceptionSet(batch)|);
  }

  lemma PaddingAligns(size: nat)
    ensures (size + Padding(size)) % 4 == 0
  {
  }

  lemma AlignedSum(a: nat, b: nat)
    requires a % 4 == 0 && b % 4 == 0
    ensures (120 + a + b) % 4 == 0
  {
  }

  // ---------- Reading the values ----------

  function Signed(v: nat, limit: nat): int { if v < limit then v else v - 2 * limit }

  /** A reader's view of the values of a reception record, in the types that the templates' fields have. */
  function ReadReception(v: seq<seq<Byte>>): Reception
    requires ValidValues(RECEPTION_FIELDS, v) && |v[0]| < 128 && |v[1]| < 128
  {
    assert ValidValue(RECEPTION_FIELDS[2].length, v[2]) && ValidValue(RECEPTION_FIELDS[3].length, v[3]);
    assert ValidValue(RECEPTION_FIELDS[6].length, v[6]);
    Reception(v[0], v[1], Signed(GetU32(v[2]), 0x8000_0000), Signed(v[3][0] as nat, 128), GetU32(v[6]) - 15)
  }

  /** A record survives the trip exactly when its numbers fit their fields; the text always does. */
  lemma ReadsBackIff(r: Reception)
    ensures ReadReception(ReceptionValues(r)).call == r.call && ReadReception(ReceptionValues(r)).grid == r.grid
    ensures ReadReception(ReceptionValues(r)) == r <==>
      -0x8000_0000 <= r.freq < 0x8000_0000 && -128 <= r.snr < 128 && 0 <= r.time + 15 < 0x1_0000_0000
  {
    var v := ReceptionValues(r);
    assert v[0] == r.call && v[1] == r.grid && v[2] == U32(r.freq) && v[3] == [(r.snr % 256) as Byte];
    assert v[6] == U32(r.time + 15);
    GetU32Of(r.freq, []);
    GetU32Of(r.time + 15, []);
    assert U32(r.freq) + [] == U32(r.freq) && U32(r.time + 15) + [] == U32(r.time + 15);
    SignedWord(r.freq);
    SignedByte(r.snr);
  }

  lemma SignedWord(v: int)
    ensures Signed(v % 0x1_0000_0000, 0x8000_0000) == v <==> -0x8000_0000 <= v < 0x8000_0000
  {
  }

  lemma SignedByte(v: int)
    ensures Signed(v % 256, 128) == v <==> -128 <= v < 128
  {
  }
}
