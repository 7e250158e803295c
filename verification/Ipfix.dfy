/** IPFIX messages (RFC 7011): what the PSK Reporter uploader writes, and a decoder that knows only the RFC. */
module Ipfix {
  import opened Bytes

  datatype Option<+T> = None | Some(value: T)

  // ---------- Templates ----------

  const VARIABLE := 65535

  /** A field specifier of section 3.2: an enterprise number is present if the top bit of the id is set. */
  datatype Field = Field(id: nat, length: nat, enterprise: Option<nat>)

  datatype Template = Template(id: nat, fields: seq<Field>)

  predicate ValidField(f: Field) {
    f.id < 0x8000 && f.length <= VARIABLE && (f.enterprise.Some? ==> f.enterprise.value < 0x1_0000_0000)
  }

  function FieldBytes(f: Field): (r: seq<Byte>)
    ensures |r| == if f.enterprise.Some? then 8 else 4
  {
    if f.enterprise.Some? then U16(f.id + 0x8000) + U16(f.length) + U32(f.enterprise.value)
    else U16(f.id) + U16(f.length)
  }

  function FieldsBytes(fields: seq<Field>): seq<Byte> {
    if fields == [] then [] else FieldBytes(fields[0]) + FieldsBytes(fields[1..])
  }

  /** A template record; an options template (section 3.4.2.2) also has a scope field count. */
  function TemplateBytes(scoped: bool, t: Template): seq<Byte> {
    U16(t.id) + U16(|t.fields|) + (if scoped then U16(0) else []) + FieldsBytes(t.fields)
  }

  // ---------- Values ----------

  /** Length in front, as section 7 has it for values shorter than 255 bytes. */
  function VariableBytes(value: seq<Byte>): seq<Byte> {
    [(|value| % 256) as Byte] + value
  }

  function ValueBytes(length: nat, value: seq<Byte>): seq<Byte> {
    if length == VARIABLE then VariableBytes(value) else value
  }

  predicate ValidValue(length: nat, value: seq<Byte>) {
    if length == VARIABLE then |value| < 255 else |value| == length
  }

  predicate ValidValues(fields: seq<Field>, values: seq<seq<Byte>>) {
    |values| == |fields| && forall i | 0 <= i < |fields| :: ValidValue(fields[i].length, values[i])
  }

  function RecordBytes(fields: seq<Field>, values: seq<seq<Byte>>): seq<Byte>
    requires |values| == |fields|
  {
    if fields == [] then []
    else ValueBytes(fields[0].length, values[0]) + RecordBytes(fields[1..], values[1..])
  }

  predicate ValidRecords(fields: seq<Field>, records: seq<seq<seq<Byte>>>) {
    forall i | 0 <= i < |records| :: ValidValues(fields, records[i])
  }

  function RecordsBytes(fields: seq<Field>, records: seq<seq<seq<Byte>>>): seq<Byte>
    requires ValidRecords(fields, records)
  {
    if records == [] then [] else RecordBytes(fields, records[0]) + RecordsBytes(fields, records[1..])
  }

  // ---------- Sets and messages ----------

  function SetBytes(id: nat, body: seq<Byte>): seq<Byte> {
    U16(id) + U16(4 + |body|) + body
  }

  datatype Header = Header(length: nat, time: nat, sequence: nat, domain: nat)

  function HeaderBytes(h: Header): (r: seq<Byte>)
    ensures |r| == 16
  {
    U16(10) + U16(h.length) + U32(h.time) + U32(h.sequence) + U32(h.domain)
  }

  // ---------- The decoder ----------

  function ParseField(s: seq<Byte>): (r: Option<(Field, seq<Byte>)>)
    ensures r.Some? ==> |r.value.1| < |s|
  {
    if |s| < 4 then None
    else
      var id, length := GetU16(s), GetU16(s[2..]);
      if id < 0x8000 then Some((Field(id, length, None), s[4..]))
      else if |s| < 8 then None
      else Some((Field(id - 0x8000, length, Some(GetU32(s[4..]))), s[8..]))
  }

  function ParseFields(s: seq<Byte>, n: nat): (r: Option<(seq<Field>, seq<Byte>)>)
    ensures r.Some? ==> |r.value.1| <= |s|
  {
    if n == 0 then Some(([], s))
    else
      match ParseField(s)
      case None => None
      case Some((f, rest)) =>
        match ParseFields(rest, n - 1)
        case None => None
        case Some((fs, rest)) => Some(([f] + fs, rest))
  }

  predicate Zeros(s: seq<Byte>) { forall i | 0 <= i < |s| :: s[i] == 0 }

  type Templates = map<nat, seq<Field>>

  /** The templates of a template set or options template set, up to padding. */
  function ParseTemplates(scoped: bool, s: seq<Byte>, known: Templates): Option<Templates>
    decreases |s|
  {
    var fixed := if scoped then 6 else 4;
    if |s| < fixed then if Zeros(s) then Some(known) else None
    else
      match ParseFields(s[fixed..], GetU16(s[2..]))
      case None => None
      case Some((fields, rest)) => ParseTemplates(scoped, rest, known[GetU16(s) := fields])
  }

  /** The fewest bytes that a record of these fields takes. */
  function MinLength(fields: seq<Field>): nat {
    if fields == [] then 0
    else (if fields[0].length == VARIABLE then 1 else fields[0].length) + MinLength(fields[1..])
  }

  function ParseValue(length: nat, s: seq<Byte>): (r: Option<(seq<Byte>, seq<Byte>)>)
    ensures r.Some? ==> |r.value.1| + (if length == VARIABLE then 1 else length) <= |s|
  {
    if length != VARIABLE then if |s| < length then None else Some((s[..length], s[length..]))
    else if |s| < 1 then None
    else if s[0] < 255 then
      var n := s[0] as nat;
      if |s| < 1 + n then None else Some((s[1..1 + n], s[1 + n..]))
    else if |s| < 3 then None
    else
      var n := GetU16(s[1..]);
      if |s| < 3 + n then None else Some((s[3..3 + n], s[3 + n..]))
  }

  function ParseRecord(fields: seq<Field>, s: seq<Byte>): (r: Option<(seq<seq<Byte>>, seq<Byte>)>)
    ensures r.Some? ==> |r.value.1| + MinLength(fields) <= |s|
  {
    if fields == [] then Some(([], s))
    else
      match ParseValue(fields[0].length, s)
      case None => None
      case Some((v, rest)) =>
        match ParseRecord(fields[1..], rest)
        case None => None
        case Some((vs, rest)) => Some(([v] + vs, rest))
  }

  /** The records of a data set; what is too short for another record is padding (section 3.3.1). */
  function ParseRecords(fields: seq<Field>, s: seq<Byte>): Option<seq<seq<seq<Byte>>>>
    decreases |s|
  {
    if |s| < MinLength(fields) || MinLength(fields) == 0 then if Zeros(s) then Some([]) else None
    else
      match ParseRecord(fields, s)
      case None => None
      case Some((record, rest)) =>
        match ParseRecords(fields, rest)
        case None => None
        case Some(records) => Some([record] + records)
  }

  /** A data set: the template it refers to, and its records, each a value per field. */
  datatype DataSet = DataSet(id: nat, records: seq<seq<seq<Byte>>>)

  function ParseSets(s: seq<Byte>, known: Templates): Option<seq<DataSet>>
    decreases |s|
  {
    if s == [] then Some([])
    else if |s| < 4 then None
    else
      var id, length := GetU16(s), GetU16(s[2..]);
      if length < 4 || length > |s| then None
      else
        var body, rest := s[4..length], s[length..];
        if id == 2 || id == 3 then
          match ParseTemplates(id == 3, body, known)
          case None => None
          case Some(more) => ParseSets(rest, more)
        else if id !in known then None
        else
          match ParseRecords(known[id], body)
          case None => None
          case Some(records) =>
            match ParseSets(rest, known)
            case None => None
            case Some(sets) => Some([DataSet(id, records)] + sets)
  }

  datatype Message = Message(header: Header, sets: seq<DataSet>)

  function Parse(s: seq<Byte>): Option<Message> {
    if |s| < 16 || GetU16(s) != 10 || GetU16(s[2..]) != |s| then None
    else
      match ParseSets(s[16..], map[])
      case None => None
      case Some(sets) =>
        Some(Message(Header(|s|, GetU32(s[4..]), GetU32(s[8..]), GetU32(s[12..])), sets))
  }

  // ---------- Round trips ----------

  lemma FieldRoundTrip(f: Field, rest: seq<Byte>)
    requires ValidField(f)
    ensures ParseField(FieldBytes(f) + rest) == Some((f, rest))
  {
    if f.enterprise.Some? { EnterpriseFieldRoundTrip(f, rest); }
    else { TwoWords(f.id, f.length, rest, FieldBytes(f) + rest); }
  }

  lemma EnterpriseFieldRoundTrip(f: Field, rest: seq<Byte>)
    requires ValidField(f) && f.enterprise.Some?
    ensures ParseField(FieldBytes(f) + rest) == Some((f, rest))
  {
    var s, tail := FieldBytes(f) + rest, U32(f.enterprise.value) + rest;
    Regroup(U16(f.id + 0x8000), U16(f.length), U32(f.enterprise.value), rest);
    TwoWords(f.id + 0x8000, f.length, tail, s);
    GetU32Of(f.enterprise.value, rest);
    assert s[8..] == s[4..][4..];
  }

  lemma FieldsStep(f: Field, tail: seq<Byte>, fields: seq<Field>, rest: seq<Byte>)
    requires ValidField(f) && ParseFields(tail, |fields|) == Some((fields, rest))
    ensures ParseFields(FieldBytes(f) + tail, |fields| + 1) == Some(([f] + fields, rest))
  {
    FieldRoundTrip(f, tail);
  }

  lemma {:induction false} FieldsRoundTrip(fields: seq<Field>, rest: seq<Byte>)
    requires forall f | f in fields :: ValidField(f)
    ensures ParseFields(FieldsBytes(fields) + rest, |fields|) == Some((fields, rest))
  {
    if fields == [] {
      assert FieldsBytes(fields) + rest == rest;
    } else {
      var tail := FieldsBytes(fields[1..]) + rest;
      assert FieldsBytes(fields) + rest == FieldBytes(fields[0]) + tail;
      FieldsRoundTrip(fields[1..], rest);
      FieldsStep(fields[0], tail, fields[1..], rest);
      assert [fields[0]] + fields[1..] == fields;
    }
  }

  lemma TemplateHead(scoped: bool, t: Template, padding: seq<Byte>)
    requires t.id < 0x1_0000 && |t.fields| < 0x1_0000
    ensures var s := TemplateBytes(scoped, t) + padding;
      var fixed := if scoped then 6 else 4;
      && |s| >= fixed && GetU16(s) == t.id && GetU16(s[2..]) == |t.fields|
      && s[fixed..] == FieldsBytes(t.fields) + padding
  {
    var head, fields := U16(t.id) + U16(|t.fields|), FieldsBytes(t.fields);
    var scope := if scoped then U16(0) else [];
    var s := TemplateBytes(scoped, t) + padding;
    Regroup(head, scope, fields, padding);
    TwoWords(t.id, |t.fields|, scope + (fields + padding), s);
  }

  lemma Regroup(a: seq<Byte>, b: seq<Byte>, c: seq<Byte>, d: seq<Byte>)
    ensures a + b + c + d == a + (b + (c + d))
    ensures (a + b + c + d)[|a| + |b|..] == c + d
  {
  }

  lemma TemplateRoundTrip(scoped: bool, t: Template, padding: seq<Byte>, known: Templates)
    requires t.id < 0x1_0000 && |t.fields| < 0x1_0000 && forall f | f in t.fields :: ValidField(f)
    requires |padding| < 4 && Zeros(padding)
    ensures ParseTemplates(scoped, TemplateBytes(scoped, t) + padding, known) == Some(known[t.id := t.fields])
  {
    TemplateHead(scoped, t, padding);
    FieldsRoundTrip(t.fields, padding);
    OnlyPadding(scoped, padding, known[t.id := t.fields]);
  }

  lemma OnlyPadding(scoped: bool, padding: seq<Byte>, known: Templates)
    requires |padding| < 4 && Zeros(padding)
    ensures ParseTemplates(scoped, padding, known) == Some(known)
  {
  }

  lemma ValueRoundTrip(length: nat, value: seq<Byte>, rest: seq<Byte>)
    requires ValidValue(length, value)
    ensures ParseValue(length, ValueBytes(length, value) + rest) == Some((value, rest))
  {
    var s := ValueBytes(length, value) + rest;
    if length == VARIABLE {
      assert s[1..1 + |value|] == value && s[1 + |value|..] == rest;
    } else {
      assert s[..length] == value && s[length..] == rest;
    }
  }

  lemma {:induction false} RecordRoundTrip(fields: seq<Field>, values: seq<seq<Byte>>, rest: seq<Byte>)
    requires ValidValues(fields, values)
    ensures ParseRecord(fields, RecordBytes(fields, values) + rest) == Some((values, rest))
  {
    if fields == [] {
      assert RecordBytes(fields, values) + rest == rest;
    } else {
      var tail := RecordBytes(fields[1..], values[1..]) + rest;
      assert RecordBytes(fields, values) + rest == ValueBytes(fields[0].length, values[0]) + tail;
      ValueRoundTrip(fields[0].length, values[0], tail);
      RecordRoundTrip(fields[1..], values[1..], rest);
      assert [values[0]] + values[1..] == values;
    }
  }

  lemma {:induction false} RecordLength(fields: seq<Field>, values: seq<seq<Byte>>)
    requires ValidValues(fields, values)
    ensures |RecordBytes(fields, values)| >= MinLength(fields)
  {
    if fields != [] { RecordLength(fields[1..], values[1..]); }
  }

  lemma RecordsStep(fields: seq<Field>, record: seq<seq<Byte>>, tail: seq<Byte>, records: seq<seq<seq<Byte>>>)
    requires ValidValues(fields, record) && MinLength(fields) > 0
    requires ParseRecords(fields, tail) == Some(records)
    ensures ParseRecords(fields, RecordBytes(fields, record) + tail) == Some([record] + records)
  {
    RecordRoundTrip(fields, record, tail);
    RecordLength(fields, record);
  }

  /** Padding shorter than the shortest record is never read as one. */
  lemma {:induction false} RecordsRoundTrip(fields: seq<Field>, records: seq<seq<seq<Byte>>>, padding: seq<Byte>)
    requires ValidRecords(fields, records)
    requires |padding| < MinLength(fields) && Zeros(padding)
    ensures ParseRecords(fields, RecordsBytes(fields, records) + padding) == Some(records)
  {
    if records == [] {
      assert RecordsBytes(fields, records) + padding == padding;
    } else {
      var tail := RecordsBytes(fields, records[1..]) + padding;
      assert RecordsBytes(fields, records) + padding == RecordBytes(fields, records[0]) + tail;
      RecordsRoundTrip(fields, records[1..], padding);
      RecordsStep(fields, records[0], tail, records[1..]);
      assert [records[0]] + records[1..] == records;
    }
  }

  /** The head of a set, taken apart. */
  lemma SetRoundTrip(id: nat, body: seq<Byte>, rest: seq<Byte>)
    requires id < 0x1_0000 && |body| + 4 < 0x1_0000
    ensures var s := SetBytes(id, body) + rest;
      && |s| >= 4 && GetU16(s) == id && GetU16(s[2..]) == |body| + 4 <= |s|
      && s[4..|body| + 4] == body && s[|body| + 4..] == rest
  {
    var s := SetBytes(id, body) + rest;
    assert s == U16(id) + (U16(4 + |body|) + (body + rest));
    GetU16Of(id, U16(4 + |body|) + (body + rest));
    GetU16Of(4 + |body|, body + rest);
    assert s[4..] == body + rest;
  }

  lemma TemplateSetRoundTrip(scoped: bool, t: Template, padding: seq<Byte>, known: Templates, rest: seq<Byte>)
    requires t.id < 0x1_0000 && |t.fields| < 0x1_0000 && forall f | f in t.fields :: ValidField(f)
    requires |padding| < 4 && Zeros(padding)
    requires |TemplateBytes(scoped, t) + padding| + 4 < 0x1_0000
    ensures ParseSets(SetBytes(if scoped then 3 else 2, TemplateBytes(scoped, t) + padding) + rest, known)
      == ParseSets(rest, known[t.id := t.fields])
  {
    SetRoundTrip(if scoped then 3 else 2, TemplateBytes(scoped, t) + padding, rest);
    TemplateRoundTrip(scoped, t, padding, known);
  }

  lemma DataSetRoundTrip(id: nat, fields: seq<Field>, records: seq<seq<seq<Byte>>>, padding: seq<Byte>, body: seq<Byte>,
                         known: Templates, rest: seq<Byte>)
    requires 4 <= id < 0x1_0000 && id in known && known[id] == fields
    requires ValidRecords(fields, records) && body == RecordsBytes(fields, records) + padding
    requires |padding| < MinLength(fields) && Zeros(padding) && |body| + 4 < 0x1_0000
    requires ParseSets(rest, known).Some?
    ensures ParseSets(SetBytes(id, body) + rest, known)
      == Some([DataSet(id, records)] + ParseSets(rest, known).value)
  {
    SetRoundTrip(id, body, rest);
    RecordsRoundTrip(fields, records, padding);
  }

  lemma HeaderHead(h: Header, body: seq<Byte>)
    requires h.length < 0x1_0000
    ensures var s := HeaderBytes(h) + body;
      GetU16(s) == 10 && GetU16(s[2..]) == h.length && s[4..] == U32(h.time) + (U32(h.sequence) + (U32(h.domain) + body))
  {
    var t := U32(h.time) + (U32(h.sequence) + (U32(h.domain) + body));
    assert HeaderBytes(h) + body == U16(10) + U16(h.length) + t;
    TwoWords(10, h.length, t, HeaderBytes(h) + body);
  }

  lemma HeaderTail(h: Header, body: seq<Byte>, s: seq<Byte>)
    requires |s| >= 16 && s[4..] == U32(h.time) + (U32(h.sequence) + (U32(h.domain) + body))
    ensures GetU32(s[4..]) == h.time % 0x1_0000_0000 && GetU32(s[8..]) == h.sequence % 0x1_0000_0000
    ensures GetU32(s[12..]) == h.domain % 0x1_0000_0000 && s[16..] == body
  {
    var d := U32(h.domain) + body;
    GetU32Of(h.time, U32(h.sequence) + d);
    GetU32Of(h.sequence, d);
    GetU32Of(h.domain, body);
    assert s[8..] == s[4..][4..] == U32(h.sequence) + d;
    assert s[12..] == s[8..][4..] == d;
    assert s[16..] == s[12..][4..];
  }

  lemma MessageRoundTrip(h: Header, body: seq<Byte>)
    requires h.length == 16 + |body| < 0x1_0000
    requires ParseSets(body, map[]).Some?
    ensures Parse(HeaderBytes(h) + body) == Some(Message(
      Header(h.length, h.time % 0x1_0000_0000, h.sequence % 0x1_0000_0000, h.domain % 0x1_0000_0000),
      ParseSets(body, map[]).value))
  {
    HeaderHead(h, body);
    HeaderTail(h, body, HeaderBytes(h) + body);
  }
}
