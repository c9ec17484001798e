/** Encoding a DNS response as in sections 3.1 and 4.1.1 to 4.1.4 of RFC 1035, with names
    compressed or not, and the proof that the parser recovers it. */
module DnsRoundTrip {
  import opened Bits
  import opened DnsParsers
  import opened DnsTables
  import opened Options

  type Bytes = seq<Byte>

  // The encoder.

  function EncodeU16(x: nat): (b: Bytes)
    requires x < 65536
    ensures |b| == 2
  {
    [x / 256, x % 256]
  }

  function EncodeU32(x: nat): (b: Bytes)
    requires x < 0x1_0000_0000
    ensures |b| == 4
  {
    EncodeU16(x / 65536) + EncodeU16(x % 65536)
  }

  predicate ValidLabels(name: Name) {
    forall i :: 0 <= i < |name| ==> 1 <= |name[i]| <= 63
  }

  /** Length octets and labels, without the final zero octet. */
  function LabelBytes(name: Name): Bytes
    requires ValidLabels(name)
  {
    if name == [] then [] else [|name[0]|] + name[0] + LabelBytes(name[1..])
  }

  /** Labels of 1 to 63 octets and at most 255 octets in all. */
  predicate ValidName(name: Name) {
    ValidLabels(name) && |LabelBytes(name)| + 1 <= 255
  }

  /** A name as it is written: its labels, or its first labels and a pointer to an earlier place
      in the message that spells the rest. */
  datatype WireName = Plain(labels: Name) | Compressed(labels: Name, target: nat, rest: Name)
  {
    function Name(): Name {
      if Plain? then labels else labels + rest
    }

    /** The same name without its first label. */
    function Tail(): WireName
      requires labels != []
    {
      this.(labels := labels[1..])
    }
  }

  predicate ValidWire(w: WireName) {
    ValidLabels(w.labels) && ValidLabels(w.Name()) && (w.Compressed? ==> w.target < 16384)
  }

  function EncodeName(w: WireName): Bytes
    requires ValidWire(w)
  {
    LabelBytes(w.labels) + if w.Plain? then [0] else [192 + w.target / 256, w.target % 256]
  }

  datatype Question = Question(name: WireName, qtype: nat, qclass: nat)

  datatype RData = Address(ip: nat) | Alias(cname: WireName) | Other(rtype: nat, bytes: Bytes)

  datatype ResourceRecord = ResourceRecord(name: WireName, class_: nat, ttl: nat, data: RData)

  /** The identifier, the bits of the third and fourth header octet, and the four sections. */
  datatype Message = Message(
    id: nat, flags: nat, codes: nat, questions: seq<Question>,
    answers: seq<ResourceRecord>, authority: seq<ResourceRecord>, additional: seq<ResourceRecord>)

  predicate ValidQuestion(q: Question) {
    ValidWire(q.name) && ValidName(q.name.Name()) && q.qtype < 65536 && q.qclass < 65536
  }

  predicate ValidData(d: RData) {
    match d
    case Address(ip) => ip < 0x1_0000_0000
    case Alias(cname) => ValidWire(cname) && ValidName(cname.Name()) && |EncodeName(cname)| < 65536
    case Other(rtype, bytes) => rtype < 65536 && rtype != TYPE_A && rtype != TYPE_CNAME && |bytes| < 65536
  }

  predicate ValidRecord(r: ResourceRecord) {
    ValidWire(r.name) && ValidName(r.name.Name()) && r.class_ < 65536 && r.ttl < 0x1_0000_0000 && ValidData(r.data)
  }

  predicate ValidMessage(m: Message) {
    && m.id < 65536 && m.flags < 256 && m.codes < 256
    && |m.questions| < 65536 && |m.answers| < 65536 && |m.authority| < 65536 && |m.additional| < 65536
    && (forall i :: 0 <= i < |m.questions| ==> ValidQuestion(m.questions[i]))
    && ValidRecords(m.answers) && ValidRecords(m.authority) && ValidRecords(m.additional)
  }

  /** A response (QR = 1) to a standard query (OPCODE = 0) without error (RCODE = 0). */
  predicate WithoutError(m: Message) {
    m.flags / 128 == 1 && m.flags / 8 % 16 == 0 && m.codes % 16 == 0
  }

  predicate ValidRecords(rs: seq<ResourceRecord>) {
    forall i :: 0 <= i < |rs| ==> ValidRecord(rs[i])
  }

  function TypeOf(d: RData): nat {
    match d
    case Address(_) => TYPE_A
    case Alias(_) => TYPE_CNAME
    case Other(rtype, _) => rtype
  }

  function EncodeData(d: RData): (b: Bytes)
    requires ValidData(d)
    ensures |b| < 65536
  {
    match d
    case Address(ip) => EncodeU32(ip)
    case Alias(cname) => EncodeName(cname)
    case Other(_, bytes) => bytes
  }

  function EncodeQuestion(q: Question): Bytes
    requires ValidQuestion(q)
  {
    EncodeName(q.name) + (EncodeU16(q.qtype) + EncodeU16(q.qclass))
  }

  /** Type, class, time to live and data length. */
  function EncodeFields(r: ResourceRecord): (b: Bytes)
    requires ValidRecord(r)
    ensures |b| == 10
  {
    EncodeU16(TypeOf(r.data)) + EncodeU16(r.class_) + EncodeU32(r.ttl) + EncodeU16(|EncodeData(r.data)|)
  }

  function EncodeRecord(r: ResourceRecord): Bytes
    requires ValidRecord(r)
  {
    EncodeName(r.name) + (EncodeFields(r) + EncodeData(r.data))
  }

  function EncodeQuestions(qs: seq<Question>): Bytes
    requires forall i :: 0 <= i < |qs| ==> ValidQuestion(qs[i])
  {
    if qs == [] then [] else EncodeQuestion(qs[0]) + EncodeQuestions(qs[1..])
  }

  function EncodeRecords(rs: seq<ResourceRecord>): Bytes
    requires ValidRecords(rs)
  {
    if rs == [] then [] else EncodeRecord(rs[0]) + EncodeRecords(rs[1..])
  }

  function EncodeHeader(m: Message): (b: Bytes)
    requires ValidMessage(m)
    ensures |b| == HEADER_LENGTH
  {
    EncodeU16(m.id) + [m.flags, m.codes] + EncodeU16(|m.questions|) + EncodeU16(|m.answers|)
    + EncodeU16(|m.authority|) + EncodeU16(|m.additional|)
  }

  function Encode(m: Message): Bytes
    requires ValidMessage(m)
  {
    EncodeHeader(m) + (EncodeQuestions(m.questions) + (EncodeRecords(m.answers)
    + (EncodeRecords(m.authority) + EncodeRecords(m.additional))))
  }

  // Where pointers may go: to any label, or the end, of a name written before.

  type Dictionary = map<nat, Name>

  /** The places in a name written at offset i, with what they spell. */
  function Learn(d: Dictionary, i: nat, w: WireName): Dictionary
    decreases |w.labels|
  {
    if w.labels == [] then d[i := w.Name()]
    else Learn(d[i := w.Name()], i + 1 + |w.labels[0]|, w.Tail())
  }

  predicate PointsBack(d: Dictionary, w: WireName) {
    w.Compressed? ==> w.target in d && d[w.target] == w.rest
  }

  /** The offset of a record's data. */
  function DataOffset(i: nat, r: ResourceRecord): nat
    requires ValidRecord(r)
  {
    i + |EncodeName(r.name)| + 10
  }

  function LearnRecord(d: Dictionary, i: nat, r: ResourceRecord): Dictionary
    requires ValidRecord(r)
  {
    var d1 := Learn(d, i, r.name);
    if r.data.Alias? then Learn(d1, DataOffset(i, r), r.data.cname) else d1
  }

  predicate RecordPointsBack(d: Dictionary, i: nat, r: ResourceRecord)
    requires ValidRecord(r)
  {
    PointsBack(d, r.name) && (r.data.Alias? ==> PointsBack(Learn(d, i, r.name), r.data.cname))
  }

  function LearnQuestions(d: Dictionary, i: nat, qs: seq<Question>): Dictionary
    requires forall k :: 0 <= k < |qs| ==> ValidQuestion(qs[k])
    decreases |qs|
  {
    if qs == [] then d
    else LearnQuestions(Learn(d, i, qs[0].name), i + |EncodeQuestion(qs[0])|, qs[1..])
  }

  predicate QuestionsPointBack(d: Dictionary, i: nat, qs: seq<Question>)
    requires forall k :: 0 <= k < |qs| ==> ValidQuestion(qs[k])
    decreases |qs|
  {
    qs != [] ==>
      PointsBack(d, qs[0].name)
      && QuestionsPointBack(Learn(d, i, qs[0].name), i + |EncodeQuestion(qs[0])|, qs[1..])
  }

  function LearnRecords(d: Dictionary, i: nat, rs: seq<ResourceRecord>): Dictionary
    requires ValidRecords(rs)
    decreases |rs|
  {
    if rs == [] then d
    else LearnRecords(LearnRecord(d, i, rs[0]), i + |EncodeRecord(rs[0])|, rs[1..])
  }

  predicate RecordsPointBack(d: Dictionary, i: nat, rs: seq<ResourceRecord>)
    requires ValidRecords(rs)
    decreases |rs|
  {
    rs != [] ==>
      RecordPointsBack(d, i, rs[0])
      && RecordsPointBack(LearnRecord(d, i, rs[0]), i + |EncodeRecord(rs[0])|, rs[1..])
  }

  /** The three record sections from offset i. */
  predicate SectionsPointBack(d: Dictionary, i: nat, m: Message)
    requires ValidMessage(m)
  {
    var j := i + |EncodeRecords(m.answers)|;
    var k := j + |EncodeRecords(m.authority)|;
    var d1 := LearnRecords(d, i, m.answers);
    && RecordsPointBack(d, i, m.answers)
    && RecordsPointBack(d1, j, m.authority)
    && RecordsPointBack(LearnRecords(d1, j, m.authority), k, m.additional)
  }

  /** Every pointer of the message goes back to a name that spells what the pointer stands for. */
  predicate WellCompressed(m: Message)
    requires ValidMessage(m)
  {
    && QuestionsPointBack(map[], HEADER_LENGTH, m.questions)
    && SectionsPointBack(LearnQuestions(map[], HEADER_LENGTH, m.questions),
                         HEADER_LENGTH + |EncodeQuestions(m.questions)|, m)
  }

  // Finding encoded parts inside a message.

  predicate At(msg: Bytes, i: nat, part: Bytes) {
    i + |part| <= |msg| && msg[i..i + |part|] == part
  }

  lemma AtFits(msg: Bytes, i: nat, part: Bytes)
    requires At(msg, i, part)
    ensures i + |part| <= |msg|
  {
  }

  lemma AtByte(msg: Bytes, i: nat, part: Bytes, k: nat)
    requires At(msg, i, part) && k < |part|
    ensures i + k < |msg| && msg[i + k] == part[k]
  {
  }

  lemma AtParts(msg: Bytes, i: nat, a: Bytes, b: Bytes)
    requires At(msg, i, a + b)
    ensures At(msg, i, a) && At(msg, i + |a|, b)
  {
    assert msg[i..i + |a|] == (a + b)[..|a|];
    assert msg[i + |a|..i + |a| + |b|] == (a + b)[|a|..];
  }

  lemma ReadU16(msg: Bytes, i: nat, x: nat)
    requires x < 65536 && At(msg, i, EncodeU16(x))
    ensures i + 2 <= |msg| && U16(msg, i) == x
  {
    AtByte(msg, i, EncodeU16(x), 0);
    AtByte(msg, i, EncodeU16(x), 1);
  }

  lemma ReadU32(msg: Bytes, i: nat, x: nat)
    requires x < 0x1_0000_0000 && At(msg, i, EncodeU32(x))
    ensures i + 4 <= |msg| && U32(msg, i) == x
  {
    hide U16, EncodeU16, At;
    AtParts(msg, i, EncodeU16(x / 65536), EncodeU16(x % 65536));
    ReadU16(msg, i, x / 65536);
    ReadU16(msg, i + 2, x % 65536);
  }

  // Names.

  lemma UnpackLabel(msg: Bytes, i: nat, first: seq<Byte>, rest: Expanded, checked: nat, used: nat)
    requires 1 <= |first| <= 63 && At(msg, i, [|first|] + first)
    requires used + |first| + 1 < MAX_CNAME
    requires Unpack(msg, i + 1 + |first|, checked + |first| + 1, used + |first| + 1) == Some(rest)
    ensures Unpack(msg, i, checked, used) == Some(Expanded([first] + rest.labels, rest.next))
  {
    AtParts(msg, i, [|first|], first);
    AtByte(msg, i, [|first|] + first, 0);
  }

  lemma UnpackRoot(msg: Bytes, i: nat, checked: nat, used: nat)
    requires At(msg, i, [0])
    ensures Unpack(msg, i, checked, used) == Some(Expanded([], i + 1))
  {
    AtByte(msg, i, [0], 0);
  }

  lemma UnpackPointer(msg: Bytes, i: nat, target: nat, rest: Name, checked: nat, used: nat)
    requires target < 16384 && At(msg, i, [192 + target / 256, target % 256]) && checked + 2 < |msg|
    requires Unpack(msg, target, checked + 2, used).Some? && Unpack(msg, target, checked + 2, used).value.labels == rest
    ensures Unpack(msg, i, checked, used) == Some(Expanded(rest, i + 2))
  {
    AtByte(msg, i, [192 + target / 256, target % 256], 0);
    AtByte(msg, i, [192 + target / 256, target % 256], 1);
  }

  /** Offset t spells the name. Reading it looks at no more than the bytes between the header and
      offset e, so that the check against pointer loops does not stop it. */
  ghost predicate Spells(msg: Bytes, name: Name, t: nat, e: nat) {
    ValidLabels(name)
    && forall checked: nat, used: nat
         :: checked + e < |msg| + HEADER_LENGTH && used + |LabelBytes(name)| + 1 <= 255
            ==> Unpack(msg, t, checked, used).Some? && Unpack(msg, t, checked, used).value.labels == name
  }

  ghost predicate Readable(msg: Bytes, d: Dictionary, e: nat) {
    HEADER_LENGTH <= e && forall t :: t in d ==> Spells(msg, d[t], t, e)
  }

  lemma NoLabels(w: WireName)
    requires ValidWire(w) && w.labels == []
    ensures EncodeName(w) == if w.Plain? then [0] else [192 + w.target / 256, w.target % 256]
    ensures w.Name() == if w.Plain? then [] else w.rest
  {
    assert LabelBytes([]) == [];
  }

  lemma LabelParts(name: Name)
    requires ValidLabels(name) && name != []
    ensures ValidLabels(name[1..]) && 1 <= |name[0]| <= 63
    ensures LabelBytes(name) == ([|name[0]|] + name[0]) + LabelBytes(name[1..])
  {
  }

  lemma EncodeParts(w: WireName)
    requires ValidWire(w) && w.labels != [] && ValidWire(w.Tail())
    ensures EncodeName(w) == ([|w.labels[0]|] + w.labels[0]) + EncodeName(w.Tail())
  {
    hide ValidLabels, LabelBytes;
    LabelParts(w.labels);
  }

  lemma TailIsWire(w: WireName)
    requires ValidWire(w) && w.labels != []
    ensures ValidWire(w.Tail()) && 1 <= |w.labels[0]| <= 63
    ensures w.Name() == [w.labels[0]] + w.Tail().Name()
  {
    var name, tail := w.Name(), w.Tail();
    assert name[0] == w.labels[0] && name[1..] == tail.Name();
    assert ValidLabels(tail.Name()) && ValidLabels(tail.labels);
  }

  lemma NameParts(w: WireName)
    requires ValidWire(w) && w.labels != []
    ensures var first, tail := w.labels[0], w.Tail();
            && ValidWire(tail) && 1 <= |first| <= 63
            && EncodeName(w) == ([|first|] + first) + EncodeName(tail)
            && |LabelBytes(w.Name())| == 1 + |first| + |LabelBytes(tail.Name())|
  {
    hide EncodeName, LabelBytes, ValidLabels;
    TailIsWire(w);
    EncodeParts(w);
    LabelParts(w.Name());
    assert w.Name()[1..] == w.Tail().Name();
  }

  lemma SpelledName(msg: Bytes, d: Dictionary, e: nat, t: nat, checked: nat, used: nat)
    requires Readable(msg, d, e) && t in d
    ensures HEADER_LENGTH <= e && ValidLabels(d[t])
    ensures checked + e < |msg| + HEADER_LENGTH && used + |LabelBytes(d[t])| + 1 <= 255
            ==> Unpack(msg, t, checked, used).Some? && Unpack(msg, t, checked, used).value.labels == d[t]
  {
    hide Unpack, LabelBytes, ValidLabels;
    assert Spells(msg, d[t], t, e);
  }

  lemma UnpackEnd(msg: Bytes, d: Dictionary, e: nat, i: nat, w: WireName, checked: nat, used: nat)
    requires ValidWire(w) && w.labels == [] && At(msg, i, EncodeName(w))
    requires Readable(msg, d, e) && PointsBack(d, w)
    requires checked + |EncodeName(w)| + e < |msg| + HEADER_LENGTH
    requires used + |LabelBytes(w.Name())| + 1 <= 255
    ensures Unpack(msg, i, checked, used) == Some(Expanded(w.Name(), i + |EncodeName(w)|))
  {
    hide Unpack, LabelBytes, EncodeName, At, ValidWire, Readable, ValidLabels;
    NoLabels(w);
    if w.Plain? {
      UnpackRoot(msg, i, checked, used);
    } else {
      SpelledName(msg, d, e, w.target, checked + 2, used);
      TargetFits(w);
      UnpackPointer(msg, i, w.target, w.rest, checked, used);
    }
  }

  lemma TargetFits(w: WireName)
    requires ValidWire(w) && w.Compressed?
    ensures w.target < 16384
  {
  }

  /** A written name is read back, compressed or not. */
  lemma {:induction false} UnpackName(
    msg: Bytes, d: Dictionary, e: nat, i: nat, w: WireName, checked: nat, used: nat)
    requires ValidWire(w) && At(msg, i, EncodeName(w))
    requires Readable(msg, d, e) && PointsBack(d, w)
    requires checked + |EncodeName(w)| + e < |msg| + HEADER_LENGTH
    requires used + |LabelBytes(w.Name())| + 1 <= 255
    ensures Unpack(msg, i, checked, used) == Some(Expanded(w.Name(), i + |EncodeName(w)|))
    decreases |w.labels|
  {
    hide Unpack, LabelBytes, EncodeName, ValidWire, Readable, At, ValidLabels;
    if w.labels == [] {
      UnpackEnd(msg, d, e, i, w, checked, used);
    } else {
      var first, tail := w.labels[0], w.Tail();
      var n := |first|;
      TailIsWire(w);
      NameParts(w);
      AtParts(msg, i, [n] + first, EncodeName(tail));
      UnpackName(msg, d, e, i + 1 + n, tail, checked + n + 1, used + n + 1);
      UnpackLabel(msg, i, first, Expanded(tail.Name(), i + 1 + n + |EncodeName(tail)|), checked, used);
    }
  }

  lemma NameSpells(msg: Bytes, d: Dictionary, e: nat, i: nat, w: WireName, e1: nat)
    requires ValidWire(w) && At(msg, i, EncodeName(w))
    requires Readable(msg, d, e) && PointsBack(d, w) && e + |EncodeName(w)| <= e1
    ensures Spells(msg, w.Name(), i, e1)
  {
    hide Unpack, LabelBytes, EncodeName, Readable;
    forall checked: nat, used: nat
      | checked + e1 < |msg| + HEADER_LENGTH && used + |LabelBytes(w.Name())| + 1 <= 255
      ensures Unpack(msg, i, checked, used).Some? && Unpack(msg, i, checked, used).value.labels == w.Name()
    {
      UnpackName(msg, d, e, i, w, checked, used);
    }
  }

  /** Every place in a written name spells what the dictionary says. */
  lemma {:induction false} LearnReadable(
    msg: Bytes, d: Dictionary, e: nat, known: Dictionary, i: nat, w: WireName, e1: nat)
    requires ValidWire(w) && At(msg, i, EncodeName(w))
    requires Readable(msg, d, e) && PointsBack(d, w) && e + |EncodeName(w)| <= e1
    requires Readable(msg, known, e1)
    ensures Readable(msg, Learn(known, i, w), e1)
    decreases |w.labels|
  {
    hide Spells, EncodeName, LabelBytes, ValidWire;
    NameSpells(msg, d, e, i, w, e1);
    if w.labels != [] {
      var tail := w.Tail();
      NameParts(w);
      AtParts(msg, i, [|w.labels[0]|] + w.labels[0], EncodeName(tail));
      LearnReadable(msg, d, e, known[i := w.Name()], i + 1 + |w.labels[0]|, tail, e1);
    }
  }

  lemma ReadableLater(msg: Bytes, d: Dictionary, e: nat, e1: nat)
    requires Readable(msg, d, e) && e <= e1
    ensures Readable(msg, d, e1)
  {
    hide Unpack, LabelBytes;
    forall t | t in d ensures Spells(msg, d[t], t, e1) {
      assert Spells(msg, d[t], t, e);
    }
  }

  /** A name written behind what is readable is read back and becomes readable itself. */
  lemma ReadName(msg: Bytes, d: Dictionary, e: nat, i: nat, w: WireName)
    requires ValidWire(w) && ValidName(w.Name()) && At(msg, i, EncodeName(w)) && e <= i
    requires Readable(msg, d, e) && PointsBack(d, w)
    ensures DnExpand(msg, i) == Some(Expanded(w.Name(), i + |EncodeName(w)|))
    ensures Readable(msg, Learn(d, i, w), i + |EncodeName(w)|)
  {
    hide Unpack, LabelBytes, EncodeName, Spells, Learn, Readable;
    UnpackName(msg, d, e, i, w, 0, 0);
    ReadableLater(msg, d, e, i + |EncodeName(w)|);
    LearnReadable(msg, d, e, d, i, w, i + |EncodeName(w)|);
  }

  // Records.

  /** What parsing the record gives when the fields behind its name start at j. */
  function ParsedForm(r: ResourceRecord, j: nat): Record
    requires ValidRecord(r)
  {
    Record(r.name.Name(), TypeOf(r.data), r.class_, ToInt32(r.ttl), |EncodeData(r.data)|, j + 10)
  }

  lemma ReadFields(msg: Bytes, j: nat, r: ResourceRecord)
    requires ValidRecord(r) && At(msg, j, EncodeFields(r))
    ensures j + 10 <= |msg| && FieldsAt(msg, r.name.Name(), j) == ParsedForm(r, j)
  {
    hide EncodeU16, EncodeU32, At, U16, U32;
    var a, b, t, n := EncodeU16(TypeOf(r.data)), EncodeU16(r.class_), EncodeU32(r.ttl), EncodeU16(|EncodeData(r.data)|);
    AtParts(msg, j, a + b + t, n);
    AtParts(msg, j, a + b, t);
    AtParts(msg, j, a, b);
    ReadU16(msg, j, TypeOf(r.data));
    ReadU16(msg, j + 2, r.class_);
    ReadU32(msg, j + 4, r.ttl);
    ReadU16(msg, j + 8, |EncodeData(r.data)|);
  }

  lemma RecordParts(msg: Bytes, i: nat, r: ResourceRecord)
    requires ValidRecord(r) && At(msg, i, EncodeRecord(r))
    ensures var j := i + |EncodeName(r.name)|;
            && At(msg, i, EncodeName(r.name))
            && At(msg, j, EncodeFields(r))
            && At(msg, j + 10, EncodeData(r.data))
            && i + |EncodeRecord(r)| == j + 10 + |EncodeData(r.data)|
  {
    hide EncodeName, EncodeFields, EncodeData, At;
    AtParts(msg, i, EncodeName(r.name), EncodeFields(r) + EncodeData(r.data));
    AtParts(msg, i + |EncodeName(r.name)|, EncodeFields(r), EncodeData(r.data));
  }

  lemma RecordName(r: ResourceRecord)
    requires ValidRecord(r)
    ensures ValidWire(r.name) && ValidName(r.name.Name())
  {
  }

  lemma ParseBehindName(msg: Bytes, i: nat, r: ResourceRecord)
    requires ValidRecord(r) && At(msg, i, EncodeRecord(r))
    requires DnExpand(msg, i) == Some(Expanded(r.name.Name(), i + |EncodeName(r.name)|))
    ensures ParseRecord(msg, i)
            == Some((ParsedForm(r, i + |EncodeName(r.name)|), i + |EncodeRecord(r)|))
  {
    hide DnExpand, EncodeName, At, EncodeFields, EncodeRecord, EncodeData, FieldsAt, ValidRecord, TypeOf, ToInt32;
    RecordName(r);
    AtFits(msg, i, EncodeRecord(r));
    RecordParts(msg, i, r);
    ReadFields(msg, i + |EncodeName(r.name)|, r);
  }

  lemma DataName(r: ResourceRecord)
    requires ValidRecord(r) && r.data.Alias?
    ensures ValidWire(r.data.cname) && ValidName(r.data.cname.Name()) && EncodeData(r.data) == EncodeName(r.data.cname)
  {
  }

  /** An encoded record is read back, and what it adds to the dictionary is readable. */
  lemma ParseEncoded(msg: Bytes, d: Dictionary, i: nat, r: ResourceRecord)
    requires ValidRecord(r) && At(msg, i, EncodeRecord(r))
    requires Readable(msg, d, i) && RecordPointsBack(d, i, r)
    ensures ParseRecord(msg, i)
            == Some((ParsedForm(r, i + |EncodeName(r.name)|), i + |EncodeRecord(r)|))
    ensures Readable(msg, LearnRecord(d, i, r), i + |EncodeRecord(r)|)
    ensures r.data.Alias? ==> DnExpand(msg, DataOffset(i, r)).Some?
                              && DnExpand(msg, DataOffset(i, r)).value.labels == r.data.cname.Name()
  {
    hide ParseRecord, ParsedForm, DnExpand, EncodeName, EncodeData, EncodeRecord, At, Readable, Learn,
         EncodeFields, ValidRecord, ValidWire, ValidName;
    RecordName(r);
    var j := i + |EncodeName(r.name)|;
    RecordParts(msg, i, r);
    ReadName(msg, d, i, i, r.name);
    ParseBehindName(msg, i, r);
    var d1 := Learn(d, i, r.name);
    if r.data.Alias? {
      DataName(r);
      ReadName(msg, d1, j, j + 10, r.data.cname);
    } else {
      ReadableLater(msg, d1, j, i + |EncodeRecord(r)|);
    }
  }

  // What a section adds to the tables.

  /** The class-IN A records of a section, in order. */
  function Addresses(rs: seq<ResourceRecord>, packetId: nat, macId: nat): seq<AEntry> {
    if rs == [] then []
    else if rs[0].class_ == CLASS_IN && rs[0].data.Address? then
      [AEntry(packetId, macId, rs[0].name.Name(), rs[0].data.ip, ToInt32(rs[0].ttl))]
      + Addresses(rs[1..], packetId, macId)
    else Addresses(rs[1..], packetId, macId)
  }

  /** The class-IN CNAME records of a section, in order. */
  function Aliases(rs: seq<ResourceRecord>, packetId: nat, macId: nat): seq<CnameEntry> {
    if rs == [] then []
    else if rs[0].class_ == CLASS_IN && rs[0].data.Alias? then
      [CnameEntry(packetId, macId, rs[0].name.Name(), rs[0].data.cname.Name(), ToInt32(rs[0].ttl))]
      + Aliases(rs[1..], packetId, macId)
    else Aliases(rs[1..], packetId, macId)
  }

  function EntriesOf(rs: seq<ResourceRecord>, packetId: nat, macId: nat): Entries {
    Entries(Addresses(rs, packetId, macId), Aliases(rs, packetId, macId))
  }

  function EntryFor(r: ResourceRecord, packetId: nat, macId: nat): Entries {
    if r.class_ != CLASS_IN then NO_ENTRIES
    else
      match r.data
      case Address(ip) => Entries([AEntry(packetId, macId, r.name.Name(), ip, ToInt32(r.ttl))], [])
      case Alias(cname) => Entries([], [CnameEntry(packetId, macId, r.name.Name(), cname.Name(), ToInt32(r.ttl))])
      case Other(_, _) => NO_ENTRIES
  }

  lemma EntryEncoded(msg: Bytes, behind: Behind, i: nat, r: ResourceRecord, packetId: nat, macId: nat)
    requires ValidRecord(r) && At(msg, i, EncodeRecord(r)) && DataOffset(i, r) <= |msg|
    requires r.data.Alias? ==> DnExpand(msg, DataOffset(i, r)).Some?
                               && DnExpand(msg, DataOffset(i, r)).value.labels == r.data.cname.Name()
    ensures EntryOf(msg, behind, ParsedForm(r, i + |EncodeName(r.name)|), packetId, macId)
            == EntryFor(r, packetId, macId)
  {
    hide DnExpand, EncodeName, EncodeFields, At, U32;
    if r.data.Address? {
      RecordParts(msg, i, r);
      ReadU32(msg, DataOffset(i, r), r.data.ip);
      ReadInside(msg, behind, DataOffset(i, r));
    }
  }

  /** The records of a message that the tables take: those of class IN with an address or an alias, in
      the answer and additional sections of a response without error. */
  function RecordsOf(m: Message, packetId: nat, macId: nat): Entries {
    if WithoutError(m)
    then Join(EntriesOf(m.answers, packetId, macId), EntriesOf(m.additional, packetId, macId))
    else NO_ENTRIES
  }

  lemma EntriesOfFirst(rs: seq<ResourceRecord>, packetId: nat, macId: nat)
    ensures EntriesOf(rs, packetId, macId)
            == if rs == [] then NO_ENTRIES
               else Join(EntryFor(rs[0], packetId, macId), EntriesOf(rs[1..], packetId, macId))
  {
  }

  // Sections.

  lemma {:induction false} RecordsRoundTrip(
    msg: Bytes, behind: Behind, d: Dictionary, i: nat, rs: seq<ResourceRecord>, packetId: nat, macId: nat)
    requires ValidRecords(rs) && At(msg, i, EncodeRecords(rs))
    requires Readable(msg, d, i) && RecordsPointBack(d, i, rs)
    ensures RecordEntries(msg, behind, i, |rs|, packetId, macId)
            == (EntriesOf(rs, packetId, macId), Some(i + |EncodeRecords(rs)|))
    ensures Readable(msg, LearnRecords(d, i, rs), i + |EncodeRecords(rs)|)
    decreases |rs|
  {
    hide ParseRecord, EncodeRecord, ValidRecord, Readable, RecordPointsBack, LearnRecord, EntryOf, EntryFor, Join,
         EntriesOf, At, DnExpand;
    EntriesOfFirst(rs, packetId, macId);
    if rs != [] {
      var r, rest := rs[0], rs[1..];
      AtParts(msg, i, EncodeRecord(r), EncodeRecords(rest));
      ParseEncoded(msg, d, i, r);
      EntryEncoded(msg, behind, i, r, packetId, macId);
      RecordsRoundTrip(msg, behind, LearnRecord(d, i, r), i + |EncodeRecord(r)|, rest, packetId, macId);
    }
  }

  /** An encoded section is read to its end and its records are stored in order. */
  lemma SectionRoundTrip(msg: Bytes, behind: Behind, d: Dictionary, i: nat, rs: seq<ResourceRecord>, store: bool,
                         s: DnsState, packetId: nat, macId: nat)
    requires ValidRecords(rs) && At(msg, i, EncodeRecords(rs))
    requires Readable(msg, d, i) && RecordsPointBack(d, i, rs)
    ensures ReadRecords(msg, behind, i, |rs|, store, s, packetId, macId)
            == (if store then AppendAll(s, EntriesOf(rs, packetId, macId)) else s, Some(i + |EncodeRecords(rs)|))
    ensures RecordEntries(msg, behind, i, |rs|, packetId, macId)
            == (EntriesOf(rs, packetId, macId), Some(i + |EncodeRecords(rs)|))
    ensures Readable(msg, LearnRecords(d, i, rs), i + |EncodeRecords(rs)|)
  {
    hide ReadRecords, RecordEntries, EncodeRecords, AppendAll, EntriesOf, Readable, RecordsPointBack, LearnRecords;
    RecordsRoundTrip(msg, behind, d, i, rs, packetId, macId);
    ReadAppends(msg, behind, i, |rs|, store, s, packetId, macId);
  }

  lemma {:induction false} QuestionsRoundTrip(msg: Bytes, d: Dictionary, i: nat, qs: seq<Question>)
    requires forall k :: 0 <= k < |qs| ==> ValidQuestion(qs[k])
    requires At(msg, i, EncodeQuestions(qs))
    requires Readable(msg, d, i) && QuestionsPointBack(d, i, qs)
    ensures SkipQuestions(msg, i, |qs|) == Some(i + |EncodeQuestions(qs)|)
    ensures Readable(msg, LearnQuestions(d, i, qs), i + |EncodeQuestions(qs)|)
    decreases |qs|
  {
    hide Unpack, DnExpand, EncodeName, EncodeU16, At, Readable, Learn, ValidWire, ValidName;
    if qs != [] {
      var q := qs[0];
      var j := i + |EncodeName(q.name)|;
      AtParts(msg, i, EncodeQuestion(q), EncodeQuestions(qs[1..]));
      AtParts(msg, i, EncodeName(q.name), EncodeU16(q.qtype) + EncodeU16(q.qclass));
      ReadName(msg, d, i, i, q.name);
      ReadableLater(msg, Learn(d, i, q.name), j, j + 4);
      QuestionsRoundTrip(msg, Learn(d, i, q.name), j + 4, qs[1..]);
    }
  }

  lemma HeaderRoundTrip(msg: Bytes, m: Message)
    requires ValidMessage(m) && At(msg, 0, EncodeHeader(m))
    ensures |msg| >= HEADER_LENGTH
    ensures RelevantHeader(msg) <==> WithoutError(m)
    ensures U16(msg, 4) == |m.questions| && U16(msg, 6) == |m.answers|
    ensures U16(msg, 8) == |m.authority| && U16(msg, 10) == |m.additional|
  {
  }

  lemma FiveParts(msg: Bytes, h: Bytes, q: Bytes, an: Bytes, ns: Bytes, ar: Bytes)
    requires msg == h + (q + (an + (ns + ar)))
    ensures At(msg, 0, h) && At(msg, |h|, q) && At(msg, |h| + |q|, an)
    ensures At(msg, |h| + |q| + |an|, ns) && At(msg, |h| + |q| + |an| + |ns|, ar)
  {
  }

  lemma SectionsPoint(d: Dictionary, i: nat, m: Message)
    requires ValidMessage(m) && SectionsPointBack(d, i, m)
    ensures var j := i + |EncodeRecords(m.answers)|;
            var k := j + |EncodeRecords(m.authority)|;
            var d1 := LearnRecords(d, i, m.answers);
            && RecordsPointBack(d, i, m.answers)
            && RecordsPointBack(d1, j, m.authority)
            && RecordsPointBack(LearnRecords(d1, j, m.authority), k, m.additional)
  {
    hide EncodeRecords, LearnRecords, RecordsPointBack, ValidRecords;
  }

  lemma SectionsRoundTrip(msg: Bytes, behind: Behind, d: Dictionary, i: nat, m: Message, s: DnsState,
                          packetId: nat, macId: nat)
    requires ValidMessage(m) && At(msg, 0, EncodeHeader(m))
    requires var an, ns, ar := EncodeRecords(m.answers), EncodeRecords(m.authority), EncodeRecords(m.additional);
             At(msg, i, an) && At(msg, i + |an|, ns) && At(msg, i + |an| + |ns|, ar)
    requires Readable(msg, d, i) && SectionsPointBack(d, i, m)
    ensures |msg| >= HEADER_LENGTH
    ensures var e := Join(EntriesOf(m.answers, packetId, macId), EntriesOf(m.additional, packetId, macId));
            && ReadSections(msg, behind, i, s, packetId, macId) == (AppendAll(s, e), 0)
            && SectionEntries(msg, behind, i, packetId, macId) == e
  {
    hide ReadRecords, RecordEntries, EncodeRecords, At, SectionsPointBack, EncodeHeader, RelevantHeader, U16,
         Readable, LearnRecords, RecordsPointBack, ValidRecords, EntriesOf, AppendAll, Join;
    var j := i + |EncodeRecords(m.answers)|;
    var k := j + |EncodeRecords(m.authority)|;
    HeaderRoundTrip(msg, m);
    SectionsPoint(d, i, m);
    var d1 := LearnRecords(d, i, m.answers);
    var s1 := AppendAll(s, EntriesOf(m.answers, packetId, macId));
    SectionRoundTrip(msg, behind, d, i, m.answers, true, s, packetId, macId);
    SectionRoundTrip(msg, behind, d1, j, m.authority, false, s1, packetId, macId);
    SectionRoundTrip(msg, behind, LearnRecords(d1, j, m.authority), k, m.additional, true, s1, packetId, macId);
    AppendJoined(s, EntriesOf(m.answers, packetId, macId), EntriesOf(m.additional, packetId, macId));
  }

  lemma PartsAt(m: Message)
    requires ValidMessage(m)
    ensures var msg, i := Encode(m), HEADER_LENGTH + |EncodeQuestions(m.questions)|;
            var an, ns, ar := EncodeRecords(m.answers), EncodeRecords(m.authority), EncodeRecords(m.additional);
            && At(msg, 0, EncodeHeader(m)) && At(msg, HEADER_LENGTH, EncodeQuestions(m.questions))
            && At(msg, i, an) && At(msg, i + |an|, ns) && At(msg, i + |an| + |ns|, ar)
  {
    hide At, EncodeHeader, EncodeQuestions, EncodeRecords, ValidRecords;
    FiveParts(Encode(m), EncodeHeader(m), EncodeQuestions(m.questions),
              EncodeRecords(m.answers), EncodeRecords(m.authority), EncodeRecords(m.additional));
  }

  lemma NothingReadable(msg: Bytes)
    ensures Readable(msg, map[], HEADER_LENGTH)
  {
  }

  lemma QuestionsAt(m: Message)
    requires ValidMessage(m) && WellCompressed(m)
    ensures var msg, i := Encode(m), HEADER_LENGTH + |EncodeQuestions(m.questions)|;
            && |msg| >= HEADER_LENGTH && (RelevantHeader(msg) <==> WithoutError(m))
            && SkipQuestions(msg, HEADER_LENGTH, U16(msg, 4)) == Some(i)
            && Readable(msg, LearnQuestions(map[], HEADER_LENGTH, m.questions), i)
            && SectionsPointBack(LearnQuestions(map[], HEADER_LENGTH, m.questions), i, m)
  {
    hide SkipQuestions, U16, SectionsPointBack, QuestionsPointBack, At, Encode, Readable, EncodeHeader,
         EncodeQuestions, EncodeRecords, LearnQuestions, ValidRecords, ValidQuestion;
    var msg := Encode(m);
    PartsAt(m);
    HeaderRoundTrip(msg, m);
    NothingReadable(msg);
    QuestionsRoundTrip(msg, map[], HEADER_LENGTH, m.questions);
  }

  /** What an encoded message adds to the tables, whatever lies behind it: the class-IN A and CNAME
      records of the answer and additional sections, in order, if it is a response without error, and
      nothing otherwise. */
  lemma MessageRoundTrip(m: Message, behind: Behind, packetId: nat, macId: nat)
    requires ValidMessage(m) && WellCompressed(m)
    ensures MessageEntries(Encode(m), behind, packetId, macId)
            == RecordsOf(m, packetId, macId)
  {
    hide SectionEntries, ReadSections, SkipQuestions, U16, SectionsPointBack, At, Encode, EncodeHeader, Readable,
         EncodeRecords, EncodeQuestions, LearnQuestions, Addresses, Aliases, WellCompressed, ValidRecords,
         ValidQuestion, WithoutError, RelevantHeader;
    PartsAt(m);
    QuestionsAt(m);
    SectionsRoundTrip(Encode(m), behind, LearnQuestions(map[], HEADER_LENGTH, m.questions),
                      HEADER_LENGTH + |EncodeQuestions(m.questions)|, m, EMPTY_DNS, packetId, macId);
  }

  /** The parser accepts every encoded response without error and appends exactly the class-IN A and
      CNAME records of the answer and additional sections, in order, as far as there is room, counting
      the rest; the authority section only moves the cursor. It refuses every other encoded message. */
  lemma DnsRoundTrips(m: Message, behind: Behind, s: DnsState, packetId: nat, macId: nat)
    requires ValidMessage(m) && WellCompressed(m)
    ensures DnsStep(Encode(m), behind, s, packetId, macId)
            == if WithoutError(m)
               then (Appended(s,
                              Addresses(m.answers, packetId, macId) + Addresses(m.additional, packetId, macId),
                              Aliases(m.answers, packetId, macId) + Aliases(m.additional, packetId, macId)),
                     0)
               else (s, -1)
  {
    hide SectionEntries, ReadSections, SkipQuestions, U16, SectionsPointBack, At, Encode, EncodeHeader, Readable,
         Appended, EncodeRecords, EncodeQuestions, LearnQuestions, Addresses, Aliases, WellCompressed, ValidRecords,
         ValidQuestion;
    PartsAt(m);
    QuestionsAt(m);
    SectionsRoundTrip(Encode(m), behind, LearnQuestions(map[], HEADER_LENGTH, m.questions),
                      HEADER_LENGTH + |EncodeQuestions(m.questions)|, m, s, packetId, macId);
  }

  // What the parser never accepts.

  /** Behind `used` octets the labels and the root still fit in the 255 octets of a name. */
  predicate Fits(name: Name, used: nat) {
    ValidLabels(name) && used + |LabelBytes(name)| + 1 <= 255
  }

  lemma FitsInFront(first: seq<Byte>, rest: Name, used: nat)
    requires 1 <= |first| <= 63 && Fits(rest, used + |first| + 1)
    ensures Fits([first] + rest, used)
  {
    var name := [first] + rest;
    assert name[1..] == rest;
  }

  lemma RootFits(used: nat)
    requires used < 255
    ensures Fits([], used)
  {
  }

  lemma LabelFits(msg: Bytes, i: nat, checked: nat, used: nat)
    requires i < |msg| && 0 < msg[i] < 64
    requires var n: nat := msg[i];
             var rest := Unpack(msg, i + 1 + n, checked + n + 1, used + n + 1);
             rest.Some? && used + n + 1 < 255 ==> Fits(rest.value.labels, used + n + 1)
    ensures var r := Unpack(msg, i, checked, used); r.Some? ==> Fits(r.value.labels, used)
  {
    hide Fits;
    var n: nat := msg[i];
    var rest := Unpack(msg, i + 1 + n, checked + n + 1, used + n + 1);
    if used + n + 1 < 255 && i + 1 + n < |msg| && rest.Some? {
      FitsInFront(msg[i + 1..i + 1 + n], rest.value.labels, used);
    }
  }

  lemma PointerFits(msg: Bytes, i: nat, checked: nat, used: nat)
    requires i + 1 < |msg| && msg[i] >= 192
    requires var n: nat := msg[i];
             var rest := Unpack(msg, (n - 192) * 256 + msg[i + 1], checked + 2, used);
             rest.Some? && checked + 2 < |msg| ==> Fits(rest.value.labels, used)
    ensures var r := Unpack(msg, i, checked, used); r.Some? ==> Fits(r.value.labels, used)
  {
    hide Fits;
  }

  lemma OthersFit(msg: Bytes, i: nat, checked: nat, used: nat)
    requires used < 255 && (i < |msg| ==> msg[i] == 0 || 64 <= msg[i] < 192 || (i + 1 == |msg| && msg[i] >= 192))
    ensures var r := Unpack(msg, i, checked, used); r.Some? ==> Fits(r.value.labels, used)
  {
    hide Fits;
    RootFits(used);
  }

  /** Every name that is read has labels of 1 to 63 octets and at most 255 octets. */
  lemma {:induction false} UnpackedFits(msg: Bytes, i: nat, checked: nat, used: nat)
    requires used < 255
    ensures var r := Unpack(msg, i, checked, used); r.Some? ==> Fits(r.value.labels, used)
    decreases 255 - used, |msg| - checked
  {
    hide Fits, Unpack;
    if i < |msg| && 0 < msg[i] < 64 {
      var n: nat := msg[i];
      if used + n + 1 < 255 {
        UnpackedFits(msg, i + 1 + n, checked + n + 1, used + n + 1);
      }
      LabelFits(msg, i, checked, used);
    } else if i + 1 < |msg| && msg[i] >= 192 {
      var n: nat := msg[i];
      if checked + 2 < |msg| {
        UnpackedFits(msg, (n - 192) * 256 + msg[i + 1], checked + 2, used);
      }
      PointerFits(msg, i, checked, used);
    } else {
      OthersFit(msg, i, checked, used);
    }
  }

  lemma NameReadIsValid(msg: Bytes, i: nat)
    ensures DnExpand(msg, i).Some? ==> ValidName(DnExpand(msg, i).value.labels)
  {
    UnpackedFits(msg, i, 0, 0);
  }

  // The usual way of writing an answer.

  /** A response to one question with any number of addresses, whose records point to the name of
      the question instead of repeating it. */
  function PointingResponse(id: nat, name: Name, ips: seq<nat>, ttl: nat): Message {
    Message(id, 128, 0, [Question(Plain(name), TYPE_A, CLASS_IN)],
            seq(|ips|, k requires 0 <= k < |ips| =>
              ResourceRecord(Compressed([], HEADER_LENGTH, name), CLASS_IN, ttl, Address(ips[k]))), [], [])
  }

  lemma {:induction false} LearnKeeps(d: Dictionary, i: nat, w: WireName, t: nat)
    requires t < i && t in d
    ensures t in Learn(d, i, w) && Learn(d, i, w)[t] == d[t]
    decreases |w.labels|
  {
    if w.labels != [] {
      LearnKeeps(d[i := w.Name()], i + 1 + |w.labels[0]|, w.Tail(), t);
    }
  }

  lemma LearnsWhole(d: Dictionary, i: nat, w: WireName)
    ensures i in Learn(d, i, w) && Learn(d, i, w)[i] == w.Name()
  {
    if w.labels != [] {
      LearnKeeps(d[i := w.Name()], i + 1 + |w.labels[0]|, w.Tail(), i);
    }
  }

  lemma BehindRecord(r: ResourceRecord)
    requires ValidRecord(r)
    ensures |EncodeRecord(r)| > 0
  {
    hide EncodeName, EncodeData;
  }

  lemma {:induction false} PointersToName(d: Dictionary, i: nat, t: nat, name: Name, rs: seq<ResourceRecord>)
    requires ValidRecords(rs) && t < i && t in d && d[t] == name
    requires forall k :: 0 <= k < |rs| ==> rs[k].name == Compressed([], t, name) && rs[k].data.Address?
    ensures RecordsPointBack(d, i, rs)
    decreases |rs|
  {
    hide Learn, ValidRecord, EncodeRecord, EncodeName;
    if rs != [] {
      LearnKeeps(d, i, rs[0].name, t);
      BehindRecord(rs[0]);
      PointersToName(LearnRecord(d, i, rs[0]), i + |EncodeRecord(rs[0])|, t, name, rs[1..]);
    }
  }

  lemma PointingIsValid(id: nat, name: Name, ips: seq<nat>, ttl: nat)
    requires ValidName(name) && id < 65536 && ttl < 0x1_0000_0000 && |ips| < 65536
    requires forall k :: 0 <= k < |ips| ==> ips[k] < 0x1_0000_0000
    ensures ValidMessage(PointingResponse(id, name, ips, ttl))
  {
    assert [] + name == name;
  }

  lemma PointingIsBack(m: Message, d: Dictionary, name: Name)
    requires ValidMessage(m) && |m.questions| == 1 && m.questions[0].name == Plain(name)
    requires m.authority == [] && m.additional == []
    requires d == Learn(map[], HEADER_LENGTH, Plain(name)) && HEADER_LENGTH in d && d[HEADER_LENGTH] == name
    requires forall k :: 0 <= k < |m.answers|
                         ==> m.answers[k].name == Compressed([], HEADER_LENGTH, name) && m.answers[k].data.Address?
    ensures WellCompressed(m)
  {
    var q := m.questions[0];
    assert |EncodeQuestion(q)| > 0;
    hide Learn, EncodeQuestion, ValidQuestion, ValidRecords;
    assert m.questions[1..] == [];
    assert QuestionsPointBack(Learn(map[], HEADER_LENGTH, q.name), HEADER_LENGTH + |EncodeQuestion(q)|, []);
    assert RecordsPointBack(d, HEADER_LENGTH + |EncodeQuestions(m.questions)|, m.authority);
    assert LearnQuestions(map[], HEADER_LENGTH, m.questions) == d;
    assert EncodeQuestions(m.questions) == EncodeQuestion(q) + [];
    PointersToName(d, HEADER_LENGTH + |EncodeQuestions(m.questions)|, HEADER_LENGTH, name, m.answers);
  }

  lemma {:induction false} AddressesOf(
    rs: seq<ResourceRecord>, name: Name, ips: seq<nat>, ttl: nat, packetId: nat, macId: nat)
    requires |rs| == |ips|
    requires forall k :: 0 <= k < |rs|
               ==> rs[k] == ResourceRecord(Compressed([], HEADER_LENGTH, name), CLASS_IN, ttl, Address(ips[k]))
    ensures Aliases(rs, packetId, macId) == []
    ensures Addresses(rs, packetId, macId)
            == seq(|ips|, k requires 0 <= k < |ips| => AEntry(packetId, macId, name, ips[k], ToInt32(ttl)))
    decreases |rs|
  {
    if rs != [] {
      AddressesOf(rs[1..], name, ips[1..], ttl, packetId, macId);
      assert rs[0].name.Name() == name;
    }
  }

  lemma PointingIsCompressed(id: nat, name: Name, ips: seq<nat>, ttl: nat)
    requires ValidName(name) && id < 65536 && ttl < 0x1_0000_0000 && |ips| < 65536
    requires forall k :: 0 <= k < |ips| ==> ips[k] < 0x1_0000_0000
    ensures var m := PointingResponse(id, name, ips, ttl); ValidMessage(m) && WithoutError(m) && WellCompressed(m)
  {
    hide ValidMessage, Learn, WellCompressed, ValidName;
    PointingIsValid(id, name, ips, ttl);
    LearnsWhole(map[], HEADER_LENGTH, Plain(name));
    PointingIsBack(PointingResponse(id, name, ips, ttl), Learn(map[], HEADER_LENGTH, Plain(name)), name);
  }

  function AddressEntries(name: Name, ips: seq<nat>, ttl: nat, packetId: nat, macId: nat): seq<AEntry> {
    seq(|ips|, k requires 0 <= k < |ips| => AEntry(packetId, macId, name, ips[k], ToInt32(ttl)))
  }

  lemma EntriesOfPointing(id: nat, name: Name, ips: seq<nat>, ttl: nat, packetId: nat, macId: nat)
    ensures var m := PointingResponse(id, name, ips, ttl);
            && Addresses(m.answers, packetId, macId) + Addresses(m.additional, packetId, macId)
               == AddressEntries(name, ips, ttl, packetId, macId)
            && Aliases(m.answers, packetId, macId) + Aliases(m.additional, packetId, macId) == []
  {
    AddressesOf(PointingResponse(id, name, ips, ttl).answers, name, ips, ttl, packetId, macId);
    assert Addresses([], packetId, macId) == [] && Aliases([], packetId, macId) == [];
  }

  /** Such a response is well compressed, so that the parser recovers all of its addresses. */
  lemma PointingResponseIsRead(
    id: nat, name: Name, ips: seq<nat>, ttl: nat, behind: Behind, s: DnsState, packetId: nat, macId: nat)
    requires ValidName(name) && id < 65536 && ttl < 0x1_0000_0000 && |ips| < 65536
    requires forall k :: 0 <= k < |ips| ==> ips[k] < 0x1_0000_0000
    ensures var m := PointingResponse(id, name, ips, ttl);
            && ValidMessage(m) && WithoutError(m) && WellCompressed(m)
            && DnsStep(Encode(m), behind, s, packetId, macId)
               == (Appended(s, AddressEntries(name, ips, ttl, packetId, macId), []), 0)
  {
    hide ValidMessage, WithoutError, WellCompressed, PointingResponse, Encode, DnsStep, Appended, AddressEntries,
         Addresses, Aliases, ValidName;
    PointingIsCompressed(id, name, ips, ttl);
    EntriesOfPointing(id, name, ips, ttl, packetId, macId);
    DnsRoundTrips(PointingResponse(id, name, ips, ttl), behind, s, packetId, macId);
  }
}
