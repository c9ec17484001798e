/** The DNS response parser of src/dns_parser.c, over messages in the format of
    sections 4.1.1 to 4.1.3 of RFC 1035. */
module DnsParsers {
  import opened Bits
  import opened DnsTables
  import opened Options

  const HEADER_LENGTH := 12
  const MAX_CNAME := 255
  const CLASS_IN := 1
  const TYPE_A := 1
  const TYPE_CNAME := 5

  /** The bytes in memory behind a message. At most four of them are ever read. */
  type Behind = b: seq<Byte> | |b| >= 4 witness [0, 0, 0, 0]

  // Reading numbers in network byte order.

  function U16(bytes: seq<Byte>, i: nat): nat
    requires i + 2 <= |bytes|
  {
    var high: nat, low: nat := bytes[i], bytes[i + 1];
    high * 256 + low
  }

  function U32(bytes: seq<Byte>, i: nat): nat
    requires i + 4 <= |bytes|
  {
    U16(bytes, i) * 65536 + U16(bytes, i + 2)
  }

  // Domain names.

  datatype Expanded = Expanded(labels: Name, next: nat)

  /** The name at offset i, with compression pointers followed as in section 4.1.4 of
      RFC 1035; `next` is the offset behind it. `used` bytes of the 255 of a name are
      taken and `checked` bytes have been looked at, which stops pointer loops. */
  function Unpack(msg: seq<Byte>, i: nat, checked: nat, used: nat): (r: Option<Expanded>)
    ensures r.Some? ==> i < r.value.next <= |msg|
    decreases MAX_CNAME - used, |msg| - checked
  {
    if i >= |msg| then None
    else
      var n: nat := msg[i];
      if n == 0 then Some(Expanded([], i + 1))
      else if n < 64 then
        if used + n + 1 >= MAX_CNAME || i + 1 + n >= |msg| then None
        else
          match Unpack(msg, i + 1 + n, checked + n + 1, used + n + 1)
          case None => None
          case Some(rest) => Some(Expanded([msg[i + 1..i + 1 + n]] + rest.labels, rest.next))
      else if n >= 192 then
        if i + 1 >= |msg| || checked + 2 >= |msg| then None
        else
          match Unpack(msg, (n - 192) * 256 + msg[i + 1], checked + 2, used)
          case None => None
          case Some(rest) => Some(Expanded(rest.labels, i + 2))
      else None
  }

  function DnExpand(msg: seq<Byte>, i: nat): Option<Expanded> {
    Unpack(msg, i, 0, 0)
  }

  // Resource records.

  datatype Record = Record(name: Name, rtype: nat, class_: nat, ttl: int, rdlength: nat, rdata: nat)

  /** The fixed fields at offset j, behind the record's name. */
  function FieldsAt(msg: seq<Byte>, name: Name, j: nat): Record
    requires j + 10 <= |msg|
  {
    Record(name, U16(msg, j), U16(msg, j + 2), ToInt32(U32(msg, j + 4)), U16(msg, j + 8), j + 10)
  }

  /** The record at offset i and the offset behind it. A record that parses takes at least one byte
      and ends inside the message. */
  function ParseRecord(msg: seq<Byte>, i: nat): (res: Option<(Record, nat)>)
    ensures res.Some? ==> i < res.value.0.rdata <= res.value.1 <= |msg|
  {
    match DnExpand(msg, i)
    case None => None
    case Some(name) =>
      var j := name.next;
      if j + 10 > |msg| then None
      else
        var record := FieldsAt(msg, name.labels, j);
        var next := record.rdata + record.rdlength;
        if next > |msg| then None else Some((record, next))
  }

  /** The four data bytes of an A record are read whatever the record's data length says. */
  function StoreRecord(msg: seq<Byte>, behind: Behind, r: Record, s: DnsState, packetId: nat, macId: nat): DnsState
    requires r.rdata <= |msg|
  {
    if r.class_ != CLASS_IN then s
    else if r.rtype == TYPE_A then AddA(s, AEntry(packetId, macId, r.name, U32(msg + behind, r.rdata), r.ttl))
    else if r.rtype == TYPE_CNAME then
      match DnExpand(msg, r.rdata)
      case None => s
      case Some(cname) => AddCname(s, CnameEntry(packetId, macId, r.name, cname.labels, r.ttl))
    else s
  }

  // Sections.

  /** The offset behind n questions. The four bytes of type and class are skipped unchecked. */
  function SkipQuestions(msg: seq<Byte>, i: nat, n: nat): Option<nat>
    decreases n
  {
    if n == 0 then Some(i)
    else
      match DnExpand(msg, i)
      case None => None
      case Some(name) => SkipQuestions(msg, name.next + 4, n - 1)
  }

  /** n records from offset i, stored if `store`. On a bad record the result has no offset
      and the records before it stay stored. */
  function ReadRecords(msg: seq<Byte>, behind: Behind, i: nat, n: nat, store: bool, s: DnsState,
                       packetId: nat, macId: nat)
    : (DnsState, Option<nat>)
    decreases n
  {
    if n == 0 then (s, Some(i))
    else
      match ParseRecord(msg, i)
      case None => (s, None)
      case Some((r, next)) =>
        ReadRecords(msg, behind, next, n - 1, store,
                    if store then StoreRecord(msg, behind, r, s, packetId, macId) else s, packetId, macId)
  }

  predicate RelevantHeader(msg: seq<Byte>) {
    && |msg| >= HEADER_LENGTH
    && msg[2] >= 128            // QR: a response
    && msg[2] / 8 % 16 == 0     // OPCODE: QUERY
    && msg[3] % 16 == 0         // RCODE: NOERROR
  }

  /** The three record sections from offset i. */
  function ReadSections(msg: seq<Byte>, behind: Behind, i: nat, s: DnsState, packetId: nat, macId: nat): (DnsState, int)
    requires |msg| >= HEADER_LENGTH
  {
    var (s1, j) := ReadRecords(msg, behind, i, U16(msg, 6), true, s, packetId, macId);
    if j.None? then (s1, -1)
    else
      var (_, k) := ReadRecords(msg, behind, j.value, U16(msg, 8), false, s1, packetId, macId);
      if k.None? then (s1, -1)
      else
        var (s2, l) := ReadRecords(msg, behind, k.value, U16(msg, 10), true, s1, packetId, macId);
        (s2, if l.None? then -1 else 0)
  }

  /** process_dns_packet: the tables afterwards and the return code. */
  function DnsStep(msg: seq<Byte>, behind: Behind, s: DnsState, packetId: nat, macId: nat): (DnsState, int) {
    if !RelevantHeader(msg) then (s, -1)
    else
      match SkipQuestions(msg, HEADER_LENGTH, U16(msg, 4))
      case None => (s, -1)
      case Some(i) => ReadSections(msg, behind, i, s, packetId, macId)
  }

  /** Too short for a header, no response (QR = 1) to a standard query (OPCODE = 0), or a response that
      reports an error (RCODE other than 0). */
  predicate Irrelevant(msg: seq<Byte>) {
    |msg| < 12 || msg[2] / 8 != 16 || msg[3] % 16 != 0
  }

  // What a message adds to the tables, whatever they hold.

  function EntryOf(msg: seq<Byte>, behind: Behind, r: Record, packetId: nat, macId: nat): Entries
    requires r.rdata <= |msg|
  {
    if r.class_ == CLASS_IN && r.rtype == TYPE_A then
      Entries([AEntry(packetId, macId, r.name, U32(msg + behind, r.rdata), r.ttl)], [])
    else if r.class_ == CLASS_IN && r.rtype == TYPE_CNAME && DnExpand(msg, r.rdata).Some? then
      Entries([], [CnameEntry(packetId, macId, r.name, DnExpand(msg, r.rdata).value.labels, r.ttl)])
    else NO_ENTRIES
  }

  /** The entries of n records from offset i, up to the first bad one, and the offset behind them. */
  function RecordEntries(msg: seq<Byte>, behind: Behind, i: nat, n: nat, packetId: nat, macId: nat)
    : (Entries, Option<nat>)
    decreases n
  {
    if n == 0 then (NO_ENTRIES, Some(i))
    else
      match ParseRecord(msg, i)
      case None => (NO_ENTRIES, None)
      case Some((r, next)) =>
        var (rest, end) := RecordEntries(msg, behind, next, n - 1, packetId, macId);
        (Join(EntryOf(msg, behind, r, packetId, macId), rest), end)
  }

  function SectionEntries(msg: seq<Byte>, behind: Behind, i: nat, packetId: nat, macId: nat): Entries
    requires |msg| >= HEADER_LENGTH
  {
    var (answers, j) := RecordEntries(msg, behind, i, U16(msg, 6), packetId, macId);
    if j.None? then answers
    else
      var (_, k) := RecordEntries(msg, behind, j.value, U16(msg, 8), packetId, macId);
      if k.None? then answers
      else Join(answers, RecordEntries(msg, behind, k.value, U16(msg, 10), packetId, macId).0)
  }

  function MessageEntries(msg: seq<Byte>, behind: Behind, packetId: nat, macId: nat): Entries {
    if !RelevantHeader(msg) then NO_ENTRIES
    else
      match SkipQuestions(msg, HEADER_LENGTH, U16(msg, 4))
      case None => NO_ENTRIES
      case Some(i) => SectionEntries(msg, behind, i, packetId, macId)
  }

  lemma StoreAppends(msg: seq<Byte>, behind: Behind, r: Record, s: DnsState, packetId: nat, macId: nat)
    requires r.rdata <= |msg|
    ensures StoreRecord(msg, behind, r, s, packetId, macId) == AppendAll(s, EntryOf(msg, behind, r, packetId, macId))
  {
    hide Unpack;
    AppendedNothing(s);
  }

  lemma {:induction false} ReadAppends(
    msg: seq<Byte>, behind: Behind, i: nat, n: nat, store: bool, s: DnsState, packetId: nat, macId: nat)
    ensures var (e, end) := RecordEntries(msg, behind, i, n, packetId, macId);
            ReadRecords(msg, behind, i, n, store, s, packetId, macId) == (if store then AppendAll(s, e) else s, end)
    decreases n
  {
    hide AppendAll, StoreRecord, EntryOf, Join, ParseRecord;
    if n == 0 {
      AppendNone(s);
    } else if ParseRecord(msg, i).None? {
      AppendNone(s);
    } else {
      var (r, next) := ParseRecord(msg, i).value;
      var s1 := if store then StoreRecord(msg, behind, r, s, packetId, macId) else s;
      ReadAppends(msg, behind, next, n - 1, store, s1, packetId, macId);
      StoreAppends(msg, behind, r, s, packetId, macId);
      AppendJoined(s, EntryOf(msg, behind, r, packetId, macId),
                   RecordEntries(msg, behind, next, n - 1, packetId, macId).0);
    }
  }

  lemma AppendNone(s: DnsState)
    ensures AppendAll(s, NO_ENTRIES) == s
  {
    AppendedNothing(s);
  }

  lemma SectionsAppend(msg: seq<Byte>, behind: Behind, i: nat, s: DnsState, packetId: nat, macId: nat)
    requires |msg| >= HEADER_LENGTH
    ensures ReadSections(msg, behind, i, s, packetId, macId).0
            == AppendAll(s, SectionEntries(msg, behind, i, packetId, macId))
  {
    hide RecordEntries, ReadRecords, AppendAll, Join, U16;
    var (answers, j) := RecordEntries(msg, behind, i, U16(msg, 6), packetId, macId);
    var s1 := AppendAll(s, answers);
    ReadAppends(msg, behind, i, U16(msg, 6), true, s, packetId, macId);
    if j.Some? {
      ReadAppends(msg, behind, j.value, U16(msg, 8), false, s1, packetId, macId);
      var (_, k) := RecordEntries(msg, behind, j.value, U16(msg, 8), packetId, macId);
      if k.Some? {
        ReadAppends(msg, behind, k.value, U16(msg, 10), true, s1, packetId, macId);
        AppendJoined(s, answers, RecordEntries(msg, behind, k.value, U16(msg, 10), packetId, macId).0);
      }
    }
  }

  /** Processing a message appends its entries as far as there is room, counting the rest. */
  lemma MessageAppends(msg: seq<Byte>, behind: Behind, s: DnsState, packetId: nat, macId: nat)
    ensures DnsStep(msg, behind, s, packetId, macId).0 == AppendAll(s, MessageEntries(msg, behind, packetId, macId))
  {
    AppendNone(s);
    hide AppendAll, SectionEntries, ReadSections, SkipQuestions, U16;
    if RelevantHeader(msg) && SkipQuestions(msg, HEADER_LENGTH, U16(msg, 4)).Some? {
      SectionsAppend(msg, behind, SkipQuestions(msg, HEADER_LENGTH, U16(msg, 4)).value, s, packetId, macId);
    }
  }

  lemma RelevantExactly(msg: seq<Byte>)
    ensures RelevantHeader(msg) <==> !Irrelevant(msg)
  {
    if |msg| >= HEADER_LENGTH {
      var flags: nat := msg[2];
      assert flags / 8 % 16 == 0 <==> flags / 8 == 0 || flags / 8 == 16;
    }
  }

  /** An irrelevant message is refused and stores nothing. */
  lemma IrrelevantIsIgnored(msg: seq<Byte>, behind: Behind, s: DnsState, packetId: nat, macId: nat)
    requires Irrelevant(msg)
    ensures DnsStep(msg, behind, s, packetId, macId) == (s, -1)
    ensures MessageEntries(msg, behind, packetId, macId) == NO_ENTRIES
  {
    RelevantExactly(msg);
  }

  /** Every entry carries the packet id and the MAC id. */
  ghost predicate Tagged(e: Entries, packetId: nat, macId: nat) {
    && (forall x :: x in e.a ==> x.packetId == packetId && x.macId == macId)
    && (forall x :: x in e.cname ==> x.packetId == packetId && x.macId == macId)
  }

  lemma {:induction false} RecordsTagged(msg: seq<Byte>, behind: Behind, i: nat, n: nat, packetId: nat, macId: nat)
    ensures Tagged(RecordEntries(msg, behind, i, n, packetId, macId).0, packetId, macId)
    decreases n
  {
    hide ParseRecord, U32, DnExpand;
    if n > 0 && ParseRecord(msg, i).Some? {
      RecordsTagged(msg, behind, ParseRecord(msg, i).value.1, n - 1, packetId, macId);
    }
  }

  lemma MessageTagged(msg: seq<Byte>, behind: Behind, packetId: nat, macId: nat)
    ensures Tagged(MessageEntries(msg, behind, packetId, macId), packetId, macId)
  {
    hide RecordEntries, SkipQuestions, RelevantHeader, U16;
    forall i: nat, n: nat ensures Tagged(RecordEntries(msg, behind, i, n, packetId, macId).0, packetId, macId) {
      RecordsTagged(msg, behind, i, n, packetId, macId);
    }
  }

  // Reading behind the message.

  /** The record's data can be read without looking behind the message. */
  predicate RecordInside(msg: seq<Byte>, r: Record) {
    r.class_ == CLASS_IN && r.rtype == TYPE_A ==> r.rdata + 4 <= |msg|
  }

  predicate RecordsInside(msg: seq<Byte>, i: nat, n: nat)
    decreases n
  {
    n > 0 && ParseRecord(msg, i).Some? ==>
      var (r, next) := ParseRecord(msg, i).value;
      RecordInside(msg, r) && RecordsInside(msg, next, n - 1)
  }

  /** The offset behind n records, if they parse. */
  function RecordsEnd(msg: seq<Byte>, i: nat, n: nat): Option<nat>
    decreases n
  {
    if n == 0 then Some(i)
    else
      match ParseRecord(msg, i)
      case None => None
      case Some((_, next)) => RecordsEnd(msg, next, n - 1)
  }

  predicate SectionsInside(msg: seq<Byte>, i: nat)
    requires |msg| >= HEADER_LENGTH
  {
    var j := RecordsEnd(msg, i, U16(msg, 6));
    RecordsInside(msg, i, U16(msg, 6))
    && (j.Some? ==>
          var k := RecordsEnd(msg, j.value, U16(msg, 8));
          k.Some? ==> RecordsInside(msg, k.value, U16(msg, 10)))
  }

  /** Every A record that is stored has four bytes before the end of the message. */
  predicate MessageInside(msg: seq<Byte>) {
    RelevantHeader(msg) ==>
      var i := SkipQuestions(msg, HEADER_LENGTH, U16(msg, 4));
      i.Some? ==> SectionsInside(msg, i.value)
  }

  const ZEROS: Behind := [0, 0, 0, 0]
  const ONES: Behind := [1, 1, 1, 1]

  lemma ReadInside(msg: seq<Byte>, behind: Behind, i: nat)
    requires i + 4 <= |msg|
    ensures U32(msg + behind, i) == U32(msg, i)
  {
  }

  lemma ReadOutside(msg: seq<Byte>, i: nat)
    requires i <= |msg| < i + 4
    ensures U32(msg + ZEROS, i) != U32(msg + ONES, i)
  {
    var a, b := msg + ZEROS, msg + ONES;
    assert forall k :: i <= k < |msg| ==> a[k] == b[k];
    assert forall k :: |msg| <= k < i + 4 ==> a[k] == 0 && b[k] == 1;
    hide *;
    DifferentNumbers(a[i], a[i + 1], a[i + 2], a[i + 3], b[i], b[i + 1], b[i + 2], b[i + 3]);
    NumberOf(a, i);
    NumberOf(b, i);
  }

  function Number(b0: nat, b1: nat, b2: nat, b3: nat): nat {
    b0 * 0x100_0000 + b1 * 0x1_0000 + b2 * 0x100 + b3
  }

  lemma NumberOf(b: seq<Byte>, i: nat)
    requires i + 4 <= |b|
    ensures U32(b, i) == Number(b[i], b[i + 1], b[i + 2], b[i + 3])
  {
  }

  lemma DifferentNumbers(a0: Byte, a1: Byte, a2: Byte, a3: Byte, b0: Byte, b1: Byte, b2: Byte, b3: Byte)
    requires a3 == 0 && b3 == 1
    ensures Number(a0, a1, a2, a3) != Number(b0, b1, b2, b3)
  {
  }

  lemma EntryInside(msg: seq<Byte>, r: Record, packetId: nat, macId: nat, b1: Behind, b2: Behind)
    requires r.rdata <= |msg|
    ensures RecordInside(msg, r) ==> EntryOf(msg, b1, r, packetId, macId) == EntryOf(msg, b2, r, packetId, macId)
    ensures !RecordInside(msg, r) ==> EntryOf(msg, ZEROS, r, packetId, macId) != EntryOf(msg, ONES, r, packetId, macId)
    ensures |EntryOf(msg, b1, r, packetId, macId).a| == |EntryOf(msg, b2, r, packetId, macId).a|
    ensures |EntryOf(msg, b1, r, packetId, macId).cname| == |EntryOf(msg, b2, r, packetId, macId).cname|
  {
    hide DnExpand, U32;
    if r.rdata + 4 <= |msg| {
      ReadInside(msg, b1, r.rdata);
      ReadInside(msg, b2, r.rdata);
    } else {
      ReadOutside(msg, r.rdata);
    }
  }

  lemma JoinInjective(e1: Entries, f1: Entries, e2: Entries, f2: Entries)
    requires |e1.a| == |e2.a| && |e1.cname| == |e2.cname|
    ensures Join(e1, f1) == Join(e2, f2) <==> e1 == e2 && f1 == f2
  {
    if Join(e1, f1) == Join(e2, f2) {
      assert (e1.a + f1.a)[..|e1.a|] == e1.a && (e2.a + f2.a)[..|e1.a|] == e2.a;
      assert (e1.a + f1.a)[|e1.a|..] == f1.a && (e2.a + f2.a)[|e1.a|..] == f2.a;
      assert (e1.cname + f1.cname)[..|e1.cname|] == e1.cname && (e2.cname + f2.cname)[..|e1.cname|] == e2.cname;
      assert (e1.cname + f1.cname)[|e1.cname|..] == f1.cname && (e2.cname + f2.cname)[|e1.cname|..] == f2.cname;
    }
  }

  lemma {:induction false} RecordsEntriesInside(
    msg: seq<Byte>, i: nat, n: nat, packetId: nat, macId: nat, b1: Behind, b2: Behind)
    ensures var e1, e2 := RecordEntries(msg, b1, i, n, packetId, macId), RecordEntries(msg, b2, i, n, packetId, macId);
            && e1.1 == e2.1 == RecordsEnd(msg, i, n)
            && |e1.0.a| == |e2.0.a| && |e1.0.cname| == |e2.0.cname|
            && (RecordsInside(msg, i, n) ==> e1.0 == e2.0)
    ensures !RecordsInside(msg, i, n) ==>
              RecordEntries(msg, ZEROS, i, n, packetId, macId).0 != RecordEntries(msg, ONES, i, n, packetId, macId).0
    decreases n
  {
    hide ParseRecord, EntryOf, RecordInside, Join;
    if n > 0 && ParseRecord(msg, i).Some? {
      var (r, next) := ParseRecord(msg, i).value;
      EntryInside(msg, r, packetId, macId, b1, b2);
      EntryInside(msg, r, packetId, macId, ZEROS, ONES);
      RecordsEntriesInside(msg, next, n - 1, packetId, macId, b1, b2);
      RecordsEntriesInside(msg, next, n - 1, packetId, macId, ZEROS, ONES);
      JoinLengths(EntryOf(msg, b1, r, packetId, macId), RecordEntries(msg, b1, next, n - 1, packetId, macId).0);
      JoinLengths(EntryOf(msg, b2, r, packetId, macId), RecordEntries(msg, b2, next, n - 1, packetId, macId).0);
      JoinInjective(EntryOf(msg, ZEROS, r, packetId, macId), RecordEntries(msg, ZEROS, next, n - 1, packetId, macId).0,
                    EntryOf(msg, ONES, r, packetId, macId), RecordEntries(msg, ONES, next, n - 1, packetId, macId).0);
    }
  }

  lemma JoinLengths(e: Entries, f: Entries)
    ensures |Join(e, f).a| == |e.a| + |f.a| && |Join(e, f).cname| == |e.cname| + |f.cname|
  {
  }

  lemma SectionsEntriesInside(msg: seq<Byte>, i: nat, packetId: nat, macId: nat, b1: Behind, b2: Behind)
    requires |msg| >= HEADER_LENGTH
    ensures SectionsInside(msg, i)
            ==> SectionEntries(msg, b1, i, packetId, macId) == SectionEntries(msg, b2, i, packetId, macId)
    ensures !SectionsInside(msg, i)
            ==> SectionEntries(msg, ZEROS, i, packetId, macId) != SectionEntries(msg, ONES, i, packetId, macId)
  {
    hide RecordEntries, RecordsInside, RecordsEnd, Join, U16;
    RecordsEntriesInside(msg, i, U16(msg, 6), packetId, macId, b1, b2);
    RecordsEntriesInside(msg, i, U16(msg, 6), packetId, macId, ZEROS, ONES);
    var j := RecordsEnd(msg, i, U16(msg, 6));
    if j.Some? {
      RecordsEntriesInside(msg, j.value, U16(msg, 8), packetId, macId, b1, b2);
      RecordsEntriesInside(msg, j.value, U16(msg, 8), packetId, macId, ZEROS, ONES);
      var k := RecordsEnd(msg, j.value, U16(msg, 8));
      if k.Some? {
        RecordsEntriesInside(msg, k.value, U16(msg, 10), packetId, macId, b1, b2);
        RecordsEntriesInside(msg, k.value, U16(msg, 10), packetId, macId, ZEROS, ONES);
        JoinInjective(RecordEntries(msg, ZEROS, i, U16(msg, 6), packetId, macId).0,
                      RecordEntries(msg, ZEROS, k.value, U16(msg, 10), packetId, macId).0,
                      RecordEntries(msg, ONES, i, U16(msg, 6), packetId, macId).0,
                      RecordEntries(msg, ONES, k.value, U16(msg, 10), packetId, macId).0);
      }
    }
  }

  /** What a message adds to the tables depends on the message alone if and only if every A record
      that is stored has four bytes before the end of the message. Bytes behind the message are read
      nowhere else: all other reads are bounded by the requires of U16 and U32. */
  lemma InsideExactly(msg: seq<Byte>, packetId: nat, macId: nat)
    ensures MessageInside(msg)
            <==> forall b1: Behind, b2: Behind ::
                   MessageEntries(msg, b1, packetId, macId) == MessageEntries(msg, b2, packetId, macId)
  {
    hide SectionsInside, SectionEntries, SkipQuestions, U16;
    if RelevantHeader(msg) && SkipQuestions(msg, HEADER_LENGTH, U16(msg, 4)).Some? {
      var i := SkipQuestions(msg, HEADER_LENGTH, U16(msg, 4)).value;
      forall b1: Behind, b2: Behind
        ensures MessageInside(msg) ==>
                  MessageEntries(msg, b1, packetId, macId) == MessageEntries(msg, b2, packetId, macId)
      {
        SectionsEntriesInside(msg, i, packetId, macId, b1, b2);
      }
      SectionsEntriesInside(msg, i, packetId, macId, ZEROS, ONES);
      assert !MessageInside(msg)
             ==> MessageEntries(msg, ZEROS, packetId, macId) != MessageEntries(msg, ONES, packetId, macId);
    }
  }

  // A response byte by byte.

  /** "a" has the address 1.2.3.4 for 60 s, and is an alias of "b" for 7 s. */
  ghost predicate WrittenOut(msg: seq<Byte>) {
    && |msg| == 44
    && msg[..12] == [0, 0, 0x84, 0, 0, 0, 0, 2, 0, 0, 0, 0]
    && msg[12..29] == [1, 97, 0, 0, 1, 0, 1, 0, 0, 0, 60, 0, 4, 1, 2, 3, 4]
    && msg[29..44] == [192, 12, 0, 5, 0, 1, 0, 0, 0, 7, 0, 3, 1, 98, 0]
  }

  lemma HeaderWrittenOut(msg: seq<Byte>)
    requires |msg| >= 12 && msg[..12] == [0, 0, 0x84, 0, 0, 0, 0, 2, 0, 0, 0, 0]
    ensures RelevantHeader(msg)
    ensures U16(msg, 4) == 0 && U16(msg, 6) == 2 && U16(msg, 8) == 0 && U16(msg, 10) == 0
  {
    assert forall k :: 0 <= k < 12 ==> msg[k] == msg[..12][k];
  }

  lemma OneLetter(msg: seq<Byte>, i: nat, letter: Byte, checked: nat, used: nat)
    requires i + 3 <= |msg| && msg[i] == 1 && msg[i + 1] == letter && msg[i + 2] == 0 && used < 200
    ensures Unpack(msg, i, checked, used) == Some(Expanded([[letter]], i + 3))
  {
    var octets := msg[i + 1..i + 1 + 1];
    assert octets == [letter];
    assert [octets] + [] == [[letter]];
    assert Unpack(msg, i + 2, checked + 2, used + 2) == Some(Expanded([], i + 3));
  }

  lemma AddressFields(msg: seq<Byte>, behind: Behind)
    requires |msg| >= 29 && msg[15..29] == [0, 1, 0, 1, 0, 0, 0, 60, 0, 4, 1, 2, 3, 4]
    ensures FieldsAt(msg, [[97]], 15) == Record([[97]], 1, 1, 60, 4, 25)
    ensures U32(msg + behind, 25) == 0x01020304
  {
    assert forall k :: 0 <= k < 14 ==> msg[15 + k] == msg[15..29][k];
  }

  lemma AddressWrittenOut(msg: seq<Byte>, behind: Behind)
    requires |msg| >= 29 && msg[12..29] == [1, 97, 0, 0, 1, 0, 1, 0, 0, 0, 60, 0, 4, 1, 2, 3, 4]
    ensures ParseRecord(msg, 12) == Some((Record([[97]], 1, 1, 60, 4, 25), 29))
    ensures U32(msg + behind, 25) == 0x01020304
  {
    var part := msg[12..29];
    assert msg[12] == part[0] && msg[13] == part[1] && msg[14] == part[2];
    assert msg[15..29] == part[3..];
    hide Unpack, U32, FieldsAt;
    OneLetter(msg, 12, 97, 0, 0);
    AddressFields(msg, behind);
  }

  lemma AliasFields(msg: seq<Byte>)
    requires |msg| >= 41 && msg[31..41] == [0, 5, 0, 1, 0, 0, 0, 7, 0, 3]
    ensures FieldsAt(msg, [[97]], 31) == Record([[97]], 5, 1, 7, 3, 41)
  {
    assert forall k :: 0 <= k < 10 ==> msg[31 + k] == msg[31..41][k];
  }

  lemma PointerToFirst(msg: seq<Byte>)
    requires |msg| > 31 && msg[29] == 192 && msg[30] == 12 && msg[12] == 1 && msg[13] == 97 && msg[14] == 0
    ensures DnExpand(msg, 29) == Some(Expanded([[97]], 31))
  {
    OneLetter(msg, 12, 97, 2, 0);
  }

  lemma AliasWrittenOut(msg: seq<Byte>)
    requires |msg| == 44 && msg[12..15] == [1, 97, 0]
    requires msg[29..44] == [192, 12, 0, 5, 0, 1, 0, 0, 0, 7, 0, 3, 1, 98, 0]
    ensures ParseRecord(msg, 29) == Some((Record([[97]], 5, 1, 7, 3, 41), 44))
    ensures DnExpand(msg, 41) == Some(Expanded([[98]], 44))
  {
    var first, part := msg[12..15], msg[29..44];
    assert msg[12] == first[0] && msg[13] == first[1] && msg[14] == first[2];
    assert msg[29] == part[0] && msg[30] == part[1];
    assert msg[41] == part[12] && msg[42] == part[13] && msg[43] == part[14];
    assert msg[31..41] == part[2..12];
    hide Unpack, FieldsAt;
    PointerToFirst(msg);
    OneLetter(msg, 41, 98, 0, 0);
    AliasFields(msg);
  }

  /** What the tables get from these bytes. */
  lemma WrittenOutIsRead(msg: seq<Byte>, behind: Behind)
    requires WrittenOut(msg)
    ensures MessageEntries(msg, behind, 7, 3)
            == Entries([AEntry(7, 3, [[97]], 0x01020304, 60)], [CnameEntry(7, 3, [[97]], [[98]], 7)])
  {
    HeaderWrittenOut(msg);
    AddressWrittenOut(msg, behind);
    assert msg[12..15] == msg[12..29][..3];
    AliasWrittenOut(msg);
    hide WrittenOut, RelevantHeader, ParseRecord, U16, U32, DnExpand;
    TwoRecords(msg, behind);
  }

  lemma TwoRecords(msg: seq<Byte>, behind: Behind)
    requires |msg| == 44
    requires ParseRecord(msg, 12) == Some((Record([[97]], 1, 1, 60, 4, 25), 29))
    requires ParseRecord(msg, 29) == Some((Record([[97]], 5, 1, 7, 3, 41), 44))
    requires U32(msg + behind, 25) == 0x01020304 && DnExpand(msg, 41) == Some(Expanded([[98]], 44))
    ensures RecordEntries(msg, behind, 12, 2, 7, 3)
            == (Entries([AEntry(7, 3, [[97]], 0x01020304, 60)], [CnameEntry(7, 3, [[97]], [[98]], 7)]), Some(44))
  {
    hide ParseRecord, U32, DnExpand;
    var first := Entries([AEntry(7, 3, [[97]], 0x01020304, 60)], []);
    var second := Entries([], [CnameEntry(7, 3, [[97]], [[98]], 7)]);
    assert EntryOf(msg, behind, Record([[97]], 1, 1, 60, 4, 25), 7, 3) == first;
    assert EntryOf(msg, behind, Record([[97]], 5, 1, 7, 3, 41), 7, 3) == second;
    JoinNone(second);
    assert Join(first, second) == Entries(first.a, second.cname);
    hide EntryOf, Join;
    assert RecordEntries(msg, behind, 44, 0, 7, 3) == (NO_ENTRIES, Some(44));
    assert RecordEntries(msg, behind, 29, 1, 7, 3) == (second, Some(44));
  }

  // The parser itself.

  method AddRecord(msg: seq<Byte>, behind: Behind, r: Record, table: DnsTable, packetId: nat, macId: nat)
    requires table.Valid() && r.rdata <= |msg|
    modifies table, table.aEntries, table.cnameEntries
    ensures table.Valid()
    ensures table.State() == StoreRecord(msg, behind, r, old(table.State()), packetId, macId)
  {
    if r.class_ != CLASS_IN {
      return;
    }
    if r.rtype == TYPE_A {
      var _ := table.Add(AEntry(packetId, macId, r.name, U32(msg + behind, r.rdata), r.ttl));
    } else if r.rtype == TYPE_CNAME {
      var cname := DnExpand(msg, r.rdata);
      if cname.Some? {
        var _ := table.AddAlias(CnameEntry(packetId, macId, r.name, cname.value.labels, r.ttl));
      }
    }
  }

  method ReadSection(msg: seq<Byte>, behind: Behind, start: nat, count: nat, store: bool,
                     table: DnsTable, packetId: nat, macId: nat) returns (offset: Option<nat>)
    requires table.Valid()
    modifies table, table.aEntries, table.cnameEntries
    ensures table.Valid()
    ensures (table.State(), offset)
            == ReadRecords(msg, behind, start, count, store, old(table.State()), packetId, macId)
    ensures !store ==> table.State() == old(table.State())
  {
    offset := Some(start);
    for idx := 0 to count
      invariant table.Valid() && offset.Some?
      invariant ReadRecords(msg, behind, start, count, store, old(table.State()), packetId, macId)
                == ReadRecords(msg, behind, offset.value, count - idx, store, table.State(), packetId, macId)
      invariant !store ==> table.State() == old(table.State())
    {
      var parsed := ParseRecord(msg, offset.value);
      if parsed.None? {
        return None;
      }
      var (record, next) := parsed.value;
      if store {
        AddRecord(msg, behind, record, table, packetId, macId);
      }
      offset := Some(next);
    }
  }

  method ProcessDnsPacket(msg: seq<Byte>, behind: Behind, table: DnsTable, packetId: nat, macId: nat) returns (rc: int)
    requires table.Valid()
    modifies table, table.aEntries, table.cnameEntries
    ensures table.Valid()
    ensures (table.State(), rc) == DnsStep(msg, behind, old(table.State()), packetId, macId)
  {
    if !RelevantHeader(msg) {
      return -1;
    }
    var questions := U16(msg, 4);
    var offset: nat := HEADER_LENGTH;
    for idx := 0 to questions
      invariant table.State() == old(table.State()) && table.Valid()
      invariant SkipQuestions(msg, HEADER_LENGTH, questions) == SkipQuestions(msg, offset, questions - idx)
    {
      var name := DnExpand(msg, offset);
      if name.None? {
        return -1;
      }
      offset := name.value.next + 4;
    }
    var answers := ReadSection(msg, behind, offset, U16(msg, 6), true, table, packetId, macId);
    if answers.None? {
      return -1;
    }
    var nameservers := ReadSection(msg, behind, answers.value, U16(msg, 8), false, table, packetId, macId);
    if nameservers.None? {
      return -1;
    }
    var additional := ReadSection(msg, behind, nameservers.value, U16(msg, 10), true, table, packetId, macId);
    return if additional.None? then -1 else 0;
  }
}
