/** DNS responses of which only the first bytes were captured: the records that arrived whole are
    stored, and nothing else. */
module DnsCutOff {
  import opened Bits
  import opened DnsParsers
  import opened DnsRoundTrip
  import opened DnsTables
  import opened Options

  /** From offset i on the message is `part`, as far as it goes. */
  ghost predicate UpTo(msg: Bytes, i: nat, part: Bytes) {
    forall k: nat :: k < |part| && i + k < |msg| ==> msg[i + k] == part[k]
  }

  lemma UpToParts(msg: Bytes, i: nat, a: Bytes, b: Bytes)
    requires UpTo(msg, i, a + b)
    ensures UpTo(msg, i, a) && UpTo(msg, i + |a|, b)
  {
    assert forall k: nat :: k < |a| ==> (a + b)[k] == a[k];
    forall k: nat | k < |b| && i + |a| + k < |msg| ensures msg[i + |a| + k] == b[k] {
      assert (a + b)[|a| + k] == b[k];
      assert i + (|a| + k) == i + |a| + k;
    }
  }

  lemma WholePart(msg: Bytes, i: nat, part: Bytes)
    requires UpTo(msg, i, part) && i + |part| <= |msg|
    ensures At(msg, i, part)
  {
  }

  /** A name that is cut off cannot be read. */
  lemma {:induction false} NameCut(msg: Bytes, i: nat, w: WireName, checked: nat, used: nat)
    requires ValidWire(w) && UpTo(msg, i, EncodeName(w)) && i + |EncodeName(w)| > |msg|
    ensures Unpack(msg, i, checked, used) == None
    decreases |w.labels|
  {
    hide ValidWire, EncodeName, LabelBytes, UpTo;
    if w.labels == [] {
      EndCut(msg, i, w, checked, used);
    } else {
      var first, tail := w.labels[0], w.Tail();
      var n := |first|;
      NameParts(w);
      UpToParts(msg, i, [n] + first, EncodeName(tail));
      NameCut(msg, i + 1 + n, tail, checked + n + 1, used + n + 1);
      if i < |msg| {
        FirstByte(msg, i, n, first);
      }
    }
  }

  lemma FirstByte(msg: Bytes, i: nat, n: Byte, rest: Bytes)
    requires i < |msg| && UpTo(msg, i, [n] + rest)
    ensures msg[i] == n
  {
    assert msg[i + 0] == ([n] + rest)[0];
  }

  lemma EndCut(msg: Bytes, i: nat, w: WireName, checked: nat, used: nat)
    requires ValidWire(w) && w.labels == [] && UpTo(msg, i, EncodeName(w)) && i + |EncodeName(w)| > |msg|
    ensures Unpack(msg, i, checked, used) == None
  {
    NoLabels(w);
    if i < |msg| {
      assert msg[i + 0] == EncodeName(w)[0];
    }
  }

  /** A record that is cut off does not parse. */
  lemma RecordCut(msg: Bytes, d: Dictionary, i: nat, r: ResourceRecord)
    requires ValidRecord(r) && UpTo(msg, i, EncodeRecord(r)) && i + |EncodeRecord(r)| > |msg|
    requires Readable(msg, d, i) && RecordPointsBack(d, i, r)
    ensures ParseRecord(msg, i) == None
  {
    hide Unpack, EncodeName, EncodeFields, EncodeData, Readable, UpTo, At, ValidWire, ValidName;
    RecordName(r);
    var j := i + |EncodeName(r.name)|;
    UpToParts(msg, i, EncodeName(r.name), EncodeFields(r) + EncodeData(r.data));
    UpToParts(msg, j, EncodeFields(r), EncodeData(r.data));
    if j > |msg| {
      NameCut(msg, i, r.name, 0, 0);
    } else {
      WholePart(msg, i, EncodeName(r.name));
      ReadName(msg, d, i, i, r.name);
      if j + 10 <= |msg| {
        WholePart(msg, j, EncodeFields(r));
        ReadFields(msg, j, r);
      }
    }
  }

  /** How many leading records lie in the first k bytes of their section. */
  function WholeIn(rs: seq<ResourceRecord>, k: int): (n: nat)
    requires ValidRecords(rs)
    ensures n <= |rs|
    decreases |rs|
  {
    if rs == [] || k < |EncodeRecord(rs[0])| then 0 else 1 + WholeIn(rs[1..], k - |EncodeRecord(rs[0])|)
  }

  lemma {:induction false} WholeSection(rs: seq<ResourceRecord>, k: int)
    requires ValidRecords(rs)
    ensures WholeIn(rs, k) == |rs| <==> rs == [] || k >= |EncodeRecords(rs)|
    decreases |rs|
  {
    hide EncodeRecord;
    if rs != [] {
      WholeSection(rs[1..], k - |EncodeRecord(rs[0])|);
      assert rs[1..] == [] ==> EncodeRecords(rs[1..]) == [];
    }
  }

  /** What a section adds of which k bytes are there. */
  function EntriesIn(rs: seq<ResourceRecord>, k: int, packetId: nat, macId: nat): Entries
    requires ValidRecords(rs)
  {
    EntriesOf(rs[..WholeIn(rs, k)], packetId, macId)
  }

  lemma EntriesInNext(rs: seq<ResourceRecord>, k: int, packetId: nat, macId: nat)
    requires ValidRecords(rs) && rs != []
    ensures k < |EncodeRecord(rs[0])| ==> EntriesIn(rs, k, packetId, macId) == NO_ENTRIES
    ensures k >= |EncodeRecord(rs[0])|
            ==> EntriesIn(rs, k, packetId, macId)
                == Join(EntryFor(rs[0], packetId, macId),
                        EntriesIn(rs[1..], k - |EncodeRecord(rs[0])|, packetId, macId))
  {
    hide EncodeRecord, ValidRecords, Addresses, Aliases, EntryFor;
    var n := WholeIn(rs, k);
    EntriesOfFirst(rs[..n], packetId, macId);
    if n > 0 {
      assert rs[..n][1..] == rs[1..][..n - 1];
    }
  }

  /** A section of which only the first bytes are there. */
  lemma {:induction false} RecordsCut(
    msg: Bytes, behind: Behind, d: Dictionary, i: nat, rs: seq<ResourceRecord>, packetId: nat, macId: nat)
    requires ValidRecords(rs) && UpTo(msg, i, EncodeRecords(rs))
    requires Readable(msg, d, i) && RecordsPointBack(d, i, rs)
    ensures RecordEntries(msg, behind, i, |rs|, packetId, macId)
            == (EntriesIn(rs, |msg| - i, packetId, macId),
                if WholeIn(rs, |msg| - i) == |rs| then Some(i + |EncodeRecords(rs)|) else None)
    ensures WholeIn(rs, |msg| - i) == |rs| ==> Readable(msg, LearnRecords(d, i, rs), i + |EncodeRecords(rs)|)
    decreases |rs|
  {
    hide ParseRecord, EncodeRecord, ValidRecord, Readable, RecordPointsBack, LearnRecord, EntryOf, EntryFor, Join,
         EntriesOf, At, DnExpand, UpTo, EntriesIn;
    if rs == [] {
      NoneIn(|msg| - i, packetId, macId);
    } else {
      var r, rest := rs[0], rs[1..];
      UpToParts(msg, i, EncodeRecord(r), EncodeRecords(rest));
      EntriesInNext(rs, |msg| - i, packetId, macId);
      if i + |EncodeRecord(r)| > |msg| {
        RecordCut(msg, d, i, r);
      } else {
        WholePart(msg, i, EncodeRecord(r));
        ParseEncoded(msg, d, i, r);
        EntryEncoded(msg, behind, i, r, packetId, macId);
        RecordsCut(msg, behind, LearnRecord(d, i, r), i + |EncodeRecord(r)|, rest, packetId, macId);
      }
    }
  }

  lemma NoneIn(k: int, packetId: nat, macId: nat)
    ensures EntriesIn([], k, packetId, macId) == NO_ENTRIES
  {
  }

  lemma BehindTheEnd(msg: Bytes, behind: Behind, i: nat, n: nat, packetId: nat, macId: nat)
    requires i >= |msg|
    ensures RecordEntries(msg, behind, i, n, packetId, macId) == (NO_ENTRIES, if n == 0 then Some(i) else None)
  {
  }

  /** Questions of which only the first bytes are there: reading them fails or ends behind the message. */
  lemma {:induction false} QuestionsCut(msg: Bytes, d: Dictionary, i: nat, qs: seq<Question>)
    requires forall k :: 0 <= k < |qs| ==> ValidQuestion(qs[k])
    requires UpTo(msg, i, EncodeQuestions(qs)) && i <= |msg| < i + |EncodeQuestions(qs)|
    requires Readable(msg, d, i) && QuestionsPointBack(d, i, qs)
    ensures var end := SkipQuestions(msg, i, |qs|); end.None? || end.value > |msg|
    decreases |qs|
  {
    hide Unpack, EncodeName, EncodeU16, At, Readable, Learn, ValidWire, ValidName, UpTo;
    var q := qs[0];
    var j := i + |EncodeName(q.name)|;
    UpToParts(msg, i, EncodeQuestion(q), EncodeQuestions(qs[1..]));
    UpToParts(msg, i, EncodeName(q.name), EncodeU16(q.qtype) + EncodeU16(q.qclass));
    if j > |msg| {
      NameCut(msg, i, q.name, 0, 0);
    } else {
      WholePart(msg, i, EncodeName(q.name));
      ReadName(msg, d, i, i, q.name);
      if j + 4 <= |msg| {
        ReadableLater(msg, Learn(d, i, q.name), j, j + 4);
        QuestionsCut(msg, Learn(d, i, q.name), j + 4, qs[1..]);
      } else if |qs| > 1 {
        NothingToExpand(msg, j + 4);
      }
    }
  }

  lemma NothingToExpand(msg: Bytes, i: nat)
    requires i >= |msg|
    ensures DnExpand(msg, i) == None
  {
  }

  // Whole messages.

  /** The records of an encoded message that the tables take and that lie in its first k bytes. */
  function RecordsIn(m: Message, k: nat, packetId: nat, macId: nat): Entries
    requires ValidMessage(m)
  {
    var q := HEADER_LENGTH + |EncodeQuestions(m.questions)|;
    var n := q + |EncodeRecords(m.answers)| + |EncodeRecords(m.authority)|;
    if WithoutError(m)
    then Join(EntriesIn(m.answers, k - q, packetId, macId), EntriesIn(m.additional, k - n, packetId, macId))
    else NO_ENTRIES
  }

  lemma PartsUpTo(m: Message, msg: Bytes)
    requires ValidMessage(m) && msg <= Encode(m) && |msg| >= HEADER_LENGTH
    ensures var q := HEADER_LENGTH + |EncodeQuestions(m.questions)|;
            var an, ns, ar := EncodeRecords(m.answers), EncodeRecords(m.authority), EncodeRecords(m.additional);
            && At(msg, 0, EncodeHeader(m)) && UpTo(msg, HEADER_LENGTH, EncodeQuestions(m.questions))
            && UpTo(msg, q, an) && UpTo(msg, q + |an|, ns) && UpTo(msg, q + |an| + |ns|, ar)
  {
    hide UpTo, At, EncodeHeader, EncodeQuestions, EncodeRecords, ValidRecords;
    var h, q := EncodeHeader(m), EncodeQuestions(m.questions);
    var an, ns, ar := EncodeRecords(m.answers), EncodeRecords(m.authority), EncodeRecords(m.additional);
    PrefixUpTo(msg, Encode(m));
    UpToParts(msg, 0, h, q + (an + (ns + ar)));
    UpToParts(msg, |h|, q, an + (ns + ar));
    UpToParts(msg, |h| + |q|, an, ns + ar);
    UpToParts(msg, |h| + |q| + |an|, ns, ar);
    WholePart(msg, 0, h);
  }

  lemma PrefixUpTo(msg: Bytes, whole: Bytes)
    requires msg <= whole
    ensures UpTo(msg, 0, whole)
  {
    assert forall k: nat :: k < |msg| ==> msg[0 + k] == whole[k];
  }

  lemma NoneFit(rs: seq<ResourceRecord>, k: int, packetId: nat, macId: nat)
    requires ValidRecords(rs) && k < 0
    ensures EntriesIn(rs, k, packetId, macId) == NO_ENTRIES
  {
    assert WholeIn(rs, k) == 0;
  }

  lemma SectionsCut(msg: Bytes, behind: Behind, d: Dictionary, i: nat, m: Message, packetId: nat, macId: nat)
    requires ValidMessage(m) && At(msg, 0, EncodeHeader(m))
    requires var an, ns, ar := EncodeRecords(m.answers), EncodeRecords(m.authority), EncodeRecords(m.additional);
             UpTo(msg, i, an) && UpTo(msg, i + |an|, ns) && UpTo(msg, i + |an| + |ns|, ar)
    requires Readable(msg, d, i) && SectionsPointBack(d, i, m)
    ensures |msg| >= HEADER_LENGTH
    ensures SectionEntries(msg, behind, i, packetId, macId)
            == Join(EntriesIn(m.answers, |msg| - i, packetId, macId),
                    EntriesIn(m.additional, |msg| - i - |EncodeRecords(m.answers)| - |EncodeRecords(m.authority)|,
                              packetId, macId))
  {
    hide RecordEntries, EncodeRecords, At, UpTo, SectionsPointBack, EncodeHeader, RelevantHeader, U16, Readable,
         LearnRecords, RecordsPointBack, ValidRecords, EntriesIn, Join, WholeIn;
    var an, ns := |EncodeRecords(m.answers)|, |EncodeRecords(m.authority)|;
    var answers := EntriesIn(m.answers, |msg| - i, packetId, macId);
    HeaderRoundTrip(msg, m);
    SectionsPoint(d, i, m);
    JoinNone(answers);
    RecordsCut(msg, behind, d, i, m.answers, packetId, macId);
    WholeSection(m.answers, |msg| - i);
    WholeSection(m.authority, |msg| - i - an);
    if |msg| < i + an + ns {
      NoneFit(m.additional, |msg| - i - an - ns, packetId, macId);
    }
    if WholeIn(m.answers, |msg| - i) == |m.answers| {
      var d1 := LearnRecords(d, i, m.answers);
      RecordsCut(msg, behind, d1, i + an, m.authority, packetId, macId);
      if WholeIn(m.authority, |msg| - i - an) == |m.authority| {
        RecordsCut(msg, behind, LearnRecords(d1, i + an, m.authority), i + an + ns, m.additional, packetId, macId);
      }
    }
  }

  lemma BehindQuestions(msg: Bytes, behind: Behind, i: nat, packetId: nat, macId: nat)
    requires |msg| >= HEADER_LENGTH && i > |msg|
    ensures SectionEntries(msg, behind, i, packetId, macId) == NO_ENTRIES
  {
    hide U16, RecordEntries;
    BehindTheEnd(msg, behind, i, U16(msg, 6), packetId, macId);
    BehindTheEnd(msg, behind, i, U16(msg, 8), packetId, macId);
    BehindTheEnd(msg, behind, i, U16(msg, 10), packetId, macId);
  }

  /** Of an encoded message that is cut off after any number of bytes, the tables get exactly the
      records that are there whole; of one that is no response, or reports an error, nothing. */
  lemma CutOffRoundTrip(m: Message, msg: Bytes, behind: Behind, packetId: nat, macId: nat)
    requires ValidMessage(m) && WellCompressed(m) && msg <= Encode(m)
    ensures MessageEntries(msg, behind, packetId, macId) == RecordsIn(m, |msg|, packetId, macId)
  {
    hide SectionEntries, SkipQuestions, U16, SectionsPointBack, At, UpTo, Encode, EncodeHeader, Readable, EncodeRecords,
         EncodeQuestions, LearnQuestions, EntriesIn, Join, ValidRecords, ValidQuestion, WithoutError, RelevantHeader;
    var q := HEADER_LENGTH + |EncodeQuestions(m.questions)|;
    var n := q + |EncodeRecords(m.answers)| + |EncodeRecords(m.authority)|;
    var d := LearnQuestions(map[], HEADER_LENGTH, m.questions);
    if |msg| < q {
      NoneFit(m.answers, |msg| - q, packetId, macId);
      NoneFit(m.additional, |msg| - n, packetId, macId);
      JoinNone(NO_ENTRIES);
    }
    if |msg| < HEADER_LENGTH {
      IrrelevantIsIgnored(msg, behind, EMPTY_DNS, packetId, macId);
    } else {
      PartsUpTo(m, msg);
      HeaderRoundTrip(msg, m);
      NothingReadable(msg);
      if |msg| < q {
        QuestionsCut(msg, map[], HEADER_LENGTH, m.questions);
        if SkipQuestions(msg, HEADER_LENGTH, U16(msg, 4)).Some? {
          BehindQuestions(msg, behind, SkipQuestions(msg, HEADER_LENGTH, U16(msg, 4)).value, packetId, macId);
        }
      } else {
        WholePart(msg, HEADER_LENGTH, EncodeQuestions(m.questions));
        QuestionsRoundTrip(msg, map[], HEADER_LENGTH, m.questions);
        SectionsCut(msg, behind, d, q, m, packetId, macId);
      }
    }
  }

  /** All of a message: all of its records. */
  lemma RecordsOfWhole(m: Message, packetId: nat, macId: nat)
    requires ValidMessage(m)
    ensures RecordsIn(m, |Encode(m)|, packetId, macId)
            == RecordsOf(m, packetId, macId)
  {
    hide EncodeHeader, EncodeQuestions, EncodeRecords, EntriesOf, Join, ValidRecords, WithoutError;
    var q := HEADER_LENGTH + |EncodeQuestions(m.questions)|;
    var an, ns := |EncodeRecords(m.answers)|, |EncodeRecords(m.authority)|;
    WholeSection(m.answers, |Encode(m)| - q);
    WholeSection(m.additional, |Encode(m)| - q - an - ns);
    assert m.answers[..|m.answers|] == m.answers && m.additional[..|m.additional|] == m.additional;
  }
}
