/** The DNS tables of src/dns_table.c: two bounded lists that count what they drop. */
module DnsTables {
  import opened Bits

  const DNS_TABLE_A_ENTRIES := 1024
  const DNS_TABLE_CNAME_ENTRIES := 1024

  type Name = seq<seq<Byte>>

  datatype AEntry = AEntry(packetId: nat, macId: nat, name: Name, ip: nat, ttl: int)
  datatype CnameEntry = CnameEntry(packetId: nat, macId: nat, name: Name, cname: Name, ttl: int)

  datatype DnsState = DnsState(a: seq<AEntry>, cname: seq<CnameEntry>, droppedA: nat, droppedCname: nat)

  const EMPTY_DNS := DnsState([], [], 0, 0)

  predicate WithinBounds(s: DnsState) {
    |s.a| <= DNS_TABLE_A_ENTRIES && |s.cname| <= DNS_TABLE_CNAME_ENTRIES
  }

  function AddA(s: DnsState, e: AEntry): DnsState {
    if |s.a| >= DNS_TABLE_A_ENTRIES then s.(droppedA := s.droppedA + 1) else s.(a := s.a + [e])
  }

  function AddCname(s: DnsState, e: CnameEntry): DnsState {
    if |s.cname| >= DNS_TABLE_CNAME_ENTRIES then s.(droppedCname := s.droppedCname + 1)
    else s.(cname := s.cname + [e])
  }

  // Appending a whole list.

  function Room(limit: nat, used: nat, wanted: nat): nat {
    if used >= limit then 0 else if wanted < limit - used then wanted else limit - used
  }

  /** Both lists extended as far as they have room, the rest counted. */
  function Appended(s: DnsState, a: seq<AEntry>, cname: seq<CnameEntry>): DnsState {
    var roomA := Room(DNS_TABLE_A_ENTRIES, |s.a|, |a|);
    var roomCname := Room(DNS_TABLE_CNAME_ENTRIES, |s.cname|, |cname|);
    DnsState(s.a + a[..roomA], s.cname + cname[..roomCname],
             s.droppedA + |a| - roomA, s.droppedCname + |cname| - roomCname)
  }

  datatype Entries = Entries(a: seq<AEntry>, cname: seq<CnameEntry>)

  const NO_ENTRIES := Entries([], [])

  function Join(e: Entries, f: Entries): Entries {
    Entries(e.a + f.a, e.cname + f.cname)
  }

  lemma JoinNone(e: Entries)
    ensures Join(e, NO_ENTRIES) == e && Join(NO_ENTRIES, e) == e
  {
  }

  function AppendAll(s: DnsState, e: Entries): DnsState {
    Appended(s, e.a, e.cname)
  }

  lemma AppendJoined(s: DnsState, e: Entries, f: Entries)
    ensures AppendAll(AppendAll(s, e), f) == AppendAll(s, Join(e, f))
  {
    AppendedTwice(s, e.a, e.cname, f.a, f.cname);
  }

  lemma AppendedNothing(s: DnsState)
    ensures Appended(s, [], []) == s
  {
  }

  lemma AppendedTwice(s: DnsState, a: seq<AEntry>, cname: seq<CnameEntry>, a1: seq<AEntry>, cname1: seq<CnameEntry>)
    ensures Appended(Appended(s, a, cname), a1, cname1) == Appended(s, a + a1, cname + cname1)
  {
  }

  /** The first 1024 entries of each kind, in order, and the numbers of the others. */
  ghost predicate Lists(s: DnsState, e: Entries) {
    && s.a <= e.a && |s.a| == (if |e.a| < 1024 then |e.a| else 1024) && s.droppedA == |e.a| - |s.a|
    && s.cname <= e.cname && |s.cname| == (if |e.cname| < 1024 then |e.cname| else 1024)
    && s.droppedCname == |e.cname| - |s.cname|
  }

  lemma AppendLists(e: Entries)
    ensures Lists(AppendAll(EMPTY_DNS, e), e)
  {
  }

  class DnsTable {
    const aEntries: array<AEntry>
    const cnameEntries: array<CnameEntry>
    var aLength: nat
    var cnameLength: nat
    var droppedA: nat
    var droppedCname: nat

    ghost predicate Valid()
      reads this
    {
      && aEntries.Length == DNS_TABLE_A_ENTRIES && cnameEntries.Length == DNS_TABLE_CNAME_ENTRIES
      && aLength <= DNS_TABLE_A_ENTRIES && cnameLength <= DNS_TABLE_CNAME_ENTRIES
    }

    ghost function State(): (s: DnsState)
      requires Valid()
      reads this, aEntries, cnameEntries
      ensures WithinBounds(s)
    {
      DnsState(aEntries[..aLength], cnameEntries[..cnameLength], droppedA, droppedCname)
    }

    constructor ()
      ensures Valid() && fresh(aEntries) && fresh(cnameEntries) && State() == EMPTY_DNS
    {
      aEntries := new AEntry[DNS_TABLE_A_ENTRIES](_ => AEntry(0, 0, [], 0, 0));
      cnameEntries := new CnameEntry[DNS_TABLE_CNAME_ENTRIES](_ => CnameEntry(0, 0, [], [], 0));
      aLength, cnameLength, droppedA, droppedCname := 0, 0, 0, 0;
    }

    method Init()
      requires Valid()
      modifies this
      ensures Valid() && State() == EMPTY_DNS
    {
      aLength, cnameLength, droppedA, droppedCname := 0, 0, 0, 0;
    }

    /** What an update lists. */
    method Read() returns (s: DnsState)
      requires Valid()
      ensures s == State()
    {
      s := DnsState(aEntries[..aLength], cnameEntries[..cnameLength], droppedA, droppedCname);
    }

    method Add(e: AEntry) returns (stored: bool)
      requires Valid()
      modifies this, aEntries
      ensures Valid() && State() == AddA(old(State()), e)
      ensures stored <==> |old(State()).a| < DNS_TABLE_A_ENTRIES
    {
      if aLength >= DNS_TABLE_A_ENTRIES {
        droppedA := droppedA + 1;
        return false;
      }
      aEntries[aLength] := e;
      aLength := aLength + 1;
      assert aEntries[..aLength] == old(aEntries[..aLength]) + [e];
      return true;
    }

    method AddAlias(e: CnameEntry) returns (stored: bool)
      requires Valid()
      modifies this, cnameEntries
      ensures Valid() && State() == AddCname(old(State()), e)
      ensures stored <==> |old(State()).cname| < DNS_TABLE_CNAME_ENTRIES
    {
      if cnameLength >= DNS_TABLE_CNAME_ENTRIES {
        droppedCname := droppedCname + 1;
        return false;
      }
      cnameEntries[cnameLength] := e;
      cnameLength := cnameLength + 1;
      assert cnameEntries[..cnameLength] == old(cnameEntries[..cnameLength]) + [e];
      return true;
    }
  }
}
