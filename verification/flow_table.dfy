/** The flow table of src/flow_table.c: an open-addressed hash table of 5-tuples
    with three quadratic probes, tombstones, lazy expiry and timestamps kept as
    16-bit offsets from a base.

    `Table` is the table as a value and `ProcessStep`, `AdvanceStep` and `WriteStep`
    are its transitions; the class `FlowTable` is the in-place code, proved to make
    exactly those transitions. What the transitions guarantee is proved in
    flow_table_properties.dfy. */
module FlowTables {
  import opened Options

  const NUM_PROBES := 3
  const FLOW_ID_ERROR := 0
  const FLOW_ID_FIRST_UNRESERVED := 7
  const FLOW_ID_LAST_UNRESERVED := 65535
  const FLOW_TABLE_ENTRIES := FLOW_ID_LAST_UNRESERVED - FLOW_ID_FIRST_UNRESERVED + 1
  const EXPIRATION_SECONDS := 30 * 60
  const MIN_UPDATE_OFFSET := -32768
  const MAX_UPDATE_OFFSET := 32767

  /** The fields that identify a flow, in the order the hash reads them. */
  datatype FiveTuple = FiveTuple(
    ipSource: bv32, ipDestination: bv32, portSource: bv16, portDestination: bv16, protocol: bv8)

  datatype Occupancy = Empty | Unsent | Sent | Deleted

  datatype Entry = Entry(flow: FiveTuple, occupied: Occupancy, numPackets: nat, lastUpdate: int)
  {
    predicate Live() {
      occupied.Unsent? || occupied.Sent?
    }

    predicate Holds(flow: FiveTuple) {
      Live() && this.flow == flow
    }

    /** Already sent, and not seen for longer than the expiration period. */
    predicate Stale(base: int, now: int) {
      occupied.Sent? && base + lastUpdate + EXPIRATION_SECONDS < now
    }
  }

  const ZERO_ENTRY := Entry(FiveTuple(0, 0, 0, 0, 0), Empty, 0, 0)

  /** Table size and hash function. The code uses FLOW_TABLE_ENTRIES and FNV-1;
      everything below holds for any size of at least 4 and any hash. */
  datatype Sizing = Sizing(n: nat, hash: FiveTuple -> nat)
  type Params = c: Sizing | c.n >= 4 witness Sizing(4, _ => 0)

  datatype Table = Table(entries: seq<Entry>, base: int, numElements: int, numExpired: nat, numDropped: nat)

  /** What a call to process_flow did, with the slot concerned. */
  datatype Outcome = Dropped | Matched(slot: nat) | Inserted(slot: nat)

  function FlowId(o: Outcome): nat {
    match o
    case Dropped => FLOW_ID_ERROR
    case Matched(i) => i + FLOW_ID_FIRST_UNRESERVED
    case Inserted(i) => i + FLOW_ID_FIRST_UNRESERVED
  }

  /** Storing an integer in an int16_t field. */
  function ToInt16(x: int): (r: int)
    ensures MIN_UPDATE_OFFSET <= r <= MAX_UPDATE_OFFSET
    ensures MIN_UPDATE_OFFSET <= x <= MAX_UPDATE_OFFSET <==> r == x
  {
    (x + 32768) % 65536 - 32768
  }

  /** Probe p of a flow: hash + p/2 + p*p/2. */
  function Slot(c: Params, flow: FiveTuple, p: nat): (i: nat)
    ensures i < c.n
  {
    (c.hash(flow) + p * (p + 1) / 2) % c.n
  }

  predicate OutOfRange(t: Table, now: int) {
    t.numElements > 0 && !(MIN_UPDATE_OFFSET <= now - t.base <= MAX_UPDATE_OFFSET)
  }

  /** Lazy expiry of the one entry a probe looks at. */
  function Visit(t: Table, i: nat, now: int): Table
    requires i < |t.entries|
  {
    if t.entries[i].Stale(t.base, now) then
      t.(entries := t.entries[i := t.entries[i].(occupied := Deleted)],
         numElements := t.numElements - 1,
         numExpired := t.numExpired + 1)
    else t
  }

  datatype ProbeResult = Hit(table: Table, slot: nat) | Miss(table: Table, available: Option<nat>)

  /** The probe sequence from probe p on, `available` being the first free slot met so far. */
  function Probe(c: Params, t: Table, flow: FiveTuple, now: int, p: nat, available: Option<nat>)
    : (r: ProbeResult)
    requires |t.entries| == c.n
    requires available.Some? ==> available.value < c.n
    ensures |r.table.entries| == c.n && r.table.base == t.base && r.table.numDropped == t.numDropped
    ensures match r
            case Hit(t1, i) => i < c.n && t1.entries[i].Holds(flow)
            case Miss(t1, a) => a.Some? ==> a.value < c.n
    decreases NUM_PROBES - p, |t.entries|
  {
    if p >= NUM_PROBES then Miss(t, available)
    else
      var i := Slot(c, flow, p);
      var t1 := Visit(t, i, now);
      var e := t1.entries[i];
      if e.Holds(flow) then Hit(t1, i)
      else if e.Live() then Probe(c, t1, flow, now, p + 1, available)
      else
        var free := if available.None? then Some(i) else available;
        if e.occupied.Empty? then Miss(t1, free) else Probe(c, t1, flow, now, p + 1, free)
  }

  /** Another packet of a flow already in slot i. numPackets is a 4-bit field,
      so the bound of 63 in the code never stops it. */
  function Touch(t: Table, i: nat, now: int): Table
    requires i < |t.entries|
  {
    var e := t.entries[i];
    var count := if e.occupied.Unsent? && e.numPackets < 63 then (e.numPackets + 1) % 16 else e.numPackets;
    t.(entries := t.entries[i := e.(lastUpdate := ToInt16(now - t.base), numPackets := count)])
  }

  function Insert(t: Table, i: nat, flow: FiveTuple, now: int): Table
    requires i < |t.entries|
  {
    var base := if t.numElements == 0 then now else t.base;
    t.(entries := t.entries[i := Entry(flow, Unsent, 1, ToInt16(now - base))],
       base := base,
       numElements := t.numElements + 1)
  }

  function Conclude(r: ProbeResult, flow: FiveTuple, now: int): (Table, Outcome)
    requires r.Hit? ==> r.slot < |r.table.entries|
    requires r.Miss? && r.available.Some? ==> r.available.value < |r.table.entries|
  {
    match r
    case Hit(t, i) => (Touch(t, i, now), Matched(i))
    case Miss(t, None) => (t.(numDropped := t.numDropped + 1), Dropped)
    case Miss(t, Some(i)) => (Insert(t, i, flow, now), Inserted(i))
  }

  function ProcessStep(c: Params, t: Table, flow: FiveTuple, now: int): (r: (Table, Outcome))
    requires |t.entries| == c.n
    ensures |r.0.entries| == c.n
    ensures r.1.Dropped? || (r.1.slot < c.n && r.0.entries[r.1.slot].Holds(flow))
  {
    if OutOfRange(t, now) then (t.(numDropped := t.numDropped + 1), Dropped)
    else Conclude(Probe(c, t, flow, now, 0, None), flow, now)
  }

  /** The set of slots holding a live entry. */
  ghost function LiveSlots(es: seq<Entry>): set<nat> {
    set i: nat | i < |es| && es[i].Live()
  }

  // Re-basing the table.

  predicate FallsBelow(e: Entry, offset: int) {
    e.Live() && e.lastUpdate - offset < MIN_UPDATE_OFFSET
  }

  function Rebased(e: Entry, offset: int): Entry {
    if !e.Live() then e
    else if FallsBelow(e, offset) then e.(occupied := Deleted)
    else e.(lastUpdate := ToInt16(e.lastUpdate - offset))
  }

  function RebasedAll(es: seq<Entry>, offset: int): (r: seq<Entry>)
    ensures |r| == |es|
    ensures forall i :: 0 <= i < |es| ==> r[i] == Rebased(es[i], offset)
  {
    seq(|es|, i requires 0 <= i < |es| => Rebased(es[i], offset))
  }

  ghost function Falling(es: seq<Entry>, offset: int): set<nat> {
    set i: nat | i < |es| && FallsBelow(es[i], offset)
  }

  lemma FallingStep(es: seq<Entry>, offset: int, i: nat)
    requires i < |es|
    ensures |Falling(es[..i + 1], offset)|
            == |Falling(es[..i], offset)| + if FallsBelow(es[i], offset) then 1 else 0
  {
    assert Falling(es[..i + 1], offset)
        == Falling(es[..i], offset) + if FallsBelow(es[i], offset) then {i} else {};
  }

  ghost function AdvanceStep(t: Table, now: int): Table {
    var offset := now - t.base;
    t.(entries := RebasedAll(t.entries, offset),
       numElements := t.numElements - |Falling(t.entries, offset)|,
       base := now)
  }

  // Writing an update.

  datatype FlowLine = FlowLine(id: nat, flow: FiveTuple)

  datatype FlowUpdate = FlowUpdate(
    base: int, numElements: int, numExpired: nat, numDropped: nat, lines: seq<FlowLine>)

  /** One line for each unsent entry among the first m slots, in slot order. */
  function UnsentLines(es: seq<Entry>, m: nat): seq<FlowLine>
    requires m <= |es|
  {
    if m == 0 then []
    else UnsentLines(es, m - 1) +
         if es[m - 1].occupied.Unsent?
         then [FlowLine(m - 1 + FLOW_ID_FIRST_UNRESERVED, es[m - 1].flow)]
         else []
  }

  function MarkSent(e: Entry): Entry {
    if e.occupied.Unsent? then e.(occupied := Sent) else e
  }

  function MarkAllSent(es: seq<Entry>): (r: seq<Entry>)
    ensures |r| == |es|
    ensures forall i :: 0 <= i < |es| ==> r[i] == MarkSent(es[i])
  {
    seq(|es|, i requires 0 <= i < |es| => MarkSent(es[i]))
  }

  function WriteStep(t: Table): (Table, FlowUpdate) {
    (t.(entries := MarkAllSent(t.entries)),
     FlowUpdate(t.base, t.numElements, t.numExpired, t.numDropped, UnsentLines(t.entries, |t.entries|)))
  }

  function InitTable(c: Params): Table {
    Table(seq(c.n, _ => ZERO_ENTRY), 0, 0, 0, 0)
  }

  class FlowTable {
    const params: Params
    const entries: array<Entry>
    var base: int
    var numElements: int
    var numExpired: nat
    var numDropped: nat

    ghost predicate Valid() {
      entries.Length == params.n
    }

    ghost function State(): (t: Table)
      requires Valid()
      reads this, entries
      ensures |t.entries| == params.n
    {
      Table(entries[..], base, numElements, numExpired, numDropped)
    }

    constructor (c: Params)
      ensures Valid() && params == c && fresh(entries)
      ensures State() == InitTable(c)
    {
      params := c;
      entries := new Entry[c.n](_ => ZERO_ENTRY);
      base, numElements, numExpired, numDropped := 0, 0, 0, 0;
    }

    // The places where process_flow writes to the table.

    method ExpireIfStale(i: nat, now: int)
      requires Valid() && i < params.n
      modifies this, entries
      ensures State() == Visit(old(State()), i, now)
    {
      if entries[i].Stale(base, now) {
        entries[i] := entries[i].(occupied := Deleted);
        numElements := numElements - 1;
        numExpired := numExpired + 1;
      }
    }

    method Refresh(i: nat, now: int)
      requires Valid() && i < params.n
      modifies entries
      ensures State() == Touch(old(State()), i, now)
    {
      var count := entries[i].numPackets;
      if entries[i].occupied.Unsent? && count < 63 {
        count := (count + 1) % 16;
      }
      entries[i] := entries[i].(lastUpdate := ToInt16(now - base), numPackets := count);
    }

    method Place(i: nat, flow: FiveTuple, now: int)
      requires Valid() && i < params.n
      modifies this, entries
      ensures State() == Insert(old(State()), i, flow, now)
    {
      if numElements == 0 {
        base := now;
      }
      entries[i] := Entry(flow, Unsent, 1, ToInt16(now - base));
      numElements := numElements + 1;
    }

    /** The probe loop: finds the slot of the flow, or else the first free slot. */
    method ProbeFor(flow: FiveTuple, now: int) returns (found: bool, slot: Option<nat>)
      requires Valid()
      modifies this, entries
      ensures found ==> slot.Some?
      ensures Probe(params, old(State()), flow, now, 0, None)
              == if found then Hit(State(), slot.value) else Miss(State(), slot)
    {
      slot := None;
      var probe := 0;
      while probe < NUM_PROBES
        invariant 0 <= probe <= NUM_PROBES
        invariant slot.Some? ==> slot.value < params.n
        invariant Probe(params, old(State()), flow, now, 0, None)
                  == Probe(params, State(), flow, now, probe, slot)
      {
        var i := Slot(params, flow, probe);
        ExpireIfStale(i, now);
        var e := entries[i];
        if e.Holds(flow) {
          return true, Some(i);
        }
        if !e.Live() {
          if slot.None? {
            slot := Some(i);
          }
          if e.occupied.Empty? {
            return false, slot;
          }
        }
        probe := probe + 1;
      }
      return false, slot;
    }

    method ProcessFlow(flow: FiveTuple, now: int) returns (id: nat, ghost outcome: Outcome)
      requires Valid()
      modifies this, entries
      ensures Valid()
      ensures (State(), outcome) == ProcessStep(params, old(State()), flow, now)
      ensures id == FlowId(outcome)
    {
      if numElements > 0 && (now - base > MAX_UPDATE_OFFSET || now - base < MIN_UPDATE_OFFSET) {
        numDropped := numDropped + 1;
        return FLOW_ID_ERROR, Dropped;
      }
      var found, slot := ProbeFor(flow, now);
      if found {
        Refresh(slot.value, now);
        return slot.value + FLOW_ID_FIRST_UNRESERVED, Matched(slot.value);
      }
      if slot.None? {
        numDropped := numDropped + 1;
        return FLOW_ID_ERROR, Dropped;
      }
      Place(slot.value, flow, now);
      return slot.value + FLOW_ID_FIRST_UNRESERVED, Inserted(slot.value);
    }

    method AdvanceBaseTimestamp(now: int)
      requires Valid()
      modifies this, entries
      ensures Valid() && State() == AdvanceStep(old(State()), now)
    {
      var offset := now - base;
      ghost var before := entries[..];
      assert Falling(before[..0], offset) == {};
      hide ToInt16, Falling, RebasedAll;
      for i := 0 to params.n
        invariant base == old(base) && numExpired == old(numExpired) && numDropped == old(numDropped)
        invariant forall k :: 0 <= k < i ==> entries[k] == Rebased(before[k], offset)
        invariant forall k :: i <= k < params.n ==> entries[k] == before[k]
        invariant numElements == old(numElements) - |Falling(before[..i], offset)|
      {
        FallingStep(before, offset, i);
        if entries[i].Live() {
          if entries[i].lastUpdate - offset < MIN_UPDATE_OFFSET {
            entries[i] := entries[i].(occupied := Deleted);
            numElements := numElements - 1;
          } else {
            entries[i] := entries[i].(lastUpdate := ToInt16(entries[i].lastUpdate - offset));
          }
        }
      }
      assert before[..params.n] == before;
      assert entries[..] == RebasedAll(before, offset);
      base := now;
    }

    method WriteUpdate() returns (u: FlowUpdate)
      requires Valid()
      modifies entries
      ensures Valid() && (State(), u) == WriteStep(old(State()))
    {
      ghost var before := entries[..];
      var lines := [];
      for i := 0 to params.n
        invariant forall k :: 0 <= k < i ==> entries[k] == MarkSent(before[k])
        invariant forall k :: i <= k < params.n ==> entries[k] == before[k]
        invariant lines == UnsentLines(before, i)
      {
        if entries[i].occupied.Unsent? {
          lines := lines + [FlowLine(i + FLOW_ID_FIRST_UNRESERVED, entries[i].flow)];
          entries[i] := entries[i].(occupied := Sent);
        }
      }
      assert entries[..] == MarkAllSent(before);
      u := FlowUpdate(base, numElements, numExpired, numDropped, lines);
    }
  }
}
