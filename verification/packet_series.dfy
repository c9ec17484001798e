/** The packet series of src/packet_series.c: a bounded buffer of packets whose
    timestamps are kept as 32-bit differences from the packet before. */
module PacketSeriesTables {
  import opened Bits

  const PACKET_DATA_BUFFER_ENTRIES := 65536
  const UINT32_MAX: UInt32 := 0xFFFF_FFFF

  datatype PacketData = PacketData(delta: int, size: nat, flow: nat)

  datatype Series = Series(start: int, last: int, data: seq<PacketData>, discarded: UInt32)

  const EMPTY_SERIES := Series(0, 0, [], 0)

  /** A packet as it is offered to the series; its time is in microseconds. */
  datatype Offer = Offer(micros: int, size: nat, flow: nat)

  function Saturated(n: nat): UInt32 {
    if n < UINT32_MAX then n else UINT32_MAX
  }

  /** The uint32_t counter stops when adding one would wrap it to zero. */
  function Discard(n: UInt32): (r: UInt32)
    ensures r == Saturated(n + 1)
  {
    if (n + 1) % (UINT32_MAX + 1) > n then n + 1 else n
  }

  /** Adding one packet; the result is the packet's index, or -1 when the buffer is full. */
  function AddStep(s: Series, p: Offer): (Series, int) {
    if |s.data| >= PACKET_DATA_BUFFER_ENTRIES then
      (s.(discarded := Discard(s.discarded)), -1)
    else
      var delta := if |s.data| == 0 then 0 else ToInt32(p.micros - s.last);
      (s.(start := if |s.data| == 0 then p.micros else s.start,
          last := p.micros,
          data := s.data + [PacketData(delta, p.size % 65536, p.flow % 65536)]),
       |s.data|)
  }

  // What the series holds after a list of offers.

  function Kept(n: nat): nat {
    if n < PACKET_DATA_BUFFER_ENTRIES then n else PACKET_DATA_BUFFER_ENTRIES
  }

  function Gap(ps: seq<Offer>, i: nat): int
    requires i < |ps|
  {
    if i == 0 then 0 else ps[i].micros - ps[i - 1].micros
  }

  function Stored(ps: seq<Offer>, i: nat): PacketData
    requires i < |ps|
  {
    PacketData(ToInt32(Gap(ps, i)), ps[i].size % 65536, ps[i].flow % 65536)
  }

  /** The series holds the first 65536 offers since it was cleared and counts the rest. */
  ghost predicate Records(s: Series, ps: seq<Offer>) {
    && |s.data| == Kept(|ps|)
    && s.discarded == Saturated(|ps| - |s.data|)
    && (|s.data| > 0 ==> s.start == ps[0].micros && s.last == ps[|s.data| - 1].micros)
    && forall i :: 0 <= i < |s.data| ==> s.data[i] == Stored(ps, i)
  }

  lemma AddRecords(s: Series, ps: seq<Offer>, p: Offer)
    requires Records(s, ps)
    ensures var (s1, id) := AddStep(s, p);
            && Records(s1, ps + [p])
            && id == if |ps| < PACKET_DATA_BUFFER_ENTRIES then |ps| else -1
  {
  }

  // Reading the times back.

  function Deltas(data: seq<PacketData>): (ds: seq<int>)
    ensures |ds| == |data|
    ensures forall i :: 0 <= i < |data| ==> ds[i] == data[i].delta
  {
    seq(|data|, i requires 0 <= i < |data| => data[i].delta)
  }

  /** The time the server computes for packet i: the start plus the differences up to it. */
  function Decoded(start: int, deltas: seq<int>, i: nat): int
    requires i < |deltas|
  {
    deltas[i] + if i == 0 then start else Decoded(start, deltas, i - 1)
  }

  /** How often storing x in an int32_t wraps around. */
  function Wraps(x: int): (w: int)
    ensures x == ToInt32(x) + 0x1_0000_0000 * w
  {
    (x + 0x8000_0000) / 0x1_0000_0000
  }

  function TotalWraps(ps: seq<Offer>, i: nat): int
    requires i < |ps|
  {
    Wraps(Gap(ps, i)) + if i == 0 then 0 else TotalWraps(ps, i - 1)
  }

  lemma {:induction false} DecodedModulo(s: Series, ps: seq<Offer>, i: nat)
    requires Records(s, ps) && i < |s.data|
    ensures ps[i].micros == Decoded(s.start, Deltas(s.data), i) + 0x1_0000_0000 * TotalWraps(ps, i)
  {
    assert s.data[i].delta == ToInt32(Gap(ps, i));
    if i > 0 {
      DecodedModulo(s, ps, i - 1);
    }
  }

  lemma {:induction false} DecodedExactly(s: Series, ps: seq<Offer>, i: nat)
    requires Records(s, ps) && i < |s.data|
    requires forall k :: 0 < k <= i ==> FitsInt32(Gap(ps, k))
    ensures Decoded(s.start, Deltas(s.data), i) == ps[i].micros
  {
    assert s.data[i].delta == ToInt32(Gap(ps, i));
    if i > 0 {
      DecodedExactly(s, ps, i - 1);
    }
  }

  lemma DecodedGap(s: Series, ps: seq<Offer>, i: nat)
    requires Records(s, ps) && i < |s.data|
    requires forall k :: 0 <= k < |s.data| ==> Decoded(s.start, Deltas(s.data), k) == ps[k].micros
    ensures FitsInt32(Gap(ps, i))
  {
  }

  /** Every accepted packet's time is recovered modulo 2^32 in every run, and every time is
      recovered exactly if and only if each gap between neighbours fits in 32 bits. */
  lemma SeriesRoundTrip(s: Series, ps: seq<Offer>)
    requires Records(s, ps)
    ensures forall i :: 0 <= i < |s.data|
              ==> ps[i].micros == Decoded(s.start, Deltas(s.data), i) + 0x1_0000_0000 * TotalWraps(ps, i)
    ensures (forall i :: 0 <= i < |s.data| ==> Decoded(s.start, Deltas(s.data), i) == ps[i].micros)
            <==> (forall i :: 0 <= i < |s.data| ==> FitsInt32(Gap(ps, i)))
  {
    forall i | 0 <= i < |s.data|
      ensures ps[i].micros == Decoded(s.start, Deltas(s.data), i) + 0x1_0000_0000 * TotalWraps(ps, i)
    {
      DecodedModulo(s, ps, i);
    }
    if forall i :: 0 <= i < |s.data| ==> FitsInt32(Gap(ps, i)) {
      forall i | 0 <= i < |s.data| ensures Decoded(s.start, Deltas(s.data), i) == ps[i].micros {
        DecodedExactly(s, ps, i);
      }
    }
    if forall i :: 0 <= i < |s.data| ==> Decoded(s.start, Deltas(s.data), i) == ps[i].micros {
      forall i | 0 <= i < |s.data| ensures FitsInt32(Gap(ps, i)) {
        DecodedGap(s, ps, i);
      }
    }
  }

  // Writing an update.

  /** One packet line. A flow id too large for the table size is written as -1. */
  datatype PacketLine = PacketLine(delta: int, size: nat, flow: int)

  datatype SeriesUpdate = SeriesUpdate(start: int, discarded: nat, lines: seq<PacketLine>)

  function LineFor(tableEntries: nat, p: PacketData): PacketLine {
    PacketLine(p.delta, p.size, if p.flow >= tableEntries then -1 else p.flow)
  }

  function WriteSeries(tableEntries: nat, s: Series): (u: SeriesUpdate)
    ensures |u.lines| == |s.data|
    ensures forall i :: 0 <= i < |s.data| ==> u.lines[i] == LineFor(tableEntries, s.data[i])
  {
    SeriesUpdate(s.start, s.discarded,
                 seq(|s.data|, i requires 0 <= i < |s.data| => LineFor(tableEntries, s.data[i])))
  }

  class PacketSeries {
    var start: int
    var last: int
    var length: nat
    const packetData: array<PacketData>
    var discarded: UInt32

    ghost predicate Valid()
      reads this
    {
      packetData.Length == PACKET_DATA_BUFFER_ENTRIES && length <= PACKET_DATA_BUFFER_ENTRIES
    }

    ghost function State(): Series
      requires Valid()
      reads this, packetData
    {
      Series(start, last, packetData[..length], discarded)
    }

    constructor ()
      ensures Valid() && fresh(packetData) && State() == EMPTY_SERIES
    {
      start, last, length, discarded := 0, 0, 0, 0;
      packetData := new PacketData[PACKET_DATA_BUFFER_ENTRIES](_ => PacketData(0, 0, 0));
    }

    method Init()
      requires Valid()
      modifies this, packetData
      ensures Valid() && State() == EMPTY_SERIES
    {
      start, last, length, discarded := 0, 0, 0, 0;
      forall i | 0 <= i < packetData.Length {
        packetData[i] := PacketData(0, 0, 0);
      }
    }

    method AddPacket(p: Offer) returns (id: int)
      requires Valid()
      modifies this, packetData
      ensures Valid() && (State(), id) == AddStep(old(State()), p)
    {
      if length >= PACKET_DATA_BUFFER_ENTRIES {
        if (discarded + 1) % (UINT32_MAX + 1) > discarded {
          discarded := discarded + 1;
        }
        return -1;
      }
      var delta := 0;
      if length == 0 {
        start := p.micros;
      } else {
        delta := ToInt32(p.micros - last);
      }
      packetData[length] := PacketData(delta, p.size % 65536, p.flow % 65536);
      last := p.micros;
      length := length + 1;
      assert packetData[..length] == old(packetData[..length]) + [packetData[length - 1]];
      return length - 1;
    }

    method WriteUpdate(tableEntries: nat) returns (u: SeriesUpdate)
      requires Valid()
      ensures u == WriteSeries(tableEntries, State())
    {
      var lines := [];
      for i := 0 to length
        invariant lines == WriteSeries(tableEntries, State()).lines[..i]
      {
        var flow: int := packetData[i].flow;
        if flow >= tableEntries {
          flow := -1;
        }
        lines := lines + [PacketLine(packetData[i].delta, packetData[i].size, flow)];
      }
      u := SeriesUpdate(start, discarded, lines);
    }
  }
}
