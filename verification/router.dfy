/** The step structure of src/main.c: what process_packet does with one packet and what the
    SIGALRM handler does, over the tables of the other modules. */
module Routers {
  import opened AddressTables
  import opened Bits
  import opened DnsParsers
  import opened DnsTables
  import opened FlowTables
  import opened Options
  import opened PacketSeriesTables
  import opened Whitelists

  const FLOW_ID_AARP := 1
  const FLOW_ID_ARP := 2
  const FLOW_ID_AT := 3
  const FLOW_ID_IPV6 := 4
  const FLOW_ID_IPX := 5
  const FLOW_ID_REVARP := 6
  const PROTOCOL_UDP: bv8 := 17
  const DNS_PORT: bv16 := 53

  /** The flow table's size and hash, and how many alarms make an update: 1, or 6 with
      frequent updates. Ids have to fit in 16 bits. */
  datatype Configuration = Configuration(table: Params, alarmsPerUpdate: nat)
  type Config = c: Configuration | c.table.n <= FLOW_TABLE_ENTRIES && c.alarmsPerUpdate > 0
    witness Configuration(Sizing(4, _ => 0), 1)

  /** A packet reduced to what process_packet takes from it, and what lies behind it in memory. */
  datatype Traffic =
    | Ip(flow: FiveTuple, sourceMac: bv48, destinationMac: bv48, payload: seq<Byte>, behind: Behind)
    | Aarp | Arp | AppleTalk | Ipv6 | Ipx | Revarp | UnknownNetwork

  datatype Packet = Packet(seconds: int, micros: nat, size: nat, traffic: Traffic)

  function Micros(p: Packet): int {
    p.seconds * 1000000 + p.micros
  }

  datatype RouterState = RouterState(
    flows: Table, series: Series, addresses: Ring, dns: DnsState, sequenceNumber: nat, alarmCount: nat)

  datatype Update = Update(
    sequenceNumber: nat, timestamp: int, whitelist: Option<string>,
    packets: SeriesUpdate, flows: FlowUpdate, dns: DnsState, addresses: AddressUpdate)

  predicate Sized(c: Config, s: RouterState) {
    |s.flows.entries| == c.table.n && Shaped(s.addresses)
  }

  // process_packet

  function ReservedId(t: Traffic): nat {
    match t
    case Ip(_, _, _, _, _) => FLOW_ID_ERROR
    case Aarp => FLOW_ID_AARP
    case Arp => FLOW_ID_ARP
    case AppleTalk => FLOW_ID_AT
    case Ipv6 => FLOW_ID_IPV6
    case Ipx => FLOW_ID_IPX
    case Revarp => FLOW_ID_REVARP
    case UnknownNetwork => FLOW_ID_ERROR
  }

  predicate IsDnsResponse(t: Traffic) {
    t.Ip? && t.flow.protocol == PROTOCOL_UDP && t.flow.portSource == DNS_PORT
  }

  function SourcePair(t: Traffic): Pair
    requires t.Ip?
  {
    Pair(t.flow.ipSource, t.sourceMac)
  }

  function DestinationPair(t: Traffic): Pair
    requires t.Ip?
  {
    Pair(t.flow.ipDestination, t.destinationMac)
  }

  /** The address table and the id of the destination for a DNS response, -1 otherwise. */
  function AddressStep(r: Ring, t: Traffic): (res: (Ring, int))
    requires Shaped(r)
    ensures Shaped(res.0)
  {
    if !t.Ip? then (r, -1)
    else
      var r1 := LookupStep(r, SourcePair(t)).0;
      var r2 := LookupStep(r1, DestinationPair(t)).0;
      if IsDnsResponse(t) then LookupStep(r2, DestinationPair(t)) else (r2, -1)
  }

  /** The flow table, the packet's flow id and, for IP, what the flow table did. */
  function FlowStep(c: Config, t: Table, p: Packet): (res: (Table, nat, Option<Outcome>))
    requires |t.entries| == c.table.n
    ensures |res.0.entries| == c.table.n
  {
    if p.traffic.Ip? then
      var (t1, o) := ProcessStep(c.table, t, p.traffic.flow, p.seconds);
      (t1, FlowId(o), Some(o))
    else (t, ReservedId(p.traffic), None)
  }

  function DnsPacketStep(s: DnsState, t: Traffic, packetId: int, macId: int): DnsState {
    if IsDnsResponse(t) && |t.payload| > 0 && macId >= 0 && packetId >= 0
    then DnsStep(t.payload, t.behind, s, packetId % 65536, macId % 256).0
    else s
  }

  function PacketStep(c: Config, s: RouterState, p: Packet): (r: RouterState)
    requires Sized(c, s)
    ensures Sized(c, r)
  {
    var (addresses, macId) := AddressStep(s.addresses, p.traffic);
    var (flows, id, _) := FlowStep(c, s.flows, p);
    var (series, packetId) := AddStep(s.series, Offer(Micros(p), p.size, id));
    s.(addresses := addresses, flows := flows, series := series,
       dns := DnsPacketStep(s.dns, p.traffic, packetId, macId))
  }

  // write_update and the alarm handler

  ghost function UpdateStep(c: Config, domains: seq<string>, s: RouterState, now: int): (r: (RouterState, Update))
    requires Sized(c, s)
    ensures Sized(c, r.0)
  {
    var (flows, flowUpdate) := WriteStep(s.flows);
    var (addresses, addressUpdate) := WriteRing(s.addresses);
    (RouterState(AdvanceStep(flows, now), EMPTY_SERIES, addresses, EMPTY_DNS, s.sequenceNumber + 1, s.alarmCount),
     Update(s.sequenceNumber, now, if s.sequenceNumber == 0 then Some(Printed(domains)) else None,
            WriteSeries(c.table.n, s.series), flowUpdate, s.dns, addressUpdate))
  }

  function CountAlarm(c: Config, s: RouterState): (r: RouterState)
    requires Sized(c, s)
    ensures Sized(c, r)
  {
    s.(alarmCount := (s.alarmCount + 1) % TWO_32)
  }

  /** The SIGALRM branch of handle_signals: the state afterwards and the update, if one is due. */
  ghost function AlarmStep(c: Config, domains: seq<string>, s: RouterState, now: int)
    : (r: (RouterState, Option<Update>))
    requires Sized(c, s)
    ensures Sized(c, r.0)
  {
    var s1 := CountAlarm(c, s);
    if s1.alarmCount % c.alarmsPerUpdate != 0 then (s1, None)
    else (UpdateStep(c, domains, s1, now).0, Some(UpdateStep(c, domains, s1, now).1))
  }

  function InitialState(c: Config): RouterState {
    RouterState(InitTable(c.table), EMPTY_SERIES, EmptyRing(), EMPTY_DNS, 0, 0)
  }

  /** The program's static tables and counters. */
  class Router {
    const config: Config
    const flowTable: FlowTable
    const packetData: PacketSeries
    const addressTable: AddressTable
    const dnsTable: DnsTable
    const whitelist: Whitelist
    var sequenceNumber: nat
    var alarmCount: nat

    ghost predicate Valid()
      reads this, packetData, addressTable, dnsTable, whitelist
    {
      && flowTable.Valid() && flowTable.params == config.table
      && packetData.Valid() && addressTable.Valid() && dnsTable.Valid() && whitelist.Valid()
    }

    ghost function State(): (s: RouterState)
      requires Valid()
      reads this, flowTable, flowTable.entries, packetData, packetData.packetData
      reads addressTable, addressTable.entries, dnsTable, dnsTable.aEntries, dnsTable.cnameEntries, whitelist
      ensures Sized(config, s)
    {
      RouterState(flowTable.State(), packetData.State(), addressTable.State(), dnsTable.State(),
                  sequenceNumber, alarmCount)
    }

    constructor (c: Config, domains: Whitelist)
      requires domains.Valid()
      ensures Valid() && config == c && whitelist == domains
      ensures State() == InitialState(c)
    {
      config := c;
      flowTable := new FlowTable(c.table);
      packetData := new PacketSeries();
      addressTable := new AddressTable();
      dnsTable := new DnsTable();
      whitelist := domains;
      sequenceNumber, alarmCount := 0, 0;
    }

    method LookupAddresses(t: Traffic) returns (macId: int)
      requires Valid()
      modifies addressTable, addressTable.entries
      ensures addressTable.Valid()
      ensures (addressTable.State(), macId) == AddressStep(old(addressTable.State()), t)
    {
      macId := -1;
      if t.Ip? {
        var _ := addressTable.Lookup(SourcePair(t));
        var _ := addressTable.Lookup(DestinationPair(t));
        if IsDnsResponse(t) {
          macId := addressTable.Lookup(DestinationPair(t));
        }
      }
    }

    method ProcessPacket(p: Packet)
      requires Valid()
      modifies flowTable, flowTable.entries, packetData, packetData.packetData
      modifies addressTable, addressTable.entries, dnsTable, dnsTable.aEntries, dnsTable.cnameEntries
      ensures Valid() && State() == PacketStep(config, old(State()), p)
    {
      hide ProcessStep, AddStep, AddressStep, DnsStep, Shaped;
      var macId := LookupAddresses(p.traffic);
      var flowId := ReservedId(p.traffic);
      if p.traffic.Ip? {
        ghost var outcome;
        flowId, outcome := flowTable.ProcessFlow(p.traffic.flow, p.seconds);
      }
      var packetId := packetData.AddPacket(Offer(Micros(p), p.size, flowId));
      if IsDnsResponse(p.traffic) && |p.traffic.payload| > 0 && macId >= 0 && packetId >= 0 {
        var _ := ProcessDnsPacket(p.traffic.payload, p.traffic.behind, dnsTable, packetId % 65536, macId % 256);
      }
    }

    method WriteUpdate(now: int) returns (u: Update)
      requires Valid()
      modifies this`sequenceNumber, flowTable, flowTable.entries, packetData, packetData.packetData
      modifies addressTable`added, dnsTable
      ensures Valid() && whitelist.domains[..] == old(whitelist.domains[..])
      ensures (State(), u) == UpdateStep(config, whitelist.domains[..], old(State()), now)
    {
      hide WriteStep, AdvanceStep, WriteSeries, WriteRing, Printed, Shaped;
      var domains: Option<string> := None;
      if sequenceNumber == 0 {
        var text := whitelist.WriteUpdate();
        domains := Some(text);
      }
      var packets := packetData.WriteUpdate(config.table.n);
      var flows := flowTable.WriteUpdate();
      var dns := dnsTable.Read();
      var addresses := addressTable.WriteUpdate();
      u := Update(sequenceNumber, now, domains, packets, flows, dns, addresses);
      sequenceNumber := sequenceNumber + 1;
      packetData.Init();
      flowTable.AdvanceBaseTimestamp(now);
      dnsTable.Init();
      assert flowTable.State() == AdvanceStep(WriteStep(old(flowTable.State())).0, now);
      assert (addressTable.State(), addresses) == WriteRing(old(addressTable.State()));
      assert packetData.State() == EMPTY_SERIES && dnsTable.State() == EMPTY_DNS;
    }

    method HandleAlarm(now: int) returns (u: Option<Update>)
      requires Valid()
      modifies this, flowTable, flowTable.entries, packetData, packetData.packetData
      modifies addressTable`added, dnsTable
      ensures Valid()
      ensures (State(), u) == AlarmStep(config, whitelist.domains[..], old(State()), now)
    {
      hide UpdateStep, Shaped;
      alarmCount := (alarmCount + 1) % TWO_32;
      u := None;
      if alarmCount % config.alarmsPerUpdate == 0 {
        var update := WriteUpdate(now);
        u := Some(update);
      }
    }
  }
}
