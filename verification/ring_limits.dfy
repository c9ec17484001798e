/** Where the address ring misleads: a DNS response and 256 insertions behind it in one window. */
module RingLimits {
  import opened AddressTables
  import opened Bits
  import opened DnsParsers
  import DnsCutOff
  import DnsRoundTrip
  import opened DnsTables
  import opened FlowTables
  import opened Limits
  import opened PacketTheorems
  import opened PacketSeriesTables
  import opened Replication
  import opened Retracing
  import opened Routers
  import opened Runs
  import opened Theorems

  const SERVER: bv32 := 0x0808_0808    // 8.8.8.8, public
  const CLIENT: bv32 := 0x0a00_0002    // 10.0.0.2
  const GATEWAY_MAC: bv48 := 0x11
  const CLIENT_MAC: bv48 := 0x22

  /** A DNS response from the server to the client. */
  function Response(payload: DnsRoundTrip.Bytes): Packet {
    Packet(0, 0, 0, Ip(FiveTuple(SERVER, CLIENT, DNS_PORT, 1024, PROTOCOL_UDP), GATEWAY_MAC, CLIENT_MAC, payload,
                       ZEROS))
  }

  type Digit = k: nat | k < 16

  /** The address 10.0.1.k. */
  function HostIp(k: Digit): bv32 {
    match k
    case 0 => 0x0a00_0100
    case 1 => 0x0a00_0101
    case 2 => 0x0a00_0102
    case 3 => 0x0a00_0103
    case 4 => 0x0a00_0104
    case 5 => 0x0a00_0105
    case 6 => 0x0a00_0106
    case 7 => 0x0a00_0107
    case 8 => 0x0a00_0108
    case 9 => 0x0a00_0109
    case 10 => 0x0a00_010a
    case 11 => 0x0a00_010b
    case 12 => 0x0a00_010c
    case 13 => 0x0a00_010d
    case 14 => 0x0a00_010e
    case _ => 0x0a00_010f
  }

  /** The MAC address 00:00:00:00:00:0k. */
  function HostMac(k: Digit): bv48 {
    match k
    case 0 => 0x00
    case 1 => 0x01
    case 2 => 0x02
    case 3 => 0x03
    case 4 => 0x04
    case 5 => 0x05
    case 6 => 0x06
    case 7 => 0x07
    case 8 => 0x08
    case 9 => 0x09
    case 10 => 0x0a
    case 11 => 0x0b
    case 12 => 0x0c
    case 13 => 0x0d
    case 14 => 0x0e
    case _ => 0x0f
  }

  /** A packet to the server from the i-th pair of an IP and a MAC address. */
  function HostPacket(i: nat): Packet
    requires i < 256
  {
    Packet(0, 0, 0, Ip(FiveTuple(HostIp(i / 16), SERVER, 1024, 80, 6), HostMac(i % 16), 0, [], ZEROS))
  }

  const CLIENT_PAIR := Pair(CLIENT, CLIENT_MAC)

  function HostPair(i: nat): Pair
    requires i < 256
  {
    Pair(HostIp(i / 16), HostMac(i % 16))
  }

  function PacketAt(payload: DnsRoundTrip.Bytes, b: nat): Packet
    requires b <= 256
  {
    if b == 0 then Response(payload) else HostPacket(b - 1)
  }

  /** The response and the first m host packets. */
  function Arrivals(payload: DnsRoundTrip.Bytes, m: nat): seq<Step>
    requires m <= 256
  {
    seq(m + 1, b requires 0 <= b <= m => Arrival(PacketAt(payload, b)))
  }

  /** The pairs they insert. */
  function HostPairs(m: nat): seq<Pair>
    requires m <= 256
  {
    [CLIENT_PAIR] + seq(m, i requires 0 <= i < m => HostPair(i))
  }

  // The digits of an address, so that different digits give different addresses.

  function IpDigit(ip: bv32): nat {
    if ip == 0x0a00_0100 then 0
    else if ip == 0x0a00_0101 then 1
    else if ip == 0x0a00_0102 then 2
    else if ip == 0x0a00_0103 then 3
    else if ip == 0x0a00_0104 then 4
    else if ip == 0x0a00_0105 then 5
    else if ip == 0x0a00_0106 then 6
    else if ip == 0x0a00_0107 then 7
    else if ip == 0x0a00_0108 then 8
    else if ip == 0x0a00_0109 then 9
    else if ip == 0x0a00_010a then 10
    else if ip == 0x0a00_010b then 11
    else if ip == 0x0a00_010c then 12
    else if ip == 0x0a00_010d then 13
    else if ip == 0x0a00_010e then 14
    else 15
  }

  function MacDigit(mac: bv48): nat {
    if mac == 0x00 then 0
    else if mac == 0x01 then 1
    else if mac == 0x02 then 2
    else if mac == 0x03 then 3
    else if mac == 0x04 then 4
    else if mac == 0x05 then 5
    else if mac == 0x06 then 6
    else if mac == 0x07 then 7
    else if mac == 0x08 then 8
    else if mac == 0x09 then 9
    else if mac == 0x0a then 10
    else if mac == 0x0b then 11
    else if mac == 0x0c then 12
    else if mac == 0x0d then 13
    else if mac == 0x0e then 14
    else 15
  }

  lemma DigitsBack(k: Digit)
    ensures IpDigit(HostIp(k)) == k && MacDigit(HostMac(k)) == k
  {
  }

  lemma HostsDiffer(i: nat, j: nat)
    requires i < 256 && j < 256
    ensures HostPair(i) == HostPair(j) ==> i == j
  {
    hide HostIp, HostMac, IpDigit, MacDigit;
    DigitsBack(i / 16);
    DigitsBack(i % 16);
    DigitsBack(j / 16);
    DigitsBack(j % 16);
  }

  lemma HostsArePrivate(k: Digit)
    ensures InPrivateRange(HostIp(k)) && HostIp(k) != CLIENT
  {
  }

  lemma AddressKinds()
    ensures !InPrivateRange(SERVER) && InPrivateRange(CLIENT)
  {
  }

  lemma NotTheClient(i: nat)
    requires i < 256
    ensures HostPair(i) != CLIENT_PAIR
  {
    hide HostIp, HostMac;
    HostsArePrivate(i / 16);
  }

  lemma HostIsNew(m: nat)
    requires m < 256
    ensures HostPair(m) !in HostPairs(m)
  {
    hide HostPair;
    forall k: nat | k <= m ensures HostPairs(m)[k] != HostPair(m) {
      NotTheClient(m);
      if k > 0 {
        HostsDiffer(k - 1, m);
      }
    }
  }

  lemma HostInserts(m: nat)
    requires m < 256
    ensures PairsAfter(HostPairs(m), HostPacket(m).traffic) == HostPairs(m + 1)
  {
    hide InPrivateRange, HostIp, HostMac;
    AddressKinds();
    HostsArePrivate(m / 16);
    HostIsNew(m);
    assert HostPairs(m) + [HostPair(m)] == HostPairs(m + 1);
  }

  lemma ResponseInserts(payload: DnsRoundTrip.Bytes)
    ensures PairsAfter([], Response(payload).traffic) == HostPairs(0)
    ensures ResponseId(HostPairs(0), Response(payload).traffic) == 0
  {
    hide InPrivateRange;
    AddressKinds();
    assert HostPairs(0) == [CLIENT_PAIR];
    assert InWindow([CLIENT_PAIR], 0);
    assert Recorded([], CLIENT_PAIR) == [CLIENT_PAIR] && Recorded([CLIENT_PAIR], CLIENT_PAIR) == [CLIENT_PAIR];
  }

  /** The state after the response and m host packets. */
  ghost predicate Arrived(c: Config, payload: DnsRoundTrip.Bytes, m: nat, w: World)
    requires m <= 256
  {
    && w.pairs == HostPairs(m)
    && w.updates == [] && w.windows == [] && w.starts == []
    && w.start == Start(InitTable(c.table), [])
    && |w.window| == m + 1
    && forall b: nat :: b <= m ==> w.window[b].packet == PacketAt(payload, b)
  }

  lemma PacketArrives(c: Config, domains: seq<string>, w: World, p: Packet)
    requires Sized(c, w.router)
    ensures var w1 := After(c, domains, w, Arrival(p));
            && w1.pairs == PairsAfter(w.pairs, p.traffic)
            && w1.updates == w.updates && w1.windows == w.windows && w1.starts == w.starts && w1.start == w.start
            && |w1.window| == |w.window| + 1 && w1.window[..|w.window|] == w.window
            && w1.window[|w.window|].packet == p
  {
    hide PairsAfter, PacketStep;
  }

  lemma {:induction false} AllArrive(c: Config, domains: seq<string>, payload: DnsRoundTrip.Bytes, m: nat)
    requires m <= 256
    ensures Arrived(c, payload, m, Run(c, domains, Arrivals(payload, m)))
    decreases m
  {
    hide After, PairsAfter, HostPairs, Response, HostPacket;
    var p := PacketAt(payload, m);
    if m == 0 {
      assert Arrivals(payload, 0) == [] + [Arrival(p)];
      RunNext(c, domains, [], Arrival(p));
      PacketArrives(c, domains, InitialWorld(c), p);
      ResponseInserts(payload);
    } else {
      var before := Arrivals(payload, m - 1);
      AllArrive(c, domains, payload, m - 1);
      assert Arrivals(payload, m) == before + [Arrival(p)];
      RunNext(c, domains, before, Arrival(p));
      hide Run;
      var w := Run(c, domains, before);
      PacketArrives(c, domains, w, p);
      HostInserts(m - 1);
      var w1 := After(c, domains, w, Arrival(p));
      assert forall b: nat :: b < m ==> w1.window[b] == w1.window[..m][b];
    }
  }

  /** The whole run: the response, 256 host packets, and the alarm. */
  function RingRun(payload: DnsRoundTrip.Bytes, end: int): seq<Step> {
    Arrivals(payload, 256) + [Alarm(end)]
  }

  lemma RingRunEnds(c: Config, domains: seq<string>, payload: DnsRoundTrip.Bytes, end: int)
    requires c.alarmsPerUpdate == 1
    ensures var w := Run(c, domains, RingRun(payload, end));
            && |w.updates| == |w.windows| == |w.starts| == 1 && w.starts[0].pairs == []
            && |w.windows[0]| == 257 && w.pairs == HostPairs(256)
            && forall b: nat :: b <= 256 ==> w.windows[0][b].packet == PacketAt(payload, b)
  {
    hide Run, HostPairs, PacketAt, InitTable, Arrivals, AlarmStep, AfterAlarm, AfterPacket, AdvanceStep, WriteStep,
         WriteRing, WriteSeries;
    var steps := Arrivals(payload, 256);
    AllArrive(c, domains, payload, 256);
    RunNext(c, domains, steps, Alarm(end));
    AlarmIsDue(c, domains, Run(c, domains, steps), end);
    AlarmWrites(c, domains, Run(c, domains, steps), end);
  }

  lemma AlarmIsDue(c: Config, domains: seq<string>, w: World, now: int)
    requires Sized(c, w.router) && c.alarmsPerUpdate == 1
    ensures AlarmStep(c, domains, w.router, now).1.Some?
  {
  }

  lemma ClientIsDestination(payload: DnsRoundTrip.Bytes, window: seq<Logged>)
    requires window != [] && window[0].packet == Response(payload)
    ensures PairsOf([], window[..1]) == HostPairs(0)
    ensures DestinationIs([], window, 0, 0)
  {
    ResponseInserts(payload);
    assert window[..1] == [window[0]] && window[..1][..0] == [];
    hide PairsAfter, InPrivateRange;
    assert PairsOf([], window[..0]) == [];
  }

  lemma {:induction false} PairsOfAll(payload: DnsRoundTrip.Bytes, window: seq<Logged>, m: nat)
    requires m <= 256 && m < |window|
    requires forall b: nat :: b <= m ==> window[b].packet == PacketAt(payload, b)
    ensures PairsOf([], window[..m + 1]) == HostPairs(m)
    decreases m
  {
    hide HostPairs, PairsAfter, Response, HostPacket;
    assert window[..m + 1][..m] == window[..m];
    if m == 0 {
      ResponseInserts(payload);
    } else {
      PairsOfAll(payload, window, m - 1);
      HostInserts(m - 1);
    }
  }

  /** The DNS lines of the update are the records of the response, for packet 0 and ring id 0. There
      the server finds the pair of the last host, not that of the client the response went to. */
  lemma RingIdMisleads(c: Config, domains: seq<string>, m: DnsRoundTrip.Message, end: int)
    requires c.alarmsPerUpdate == 1 && DnsRoundTrip.ValidMessage(m) && DnsRoundTrip.WellCompressed(m)
    ensures var w := Run(c, domains, RingRun(DnsRoundTrip.Encode(m), end));
            && |w.updates| == |w.windows| == |w.starts| == 1 && |w.windows[0]| == 257
            && w.updates[0].dns == AppendAll(EMPTY_DNS, DnsRoundTrip.RecordsOf(m, 0, 0))
            && DestinationIs(w.starts[0].pairs, w.windows[0], 0, 0)
            && w.windows[0][0].packet == Response(DnsRoundTrip.Encode(m))
            && IdOf(0) == 0 && 0 in ServerRing(w.updates) && ServerRing(w.updates)[0] == HostPair(255)
  {
    var payload := DnsRoundTrip.Encode(m);
    var steps := RingRun(payload, end);
    RingRunEnds(c, domains, payload, end);
    hide Run, RingRun, HostPairs, DnsRoundTrip.ValidMessage, DnsRoundTrip.WellCompressed, DnsRoundTrip.Encode;
    var w := Run(c, domains, steps);
    RingAfter(c, domains, steps, payload);
    LinesAfter(c, domains, steps, m);
  }

  lemma RingAfter(c: Config, domains: seq<string>, steps: seq<Step>, payload: DnsRoundTrip.Bytes)
    requires var w := Run(c, domains, steps);
             && |w.updates| == |w.windows| == |w.starts| == 1 && w.starts[0].pairs == [] && |w.windows[0]| == 257
             && forall b: nat :: b <= 256 ==> w.windows[0][b].packet == PacketAt(payload, b)
    ensures var w := Run(c, domains, steps);
            && DestinationIs([], w.windows[0], 0, 0)
            && 0 in ServerRing(w.updates) && ServerRing(w.updates)[0] == HostPair(255)
  {
    hide Run, HostPairs, HostPacket, Response, ServerRing, DestinationIs, PairsOf, PairsAfter, HostPair, Newest, IdOf,
         PacketAt;
    var w := Run(c, domains, steps);
    var window := w.windows[0];
    assert w.updates[..1] == w.updates && window[..257] == window;
    FirstResponse(payload);
    ClientIsDestination(payload, window);
    PairsOfAll(payload, window, 256);
    DnsLineLeads(c, domains, steps, 0, 0, 0);
    LastPair();
  }

  lemma FirstResponse(payload: DnsRoundTrip.Bytes)
    ensures PacketAt(payload, 0) == Response(payload)
  {
  }

  lemma LastPair()
    ensures |HostPairs(256)| == 257 && HostPairs(256)[256] == HostPair(255)
    ensures IdOf(0) == 0 && Newest(257, 0) == 256
  {
  }

  lemma LinesAfter(c: Config, domains: seq<string>, steps: seq<Step>, m: DnsRoundTrip.Message)
    requires DnsRoundTrip.ValidMessage(m) && DnsRoundTrip.WellCompressed(m)
    requires var w := Run(c, domains, steps);
             && |w.updates| == |w.windows| == |w.starts| == 1 && w.starts[0].pairs == [] && |w.windows[0]| == 257
             && forall b: nat :: b <= 256 ==> w.windows[0][b].packet == PacketAt(DnsRoundTrip.Encode(m), b)
    ensures Run(c, domains, steps).updates[0].dns == AppendAll(EMPTY_DNS, DnsRoundTrip.RecordsOf(m, 0, 0))
  {
    hide Run, DnsRoundTrip.ValidMessage, DnsRoundTrip.WellCompressed, DnsRoundTrip.Encode, HostPairs, WindowEntries,
         PacketEntries, DnsRoundTrip.RecordsOf, AppendAll, PairsOf, DestinationIs, ResponseId;
    var window := Run(c, domains, steps).windows[0];
    var payload := DnsRoundTrip.Encode(m);
    DnsOfUpdate(c, domains, steps, 0);
    OnlyFirstAdds([], window);
    ClientIsDestination(payload, window);
    ResponseInserts(payload);
    EncodedPacketAdds(HostPairs(0), Response(payload).traffic, 0, m);
    DnsCutOff.RecordsOfWhole(m, 0, 0);
  }

  /** At the program's sizes: a response that gives a name one address. The only DNS line of the update
      names the response's packet line and ring id 0, and under that id the server has another pair
      than the one the response went to. */
  lemma BismarkRingMisleads(domains: seq<string>, name: Name, ip: nat, ttl: nat, end: int)
    requires DnsRoundTrip.ValidName(name) && ip < 0x1_0000_0000 && ttl < 0x1_0000_0000
    ensures var m := DnsRoundTrip.PointingResponse(0, name, [ip], ttl);
            DnsRoundTrip.ValidMessage(m) && DnsRoundTrip.WellCompressed(m)
            && var w := Run(BISMARK_ROUTER, domains, RingRun(DnsRoundTrip.Encode(m), end));
               && |w.updates| == |w.windows| == 1 && |w.windows[0]| == 257
               && |w.updates[0].dns.a| == 1 && w.updates[0].dns.a[0].name == name && w.updates[0].dns.a[0].ip == ip
               && w.updates[0].dns.a[0].packetId == 0 && w.updates[0].dns.a[0].macId == 0
               && w.windows[0][0].packet.traffic.Ip?
               && w.windows[0][0].packet == Response(DnsRoundTrip.Encode(m))
               && 0 in ServerRing(w.updates) && ServerRing(w.updates)[0] != CLIENT_PAIR
  {
    var m := DnsRoundTrip.PointingResponse(0, name, [ip], ttl);
    DnsRoundTrip.PointingResponseIsRead(0, name, [ip], ttl, ZEROS, EMPTY_DNS, 0, 0);
    RecordsOfPointing(name, ip, ttl);
    hide Run, RingRun, DnsRoundTrip.ValidMessage, DnsRoundTrip.WellCompressed, DnsRoundTrip.Encode,
         DnsRoundTrip.PointingResponse, DnsRoundTrip.RecordsOf, HostPair;
    RingIdMisleads(BISMARK_ROUTER, domains, m, end);
    NotTheClient(255);
  }

  lemma RecordsOfPointing(name: Name, ip: nat, ttl: nat)
    ensures var m := DnsRoundTrip.PointingResponse(0, name, [ip], ttl);
            DnsRoundTrip.RecordsOf(m, 0, 0) == Entries([AEntry(0, 0, name, ip, ToInt32(ttl))], [])
  {
    var m := DnsRoundTrip.PointingResponse(0, name, [ip], ttl);
    DnsRoundTrip.AddressesOf(m.answers, name, [ip], ttl, 0, 0);
  }

  // A reply that is not neutral.

  /** A packet from the client to host 255, and the reply. */
  function ToLastHost(): Packet {
    Packet(0, 0, 0, Ip(FiveTuple(CLIENT, HostIp(15), 1024, 80, 6), CLIENT_MAC, HostMac(15), [], ZEROS))
  }

  function FromLastHost(): Packet {
    Packet(0, 0, 0, Ip(FiveTuple(HostIp(15), CLIENT, 80, 1024, 6), HostMac(15), CLIENT_MAC, [], ZEROS))
  }

  lemma ClientIsPushedOut(r: Ring)
    requires Holds(r, HostPairs(255)) && Shaped(r)
    ensures PushesOut(r, CLIENT_PAIR, Pair(HostIp(15), HostMac(15)))
  {
    var h := HostPairs(255);
    assert |h| == 256 && h[0] == CLIENT_PAIR;
    assert HostPair(255) == Pair(HostIp(15), HostMac(15));
    HostIsNew(255);
    hide HostPairs, HostPair, HostIp, HostMac, Holds, Shaped, PushesOut;
    PushedOut(r, h, CLIENT_PAIR, HostPair(255));
  }

  lemma LastHostAnswers()
    ensures Answers(FromLastHost().traffic, ToLastHost().traffic)
  {
    hide HostIp, HostMac;
  }

  /** With the client and hosts 0 to 254 in the ring, the client's packet to host 255 pushes out the
      client, and the reply inserts it again. */
  lemma ReplyInsertsAgain(c: Config, domains: seq<string>, payload: DnsRoundTrip.Bytes)
    ensures var steps := Arrivals(payload, 255) + [Arrival(ToLastHost())];
            Run(c, domains, steps + [Arrival(FromLastHost())]).router.addresses
            != Run(c, domains, steps).router.addresses
  {
    hide Run, HostPairs, HostIp, HostMac, InPrivateRange, Arrivals, Shaped, PushesOut, Answers, Holds;
    var steps := Arrivals(payload, 255);
    AllArrive(c, domains, payload, 255);
    AddressKinds();
    HostsArePrivate(15);
    LastHostAnswers();
    RingOfRun(c, domains, steps);
    ClientIsPushedOut(Run(c, domains, steps).router.addresses);
    ReplyChangesNothing(c, domains, steps, ToLastHost(), FromLastHost());
  }
}
