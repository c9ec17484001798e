/** The windows of a run replayed from where they started: which flow a slot names at the end of a
    window, which DNS lines an update holds, and where the server's address ring then leads. */
module Retracing {
  import opened AddressTables
  import opened DnsParsers
  import DnsCutOff
  import DnsRoundTrip
  import opened DnsTables
  import opened FlowTables
  import opened FlowTableProperties
  import opened PacketSeriesTables
  import opened Replication
  import opened Routers
  import opened Runs

  /** The flow table after the packets of a window. */
  ghost function TableAfter(c: Config, t: Table, window: seq<Logged>): (t1: Table)
    requires |t.entries| == c.table.n
    ensures |t1.entries| == c.table.n
  {
    if window == [] then t
    else FlowStep(c, TableAfter(c, t, window[..|window| - 1]), window[|window| - 1].packet).0
  }

  /** The window's packets got what the flow table gave them. */
  ghost predicate LogsOf(c: Config, t: Table, window: seq<Logged>)
    requires |t.entries| == c.table.n
  {
    forall b: nat :: b < |window| ==> window[b] == LogOf(c, TableAfter(c, t, window[..b]), window[b].packet)
  }

  /** All pairs inserted up to the end of a window. */
  ghost function PairsOf(h: seq<Pair>, window: seq<Logged>): seq<Pair> {
    if window == [] then h
    else PairsAfter(PairsOf(h, window[..|window| - 1]), window[|window| - 1].packet.traffic)
  }

  /** A UDP packet from port 53. */
  predicate FromNameServer(t: Traffic) {
    t.Ip? && t.flow.protocol == 17 && t.flow.portSource == 53
  }

  /** The ring id of the destination of a DNS response, given the pairs inserted up to it. */
  ghost function ResponseId(h: seq<Pair>, t: Traffic): (id: int)
    ensures -1 <= id < MAC_TABLE_ENTRIES
  {
    if FromNameServer(t) && InPrivateRange(t.flow.ipDestination)
    then IdIn(h, Pair(t.flow.ipDestination, t.destinationMac))
    else -1
  }

  /** What packet j of a window adds to the DNS tables, given the pairs inserted up to it. */
  ghost function PacketEntries(h: seq<Pair>, t: Traffic, j: nat): Entries {
    if ResponseId(h, t) >= 0 && |t.payload| > 0 && j < PACKET_DATA_BUFFER_ENTRIES
    then MessageEntries(t.payload, t.behind, j, ResponseId(h, t))
    else NO_ENTRIES
  }

  /** What the packets of a window add to the DNS tables, in order. */
  ghost function WindowEntries(h: seq<Pair>, window: seq<Logged>): Entries {
    if window == [] then NO_ENTRIES
    else
      var j := |window| - 1;
      Join(WindowEntries(h, window[..j]), PacketEntries(PairsOf(h, window), window[j].packet.traffic, j))
  }

  // Invariants of every run.

  /** The state is what the current window makes of the state it started in. */
  ghost predicate Replays(c: Config, w: World) {
    && Inv(c.table, w.start.flows)
    && LogsOf(c, w.start.flows, w.window)
    && w.router.flows == TableAfter(c, w.start.flows, w.window)
    && w.pairs == PairsOf(w.start.pairs, w.window)
    && Spaced(w.pairs)
    && w.router.dns == AppendAll(EMPTY_DNS, WindowEntries(w.start.pairs, w.window))
  }

  /** The flow entries, the DNS entries and the server's address ring at update n follow from its
      window and where that started. */
  ghost predicate Retraced(c: Config, us: seq<Update>, window: seq<Logged>, start: Start, es: seq<Entry>, n: nat)
    requires n < |us|
  {
    && Inv(c.table, start.flows)
    && LogsOf(c, start.flows, window)
    && es == TableAfter(c, start.flows, window).entries
    && us[n].dns == AppendAll(EMPTY_DNS, WindowEntries(start.pairs, window))
    && Mirrors(ServerRing(us[..n + 1]), PairsOf(start.pairs, window), 0)
    && Spaced(PairsOf(start.pairs, window))
  }

  ghost predicate AllRetraced(c: Config, w: World) {
    && |w.updates| == |w.windows| == |w.starts| == |w.tables|
    && forall n: nat :: n < |w.updates| ==> Retraced(c, w.updates, w.windows[n], w.starts[n], w.tables[n], n)
  }

  // Packets.

  lemma ResponseIdIs(r: Ring, h: seq<Pair>, t: Traffic)
    requires Holds(r, h) && Shaped(r)
    ensures AddressStep(r, t).1 == ResponseId(PairsAfter(h, t), t)
  {
    hide Holds, LookupStep, Recorded, Shaped, IdIn, InPrivateRange;
    if IsDnsResponse(t) {
      var r1, h1 := LookupStep(r, SourcePair(t)).0, Recorded(h, SourcePair(t));
      var r2, h2 := LookupStep(r1, DestinationPair(t)).0, Recorded(h1, DestinationPair(t));
      LookupExactly(r, h, SourcePair(t));
      LookupExactly(r1, h1, DestinationPair(t));
      LookupReturns(r2, h2, DestinationPair(t));
      RecordedTwice(h1, DestinationPair(t));
    }
  }

  lemma PairsSpaced(h: seq<Pair>, t: Traffic)
    requires Spaced(h)
    ensures Spaced(PairsAfter(h, t))
  {
    hide Spaced, Recorded;
    if t.Ip? {
      var h1 := Recorded(h, SourcePair(t));
      RecordedSpaced(h, SourcePair(t));
      RecordedSpaced(h1, DestinationPair(t));
    }
  }

  lemma DnsPacketAppends(s: DnsState, t: Traffic, packetId: int, macId: int, h: seq<Pair>, j: nat)
    requires macId == ResponseId(h, t)
    requires packetId == if j < PACKET_DATA_BUFFER_ENTRIES then j else -1
    ensures DnsPacketStep(s, t, packetId, macId) == AppendAll(s, PacketEntries(h, t, j))
  {
    hide DnsStep, AppendAll, IdIn, InPrivateRange, MessageEntries;
    AppendNone(s);
    if IsDnsResponse(t) && macId >= 0 && packetId >= 0 {
      MessageAppends(t.payload, t.behind, s, packetId, macId);
    }
  }

  lemma PacketIdIs(c: Config, w: World, p: Packet)
    requires Current(c, w)
    ensures AddStep(w.router.series, Offer(Micros(p), p.size, LogOf(c, w.router.flows, p).id)).1
            == if |w.window| < PACKET_DATA_BUFFER_ENTRIES then |w.window| else -1
  {
    var offer := Offer(Micros(p), p.size, LogOf(c, w.router.flows, p).id);
    AddRecords(w.router.series, OffersOf(w.window), offer);
  }

  lemma PacketDns(c: Config, w: World, p: Packet)
    requires Current(c, w)
    ensures AfterPacket(c, w, p).router.dns
            == AppendAll(w.router.dns, PacketEntries(PairsAfter(w.pairs, p.traffic), p.traffic, |w.window|))
  {
    PacketIdIs(c, w, p);
    var packetId := if |w.window| < PACKET_DATA_BUFFER_ENTRIES then |w.window| else -1;
    ResponseIdIs(w.router.addresses, w.pairs, p.traffic);
    hide Current, AddStep, AddressStep, PairsAfter, ResponseId, DnsPacketStep, AppendAll, PacketEntries, ProcessStep;
    DnsPacketAppends(w.router.dns, p.traffic, packetId, AddressStep(w.router.addresses, p.traffic).1,
                     PairsAfter(w.pairs, p.traffic), |w.window|);
  }

  lemma LogsNext(c: Config, t: Table, window: seq<Logged>, p: Packet)
    requires |t.entries| == c.table.n && LogsOf(c, t, window)
    ensures var window1 := window + [LogOf(c, TableAfter(c, t, window), p)];
            LogsOf(c, t, window1) && TableAfter(c, t, window1) == FlowStep(c, TableAfter(c, t, window), p).0
  {
    var window1 := window + [LogOf(c, TableAfter(c, t, window), p)];
    hide FlowStep;
    assert window1[..|window|] == window;
    assert forall b: nat :: b < |window| ==> window1[..b] == window[..b];
  }

  lemma EntriesNext(h: seq<Pair>, window: seq<Logged>, l: Logged)
    ensures PairsOf(h, window + [l]) == PairsAfter(PairsOf(h, window), l.packet.traffic)
    ensures WindowEntries(h, window + [l])
            == Join(WindowEntries(h, window), PacketEntries(PairsOf(h, window + [l]), l.packet.traffic, |window|))
  {
    hide PairsAfter, PacketEntries, Join;
    assert (window + [l])[..|window|] == window;
  }

  lemma PacketReplays(c: Config, w: World, p: Packet)
    requires Current(c, w) && Replays(c, w)
    ensures Replays(c, AfterPacket(c, w, p))
    ensures AllRetraced(c, w) ==> AllRetraced(c, AfterPacket(c, w, p))
  {
    PacketDns(c, w, p);
    LogsNext(c, w.start.flows, w.window, p);
    EntriesNext(w.start.pairs, w.window, LogOf(c, w.router.flows, p));
    PairsSpaced(w.pairs, p.traffic);
    hide Retraced, Current, Inv, FlowStep, PairsAfter, PacketEntries, WindowEntries, PairsOf, TableAfter, LogsOf,
         Spaced, AppendAll, AddressStep, AddStep, DnsPacketStep;
    AppendJoined(EMPTY_DNS, WindowEntries(w.start.pairs, w.window),
                 PacketEntries(PairsAfter(w.pairs, p.traffic), p.traffic, |w.window|));
  }

  // Alarms.

  lemma AlarmReplays(c: Config, domains: seq<string>, w: World, now: int)
    requires Current(c, w) && Replays(c, w)
    ensures Replays(c, AfterAlarm(c, domains, w, now))
  {
    hide AlarmStep, AfterAlarm, AdvanceStep, WriteStep, WriteRing;
    if AlarmStep(c, domains, w.router, now).1.Some? {
      UpdateFlows(c, domains, w, now);
      AlarmWrites(c, domains, w, now);
      hide Current, Inv, Spaced;
      AppendNone(EMPTY_DNS);
    } else {
      AlarmSkips(c, domains, w, now);
    }
  }

  lemma UpdateRetraced(c: Config, domains: seq<string>, w: World, now: int)
    requires Current(c, w) && Replays(c, w) && AlarmStep(c, domains, w.router, now).1.Some?
    ensures var u := AlarmStep(c, domains, w.router, now).1.value;
            Retraced(c, w.updates + [u], w.window, w.start, w.router.flows.entries, |w.updates|)
  {
    hide AlarmStep, AfterAlarm, LogsOf, TableAfter, WindowEntries, Mirrors, Holds, Spaced, Agrees, ServerRing,
         AppendAll, Inv, AdvanceStep, WriteStep, WriteRing;
    UpdateRing(c, domains, w, now);
    AlarmWrites(c, domains, w, now);
    hide Current;
    var us := w.updates + [AlarmStep(c, domains, w.router, now).1.value];
    assert us[..|w.updates| + 1] == us;
  }

  lemma OlderStaysRetraced(c: Config, us: seq<Update>, u: Update,
                           window: seq<Logged>, start: Start, es: seq<Entry>, n: nat)
    requires n < |us| && Retraced(c, us, window, start, es, n)
    ensures Retraced(c, us + [u], window, start, es, n)
  {
    assert (us + [u])[..n + 1] == us[..n + 1];
  }

  lemma RetracedNext(c: Config, w: World, w1: World, u: Update)
    requires AllRetraced(c, w) && Retraced(c, w.updates + [u], w.window, w.start, w.router.flows.entries, |w.updates|)
    requires w1.updates == w.updates + [u] && w1.windows == w.windows + [w.window]
    requires w1.starts == w.starts + [w.start] && w1.tables == w.tables + [w.router.flows.entries]
    ensures AllRetraced(c, w1)
  {
    hide Retraced;
    forall n: nat | n < |w.updates| ensures Retraced(c, w1.updates, w1.windows[n], w1.starts[n], w1.tables[n], n) {
      OlderStaysRetraced(c, w.updates, u, w.windows[n], w.starts[n], w.tables[n], n);
    }
  }

  lemma AlarmKeepsRetraced(c: Config, domains: seq<string>, w: World, now: int)
    requires Current(c, w) && Replays(c, w) && AllRetraced(c, w)
    ensures AllRetraced(c, AfterAlarm(c, domains, w, now))
  {
    hide Inv, Replays, Retraced, AlarmStep, AfterAlarm;
    if AlarmStep(c, domains, w.router, now).1.Some? {
      UpdateRetraced(c, domains, w, now);
      AlarmWrites(c, domains, w, now);
      RetracedNext(c, w, AfterAlarm(c, domains, w, now), AlarmStep(c, domains, w.router, now).1.value);
    } else {
      AlarmSkips(c, domains, w, now);
    }
  }

  lemma InitialReplays(c: Config)
    ensures Replays(c, InitialWorld(c)) && AllRetraced(c, InitialWorld(c))
  {
    InitInv(c.table);
    AppendNone(EMPTY_DNS);
  }

  /** Every state of every run follows from its windows and where they started. */
  lemma {:induction false} EveryRunRetraced(c: Config, domains: seq<string>, steps: seq<Step>)
    ensures Replays(c, Run(c, domains, steps)) && AllRetraced(c, Run(c, domains, steps))
  {
    hide Current, Replays, AllRetraced, History, AfterPacket, AfterAlarm;
    if steps == [] {
      InitialReplays(c);
    } else {
      var w := Run(c, domains, steps[..|steps| - 1]);
      EveryRunRetraced(c, domains, steps[..|steps| - 1]);
      EveryRun(c, domains, steps[..|steps| - 1]);
      match steps[|steps| - 1]
      case Arrival(p) => PacketReplays(c, w, p);
      case Alarm(now) =>
        AlarmReplays(c, domains, w, now);
        AlarmKeepsRetraced(c, domains, w, now);
    }
  }

  // The flow a slot names at the end of a window.

  /** Packet b of the window makes its flow take slot i, by the guard of process_flow. */
  ghost predicate TakenBy(c: Config, t: Table, window: seq<Logged>, b: nat, i: nat)
    requires |t.entries| == c.table.n && b < |window|
  {
    window[b].packet.traffic.Ip?
    && Takes(c.table, TableAfter(c, t, window[..b]), window[b].Flow(), window[b].packet.seconds, i)
  }

  ghost predicate LastToTake(c: Config, t: Table, window: seq<Logged>, b: nat, i: nat)
    requires |t.entries| == c.table.n && b < |window|
  {
    TakenBy(c, t, window, b, i) && forall d: nat :: b < d < |window| ==> !TakenBy(c, t, window, d, i)
  }

  /** No packet after j takes slot i for good, except for the flow of packet j. */
  ghost predicate KeptFor(c: Config, t: Table, window: seq<Logged>, j: nat, i: nat)
    requires |t.entries| == c.table.n && j < |window| && window[j].packet.traffic.Ip?
  {
    forall b: nat :: j < b < |window| && LastToTake(c, t, window, b, i) ==> window[b].Flow() == window[j].Flow()
  }

  lemma {:induction false} TableKeepsInv(c: Config, t: Table, window: seq<Logged>)
    requires Inv(c.table, t)
    ensures Inv(c.table, TableAfter(c, t, window))
  {
    if window != [] {
      hide Inv, ProcessStep;
      var front, p := window[..|window| - 1], window[|window| - 1].packet;
      TableKeepsInv(c, t, front);
      if p.traffic.Ip? {
        ProcessKeepsInv(c.table, TableAfter(c, t, front), p.traffic.flow, p.seconds);
      }
    }
  }

  lemma TakenInFront(c: Config, t: Table, window: seq<Logged>, b: nat, i: nat)
    requires |t.entries| == c.table.n && b < |window| - 1
    ensures TakenBy(c, t, window[..|window| - 1], b, i) <==> TakenBy(c, t, window, b, i)
  {
    assert window[..|window| - 1][..b] == window[..b];
  }

  /** One packet more: the slot is renamed if that packet takes it, and only then. */
  lemma LastPacketTakes(c: Config, t: Table, window: seq<Logged>, j: nat, i: nat)
    requires Inv(c.table, t) && i < c.table.n && j < |window| - 1 && window[j].packet.traffic.Ip?
    ensures var front, l := window[..|window| - 1], window[|window| - 1];
            && (if TakenBy(c, t, window, |window| - 1, i)
                then l.packet.traffic.Ip? && TableAfter(c, t, window).entries[i].flow == l.Flow()
                     && (KeptFor(c, t, window, j, i) <==> l.Flow() == window[j].Flow())
                else TableAfter(c, t, window).entries[i].flow == TableAfter(c, t, front).entries[i].flow
                     && (KeptFor(c, t, window, j, i) <==> KeptFor(c, t, front, j, i)))
  {
    var front, l := window[..|window| - 1], window[|window| - 1];
    TableKeepsInv(c, t, front);
    if l.packet.traffic.Ip? {
      RenamedExactly(c.table, TableAfter(c, t, front), l.Flow(), l.packet.seconds, i);
    }
    hide Inv, Takes, ProcessStep;
    KeptInFront(c, t, window, j, i);
  }

  lemma TakenIsIp(c: Config, t: Table, window: seq<Logged>, b: nat, i: nat)
    requires |t.entries| == c.table.n && b < |window| && TakenBy(c, t, window, b, i)
    ensures window[b].packet.traffic.Ip?
  {
  }

  lemma LastInFront(c: Config, t: Table, window: seq<Logged>, b: nat, i: nat)
    requires |t.entries| == c.table.n && b < |window| - 1 && !TakenBy(c, t, window, |window| - 1, i)
    ensures LastToTake(c, t, window[..|window| - 1], b, i) <==> LastToTake(c, t, window, b, i)
  {
    hide TakenBy;
    var front := window[..|window| - 1];
    forall d: nat | d < |front| ensures TakenBy(c, t, front, d, i) <==> TakenBy(c, t, window, d, i) {
      TakenInFront(c, t, window, d, i);
    }
  }

  lemma KeptInFront(c: Config, t: Table, window: seq<Logged>, j: nat, i: nat)
    requires |t.entries| == c.table.n && j < |window| - 1 && window[j].packet.traffic.Ip?
    ensures var front, l := window[..|window| - 1], window[|window| - 1];
            if TakenBy(c, t, window, |window| - 1, i)
            then l.packet.traffic.Ip? && (KeptFor(c, t, window, j, i) <==> l.Flow() == window[j].Flow())
            else KeptFor(c, t, window, j, i) <==> KeptFor(c, t, front, j, i)
  {
    hide TakenBy;
    var front, last := window[..|window| - 1], |window| - 1;
    if TakenBy(c, t, window, last, i) {
      TakenIsIp(c, t, window, last, i);
      assert LastToTake(c, t, window, last, i);
    } else {
      assert !LastToTake(c, t, window, last, i);
      forall b: nat | b < last ensures LastToTake(c, t, front, b, i) <==> LastToTake(c, t, window, b, i) {
        LastInFront(c, t, window, b, i);
      }
      hide LastToTake;
      assert forall b: nat :: b < last ==> front[b] == window[b];
    }
  }

  lemma NewestNames(c: Config, t: Table, window: seq<Logged>)
    requires |t.entries| == c.table.n && LogsOf(c, t, window)
    requires window != [] && window[|window| - 1].Tracked()
    ensures var l := window[|window| - 1]; var i := l.outcome.value.slot;
            && i < c.table.n && TableAfter(c, t, window).entries[i].flow == l.Flow()
            && KeptFor(c, t, window, |window| - 1, i)
  {
    hide ProcessStep, TakenBy;
    var l := window[|window| - 1];
    assert l == LogOf(c, TableAfter(c, t, window[..|window| - 1]), l.packet);
  }

  /** At the end of the window the slot of packet j names the packet's flow if and only if the last
      later packet that takes the slot, if any, has the same flow. */
  lemma {:induction false} SlotNames(c: Config, t: Table, window: seq<Logged>, j: nat)
    requires Inv(c.table, t) && LogsOf(c, t, window)
    requires j < |window| && window[j].Tracked()
    ensures var i := window[j].outcome.value.slot;
            && i < c.table.n
            && (TableAfter(c, t, window).entries[i].flow == window[j].Flow() <==> KeptFor(c, t, window, j, i))
    decreases |window|
  {
    hide Inv, KeptFor, LogOf, TableAfter, LogsOf;
    SizedInv(c.table, t);
    if j < |window| - 1 {
      LogsInFront(c, t, window);
      SlotNames(c, t, window[..|window| - 1], j);
      LastPacketTakes(c, t, window, j, window[j].outcome.value.slot);
    } else {
      NewestNames(c, t, window);
    }
  }

  lemma LogsInFront(c: Config, t: Table, window: seq<Logged>)
    requires |t.entries| == c.table.n && LogsOf(c, t, window) && window != []
    ensures LogsOf(c, t, window[..|window| - 1])
  {
    hide LogOf, TableAfter;
    forall b: nat | b < |window| - 1 ensures window[..|window| - 1][..b] == window[..b] {
    }
  }

  // Where the DNS lines of a window come from.

  /** The packet with the given number is a DNS response, and the MAC id is the ring id of its
      destination at that time. */
  ghost predicate FromResponse(h: seq<Pair>, window: seq<Logged>, packetId: nat, macId: nat) {
    && packetId < |window| && packetId < PACKET_DATA_BUFFER_ENTRIES
    && FromNameServer(window[packetId].packet.traffic)
    && exists k: nat :: DestinationIs(h, window, packetId, k) && macId == IdOf(k)
  }

  /** Insertion k is the destination of packet j, among the last 256 when the packet came. */
  ghost predicate DestinationIs(h: seq<Pair>, window: seq<Logged>, j: nat, k: nat)
    requires j < |window|
  {
    var upTo, t := PairsOf(h, window[..j + 1]), window[j].packet.traffic;
    t.Ip? && InWindow(upTo, k) && upTo[k] == Pair(t.flow.ipDestination, t.destinationMac)
  }

  lemma PacketEntriesFrom(h: seq<Pair>, window: seq<Logged>, j: nat)
    requires j < |window|
    ensures var e := PacketEntries(PairsOf(h, window[..j + 1]), window[j].packet.traffic, j);
            && (forall x :: x in e.a ==> x.packetId == j && FromResponse(h, window, j, x.macId))
            && (forall x :: x in e.cname ==> x.packetId == j && FromResponse(h, window, j, x.macId))
  {
    var upTo, t := PairsOf(h, window[..j + 1]), window[j].packet.traffic;
    if ResponseId(upTo, t) >= 0 && j < PACKET_DATA_BUFFER_ENTRIES {
      var id := ResponseId(upTo, t);
      MessageTagged(t.payload, t.behind, j, id);
      var k: nat :| InWindow(upTo, k) && upTo[k] == Pair(t.flow.ipDestination, t.destinationMac) && IdOf(k) == id;
      hide MessageEntries, ResponseId, PairsOf, IdOf;
      assert DestinationIs(h, window, j, k);
    }
  }

  lemma {:induction false} WindowEntriesFrom(h: seq<Pair>, window: seq<Logged>, m: nat)
    requires m <= |window|
    ensures var e := WindowEntries(h, window[..m]);
            && (forall x :: x in e.a ==> x.packetId < m && FromResponse(h, window, x.packetId, x.macId))
            && (forall x :: x in e.cname ==> x.packetId < m && FromResponse(h, window, x.packetId, x.macId))
  {
    hide PacketEntries, FromResponse, PairsOf;
    if m > 0 {
      WindowEntriesFrom(h, window, m - 1);
      PacketEntriesFrom(h, window, m - 1);
      EntriesNext(h, window[..m - 1], window[m - 1]);
      assert window[..m] == window[..m - 1] + [window[m - 1]];
      hide WindowEntries;
    }
  }

  // Windows whose DNS responses are encoded messages.

  /** A DNS response holds an encoded message, or as much of it as was captured. */
  predicate Encodes(t: Traffic, m: DnsRoundTrip.Message) {
    FromNameServer(t) ==>
      DnsRoundTrip.ValidMessage(m) && DnsRoundTrip.WellCompressed(m) && t.payload <= DnsRoundTrip.Encode(m)
  }

  ghost function PacketRecords(h: seq<Pair>, t: Traffic, j: nat, m: DnsRoundTrip.Message): Entries
    requires Encodes(t, m)
  {
    if ResponseId(h, t) >= 0 && j < PACKET_DATA_BUFFER_ENTRIES
    then DnsCutOff.RecordsIn(m, |t.payload|, j, ResponseId(h, t))
    else NO_ENTRIES
  }

  /** The records of the messages of a window, as far as they arrived, in order, each with its packet's
      number and the ring id of its destination. */
  ghost function WindowRecords(h: seq<Pair>, window: seq<Logged>, ms: seq<DnsRoundTrip.Message>): Entries
    requires |ms| == |window| && forall j :: 0 <= j < |window| ==> Encodes(window[j].packet.traffic, ms[j])
  {
    if window == [] then NO_ENTRIES
    else
      var j := |window| - 1;
      Join(WindowRecords(h, window[..j], ms[..j]),
           PacketRecords(PairsOf(h, window), window[j].packet.traffic, j, ms[j]))
  }

  lemma EncodedPacketAdds(h: seq<Pair>, t: Traffic, j: nat, m: DnsRoundTrip.Message)
    requires Encodes(t, m)
    ensures PacketEntries(h, t, j) == PacketRecords(h, t, j, m)
  {
    hide DnsRoundTrip.ValidMessage, DnsRoundTrip.WellCompressed, DnsRoundTrip.Encode, MessageEntries, IdIn,
         DnsCutOff.RecordsIn, InPrivateRange;
    if ResponseId(h, t) >= 0 {
      DnsCutOff.CutOffRoundTrip(m, t.payload, t.behind, j, ResponseId(h, t));
      if t.payload == [] {
        IrrelevantIsIgnored([], t.behind, EMPTY_DNS, j, ResponseId(h, t));
      }
    }
  }

  /** What such a window adds to the tables is what its messages say. */
  lemma {:induction false} EncodedWindowAdds(h: seq<Pair>, window: seq<Logged>, ms: seq<DnsRoundTrip.Message>)
    requires |ms| == |window| && forall j :: 0 <= j < |window| ==> Encodes(window[j].packet.traffic, ms[j])
    ensures WindowEntries(h, window) == WindowRecords(h, window, ms)
    decreases |window|
  {
    hide Encodes, PacketEntries, PacketRecords, Join, PairsOf;
    if window != [] {
      var j := |window| - 1;
      EncodedWindowAdds(h, window[..j], ms[..j]);
      EncodedPacketAdds(PairsOf(h, window), window[j].packet.traffic, j, ms[j]);
    }
  }

  /** A window whose DNS responses are all too short, no answers, or report errors adds nothing. */
  lemma {:induction false} IrrelevantWindowAdds(h: seq<Pair>, window: seq<Logged>)
    requires forall j :: 0 <= j < |window| && FromNameServer(window[j].packet.traffic)
                         ==> Irrelevant(window[j].packet.traffic.payload)
    ensures WindowEntries(h, window) == NO_ENTRIES
    decreases |window|
  {
    hide PacketEntries, PairsOf, Irrelevant;
    if window != [] {
      var j := |window| - 1;
      IrrelevantWindowAdds(h, window[..j]);
      IrrelevantPacketAdds(PairsOf(h, window), window[j].packet.traffic, j);
      JoinNone(NO_ENTRIES);
    }
  }

  lemma IrrelevantPacketAdds(h: seq<Pair>, t: Traffic, j: nat)
    requires FromNameServer(t) ==> Irrelevant(t.payload)
    ensures PacketEntries(h, t, j) == NO_ENTRIES
  {
    hide Irrelevant, MessageEntries, IdIn;
    if ResponseId(h, t) >= 0 {
      IrrelevantIsIgnored(t.payload, t.behind, EMPTY_DNS, j, ResponseId(h, t));
    }
  }

  /** A window whose later packets are no DNS responses adds what its first packet adds. */
  lemma {:induction false} OnlyFirstAdds(h: seq<Pair>, window: seq<Logged>)
    requires window != []
    requires forall j :: 0 < j < |window| ==> !FromNameServer(window[j].packet.traffic)
    ensures WindowEntries(h, window) == PacketEntries(PairsOf(h, window[..1]), window[0].packet.traffic, 0)
    decreases |window|
  {
    hide PacketEntries, PairsOf, FromNameServer;
    var j := |window| - 1;
    if j > 0 {
      OnlyFirstAdds(h, window[..j]);
      assert window[..j][..1] == window[..1];
      NoResponseAdds(PairsOf(h, window), window[j].packet.traffic, j);
      JoinNone(WindowEntries(h, window[..j]));
    } else {
      assert window[..1] == window;
      JoinNone(PacketEntries(PairsOf(h, window), window[0].packet.traffic, 0));
    }
  }

  lemma NoResponseAdds(h: seq<Pair>, t: Traffic, j: nat)
    requires !FromNameServer(t)
    ensures PacketEntries(h, t, j) == NO_ENTRIES
  {
  }

  lemma {:induction false} PairsGrow(h: seq<Pair>, window: seq<Logged>, m: nat)
    requires m <= |window|
    ensures PairsOf(h, window[..m]) <= PairsOf(h, window)
    decreases |window|
  {
    if m < |window| {
      var front := window[..|window| - 1];
      PairsGrow(h, front, m);
      assert front[..m] == window[..m];
    } else {
      assert window[..m] == window;
    }
  }
}
