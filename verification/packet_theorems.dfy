/** What becomes of one packet in any run: its flow id, its packet line, and its addresses. */
module PacketTheorems {
  import opened AddressTables
  import opened Bits
  import opened FlowTables
  import opened FlowTableProperties
  import opened Options
  import opened PacketSeriesTables
  import opened Replication
  import opened Retracing
  import opened Routers
  import opened Runs
  import opened Theorems

  lemma Arrives(c: Config, domains: seq<string>, w: World, p: Packet)
    requires Sized(c, w.router)
    ensures var w1 := After(c, domains, w, Arrival(p));
            && w1.window == w.window + [LogOf(c, w.router.flows, p)]
            && w1.router.flows == FlowStep(c, w.router.flows, p).0
            && w1.router.addresses == AddressStep(w.router.addresses, p.traffic).0
            && w1.pairs == PairsAfter(w.pairs, p.traffic)
  {
    hide FlowStep, AddressStep, AddStep, DnsPacketStep, PairsAfter, LogOf;
  }

  // Flow ids.

  /** A packet gets the id 0 if and only if all three slots of its flow are held by other flows that
      stay, or something is live and the packet is more than 32768 s before or 32767 s after the base. */
  lemma DropsExactly(c: Config, t: Table, p: Packet)
    requires Inv(c.table, t) && p.traffic.Ip?
    ensures LogOf(c, t, p).id == 0
            <==> PathFull(c.table, t, p.traffic.flow, p.seconds)
                 || ((exists i: nat :: i < |t.entries| && t.entries[i].Live())
                     && !(-32768 <= p.seconds - t.base <= 32767))
  {
    OutcomeExactly(c.table, t, p.traffic.flow, p.seconds);
    hide ProcessStep, PathFull, Inv, Fresh;
  }

  /** The same of a packet of any run. */
  lemma DroppedExactly(c: Config, domains: seq<string>, steps: seq<Step>, p: Packet)
    requires p.traffic.Ip?
    ensures var w, w1 := Run(c, domains, steps), Run(c, domains, steps + [Arrival(p)]);
            var t := w.router.flows;
            && |w1.window| == |w.window| + 1 && |t.entries| == c.table.n
            && (w1.window[|w.window|].id == 0
                <==> PathFull(c.table, t, p.traffic.flow, p.seconds)
                     || ((exists i: nat :: i < |t.entries| && t.entries[i].Live())
                         && !(-32768 <= p.seconds - t.base <= 32767)))
  {
    hide Run, After, Inv, LogOf, PathFull, FlowStep, AddressStep, PairsAfter;
    RunNext(c, domains, steps, Arrival(p));
    TableOfRun(c, domains, steps);
    Arrives(c, domains, Run(c, domains, steps), p);
    DropsExactly(c, Run(c, domains, steps).router.flows, p);
  }

  lemma TableOfRun(c: Config, domains: seq<string>, steps: seq<Step>)
    ensures Inv(c.table, Run(c, domains, steps).router.flows)
  {
    hide Run, History, Inv;
    EveryRun(c, domains, steps);
  }

  /** A packet of a flow that is in the table and is not stale keeps its slot, as long as it is at most
      32768 s before and 32767 s after the base. */
  lemma KnownFlowMatches(c: Config, t: Table, p: Packet, i: nat)
    requires Inv(c.table, t) && p.traffic.Ip?
    requires i < |t.entries| && t.entries[i].Holds(p.traffic.flow)
    requires t.entries[i].occupied.Unsent? || p.seconds <= Seen(t, i) + 30 * 60
    requires -32768 <= p.seconds - t.base <= 32767
    ensures var t1 := FlowStep(c, t, p).0;
            && LogOf(c, t, p).id == i + 7
            && t1.entries[i].Holds(p.traffic.flow) && Seen(t1, i) == p.seconds
  {
    assert Fresh(t, i, p.traffic.flow, p.seconds);
    OutcomeExactly(c.table, t, p.traffic.flow, p.seconds);
    ProcessEffect(c.table, t, p.traffic.flow, p.seconds);
    UniqueInTable(c.table, t, i, p.traffic.flow);
    hide ProcessStep, PathFull, Inv, FirstFree, SweptEntry;
  }

  lemma UniqueInTable(c: Params, t: Table, i: nat, flow: FiveTuple)
    requires Inv(c, t) && i < |t.entries| && t.entries[i].Holds(flow)
    ensures forall j: nat :: j < |t.entries| && t.entries[j].Holds(flow) ==> j == i
  {
  }

  /** The same of a packet of any run. */
  lemma KnownFlowIsMatched(c: Config, domains: seq<string>, steps: seq<Step>, p: Packet, i: nat)
    requires p.traffic.Ip?
    requires var t := Run(c, domains, steps).router.flows;
             && i < |t.entries| && t.entries[i].Holds(p.traffic.flow)
             && (t.entries[i].occupied.Unsent? || p.seconds <= Seen(t, i) + 30 * 60)
             && -32768 <= p.seconds - t.base <= 32767
    ensures var w, w1 := Run(c, domains, steps), Run(c, domains, steps + [Arrival(p)]);
            && |w1.window| == |w.window| + 1 && w1.window[|w.window|].id == i + 7
            && i < |w1.router.flows.entries| && w1.router.flows.entries[i].Holds(p.traffic.flow)
            && Seen(w1.router.flows, i) == p.seconds
  {
    hide Run, After, Inv, LogOf, FlowStep, AddressStep, PairsAfter;
    RunNext(c, domains, steps, Arrival(p));
    TableOfRun(c, domains, steps);
    Arrives(c, domains, Run(c, domains, steps), p);
    KnownFlowMatches(c, Run(c, domains, steps).router.flows, p, i);
  }

  // Packet lines.

  /** The id of a packet that got no slot of the flow table. */
  function KindId(t: Traffic): nat {
    match t
    case Ip(_, _, _, _, _) => 0
    case Aarp => 1
    case Arp => 2
    case AppleTalk => 3
    case Ipv6 => 4
    case Ipx => 5
    case Revarp => 6
    case UnknownNetwork => 0
  }

  lemma LogOfKind(c: Config, t: Table, p: Packet)
    requires |t.entries| == c.table.n
    ensures var l := LogOf(c, t, p); !l.Tracked() ==> l.id == KindId(p.traffic)
  {
    hide ProcessStep;
  }

  /** The packet line of a packet that got no slot shows what kind of packet it was; a dropped IP packet
      has the line of an unknown protocol. */
  lemma LineOfKind(c: Config, domains: seq<string>, steps: seq<Step>, n: nat, j: nat)
    requires var w := Run(c, domains, steps);
             n < |w.updates| == |w.windows| && j < |w.updates[n].packets.lines| && j < |w.windows[n]|
    ensures var w := Run(c, domains, steps);
            var l, kind := w.windows[n][j], KindId(w.windows[n][j].packet.traffic);
            !l.Tracked() ==> w.updates[n].packets.lines[j].flow == if kind >= c.table.n then -1 else kind
  {
    EveryRun(c, domains, steps);
    EveryRunRetraced(c, domains, steps);
    hide Run, Current, Replays;
    var w := Run(c, domains, steps);
    LineOfPacket(c, domains, w, n, j);
    assert Retraced(c, w.updates, w.windows[n], w.starts[n], w.tables[n], n);
    hide History, AllRetraced, Retraced, LogOf, TableAfter;
    LogOfKind(c, TableAfter(c, w.starts[n].flows, w.windows[n][..j]), w.windows[n][j].packet);
  }

  lemma MicrosSplit(p: Packet)
    requires p.micros < 1000000
    ensures Micros(p) / 1000000 == p.seconds && Micros(p) % 1000000 == p.micros
  {
  }

  /** When all gaps of a window fit in 32 bits, the server gets the seconds and microseconds of every
      packet line. */
  lemma ClockRecovered(c: Config, domains: seq<string>, steps: seq<Step>, n: nat, j: nat)
    requires var w := Run(c, domains, steps);
             n < |w.updates| == |w.windows| && j < |w.updates[n].packets.lines| && j < |w.windows[n]|
             && |w.updates[n].packets.lines| <= |w.windows[n]|
             && (forall k: nat :: k < |w.updates[n].packets.lines| ==> FitsInt32(Gap(OffersOf(w.windows[n]), k)))
             && w.windows[n][j].packet.micros < 1000000
    ensures var w := Run(c, domains, steps); var p := w.windows[n][j].packet;
            && LineTime(w.updates[n].packets, j) / 1000000 == p.seconds
            && LineTime(w.updates[n].packets, j) % 1000000 == p.micros
  {
    PacketTimesRecovered(c, domains, steps, n);
    hide Run, LineTime, Gap, FitsInt32, OffersOf, Micros;
    MicrosSplit(Run(c, domains, steps).windows[n][j].packet);
  }

  // Addresses.

  /** Insertion k is the pair, and the server finds the pair under its id while fewer than 256 pairs
      follow. */
  ghost predicate ListedAs(server: map<nat, Pair>, pairs: seq<Pair>, k: nat, pair: Pair) {
    && k < |pairs| && pairs[k] == pair && IdOf(k) in server
    && (|pairs| - 1 - k < 512 ==> (server[IdOf(k)] == pair <==> |pairs| - 1 - k < 256))
  }

  /** The insertion of the pair, no more than `age` insertions before the end of `upTo`. */
  ghost predicate Listed(server: map<nat, Pair>, pairs: seq<Pair>, upTo: seq<Pair>, age: nat, pair: Pair) {
    exists k: nat :: |upTo| - age <= k < |upTo| && ListedAs(server, pairs, k, pair)
  }

  /** The pair is one of the last `age` insertions. */
  ghost predicate InLast(h: seq<Pair>, age: nat, pair: Pair) {
    exists k: nat :: |h| - age <= k < |h| && h[k] == pair
  }

  lemma RecordedFinds(h: seq<Pair>, pair: Pair)
    requires InPrivateRange(pair.ip)
    ensures InLast(Recorded(h, pair), 256, pair)
  {
    hide InPrivateRange;
    if Recorded(h, pair) != h {
      assert (h + [pair])[|h|] == pair;
    }
  }

  lemma RecordedGrows(h: seq<Pair>, pair: Pair)
    ensures h <= Recorded(h, pair) && |Recorded(h, pair)| <= |h| + 1
  {
  }

  lemma PairsFind(h: seq<Pair>, t: Traffic)
    requires t.Ip?
    ensures InPrivateRange(t.flow.ipSource) ==> InLast(PairsAfter(h, t), 257, Pair(t.flow.ipSource, t.sourceMac))
    ensures InPrivateRange(t.flow.ipDestination)
            ==> InLast(PairsAfter(h, t), 256, Pair(t.flow.ipDestination, t.destinationMac))
  {
    hide InPrivateRange, Recorded;
    var source := Pair(t.flow.ipSource, t.sourceMac);
    var destination := Pair(t.flow.ipDestination, t.destinationMac);
    var hs := Recorded(h, source);
    RecordedGrows(hs, destination);
    if InPrivateRange(t.flow.ipSource) {
      RecordedFinds(h, source);
      var k: nat :| |hs| - 256 <= k < |hs| && hs[k] == source;
      assert PairsAfter(h, t)[k] == source;
    }
    if InPrivateRange(t.flow.ipDestination) {
      RecordedFinds(hs, destination);
    }
  }

  lemma ListsPair(server: map<nat, Pair>, pairs: seq<Pair>, upTo: seq<Pair>, age: nat, pair: Pair)
    requires Mirrors(server, pairs, 0) && Spaced(pairs) && upTo <= pairs && InLast(upTo, age, pair)
    ensures Listed(server, pairs, upTo, age, pair)
  {
    hide Mirrors, Spaced, IdOf, Newest;
    var k: nat :| |upTo| - age <= k < |upTo| && upTo[k] == pair;
    IdLeads(server, pairs, k);
    assert ListedAs(server, pairs, k, pair);
  }

  /** After an update the server finds the private addresses of every IP packet of its window, each with
      the MAC address that the packet itself has for it, as long as fewer than 256 pairs follow. */
  lemma AddressesListed(c: Config, domains: seq<string>, steps: seq<Step>, n: nat, j: nat)
    requires var w := Run(c, domains, steps);
             n < |w.updates| == |w.windows| == |w.starts| && j < |w.windows[n]| && w.windows[n][j].packet.traffic.Ip?
    ensures var w := Run(c, domains, steps); var t := w.windows[n][j].packet.traffic;
            var server, start := ServerRing(w.updates[..n + 1]), w.starts[n].pairs;
            var pairs, upTo := PairsOf(start, w.windows[n]), PairsOf(start, w.windows[n][..j + 1]);
            && (InPrivateRange(t.flow.ipSource)
                ==> Listed(server, pairs, upTo, 257, Pair(t.flow.ipSource, t.sourceMac)))
            && (InPrivateRange(t.flow.ipDestination)
                ==> Listed(server, pairs, upTo, 256, Pair(t.flow.ipDestination, t.destinationMac)))
  {
    EveryRunRetraced(c, domains, steps);
    hide Run, Replays, ServerRing, PairsAfter, Mirrors, Spaced, LogsOf, WindowEntries, Inv, Listed, InPrivateRange;
    var w := Run(c, domains, steps);
    assert Retraced(c, w.updates, w.windows[n], w.starts[n], w.tables[n], n);
    var t, start := w.windows[n][j].packet.traffic, w.starts[n].pairs;
    var server, pairs := ServerRing(w.updates[..n + 1]), PairsOf(start, w.windows[n]);
    var upTo := PairsOf(start, w.windows[n][..j + 1]);
    assert w.windows[n][..j + 1][..j] == w.windows[n][..j];
    PairsFind(PairsOf(start, w.windows[n][..j]), t);
    PairsGrow(start, w.windows[n], j + 1);
    hide PairsOf, Retraced, AllRetraced;
    if InPrivateRange(t.flow.ipSource) {
      ListsPair(server, pairs, upTo, 257, Pair(t.flow.ipSource, t.sourceMac));
    }
    if InPrivateRange(t.flow.ipDestination) {
      ListsPair(server, pairs, upTo, 256, Pair(t.flow.ipDestination, t.destinationMac));
    }
  }

  // Replies.

  /** The packet goes the other way between the same two hosts. */
  predicate Answers(reply: Traffic, t: Traffic) {
    && t.Ip? && reply.Ip?
    && reply.flow.ipSource == t.flow.ipDestination && reply.sourceMac == t.destinationMac
    && reply.flow.ipDestination == t.flow.ipSource && reply.destinationMac == t.sourceMac
  }

  /** The ring is full, the pair is its oldest, and the other pair is not in it. */
  predicate PushesOut(r: Ring, pair: Pair, other: Pair)
    requires Shaped(r)
  {
    r.length == 256 && r.entries[LiveId(r, 0)] == pair && forall i: nat :: i < 256 ==> r.entries[LiveId(r, i)] != other
  }

  lemma PushedOut(r: Ring, h: seq<Pair>, pair: Pair, other: Pair)
    requires Holds(r, h) && Shaped(r)
    ensures PushesOut(r, pair, other)
            <==> |h| >= 256 && h[|h| - 256] == pair && forall k: nat :: InWindow(h, k) ==> h[k] != other
  {
    if |h| >= 256 {
      forall i: nat | i < 256 ensures r.entries[LiveId(r, i)] == h[|h| - 256 + i] {
        IdPlus(|h| - 256, i);
        assert InWindow(h, |h| - 256 + i);
      }
      if PushesOut(r, pair, other) {
        forall k: nat | InWindow(h, k) ensures h[k] != other {
          assert r.entries[LiveId(r, k - (|h| - 256))] == h[k];
        }
      }
    }
  }

  lemma PairsAfterReply(h: seq<Pair>, t: Traffic, reply: Traffic)
    requires Answers(reply, t) && InPrivateRange(t.flow.ipSource) && InPrivateRange(t.flow.ipDestination)
    requires forall k: nat, l: nat :: InWindow(h, k) && InWindow(h, l) && h[k] == h[l] ==> k == l
    ensures var source := Pair(t.flow.ipSource, t.sourceMac);
            var destination := Pair(t.flow.ipDestination, t.destinationMac);
            PairsAfter(PairsAfter(h, t), reply) == PairsAfter(h, t)
            <==> !(|h| >= 256 && h[|h| - 256] == source && forall k: nat :: InWindow(h, k) ==> h[k] != destination)
  {
    hide InPrivateRange;
    var source := Pair(t.flow.ipSource, t.sourceMac);
    var destination := Pair(t.flow.ipDestination, t.destinationMac);
    var h1 := Recorded(h, source);
    var h2 := Recorded(h1, destination);
    RecordedTwice(h1, destination);
    if h1 != h {
      assert InWindow(h1, |h|) && h1[|h|] == source;
      if h2 != h1 {
        assert InWindow(h2, |h|) && h2[|h|] == source;
      }
      assert Recorded(h2, source) == h2;
    } else {
      var k: nat :| InWindow(h, k) && h[k] == source;
      if h2 == h {
        assert Recorded(h2, source) == h2;
      } else if k == |h| - 256 {
        forall l: nat | InWindow(h2, l) ensures h2[l] != source {
          assert l < |h| ==> InWindow(h, l);
        }
      } else {
        assert InWindow(h2, k) && h2[k] == source;
        assert |h| >= 256 ==> InWindow(h, |h| - 256);
      }
    }
  }

  lemma SameRingSamePairs(r: Ring, h: seq<Pair>, h1: seq<Pair>)
    requires Holds(r, h) && Holds(r, h1) && h <= h1 && |h1| <= |h| + 2
    ensures h1 == h
  {
  }

  lemma SamePairsSameRing(r: Ring, h: seq<Pair>, t: Traffic)
    requires Holds(r, h) && Shaped(r) && PairsAfter(h, t) == h
    ensures AddressStep(r, t).0 == r
  {
    hide Holds, LookupStep, Recorded, Shaped;
    if t.Ip? {
      RecordedGrows(h, SourcePair(t));
      RecordedGrows(Recorded(h, SourcePair(t)), DestinationPair(t));
      assert Recorded(h, SourcePair(t)) == h;
      LookupExactly(r, h, SourcePair(t));
      LookupExactly(r, h, DestinationPair(t));
    }
  }

  lemma RingOfRun(c: Config, domains: seq<string>, steps: seq<Step>)
    ensures var w := Run(c, domains, steps); Shaped(w.router.addresses) && Holds(w.router.addresses, w.pairs)
  {
    EveryRun(c, domains, steps);
    hide Run, History;
  }

  lemma PairsAfterGrows(h: seq<Pair>, t: Traffic)
    ensures h <= PairsAfter(h, t) && |PairsAfter(h, t)| <= |h| + 2
  {
    hide Recorded;
    if t.Ip? {
      RecordedGrows(h, Pair(t.flow.ipSource, t.sourceMac));
      RecordedGrows(Recorded(h, Pair(t.flow.ipSource, t.sourceMac)), Pair(t.flow.ipDestination, t.destinationMac));
    }
  }

  lemma DistinctPairs(r: Ring, h: seq<Pair>)
    requires Holds(r, h)
    ensures forall k: nat, l: nat :: InWindow(h, k) && InWindow(h, l) && h[k] == h[l] ==> k == l
  {
  }

  lemma RingAfterReply(r: Ring, h: seq<Pair>, r1: Ring, r2: Ring, t: Traffic, reply: Traffic)
    requires Answers(reply, t) && InPrivateRange(t.flow.ipSource) && InPrivateRange(t.flow.ipDestination)
    requires Holds(r, h) && Shaped(r)
    requires r1 == AddressStep(r, t).0 && Holds(r1, PairsAfter(h, t))
    requires r2 == AddressStep(r1, reply).0 && Holds(r2, PairsAfter(PairsAfter(h, t), reply))
    ensures r2 == r1 <==> !PushesOut(r, Pair(t.flow.ipSource, t.sourceMac),
                                     Pair(t.flow.ipDestination, t.destinationMac))
  {
    hide InPrivateRange, Shaped, AddressStep, Recorded, PushesOut, InWindow, PairsAfter, Holds;
    var h1 := PairsAfter(h, t);
    PushedOut(r, h, Pair(t.flow.ipSource, t.sourceMac), Pair(t.flow.ipDestination, t.destinationMac));
    DistinctPairs(r, h);
    PairsAfterReply(h, t, reply);
    PairsAfterGrows(h1, reply);
    if PairsAfter(h1, reply) == h1 {
      SamePairsSameRing(r1, h1, reply);
    } else if r2 == r1 {
      SameRingSamePairs(r1, h1, PairsAfter(h1, reply));
    }
  }

  /** In any run, a reply between two private addresses changes nothing in the address ring, unless the
      packet it answers found its source as the oldest pair of a full ring and pushed it out with its
      destination. */
  lemma ReplyChangesNothing(c: Config, domains: seq<string>, steps: seq<Step>, p: Packet, reply: Packet)
    requires Answers(reply.traffic, p.traffic)
    requires InPrivateRange(p.traffic.flow.ipSource) && InPrivateRange(p.traffic.flow.ipDestination)
    ensures var t := p.traffic;
            var r := Run(c, domains, steps).router.addresses;
            var r1 := Run(c, domains, steps + [Arrival(p)]).router.addresses;
            var r2 := Run(c, domains, steps + [Arrival(p)] + [Arrival(reply)]).router.addresses;
            Shaped(r)
            && (r2 == r1 <==> !PushesOut(r, Pair(t.flow.ipSource, t.sourceMac),
                                         Pair(t.flow.ipDestination, t.destinationMac)))
  {
    hide After, Run, InPrivateRange, Shaped, AddressStep, PairsAfter, PushesOut, Holds, Answers;
    var steps1 := steps + [Arrival(p)];
    var w, w1 := Run(c, domains, steps), Run(c, domains, steps1);
    RunNext(c, domains, steps, Arrival(p));
    RunNext(c, domains, steps1, Arrival(reply));
    Arrives(c, domains, w, p);
    Arrives(c, domains, w1, reply);
    RingOfRun(c, domains, steps);
    RingOfRun(c, domains, steps1);
    RingOfRun(c, domains, steps1 + [Arrival(reply)]);
    AnswersIp(reply.traffic, p.traffic);
    RingAfterReply(w.router.addresses, w.pairs, w1.router.addresses,
                   Run(c, domains, steps1 + [Arrival(reply)]).router.addresses, p.traffic, reply.traffic);
  }

  lemma AnswersIp(reply: Traffic, t: Traffic)
    requires Answers(reply, t)
    ensures t.Ip? && reply.Ip?
  {
  }
}
