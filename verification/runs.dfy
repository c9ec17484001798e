/** Whole runs of the router: any sequence of packets and alarms from the initial state,
    together with what a server sees of it. */
module Runs {
  import opened AddressTables
  import opened DnsTables
  import opened FlowTables
  import opened FlowTableProperties
  import opened Options
  import opened PacketSeriesTables
  import opened Replication
  import opened Routers
  import opened Whitelists

  datatype Step = Arrival(packet: Packet) | Alarm(now: int)

  /** The flow table and the address pairs inserted so far, as a window between two updates finds
      them. */
  datatype Start = Start(flows: Table, pairs: seq<Pair>)

  /** The router, everything it has sent, and a record of how it got there. `window` holds the
      packets since the last update and `windows` those of each update, `start` and `starts` where
      they began; `tables` are the flow entries as each update found them, `pairs` the address
      pairs inserted so far, `seen` the time of the latest packet of each slot; the counters count
      calls and removals. */
  datatype World = World(
    router: RouterState, updates: seq<Update>,
    window: seq<Logged>, windows: seq<seq<Logged>>, start: Start, starts: seq<Start>, tables: seq<seq<Entry>>,
    pairs: seq<Pair>, seen: map<nat, int>,
    matches: nat, insertions: nat, drops: nat, rebased: nat)

  /** The pairs inserted once the packet's addresses have been looked up: the source with the MAC
      address it came from, then the destination with the one it goes to. */
  ghost function PairsAfter(h: seq<Pair>, t: Traffic): seq<Pair> {
    if !t.Ip? then h
    else Recorded(Recorded(h, Pair(t.flow.ipSource, t.sourceMac)), Pair(t.flow.ipDestination, t.destinationMac))
  }

  function SeenAfter(seen: map<nat, int>, l: Logged): map<nat, int> {
    if l.Tracked() then seen[l.outcome.value.slot := l.packet.seconds] else seen
  }

  function One(b: bool): nat {
    if b then 1 else 0
  }

  ghost function AfterPacket(c: Config, w: World, p: Packet): (w1: World)
    requires Sized(c, w.router)
    ensures Sized(c, w1.router)
  {
    var l := LogOf(c, w.router.flows, p);
    w.(router := PacketStep(c, w.router, p),
       window := w.window + [l],
       pairs := PairsAfter(w.pairs, p.traffic),
       seen := SeenAfter(w.seen, l),
       matches := w.matches + One(l.outcome.Some? && l.outcome.value.Matched?),
       insertions := w.insertions + One(l.outcome.Some? && l.outcome.value.Inserted?),
       drops := w.drops + One(l.outcome.Some? && l.outcome.value.Dropped?))
  }

  ghost function AfterAlarm(c: Config, domains: seq<string>, w: World, now: int): (w1: World)
    requires Sized(c, w.router)
    ensures Sized(c, w1.router)
  {
    var (router, u) := AlarmStep(c, domains, w.router, now);
    if u.None? then w.(router := router)
    else
      w.(router := router,
         updates := w.updates + [u.value],
         window := [],
         windows := w.windows + [w.window],
         start := Start(router.flows, w.pairs),
         starts := w.starts + [w.start],
         tables := w.tables + [w.router.flows.entries],
         rebased := w.rebased + |Falling(MarkAllSent(w.router.flows.entries), now - w.router.flows.base)|)
  }

  ghost function After(c: Config, domains: seq<string>, w: World, step: Step): (w1: World)
    requires Sized(c, w.router)
    ensures Sized(c, w1.router)
  {
    match step
    case Arrival(p) => AfterPacket(c, w, p)
    case Alarm(now) => AfterAlarm(c, domains, w, now)
  }

  function InitialWorld(c: Config): World {
    World(InitialState(c), [], [], [], Start(InitTable(c.table), []), [], [], [], map[], 0, 0, 0, 0)
  }

  ghost function Run(c: Config, domains: seq<string>, steps: seq<Step>): (w: World)
    ensures Sized(c, w.router)
  {
    if steps == [] then InitialWorld(c)
    else After(c, domains, Run(c, domains, steps[..|steps| - 1]), steps[|steps| - 1])
  }

  lemma RunNext(c: Config, domains: seq<string>, steps: seq<Step>, step: Step)
    ensures Run(c, domains, steps + [step]) == After(c, domains, Run(c, domains, steps), step)
  {
    hide After;
    assert (steps + [step])[..|steps|] == steps;
  }

  // The server.

  /** What the server knows of flow ids after the given updates. */
  function ServerFlows(us: seq<Update>): map<nat, FiveTuple> {
    if us == [] then map[]
    else
      var lines := us[|us| - 1].flows.lines;
      ReplayFlows(ServerFlows(us[..|us| - 1]), lines, |lines|)
  }

  /** The server's copy of the address ring after the given updates. */
  function ServerRing(us: seq<Update>): map<nat, Pair> {
    if us == [] then map[]
    else
      var u := us[|us| - 1].addresses;
      Replay(ServerRing(us[..|us| - 1]), u, |u.lines|)
  }

  function OffersOf(ls: seq<Logged>): (os: seq<Offer>)
    ensures |os| == |ls|
    ensures forall i :: 0 <= i < |ls| ==> os[i] == Offer(Micros(ls[i].packet), ls[i].packet.size, ls[i].id)
  {
    seq(|ls|, i requires 0 <= i < |ls| => Offer(Micros(ls[i].packet), ls[i].packet.size, ls[i].id))
  }

  // Invariants of every run.

  ghost predicate Current(c: Config, w: World) {
    && Sized(c, w.router)
    && Inv(c.table, w.router.flows)
    && SentMirrored(ServerFlows(w.updates), w.router.flows.entries)
    && Pending(w.router.flows.entries, InsertLines(w.window))
    && WellLogged(w.router.flows.entries, w.window)
    && LastFlows(w.router.flows.entries, w.window)
    && (Close(w.window) ==> AllHeld(w.router.flows, w.window))
    && Records(w.router.series, OffersOf(w.window))
    && Holds(w.router.addresses, w.pairs)
    && Mirrors(ServerRing(w.updates), w.pairs, w.router.addresses.added)
    && w.router.sequenceNumber == |w.updates| == |w.windows| == |w.tables|
  }

  /** What update n holds, given its window and the entries it found. */
  ghost predicate Faithful(c: Config, domains: seq<string>, us: seq<Update>,
                           window: seq<Logged>, es: seq<Entry>, n: nat)
    requires n < |us|
  {
    && us[n].sequenceNumber == n
    && us[n].whitelist == (if n == 0 then Some(Printed(domains)) else None)
    && us[n].flows.lines == UnsentLines(es, |es|)
    && multiset(us[n].flows.lines) == multiset(InsertLines(window))
    && FullyMirrored(ServerFlows(us[..n + 1]), es)
    && WellLogged(es, window)
    && LastFlows(es, window)
    && (exists s :: Records(s, OffersOf(window)) && us[n].packets == WriteSeries(c.table.n, s))
    && |es| == c.table.n
    && (Close(window) ==> forall a: nat :: a < |window| ==> Held(es, window, a))
  }

  ghost predicate History(c: Config, domains: seq<string>, w: World)
  {
    && |w.updates| == |w.windows| == |w.tables|
    && forall n: nat :: n < |w.updates| ==> Faithful(c, domains, w.updates, w.windows[n], w.tables[n], n)
  }

  // Packets keep the invariant.

  lemma CloseBefore(window: seq<Logged>, l: Logged)
    requires Close(window + [l])
    ensures Close(window)
  {
    var window1 := window + [l];
    assert forall a :: 0 <= a < |window| ==> window1[a] == window[a];
  }

  lemma InsertLinesNext(window: seq<Logged>, l: Logged)
    ensures InsertLines(window + [l])
            == InsertLines(window) + if l.Tracked() && l.outcome.value.Inserted? then [FlowLine(l.id, l.Flow())] else []
  {
  }

  lemma PacketFlows(c: Config, w: World, p: Packet)
    requires Current(c, w)
    ensures var w1 := AfterPacket(c, w, p);
            && Inv(c.table, w1.router.flows)
            && SentMirrored(ServerFlows(w1.updates), w1.router.flows.entries)
            && Pending(w1.router.flows.entries, InsertLines(w1.window))
  {
    InsertLinesNext(w.window, LogOf(c, w.router.flows, p));
    if p.traffic.Ip? {
      var flow := p.traffic.flow;
      ProcessKeepsInv(c.table, w.router.flows, flow, p.seconds);
      ProcessMirrored(c.table, w.router.flows, flow, p.seconds, ServerFlows(w.updates));
      ProcessPending(c.table, w.router.flows, flow, p.seconds, InsertLines(w.window));
    }
    assert InsertLines(w.window) + [] == InsertLines(w.window);
  }

  lemma PacketWindow(c: Config, w: World, p: Packet)
    requires Current(c, w)
    ensures var w1 := AfterPacket(c, w, p);
            && WellLogged(w1.router.flows.entries, w1.window)
            && LastFlows(w1.router.flows.entries, w1.window)
            && (Close(w1.window) ==> AllHeld(w1.router.flows, w1.window))
            && Records(w1.router.series, OffersOf(w1.window))
  {
    var l := LogOf(c, w.router.flows, p);
    PacketLogged(c, w.router.flows, w.window, p);
    PacketLastFlows(c, w.router.flows, w.window, p);
    if Close(w.window + [l]) {
      CloseBefore(w.window, l);
      PacketHeld(c, w.router.flows, w.window, p);
    }
    var offer := Offer(Micros(p), p.size, l.id);
    AddRecords(w.router.series, OffersOf(w.window), offer);
    assert OffersOf(w.window + [l]) == OffersOf(w.window) + [offer];
  }

  lemma LookupKeeps(server: map<nat, Pair>, r: Ring, h: seq<Pair>, pair: Pair)
    requires Holds(r, h) && Shaped(r) && Mirrors(server, h, r.added)
    ensures var r1, h1 := LookupStep(r, pair).0, Recorded(h, pair);
            Holds(r1, h1) && Mirrors(server, h1, r1.added)
  {
    hide Holds, Mirrors, LookupStep, Recorded, Shaped;
    LookupExactly(r, h, pair);
    LookupMirrors(server, r, h, pair);
  }

  lemma RecordedTwice(h: seq<Pair>, pair: Pair)
    ensures Recorded(Recorded(h, pair), pair) == Recorded(h, pair)
  {
    hide InPrivateRange;
    assert InWindow(h + [pair], |h|) && (h + [pair])[|h|] == pair;
  }

  lemma PacketRing(server: map<nat, Pair>, r: Ring, h: seq<Pair>, t: Traffic)
    requires Holds(r, h) && Shaped(r) && Mirrors(server, h, r.added)
    ensures var r1, h1 := AddressStep(r, t).0, PairsAfter(h, t);
            Holds(r1, h1) && Mirrors(server, h1, r1.added)
  {
    hide Holds, Mirrors, LookupStep, Recorded, Shaped;
    if t.Ip? {
      var r1, h1 := LookupStep(r, SourcePair(t)).0, Recorded(h, SourcePair(t));
      LookupKeeps(server, r, h, SourcePair(t));
      LookupKeeps(server, r1, h1, DestinationPair(t));
      LookupKeeps(server, LookupStep(r1, DestinationPair(t)).0, Recorded(h1, DestinationPair(t)), DestinationPair(t));
      RecordedTwice(h1, DestinationPair(t));
    }
  }

  lemma PacketKeepsCurrent(c: Config, w: World, p: Packet)
    requires Current(c, w)
    ensures Current(c, AfterPacket(c, w, p))
    ensures forall domains :: History(c, domains, w) ==> History(c, domains, AfterPacket(c, w, p))
  {
    PacketFlows(c, w, p);
    PacketWindow(c, w, p);
    PacketRing(ServerRing(w.updates), w.router.addresses, w.pairs, p.traffic);
  }

  // Alarms keep the invariant.

  lemma AlarmSkips(c: Config, domains: seq<string>, w: World, now: int)
    requires Sized(c, w.router) && AlarmStep(c, domains, w.router, now).1.None?
    ensures AfterAlarm(c, domains, w, now) == w.(router := CountAlarm(c, w.router))
  {
  }

  /** What an alarm that writes an update does to the history and to the router. */
  lemma AlarmWrites(c: Config, domains: seq<string>, w: World, now: int)
    requires Sized(c, w.router) && AlarmStep(c, domains, w.router, now).1.Some?
    ensures var w1, u := AfterAlarm(c, domains, w, now), AlarmStep(c, domains, w.router, now).1.value;
            && w1.updates == w.updates + [u] && w1.windows == w.windows + [w.window] && w1.window == []
            && w1.tables == w.tables + [w.router.flows.entries] && w1.pairs == w.pairs
            && w1.starts == w.starts + [w.start] && w1.start == Start(w1.router.flows, w.pairs)
            && w1.router.flows == AdvanceStep(WriteStep(w.router.flows).0, now)
            && w1.router.series == EMPTY_SERIES && w1.router.dns == EMPTY_DNS
            && w1.router.addresses == WriteRing(w.router.addresses).0
            && w1.router.sequenceNumber == w.router.sequenceNumber + 1
            && u.sequenceNumber == w.router.sequenceNumber
            && u.whitelist == (if u.sequenceNumber == 0 then Some(Printed(domains)) else None)
            && u.packets == WriteSeries(c.table.n, w.router.series) && u.flows == WriteStep(w.router.flows).1
            && u.dns == w.router.dns && u.addresses == WriteRing(w.router.addresses).1
  {
    hide WriteStep, AdvanceStep, WriteRing, WriteSeries, Printed;
  }

  lemma UpdateFlows(c: Config, domains: seq<string>, w: World, now: int)
    requires Current(c, w) && AlarmStep(c, domains, w.router, now).1.Some?
    ensures var w1 := AfterAlarm(c, domains, w, now);
            && Inv(c.table, w1.router.flows)
            && FullyMirrored(ServerFlows(w1.updates), w.router.flows.entries)
            && SentMirrored(ServerFlows(w1.updates), w1.router.flows.entries)
            && Pending(w1.router.flows.entries, [])
  {
    hide AlarmStep, AfterAlarm, Inv, LiveSlots, Falling, UnsentLines, Close, AllHeld, WellLogged, LastFlows, Records,
         Mirrors, Holds;
    var t, w1 := w.router.flows, AfterAlarm(c, domains, w, now);
    AlarmWrites(c, domains, w, now);
    WriteKeepsInv(c.table, t);
    AdvanceKeepsInv(c.table, WriteStep(t).0, now);
    assert w1.updates[..|w.updates|] == w.updates;
    WriteMirrors(ServerFlows(w.updates), t.entries);
    AdvanceMirrored(ServerFlows(w1.updates), t.entries, now - t.base);
  }

  lemma UpdateRing(c: Config, domains: seq<string>, w: World, now: int)
    requires Current(c, w) && AlarmStep(c, domains, w.router, now).1.Some?
    ensures var w1 := AfterAlarm(c, domains, w, now);
            && w1.router.addresses.added == 0
            && Holds(w1.router.addresses, w.pairs)
            && Mirrors(ServerRing(w1.updates), w.pairs, 0)
            && Agrees(ServerRing(w1.updates), w1.router.addresses)
  {
    hide AlarmStep, AfterAlarm, Inv, Holds, Mirrors, Agrees, SentMirrored, Pending, Records, AdvanceStep, WriteStep;
    var w1 := AfterAlarm(c, domains, w, now);
    AlarmWrites(c, domains, w, now);
    assert w1.updates[..|w.updates|] == w.updates;
    UpdateMirrors(ServerRing(w.updates), w.router.addresses, w.pairs);
  }

  lemma AlarmKeepsCurrent(c: Config, domains: seq<string>, w: World, now: int)
    requires Current(c, w)
    ensures Current(c, AfterAlarm(c, domains, w, now))
  {
    hide AlarmStep, AfterAlarm, Inv, SentMirrored, FullyMirrored, LiveSlots, ServerFlows, ServerRing, Mirrors, Holds,
         Agrees, LineOf, Printed, AdvanceStep, WriteStep, WriteSeries;
    if AlarmStep(c, domains, w.router, now).1.Some? {
      UpdateFlows(c, domains, w, now);
      UpdateRing(c, domains, w, now);
      AlarmWrites(c, domains, w, now);
    } else {
      AlarmSkips(c, domains, w, now);
    }
  }

  /** The update an alarm adds is faithful to the window it ends. */
  lemma UpdateIsFaithful(c: Config, domains: seq<string>, w: World, now: int)
    requires Current(c, w) && AlarmStep(c, domains, w.router, now).1.Some?
    ensures Faithful(c, domains, AfterAlarm(c, domains, w, now).updates, w.window, w.router.flows.entries, |w.updates|)
  {
    hide AlarmStep, AfterAlarm, Inv, UnsentLines, InsertLines, WellLogged, LastFlows, Mirrors, Holds, SentMirrored,
         FullyMirrored, Printed, Pending, AdvanceStep, Records, WriteSeries, WriteRing;
    var w1 := AfterAlarm(c, domains, w, now);
    UpdateFlows(c, domains, w, now);
    AlarmWrites(c, domains, w, now);
    assert w1.updates[..|w.updates| + 1] == w1.updates;
    WriteSendsPending(w.router.flows.entries, InsertLines(w.window));
  }

  lemma OlderStaysFaithful(c: Config, domains: seq<string>, us: seq<Update>, u: Update,
                           window: seq<Logged>, es: seq<Entry>, n: nat)
    requires n < |us| && Faithful(c, domains, us, window, es, n)
    ensures Faithful(c, domains, us + [u], window, es, n)
  {
    assert (us + [u])[..n + 1] == us[..n + 1];
  }

  lemma AlarmKeepsHistory(c: Config, domains: seq<string>, w: World, now: int)
    requires Current(c, w) && History(c, domains, w)
    ensures History(c, domains, AfterAlarm(c, domains, w, now))
  {
    hide AlarmStep, AfterAlarm, Inv, Faithful, Mirrors, Holds, SentMirrored, Pending, Records, AdvanceStep, WriteStep;
    var w1 := AfterAlarm(c, domains, w, now);
    if AlarmStep(c, domains, w.router, now).1.Some? {
      UpdateIsFaithful(c, domains, w, now);
      AlarmWrites(c, domains, w, now);
      hide Current;
      forall n: nat | n < |w1.updates| ensures Faithful(c, domains, w1.updates, w1.windows[n], w1.tables[n], n) {
        if n < |w.updates| {
          OlderStaysFaithful(c, domains, w.updates, w1.updates[|w.updates|], w.windows[n], w.tables[n], n);
        }
      }
    } else {
      AlarmSkips(c, domains, w, now);
    }
  }

  lemma {:induction false} EveryRun(c: Config, domains: seq<string>, steps: seq<Step>)
    ensures Current(c, Run(c, domains, steps))
    ensures History(c, domains, Run(c, domains, steps))
  {
    hide Current, History, AfterPacket, AfterAlarm;
    if steps == [] {
      InitialIsCurrent(c);
    } else {
      var w := Run(c, domains, steps[..|steps| - 1]);
      EveryRun(c, domains, steps[..|steps| - 1]);
      match steps[|steps| - 1]
      case Arrival(p) => PacketKeepsCurrent(c, w, p);
      case Alarm(now) =>
        AlarmKeepsCurrent(c, domains, w, now);
        AlarmKeepsHistory(c, domains, w, now);
    }
  }

  lemma InitialIsCurrent(c: Config)
    ensures Current(c, InitialWorld(c)) && forall domains :: History(c, domains, InitialWorld(c))
  {
    InitInv(c.table);
    EmptyHolds();
  }
}
