/** Where the guarantees end: concrete runs on which a packet line does not lead to its flow,
    and the guarantees at the sizes the program is built with. */
module Limits {
  import opened DnsParsers
  import opened FlowTables
  import opened FlowTableProperties
  import opened FnvExamples
  import opened Hashing
  import opened Options
  import opened PacketSeriesTables
  import opened Replication
  import opened Routers
  import opened Runs
  import opened Theorems

  /** The program as it is built: 65529 entries, FNV-1, an update at every alarm. */
  const BISMARK_ROUTER: Config := Configuration(BISMARK, 1)

  /** The end-to-end guarantee at the sizes the program is built with. */
  lemma BismarkResolvesExactly(domains: seq<string>, steps: seq<Step>, n: nat, j: nat)
    requires var w := Run(BISMARK_ROUTER, domains, steps);
             n < |w.updates| == |w.windows| && j < |w.windows[n]| && j < |w.updates[n].packets.lines|
             && w.windows[n][j].Tracked() && Close(w.windows[n])
    ensures var w := Run(BISMARK_ROUTER, domains, steps);
            LineLeadsTo(w.updates, n, j, w.windows[n][j].Flow()) <==> w.windows[n][j].id < 65529
  {
    ResolvesExactly(BISMARK_ROUTER, domains, steps, n, j);
  }

  function IpPacket(flow: FiveTuple, seconds: int): Packet {
    Packet(seconds, 0, 0, Ip(flow, 0, 0, [], ZEROS))
  }

  // Ids that packet lines do not carry.

  lemma FirstRun(c: Config, domains: seq<string>, p: Packet, now: int)
    requires c.alarmsPerUpdate == 1
    ensures var w := Run(c, domains, [Arrival(p), Alarm(now)]);
            |w.updates| == 1 && w.windows == [[LogOf(c, InitTable(c.table), p)]]
  {
    var w1 := After(c, domains, InitialWorld(c), Arrival(p));
    assert [] + [Arrival(p)] == [Arrival(p)] && [Arrival(p)] + [Alarm(now)] == [Arrival(p), Alarm(now)];
    RunNext(c, domains, [], Arrival(p));
    RunNext(c, domains, [Arrival(p)], Alarm(now));
    hide Run, After, LogOf;
    ArrivalLogs(c, domains, InitialWorld(c), p);
    assert w1.window == [LogOf(c, InitTable(c.table), p)];
    AlarmSends(c, domains, w1, now);
  }

  /** The first packet ever, of any flow: the update lists the flow under its id, and the packet
      line leads to the flow unless its first probe is one of the last seven slots. Then the packet
      is written with -1, because ids are compared with the number of entries and start at 7. */
  lemma HighIdsAreLost(c: Config, domains: seq<string>, flow: FiveTuple, seconds: int, now: int)
    requires c.alarmsPerUpdate == 1
    ensures var us := Run(c, domains, [Arrival(IpPacket(flow, seconds)), Alarm(now)]).updates;
            var id := Slot(c.table, flow, 0) + FLOW_ID_FIRST_UNRESERVED;
            && |us| == 1 && us[0].flows.lines == [FlowLine(id, flow)] && |us[0].packets.lines| == 1
            && us[0].packets.lines[0].flow == (if id >= c.table.n then -1 else id)
            && (LineLeadsTo(us, 0, 0, flow) <==> id < c.table.n)
  {
    var p, steps := IpPacket(flow, seconds), [Arrival(IpPacket(flow, seconds)), Alarm(now)];
    FirstRun(c, domains, p, now);
    EveryRun(c, domains, steps);
    FirstPacket(c.table, flow, seconds);
    hide Run, ProcessStep, Slot, LineLeadsTo, InitTable, History, Current;
    FirstUpdate(c, domains, Run(c, domains, steps), flow, p);
    ResolvesExactly(c, domains, steps, 0, 0);
  }

  lemma FirstUpdate(c: Config, domains: seq<string>, w: World, flow: FiveTuple, p: Packet)
    requires History(c, domains, w) && |w.updates| == 1
    requires w.windows[0] == [LogOf(c, InitTable(c.table), p)] && p.traffic.Ip? && p.traffic.flow == flow
    ensures var id := Slot(c.table, flow, 0) + FLOW_ID_FIRST_UNRESERVED;
            && w.updates[0].flows.lines == [FlowLine(id, flow)]
            && |w.updates[0].packets.lines| == 1
            && w.updates[0].packets.lines[0].flow == if id >= c.table.n then -1 else id
  {
    FirstPacket(c.table, flow, p.seconds);
    assert Faithful(c, domains, w.updates, w.windows[0], w.tables[0], 0);
    var window, lines := w.windows[0], w.updates[0].flows.lines;
    var line := FlowLine(Slot(c.table, flow, 0) + FLOW_ID_FIRST_UNRESERVED, flow);
    assert window[..0] == [];
    assert InsertLines(window) == [line];
    OneLine(lines, line);
    var s :| Records(s, OffersOf(window)) && w.updates[0].packets == WriteSeries(c.table.n, s);
    LineOfPacket(c, domains, w, 0, 0);
  }

  lemma OneLine(lines: seq<FlowLine>, line: FlowLine)
    requires multiset(lines) == multiset([line])
    ensures lines == [line]
  {
  }

  // Windows of more than 30 minutes.

  /** The table once its only flow has been sent. */
  function SentOnce(c: Params, flow: FiveTuple, start: int): Table {
    var i := Slot(c, flow, 0);
    InitTable(c).(entries := InitTable(c).entries[i := Entry(flow, Sent, 1, 0)], base := start, numElements := 1)
  }

  lemma SendingTheFirst(c: Params, flow: FiveTuple, start: int)
    ensures AdvanceStep(WriteStep(ProcessStep(c, InitTable(c), flow, start).0).0, start) == SentOnce(c, flow, start)
  {
  }

  lemma SameFlowMatches(c: Params, flow: FiveTuple, start: int)
    ensures ProcessStep(c, SentOnce(c, flow, start), flow, start)
            == (SentOnce(c, flow, start), Matched(Slot(c, flow, 0)))
  {
    var i, t := Slot(c, flow, 0), SentOnce(c, flow, start);
    assert Visit(t, i, start) == t;
    assert Probe(c, t, flow, start, 0, None) == Hit(t, i);
    assert Touch(t, i, start) == t;
  }

  /** Probe p finds a stale entry and probe p + 1 an EMPTY one: the stale slot is offered. */
  lemma StaleThenEmpty(c: Params, t: Table, flow: FiveTuple, now: int, p: nat)
    requires |t.entries| == c.n && p + 1 < NUM_PROBES
    requires Slot(c, flow, p) != Slot(c, flow, p + 1)
    requires t.entries[Slot(c, flow, p)].Stale(t.base, now)
    requires t.entries[Slot(c, flow, p + 1)].occupied.Empty?
    ensures var i := Slot(c, flow, p);
            Probe(c, t, flow, now, p, None) == Miss(Visit(t, i, now), Some(i))
  {
  }

  lemma StaleFlowIsReplaced(c: Params, earlier: FiveTuple, start: int, flow: FiveTuple, now: int)
    requires flow != earlier && Slot(c, flow, 0) == Slot(c, earlier, 0)
    requires EXPIRATION_SECONDS < now - start <= MAX_UPDATE_OFFSET
    ensures ProcessStep(c, SentOnce(c, earlier, start), flow, now).1 == Inserted(Slot(c, flow, 0))
  {
    ProbesAre(c, flow);
    StaleThenEmpty(c, SentOnce(c, earlier, start), flow, now, 0);
  }

  function LongWindow(a: FiveTuple, b: FiveTuple, start: int, late: int, end: int): seq<Step> {
    [Arrival(IpPacket(a, start)), Alarm(start), Arrival(IpPacket(a, start)), Arrival(IpPacket(b, late)), Alarm(end)]
  }

  lemma ArrivalLogs(c: Config, domains: seq<string>, w: World, p: Packet)
    requires Sized(c, w.router)
    ensures var w1 := After(c, domains, w, Arrival(p));
            && w1.window == w.window + [LogOf(c, w.router.flows, p)]
            && w1.windows == w.windows && w1.updates == w.updates
            && w1.router.flows == FlowStep(c, w.router.flows, p).0
  {
  }

  lemma AlarmSends(c: Config, domains: seq<string>, w: World, now: int)
    requires Sized(c, w.router) && c.alarmsPerUpdate == 1
    ensures var w1 := After(c, domains, w, Alarm(now));
            && w1.window == [] && w1.windows == w.windows + [w.window] && |w1.updates| == |w.updates| + 1
            && w1.router.flows == AdvanceStep(WriteStep(w.router.flows).0, now)
  {
  }

  lemma LongWindowRuns(c: Config, domains: seq<string>, a: FiveTuple, b: FiveTuple, start: int, late: int, end: int)
    requires c.alarmsPerUpdate == 1
    requires a != b && Slot(c.table, a, 0) == Slot(c.table, b, 0)
    requires 30 * 60 < late - start <= 32767
    ensures var w := Run(c, domains, LongWindow(a, b, start, late, end)); var i := Slot(c.table, a, 0);
            && |w.updates| == 2 && |w.windows| == 2
            && w.windows[1] == [Logged(IpPacket(a, start), i + FLOW_ID_FIRST_UNRESERVED, Some(Matched(i))),
                                Logged(IpPacket(b, late), i + FLOW_ID_FIRST_UNRESERVED, Some(Inserted(i)))]
  {
    hide After, ProcessStep, Slot, AdvanceStep, WriteStep, SentOnce;
    var w0 := InitialWorld(c);
    var w1 := After(c, domains, w0, Arrival(IpPacket(a, start)));
    var w2 := After(c, domains, w1, Alarm(start));
    var w3 := After(c, domains, w2, Arrival(IpPacket(a, start)));
    var w4 := After(c, domains, w3, Arrival(IpPacket(b, late)));
    var w5 := After(c, domains, w4, Alarm(end));
    FiveSteps(c, domains, LongWindow(a, b, start, late, end));
    ArrivalLogs(c, domains, w0, IpPacket(a, start));
    AlarmSends(c, domains, w1, start);
    SendingTheFirst(c.table, a, start);
    SameFlowMatches(c.table, a, start);
    ArrivalLogs(c, domains, w2, IpPacket(a, start));
    StaleFlowIsReplaced(c.table, a, start, b, late);
    ArrivalLogs(c, domains, w3, IpPacket(b, late));
    AlarmSends(c, domains, w4, end);
  }

  lemma FiveSteps(c: Config, domains: seq<string>, s: seq<Step>)
    requires |s| == 5
    ensures Run(c, domains, s)
            == After(c, domains, After(c, domains, After(c, domains, After(c, domains, After(c, domains,
                 InitialWorld(c), s[0]), s[1]), s[2]), s[3]), s[4])
  {
    hide After, InitialWorld;
    assert s[..1] == [] + [s[0]] && s[..2] == s[..1] + [s[1]];
    assert s[..3] == s[..2] + [s[2]] && s[..4] == s[..3] + [s[3]];
    assert s == s[..4] + [s[4]];
    RunNext(c, domains, [], s[0]);
    RunNext(c, domains, s[..1], s[1]);
    RunNext(c, domains, s[..2], s[2]);
    RunNext(c, domains, s[..3], s[3]);
    RunNext(c, domains, s[..4], s[4]);
  }

  /** The 30 minutes are needed: once a window is longer, a flow that was sent and then used again
      in the window can be expired and its slot given to another flow before the window is
      written, and the packet line leads to that other flow. */
  lemma LongWindowMisleads(c: Config, domains: seq<string>, a: FiveTuple, b: FiveTuple, start: int, late: int, end: int)
    requires c.alarmsPerUpdate == 1
    requires a != b && Slot(c.table, a, 0) == Slot(c.table, b, 0)
    requires Slot(c.table, a, 0) + FLOW_ID_FIRST_UNRESERVED < c.table.n
    requires 30 * 60 < late - start <= 32767
    ensures var w := Run(c, domains, LongWindow(a, b, start, late, end));
            && |w.windows| == 2 && |w.windows[1]| == 2
            && w.windows[1][0].packet == IpPacket(a, start) && LineLeadsTo(w.updates, 1, 0, b)
  {
    hide *;
    LongWindowRuns(c, domains, a, b, start, late, end);
    EveryRun(c, domains, LongWindow(a, b, start, late, end));
    SharedIdMisleads(c, domains, Run(c, domains, LongWindow(a, b, start, late, end)), a, start, b, late,
                     Slot(c.table, a, 0));
  }

  /** A window of two packets with the same slot: its packet lines lead to the flow of the second. */
  lemma SharedIdMisleads(c: Config, domains: seq<string>, w: World, a: FiveTuple, start: int, b: FiveTuple, late: int,
                         i: nat)
    requires History(c, domains, w) && |w.windows| == 2
    requires i + FLOW_ID_FIRST_UNRESERVED < c.table.n
    requires w.windows[1] == [Logged(IpPacket(a, start), i + FLOW_ID_FIRST_UNRESERVED, Some(Matched(i))),
                              Logged(IpPacket(b, late), i + FLOW_ID_FIRST_UNRESERVED, Some(Inserted(i)))]
    ensures LineLeadsTo(w.updates, 1, 0, b)
  {
  }

  // Both at the program's sizes and with its hash.

  /** An ICMP packet from 0.0.0.0 to 32.0.16.2 is sent as flow 65534, and its packet line as -1. */
  lemma BismarkLosesIds(domains: seq<string>, seconds: int, now: int)
    ensures var us := Run(BISMARK_ROUTER, domains, [Arrival(IpPacket(HIGH, seconds)), Alarm(now)]).updates;
            && |us| == 1 && us[0].flows.lines == [FlowLine(65534, HIGH)] && |us[0].packets.lines| == 1
            && us[0].packets.lines[0].flow == -1 && !LineLeadsTo(us, 0, 0, HIGH)
  {
    HighSlot();
    hide Run, LineLeadsTo, Slot;
    HighIdsAreLost(BISMARK_ROUTER, domains, HIGH, seconds, now);
  }

  /** ICMP packets from 0.0.0.0 to 0.1.0.8, and more than 30 minutes later to 0.4.1.0: the line of
      the first leads to the second. */
  lemma BismarkMisleads(domains: seq<string>, start: int, late: int, end: int)
    requires 30 * 60 < late - start <= 32767
    ensures var w := Run(BISMARK_ROUTER, domains, LongWindow(FIRST, SECOND, start, late, end));
            && |w.windows| == 2 && |w.windows[1]| == 2
            && w.windows[1][0].packet == IpPacket(FIRST, start) && LineLeadsTo(w.updates, 1, 0, SECOND)
            && FIRST != SECOND
  {
    SameSlot();
    hide Run, LineLeadsTo, Slot, LongWindow;
    LongWindowMisleads(BISMARK_ROUTER, domains, FIRST, SECOND, start, late, end);
  }

  // Updates dated too early.

  lemma OneDueAlarm(c: Config, domains: seq<string>, step: Step, now: int)
    requires c.alarmsPerUpdate == 1 && step.Arrival?
    ensures NeverTooEarly(c, domains, [step, Alarm(now)])
            <==> NoneTooNew(After(c, domains, InitialWorld(c), step).router.flows, now)
  {
    hide After, NoneTooNew, InitTable;
    var steps := [step, Alarm(now)];
    assert steps[..1] == [] + [step] == [step] && [step][..0] == [];
    RunNext(c, domains, [], step);
    assert NeverTooEarly(c, domains, []) && NeverTooEarly(c, domains, [step]);
  }

  /** One packet and one update: base and offset keep giving the time of the packet if and only if the
      update is dated at most 32767 s before it. */
  lemma TooEarlyExactly(c: Config, domains: seq<string>, flow: FiveTuple, seconds: int, now: int)
    requires c.alarmsPerUpdate == 1
    ensures AlwaysSound(c, domains, [Arrival(IpPacket(flow, seconds)), Alarm(now)])
            <==> seconds <= now + 32767
  {
    hide AlwaysSound, NeverTooEarly, After, ProcessStep, NoneTooNew;
    var p := IpPacket(flow, seconds);
    TimesSoundExactly(c, domains, [Arrival(p), Alarm(now)]);
    OneDueAlarm(c, domains, Arrival(p), now);
    ArrivalLogs(c, domains, InitialWorld(c), p);
    OnlyFlow(c.table, flow, seconds, now);
  }

  lemma OnlyFlow(c: Params, flow: FiveTuple, seconds: int, now: int)
    ensures NoneTooNew(ProcessStep(c, InitTable(c), flow, seconds).0, now) <==> seconds <= now + MAX_UPDATE_OFFSET
  {
    hide ProcessStep, Slot;
    FirstPacket(c, flow, seconds);
    var t, i := ProcessStep(c, InitTable(c), flow, seconds).0, Slot(c, flow, 0);
    assert t.entries[i].Live() && Seen(t, i) == seconds;
  }
}
