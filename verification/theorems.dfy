/** What every run of the router guarantees to a server that replays its updates. */
module Theorems {
  import opened AddressTables
  import opened Bits
  import opened DnsParsers
  import DnsRoundTrip
  import opened DnsTables
  import opened FlowTables
  import opened FlowTableProperties
  import opened PacketSeriesTables
  import opened Replication
  import opened Retracing
  import opened Routers
  import opened Runs
  import opened Whitelists

  // Packet lines and the packets they stand for.

  /** Packet line j of update n has an unreserved id, and the flow lines of updates 0 to n give
      that id the flow. */
  ghost predicate LineLeadsTo(us: seq<Update>, n: nat, j: nat, flow: FiveTuple) {
    && n < |us| && j < |us[n].packets.lines|
    && us[n].packets.lines[j].flow >= FLOW_ID_FIRST_UNRESERVED
    && us[n].packets.lines[j].flow in ServerFlows(us[..n + 1])
    && ServerFlows(us[..n + 1])[us[n].packets.lines[j].flow] == flow
  }

  /** An update has a line for every packet of its window until the buffer is full, and counts the
      others. */
  lemma PacketsAccounted(c: Config, domains: seq<string>, steps: seq<Step>, n: nat)
    requires n < |Run(c, domains, steps).updates|
    ensures var w := Run(c, domains, steps); var u := w.updates[n].packets;
            && n < |w.windows|
            && var size := |w.windows[n]|;
               && |u.lines| == (if size < 65536 then size else 65536)
               && u.discarded == if size - |u.lines| < 0xFFFF_FFFF then size - |u.lines| else 0xFFFF_FFFF
  {
    var w := Run(c, domains, steps);
    EveryRun(c, domains, steps);
    hide Run, Current;
    LinesOfWindow(c, domains, w, n);
  }

  lemma LinesOfWindow(c: Config, domains: seq<string>, w: World, n: nat)
    requires History(c, domains, w) && n < |w.updates|
    ensures var u := w.updates[n].packets;
            |u.lines| == Kept(|w.windows[n]|) && u.discarded == Saturated(|w.windows[n]| - |u.lines|)
  {
    assert Faithful(c, domains, w.updates, w.windows[n], w.tables[n], n);
  }

  /** Packet line j of an update, seen from the packet: its size and its id, -1 if too large. */
  lemma LineOfPacket(c: Config, domains: seq<string>, w: World, n: nat, j: nat)
    requires History(c, domains, w)
    requires n < |w.updates| && j < |w.updates[n].packets.lines|
    ensures j < |w.windows[n]|
    ensures var l := w.windows[n][j];
            && SlotUsed(w.tables[n], l)
            && w.updates[n].packets.lines[j].size == l.packet.size % 65536
            && w.updates[n].packets.lines[j].flow == if l.id >= c.table.n then -1 else l.id
  {
    hide ServerFlows, UnsentLines, InsertLines, FullyMirrored, LastFlows, Close, Held, Sized;
    var window, u := w.windows[n], w.updates[n];
    assert Faithful(c, domains, w.updates, window, w.tables[n], n);
    var s :| Records(s, OffersOf(window)) && u.packets == WriteSeries(c.table.n, s);
    assert s.data[j] == Stored(OffersOf(window), j);
    assert SlotUsed(w.tables[n], window[j]);
  }

  lemma SlotNamesLast(es: seq<Entry>, window: seq<Logged>, j: nat)
    requires j < |window| && window[j].id >= FLOW_ID_FIRST_UNRESERVED
    requires WellLogged(es, window) && LastFlows(es, window)
    ensures var l := window[j];
            && l.Tracked() && l.outcome.value.slot < |es|
            && l.id == l.outcome.value.slot + FLOW_ID_FIRST_UNRESERVED
            && !es[l.outcome.value.slot].occupied.Empty?
            && es[l.outcome.value.slot].flow == window[LastLike(window, j)].Flow()
  {
    hide LastLike;
    assert SlotUsed(es, window[j]);
    var b := LastLike(window, j);
    hide IsLast;
    assert SlotUsed(es, window[b]) && NamesFlow(es, window[b]);
  }

  lemma UsedSlotMirrored(c: Config, domains: seq<string>, w: World, n: nat, j: nat)
    requires History(c, domains, w)
    requires n < |w.updates| && j < |w.windows[n]| && w.windows[n][j].id >= FLOW_ID_FIRST_UNRESERVED
    ensures var l := w.windows[n][j]; var server := ServerFlows(w.updates[..n + 1]);
            && l.Tracked() && l.outcome.value.slot < |w.tables[n]| == c.table.n
            && l.id == l.outcome.value.slot + FLOW_ID_FIRST_UNRESERVED
            && l.id in server && server[l.id] == w.tables[n][l.outcome.value.slot].flow
            && server[l.id] == w.windows[n][LastLike(w.windows[n], j)].Flow()
  {
    assert Faithful(c, domains, w.updates, w.windows[n], w.tables[n], n);
    hide History, WellLogged, LastFlows, LastLike;
    SlotNamesLast(w.tables[n], w.windows[n], j);
  }

  lemma IdLeadsTo(us: seq<Update>, n: nat, j: nat, id: nat, flow: FiveTuple)
    requires n < |us| && j < |us[n].packets.lines| && us[n].packets.lines[j].flow == id >= FLOW_ID_FIRST_UNRESERVED
    requires id in ServerFlows(us[..n + 1]) && ServerFlows(us[..n + 1])[id] == flow
    ensures forall f :: LineLeadsTo(us, n, j, f) <==> f == flow
  {
  }

  lemma LineLeadsToLast(c: Config, domains: seq<string>, w: World, n: nat, j: nat)
    requires History(c, domains, w)
    requires n < |w.updates| && j < |w.updates[n].packets.lines|
    requires w.updates[n].packets.lines[j].flow >= FLOW_ID_FIRST_UNRESERVED
    ensures |w.windows| == |w.updates| && j < |w.windows[n]|
    ensures w.windows[n][j].Tracked() && w.windows[n][j].id == w.updates[n].packets.lines[j].flow
    ensures var last := w.windows[n][LastLike(w.windows[n], j)];
            forall flow :: LineLeadsTo(w.updates, n, j, flow) <==> flow == last.Flow()
  {
    assert |w.windows| == |w.updates|;
    hide History, LastLike, IsLast, ServerFlows, SlotUsed, LineLeadsTo;
    LineOfPacket(c, domains, w, n, j);
    UsedSlotMirrored(c, domains, w, n, j);
    var window := w.windows[n];
    IdLeadsTo(w.updates, n, j, window[j].id, window[LastLike(window, j)].Flow());
  }

  /** Any packet line with an unreserved id leads to exactly one flow: that of the last packet of
      its window that has the same id. Hence it leads to its own flow if and only if that last
      packet has the same flow. */
  lemma PacketLineResolves(c: Config, domains: seq<string>, steps: seq<Step>, n: nat, j: nat)
    requires var us := Run(c, domains, steps).updates;
             n < |us| && j < |us[n].packets.lines| && us[n].packets.lines[j].flow >= FLOW_ID_FIRST_UNRESERVED
    ensures var w := Run(c, domains, steps);
            && |w.windows| == |w.updates| && j < |w.windows[n]|
            && w.windows[n][j].Tracked() && w.windows[n][j].id == w.updates[n].packets.lines[j].flow
            && var last := w.windows[n][LastLike(w.windows[n], j)];
               forall flow :: LineLeadsTo(w.updates, n, j, flow) <==> flow == last.Flow()
  {
    EveryRun(c, domains, steps);
    hide *;
    LineLeadsToLast(c, domains, Run(c, domains, steps), n, j);
  }

  lemma SlotStillHeld(c: Config, domains: seq<string>, w: World, n: nat, j: nat)
    requires History(c, domains, w)
    requires n < |w.updates| && j < |w.windows[n]| && Close(w.windows[n]) && w.windows[n][j].Tracked()
    ensures var l := w.windows[n][j];
            l.outcome.value.slot < |w.tables[n]| && w.tables[n][l.outcome.value.slot].flow == l.Flow()
  {
    assert Faithful(c, domains, w.updates, w.windows[n], w.tables[n], n);
    assert Held(w.tables[n], w.windows[n], j);
  }

  lemma CloseLineLeadsToOwn(c: Config, domains: seq<string>, w: World, n: nat, j: nat)
    requires History(c, domains, w)
    requires n < |w.updates| == |w.windows| && j < |w.updates[n].packets.lines|
    requires w.updates[n].packets.lines[j].flow >= FLOW_ID_FIRST_UNRESERVED && Close(w.windows[n])
    ensures j < |w.windows[n]| && w.windows[n][j].packet.traffic.Ip?
    ensures LineLeadsTo(w.updates, n, j, w.windows[n][j].Flow())
  {
    hide History, LastLike, IsLast, ServerFlows, SlotUsed, LineLeadsTo, Close;
    LineOfPacket(c, domains, w, n, j);
    UsedSlotMirrored(c, domains, w, n, j);
    SlotStillHeld(c, domains, w, n, j);
    IdLeadsTo(w.updates, n, j, w.windows[n][j].id, w.windows[n][j].Flow());
  }

  /** End to end: in a window whose IP packets are at most 30 minutes later than any earlier
      one, every packet line with an unreserved id leads to the packet's own 5-tuple. */
  lemma PacketLinesResolve(c: Config, domains: seq<string>, steps: seq<Step>, n: nat, j: nat)
    requires var w := Run(c, domains, steps);
             n < |w.updates| == |w.windows| && j < |w.updates[n].packets.lines|
             && w.updates[n].packets.lines[j].flow >= FLOW_ID_FIRST_UNRESERVED
             && Close(w.windows[n])
    ensures var w := Run(c, domains, steps);
            && j < |w.windows[n]| && w.windows[n][j].packet.traffic.Ip?
            && LineLeadsTo(w.updates, n, j, w.windows[n][j].Flow())
  {
    EveryRun(c, domains, steps);
    hide *;
    CloseLineLeadsToOwn(c, domains, Run(c, domains, steps), n, j);
  }

  /** In such a window, the line of a packet that got a slot leads to the packet's flow if and only
      if its id is less than the number of entries: larger ids are written as -1. */
  lemma ResolvesExactly(c: Config, domains: seq<string>, steps: seq<Step>, n: nat, j: nat)
    requires var w := Run(c, domains, steps);
             n < |w.updates| == |w.windows| && j < |w.windows[n]| && j < |w.updates[n].packets.lines|
             && w.windows[n][j].Tracked() && Close(w.windows[n])
    ensures var w := Run(c, domains, steps);
            LineLeadsTo(w.updates, n, j, w.windows[n][j].Flow()) <==> w.windows[n][j].id < c.table.n
  {
    EveryRun(c, domains, steps);
    hide Run, Current, History, Close, ServerFlows;
    var w := Run(c, domains, steps);
    LineOfPacket(c, domains, w, n, j);
    if w.windows[n][j].id < c.table.n {
      CloseLineLeadsToOwn(c, domains, w, n, j);
    }
  }

  /** The exact condition, for windows of any length: the line of a packet that got a slot leads to
      the packet's flow if and only if its id is less than the number of entries and the last later
      packet of the window that takes the slot, if any, has the same flow. Whether a packet takes a
      slot is decided by the table and the packet alone, before the call. */
  lemma LeadsToOwnExactly(c: Config, domains: seq<string>, steps: seq<Step>, n: nat, j: nat)
    requires var w := Run(c, domains, steps);
             n < |w.updates| == |w.windows| && j < |w.windows[n]| && j < |w.updates[n].packets.lines|
             && w.windows[n][j].Tracked()
    ensures var w := Run(c, domains, steps); var l := w.windows[n][j];
            && |w.starts| == |w.updates| && |w.starts[n].flows.entries| == c.table.n
            && (LineLeadsTo(w.updates, n, j, l.Flow())
                <==> l.id < c.table.n
                     && KeptFor(c, w.starts[n].flows, w.windows[n], j, l.outcome.value.slot))
  {
    EveryRun(c, domains, steps);
    EveryRunRetraced(c, domains, steps);
    var w := Run(c, domains, steps);
    assert |w.starts| == |w.updates|;
    hide Run, Current, Replays, History, AllRetraced, KeptFor, LineLeadsTo;
    var l := w.windows[n][j];
    SlotKept(c, w, n, j, l, l.outcome.value.slot);
    OwnFlowInSlot(c, domains, w, n, j, l, l.outcome.value.slot);
  }

  /** A packet line leads to its own flow if and only if its id is small enough and the entry found
      in its slot by the update names the flow. */
  lemma OwnFlowInSlot(c: Config, domains: seq<string>, w: World, n: nat, j: nat, l: Logged, i: nat)
    requires History(c, domains, w) && n < |w.updates| && j < |w.windows[n]| && j < |w.updates[n].packets.lines|
    requires w.windows[n][j] == l && l.Tracked() && l.outcome.value.slot == i < |w.tables[n]|
    ensures LineLeadsTo(w.updates, n, j, l.Flow()) <==> l.id < c.table.n && w.tables[n][i].flow == l.Flow()
  {
    hide History, LastLike, ServerFlows, LineLeadsTo, SlotUsed;
    LineOfTracked(c, domains, w, n, j, l);
    if l.id < c.table.n {
      UsedSlotMirrored(c, domains, w, n, j);
      IdLeadsTo(w.updates, n, j, l.id, w.tables[n][i].flow);
    } else {
      NegativeLeadsNowhere(w.updates, n, j, l.Flow());
    }
  }

  lemma LineOfTracked(c: Config, domains: seq<string>, w: World, n: nat, j: nat, l: Logged)
    requires History(c, domains, w) && n < |w.updates| && j < |w.windows[n]| && j < |w.updates[n].packets.lines|
    requires w.windows[n][j] == l && l.Tracked()
    ensures |w.windows| == |w.updates| == |w.tables| && l.id >= FLOW_ID_FIRST_UNRESERVED
    ensures w.updates[n].packets.lines[j].flow == if l.id >= c.table.n then -1 else l.id
  {
    hide History;
    HistoryLengths(c, domains, w);
    LineOfPacket(c, domains, w, n, j);
  }

  lemma HistoryLengths(c: Config, domains: seq<string>, w: World)
    requires History(c, domains, w)
    ensures |w.windows| == |w.updates| == |w.tables|
  {
  }

  lemma NegativeLeadsNowhere(us: seq<Update>, n: nat, j: nat, flow: FiveTuple)
    requires n < |us| && j < |us[n].packets.lines| && us[n].packets.lines[j].flow < 0
    ensures !LineLeadsTo(us, n, j, flow)
  {
    hide ServerFlows;
  }

  lemma SlotKept(c: Config, w: World, n: nat, j: nat, l: Logged, i: nat)
    requires AllRetraced(c, w) && n < |w.updates| && j < |w.windows[n]|
    requires w.windows[n][j] == l && l.Tracked() && l.outcome.value.slot == i
    ensures |w.starts[n].flows.entries| == c.table.n && i < |w.tables[n]|
    ensures w.tables[n][i].flow == l.Flow() <==> KeptFor(c, w.starts[n].flows, w.windows[n], j, i)
  {
    assert Retraced(c, w.updates, w.windows[n], w.starts[n], w.tables[n], n);
    hide AllRetraced, KeptFor, LogsOf, TableAfter, Mirrors, WindowEntries, PairsOf, Spaced;
    SlotNames(c, w.starts[n].flows, w.windows[n], j);
  }

  /** Every insertion into the flow table is listed in exactly one update, the next one, under
      the id that process_flow returned, and nothing else is listed. */
  lemma InsertionsSentOnce(c: Config, domains: seq<string>, steps: seq<Step>)
    ensures var w := Run(c, domains, steps);
            && |w.windows| == |w.updates|
            && (forall n: nat :: n < |w.updates| ==>
                 multiset(w.updates[n].flows.lines) == multiset(InsertLines(w.windows[n]))
                 && Increasing(w.updates[n].flows.lines))
            && Pending(w.router.flows.entries, InsertLines(w.window))
  {
    var w := Run(c, domains, steps);
    EveryRun(c, domains, steps);
    forall n: nat | n < |w.updates|
      ensures multiset(w.updates[n].flows.lines) == multiset(InsertLines(w.windows[n]))
      ensures Increasing(w.updates[n].flows.lines)
    {
      assert Faithful(c, domains, w.updates, w.windows[n], w.tables[n], n);
      LinesAreUnsent(w.tables[n], |w.tables[n]|);
    }
  }

  /** Updates are numbered from 0, and only the first carries the whitelist, from which the domains can
      be loaded again. */
  lemma UpdatesNumbered(c: Config, text: string, steps: seq<Step>, n: nat)
    requires n < |Run(c, Tokens(text), steps).updates|
    ensures var u := Run(c, Tokens(text), steps).updates[n];
            && u.sequenceNumber == n && (u.whitelist.Some? <==> n == 0)
            && (n == 0 ==> Tokens(u.whitelist.value) == Tokens(text))
  {
    var domains := Tokens(text);
    EveryRun(c, domains, steps);
    LoadPrintLoad(text);
    hide Tokens, Printed;
    var w := Run(c, domains, steps);
    assert Faithful(c, domains, w.updates, w.windows[n], w.tables[n], n);
  }

  // Packet times.

  /** The time the server computes for packet line j. */
  function LineTime(u: SeriesUpdate, j: nat): int
    requires j < |u.lines|
  {
    Decoded(u.start, seq(|u.lines|, i requires 0 <= i < |u.lines| => u.lines[i].delta), j)
  }

  lemma SeriesTimes(tableEntries: nat, s: Series, window: seq<Logged>)
    requires Records(s, OffersOf(window))
    ensures var u := WriteSeries(tableEntries, s);
            && |u.lines| <= |window|
            && ((forall j: nat :: j < |u.lines| ==> LineTime(u, j) == Micros(window[j].packet))
                <==> forall j: nat :: j < |u.lines| ==> FitsInt32(Gap(OffersOf(window), j)))
  {
    var u := WriteSeries(tableEntries, s);
    assert seq(|u.lines|, i requires 0 <= i < |u.lines| => u.lines[i].delta) == Deltas(s.data);
    SeriesRoundTrip(s, OffersOf(window));
    assert forall j: nat :: j < |u.lines| ==> OffersOf(window)[j].micros == Micros(window[j].packet);
  }

  lemma TimesRecovered(c: Config, domains: seq<string>, w: World, n: nat)
    requires History(c, domains, w) && n < |w.updates|
    ensures var u := w.updates[n].packets;
            && |u.lines| <= |w.windows[n]|
            && ((forall j: nat :: j < |u.lines| ==> LineTime(u, j) == Micros(w.windows[n][j].packet))
                <==> forall j: nat :: j < |u.lines| ==> FitsInt32(Gap(OffersOf(w.windows[n]), j)))
  {
    assert Faithful(c, domains, w.updates, w.windows[n], w.tables[n], n);
    var s :| Records(s, OffersOf(w.windows[n])) && w.updates[n].packets == WriteSeries(c.table.n, s);
    hide Records, WriteSeries, LineTime, Gap, FitsInt32, OffersOf, Micros;
    SeriesTimes(c.table.n, s, w.windows[n]);
  }

  /** The server recovers the time of every packet line of an update if and only if no two
      neighbouring packets of the window are 2^31 microseconds apart. */
  lemma PacketTimesRecovered(c: Config, domains: seq<string>, steps: seq<Step>, n: nat)
    requires n < |Run(c, domains, steps).updates|
    ensures var w := Run(c, domains, steps); var u := w.updates[n].packets;
            && n < |w.windows| && |u.lines| <= |w.windows[n]|
            && ((forall j: nat :: j < |u.lines| ==> LineTime(u, j) == Micros(w.windows[n][j].packet))
                <==> forall j: nat :: j < |u.lines| ==> FitsInt32(Gap(OffersOf(w.windows[n]), j)))
  {
    var w := Run(c, domains, steps);
    EveryRun(c, domains, steps);
    hide Run, Current;
    TimesRecovered(c, domains, w, n);
  }

  // The address ring.

  /** After every update the server's ring agrees with the router's on every live id. */
  lemma RingMirrored(c: Config, domains: seq<string>, steps: seq<Step>, now: int)
    requires AlarmStep(c, domains, Run(c, domains, steps).router, now).1.Some?
    ensures var w := Run(c, domains, steps + [Alarm(now)]);
            && |w.updates| == |Run(c, domains, steps).updates| + 1
            && Agrees(ServerRing(w.updates), w.router.addresses)
  {
    hide AlarmStep, AfterAlarm, Current, History, Agrees, ServerRing;
    var w := Run(c, domains, steps);
    EveryRun(c, domains, steps);
    assert (steps + [Alarm(now)])[..|steps|] == steps;
    UpdateRing(c, domains, w, now);
    AlarmWrites(c, domains, w, now);
  }

  // Times of flows.

  /** Base plus offset of each live entry is the time of the latest packet of its slot. */
  ghost predicate TimesSound(t: Table, seen: map<nat, int>) {
    forall i: nat :: i < |t.entries| && t.entries[i].Live() ==> i in seen && seen[i] == Seen(t, i)
  }

  lemma PacketTimes(c: Config, w: World, p: Packet)
    requires Sized(c, w.router) && Inv(c.table, w.router.flows) && TimesSound(w.router.flows, w.seen)
    ensures TimesSound(AfterPacket(c, w, p).router.flows, AfterPacket(c, w, p).seen)
  {
    if p.traffic.Ip? {
      var t, flow, now := w.router.flows, p.traffic.flow, p.seconds;
      var (t1, o) := ProcessStep(c.table, t, flow, now);
      ProcessEffect(c.table, t, flow, now);
      hide Inv, ProcessStep, FirstFree, AddressStep, DnsPacketStep, AddStep;
      forall i: nat | i < c.table.n && t1.entries[i].Live()
        ensures var seen := AfterPacket(c, w, p).seen; i in seen && seen[i] == Seen(t1, i)
      {
        assert o.Dropped? || i != o.slot ==> SweptEntry(c.table, t, t1.entries[i], flow, now, i);
      }
    }
  }

  /** An update keeps the times sound exactly when no live flow is too new for its timestamp. */
  lemma UpdateTimes(c: Config, domains: seq<string>, w: World, now: int)
    requires Sized(c, w.router) && Inv(c.table, w.router.flows) && TimesSound(w.router.flows, w.seen)
    requires AlarmStep(c, domains, w.router, now).1.Some?
    ensures var w1 := AfterAlarm(c, domains, w, now);
            TimesSound(w1.router.flows, w1.seen) <==> NoneTooNew(w.router.flows, now)
  {
    var t := w.router.flows;
    var written := WriteStep(t).0;
    WriteKeepsInv(c.table, t);
    var t1 := AdvanceStep(written, now);
    forall i: nat | i < c.table.n
      ensures t1.entries[i].Live() ==>
                t.entries[i].Live() && (Seen(t1, i) == Seen(t, i) <==> Seen(t, i) <= now + MAX_UPDATE_OFFSET)
      ensures t.entries[i].Live() && Seen(t, i) > now + MAX_UPDATE_OFFSET ==> t1.entries[i].Live()
    {
      AdvanceSlot(c.table, written, now, i);
      assert written.entries[i] == MarkSent(t.entries[i]);
    }
  }

  ghost predicate AlwaysSound(c: Config, domains: seq<string>, steps: seq<Step>) {
    && TimesSound(Run(c, domains, steps).router.flows, Run(c, domains, steps).seen)
    && (steps != [] ==> AlwaysSound(c, domains, steps[..|steps| - 1]))
  }

  /** No update of the run is dated more than 32767 s before the latest packet of a live flow. */
  ghost predicate NeverTooEarly(c: Config, domains: seq<string>, steps: seq<Step>) {
    steps != [] ==>
      var w, step := Run(c, domains, steps[..|steps| - 1]), steps[|steps| - 1];
      && NeverTooEarly(c, domains, steps[..|steps| - 1])
      && (step.Alarm? && AlarmStep(c, domains, w.router, step.now).1.Some? ==> NoneTooNew(w.router.flows, step.now))
  }

  /** The times are sound in every state of a run if and only if no update is dated too early. */
  lemma {:induction false} TimesSoundExactly(c: Config, domains: seq<string>, steps: seq<Step>)
    ensures AlwaysSound(c, domains, steps) <==> NeverTooEarly(c, domains, steps)
  {
    if steps != [] {
      var front := steps[..|steps| - 1];
      var w := Run(c, domains, front);
      TimesSoundExactly(c, domains, front);
      EveryRun(c, domains, front);
      if TimesSound(w.router.flows, w.seen) {
        match steps[|steps| - 1]
        case Arrival(p) => PacketTimes(c, w, p);
        case Alarm(now) =>
          if AlarmStep(c, domains, w.router, now).1.Some? {
            UpdateTimes(c, domains, w, now);
          }
      }
    }
  }

  /** No update of the run is dated before the base that the flow table has by then. */
  ghost predicate NeverBackwards(c: Config, domains: seq<string>, steps: seq<Step>) {
    steps != [] ==>
      var w, step := Run(c, domains, steps[..|steps| - 1]), steps[|steps| - 1];
      && NeverBackwards(c, domains, steps[..|steps| - 1])
      && (step.Alarm? && AlarmStep(c, domains, w.router, step.now).1.Some? ==> step.now >= w.router.flows.base)
  }

  /** A run whose updates never go back behind the base keeps all times. */
  lemma ForwardRunsAreSound(c: Config, domains: seq<string>, steps: seq<Step>)
    requires NeverBackwards(c, domains, steps)
    ensures AlwaysSound(c, domains, steps)
  {
    ForwardIsNeverTooEarly(c, domains, steps);
    TimesSoundExactly(c, domains, steps);
  }

  lemma {:induction false} ForwardIsNeverTooEarly(c: Config, domains: seq<string>, steps: seq<Step>)
    requires NeverBackwards(c, domains, steps)
    ensures NeverTooEarly(c, domains, steps)
  {
    if steps != [] {
      hide Run, AlarmStep, NoneTooNew;
      var front, step := steps[..|steps| - 1], steps[|steps| - 1];
      var w := Run(c, domains, front);
      ForwardIsNeverTooEarly(c, domains, front);
      EveryRun(c, domains, front);
      if step.Alarm? && step.now >= w.router.flows.base {
        ForwardIsSafe(c.table, w.router.flows, step.now);
      }
    }
  }

  // DNS lines.

  lemma DnsOfUpdate(c: Config, domains: seq<string>, steps: seq<Step>, n: nat)
    requires n < |Run(c, domains, steps).updates|
    ensures var w := Run(c, domains, steps);
            && |w.updates| == |w.windows| == |w.starts|
            && w.updates[n].dns == AppendAll(EMPTY_DNS, WindowEntries(w.starts[n].pairs, w.windows[n]))
  {
    var w := Run(c, domains, steps);
    EveryRunRetraced(c, domains, steps);
    hide Run, Replays;
    assert Retraced(c, w.updates, w.windows[n], w.starts[n], w.tables[n], n);
  }

  /** The DNS lines of an update are what the DNS responses of its window contain, in the order of
      the packets, up to 1024 of each kind, and the rest is counted. */
  lemma DnsLinesExactly(c: Config, domains: seq<string>, steps: seq<Step>, n: nat)
    requires n < |Run(c, domains, steps).updates|
    ensures var w := Run(c, domains, steps);
            && n < |w.windows| == |w.starts|
            && Lists(w.updates[n].dns, WindowEntries(w.starts[n].pairs, w.windows[n]))
  {
    DnsOfUpdate(c, domains, steps, n);
    hide Run, WindowEntries;
    var w := Run(c, domains, steps);
    AppendLists(WindowEntries(w.starts[n].pairs, w.windows[n]));
  }

  /** If the DNS responses of a window are encoded messages, cut off anywhere, the DNS lines of its
      update are the class-IN A and CNAME records that arrived whole in the answer and additional
      sections of those messages that report no error. */
  lemma DnsLinesOfMessages(c: Config, domains: seq<string>, steps: seq<Step>, n: nat, ms: seq<DnsRoundTrip.Message>)
    requires var w := Run(c, domains, steps);
             n < |w.updates| == |w.windows| && |ms| == |w.windows[n]|
             && forall j :: 0 <= j < |ms| ==> Encodes(w.windows[n][j].packet.traffic, ms[j])
    ensures var w := Run(c, domains, steps);
            && |w.starts| == |w.updates|
            && Lists(w.updates[n].dns, WindowRecords(w.starts[n].pairs, w.windows[n], ms))
  {
    DnsOfUpdate(c, domains, steps, n);
    hide Run, WindowEntries, WindowRecords, Encodes, AppendAll, Lists;
    var w := Run(c, domains, steps);
    EncodedWindowAdds(w.starts[n].pairs, w.windows[n], ms);
    AppendLists(WindowEntries(w.starts[n].pairs, w.windows[n]));
  }

  /** A window whose DNS responses are all too short, answer no query, or report errors leaves no DNS
      line. */
  lemma ErrorsLeaveNoLine(c: Config, domains: seq<string>, steps: seq<Step>, n: nat)
    requires var w := Run(c, domains, steps);
             n < |w.updates| == |w.windows|
             && forall j :: 0 <= j < |w.windows[n]| && FromNameServer(w.windows[n][j].packet.traffic)
                            ==> Irrelevant(w.windows[n][j].packet.traffic.payload)
    ensures Run(c, domains, steps).updates[n].dns == DnsState([], [], 0, 0)
  {
    DnsOfUpdate(c, domains, steps, n);
    hide Run, WindowEntries, FromNameServer, Irrelevant;
    var w := Run(c, domains, steps);
    IrrelevantWindowAdds(w.starts[n].pairs, w.windows[n]);
    assert AppendAll(EMPTY_DNS, NO_ENTRIES) == EMPTY_DNS;
  }

  /** Each DNS line names the packet line of a DNS response of its window and the id that the
      response's destination had in the address ring. */
  lemma DnsLinesTraced(c: Config, domains: seq<string>, steps: seq<Step>, n: nat)
    requires n < |Run(c, domains, steps).updates|
    ensures var w := Run(c, domains, steps); var u := w.updates[n];
            && n < |w.windows| == |w.starts|
            && (forall x :: x in u.dns.a ==> x.packetId < |u.packets.lines|
                                             && FromResponse(w.starts[n].pairs, w.windows[n], x.packetId, x.macId))
            && (forall x :: x in u.dns.cname ==> x.packetId < |u.packets.lines|
                                                 && FromResponse(w.starts[n].pairs, w.windows[n], x.packetId, x.macId))
  {
    var w := Run(c, domains, steps);
    DnsOfUpdate(c, domains, steps, n);
    PacketsAccounted(c, domains, steps, n);
    hide Run, WindowEntries, PairsOf, DestinationIs;
    var window := w.windows[n];
    WindowEntriesFrom(w.starts[n].pairs, window, |window|);
    assert window[..|window|] == window;
  }

  /** The id of a DNS line leads the server to the newest pair inserted under it. As long as fewer
      than 512 pairs were inserted after the response's destination, by the end of the window,
      that is the destination if and only if they were fewer than 256. */
  lemma DnsLineLeads(c: Config, domains: seq<string>, steps: seq<Step>, n: nat, j: nat, k: nat)
    requires var w := Run(c, domains, steps);
             n < |w.updates| == |w.windows| == |w.starts| && j < |w.windows[n]|
             && DestinationIs(w.starts[n].pairs, w.windows[n], j, k)
    ensures var w := Run(c, domains, steps);
            var server, pairs := ServerRing(w.updates[..n + 1]), PairsOf(w.starts[n].pairs, w.windows[n]);
            var t := w.windows[n][j].packet.traffic;
            var id, pair := IdOf(k), Pair(t.flow.ipDestination, t.destinationMac);
            var r := Newest(|pairs|, id);
            && k <= r < |pairs| && IdOf(r) == id && id in server && server[id] == pairs[r]
            && (|pairs| - 1 - k < 512
                ==> (server[id] == pair <==> |pairs| - 1 - k < 256))
  {
    var w := Run(c, domains, steps);
    EveryRunRetraced(c, domains, steps);
    hide Run, Replays, PairsOf, ServerRing, IdOf, Newest, PairsAfter, Mirrors, Spaced, LogsOf, WindowEntries, Inv;
    assert Retraced(c, w.updates, w.windows[n], w.starts[n], w.tables[n], n);
    var pairs := PairsOf(w.starts[n].pairs, w.windows[n]);
    PairsGrow(w.starts[n].pairs, w.windows[n], j + 1);
    assert k < |pairs| && pairs[k] == PairsOf(w.starts[n].pairs, w.windows[n][..j + 1])[k];
    IdLeads(ServerRing(w.updates[..n + 1]), pairs, k);
  }

  // Accounting.

  function IpPackets(steps: seq<Step>): nat {
    if steps == [] then 0
    else IpPackets(steps[..|steps| - 1]) + One(steps[|steps| - 1].Arrival? && steps[|steps| - 1].packet.traffic.Ip?)
  }

  ghost predicate Accounted(w: World) {
    && w.insertions == w.router.flows.numElements + w.router.flows.numExpired + w.rebased
    && w.drops == w.router.flows.numDropped
  }

  lemma PacketAccounted(c: Config, w: World, p: Packet)
    requires Sized(c, w.router) && Accounted(w)
    ensures var w1 := AfterPacket(c, w, p);
            && Accounted(w1)
            && w1.matches + w1.insertions + w1.drops == w.matches + w.insertions + w.drops + One(p.traffic.Ip?)
  {
    if p.traffic.Ip? {
      ProcessAccounts(c.table, w.router.flows, p.traffic.flow, p.seconds);
    }
  }

  lemma AlarmAccounted(c: Config, domains: seq<string>, w: World, now: int)
    requires Sized(c, w.router) && Accounted(w)
    ensures var w1 := AfterAlarm(c, domains, w, now);
            && Accounted(w1)
            && w1.matches + w1.insertions + w1.drops == w.matches + w.insertions + w.drops
  {
  }

  /** Every call matches, inserts or drops; every insertion is live, expired or re-based away. */
  lemma {:induction false} FlowsAccounted(c: Config, domains: seq<string>, steps: seq<Step>)
    ensures var w := Run(c, domains, steps); var t := w.router.flows;
            && t.numElements == |LiveSlots(t.entries)|
            && w.insertions == t.numElements + t.numExpired + w.rebased
            && w.drops == t.numDropped
            && IpPackets(steps) == w.matches + w.insertions + w.drops
  {
    EveryRun(c, domains, steps);
    RunAccounted(c, domains, steps);
  }

  lemma {:induction false} RunAccounted(c: Config, domains: seq<string>, steps: seq<Step>)
    ensures var w := Run(c, domains, steps);
            Accounted(w) && IpPackets(steps) == w.matches + w.insertions + w.drops
  {
    if steps != [] {
      hide AfterPacket, AfterAlarm, Accounted;
      var front := steps[..|steps| - 1];
      RunAccounted(c, domains, front);
      match steps[|steps| - 1]
      case Arrival(p) => PacketAccounted(c, Run(c, domains, front), p);
      case Alarm(now) => AlarmAccounted(c, domains, Run(c, domains, front), now);
    }
  }
}
