/** What one packet and one update do to the relation between the router's flow table, the
    packets of the current window and a server that replays the updates. */
module Replication {
  import opened FlowTables
  import opened FlowTableProperties
  import opened Options
  import opened Routers

  /** A processed packet with the flow id it got and, for IP, what the flow table did. */
  datatype Logged = Logged(packet: Packet, id: nat, outcome: Option<Outcome>)
  {
    /** The packet was given a slot of the flow table. */
    predicate Tracked() {
      packet.traffic.Ip? && outcome.Some? && !outcome.value.Dropped?
    }

    function Flow(): FiveTuple
      requires packet.traffic.Ip?
    {
      packet.traffic.flow
    }
  }

  function LogOf(c: Config, t: Table, p: Packet): Logged
    requires |t.entries| == c.table.n
  {
    var (_, id, outcome) := FlowStep(c, t, p);
    Logged(p, id, outcome)
  }

  /** Each packet has the id of a slot that has been used, or a reserved id. */
  ghost predicate WellLogged(es: seq<Entry>, window: seq<Logged>) {
    forall a: nat :: a < |window| ==> SlotUsed(es, window[a])
  }

  ghost predicate SlotUsed(es: seq<Entry>, l: Logged) {
    if l.Tracked() then
      && l.outcome.value.slot < |es|
      && l.id == l.outcome.value.slot + FLOW_ID_FIRST_UNRESERVED
      && !es[l.outcome.value.slot].occupied.Empty?
    else l.id < FLOW_ID_FIRST_UNRESERVED
  }

  lemma PacketLogged(c: Config, t: Table, window: seq<Logged>, p: Packet)
    requires Inv(c.table, t) && WellLogged(t.entries, window)
    ensures WellLogged(FlowStep(c, t, p).0.entries, window + [LogOf(c, t, p)])
  {
    var t1, l := FlowStep(c, t, p).0, LogOf(c, t, p);
    if p.traffic.Ip? {
      ProcessEffect(c.table, t, p.traffic.flow, p.seconds);
      var o := l.outcome.value;
      forall i: nat | i < c.table.n && !t.entries[i].occupied.Empty? ensures !t1.entries[i].occupied.Empty? {
        assert o.Dropped? || i != o.slot ==> SweptEntry(c.table, t, t1.entries[i], p.traffic.flow, p.seconds, i);
      }
    }
    assert SlotUsed(t1.entries, l);
    forall a: nat | a < |window| ensures SlotUsed(t1.entries, window[a]) {
      assert SlotUsed(t.entries, window[a]);
    }
  }

  /** No later packet of the window has the id of packet a. */
  ghost predicate IsLast(window: seq<Logged>, a: nat)
    requires a < |window|
  {
    forall b :: a < b < |window| && window[b].Tracked() ==> window[b].id != window[a].id
  }

  /** The last packet of the window with the id of packet a. */
  ghost function LastLike(window: seq<Logged>, a: nat): (b: nat)
    requires a < |window| && window[a].Tracked()
    ensures a <= b < |window| && window[b].Tracked() && window[b].id == window[a].id && IsLast(window, b)
    decreases |window| - a
  {
    if IsLast(window, a) then a
    else
      var b :| a < b < |window| && window[b].Tracked() && window[b].id == window[a].id;
      LastLike(window, b)
  }

  /** Each slot used in the window names the flow of the last packet that got it. */
  ghost predicate LastFlows(es: seq<Entry>, window: seq<Logged>) {
    forall a: nat :: a < |window| && window[a].Tracked() && IsLast(window, a) ==> NamesFlow(es, window[a])
  }

  ghost predicate NamesFlow(es: seq<Entry>, l: Logged)
    requires l.Tracked()
  {
    l.outcome.value.slot < |es| && es[l.outcome.value.slot].flow == l.Flow()
  }

  lemma PacketLastFlows(c: Config, t: Table, window: seq<Logged>, p: Packet)
    requires Inv(c.table, t) && WellLogged(t.entries, window) && LastFlows(t.entries, window)
    ensures LastFlows(FlowStep(c, t, p).0.entries, window + [LogOf(c, t, p)])
  {
    var t1, l := FlowStep(c, t, p).0, LogOf(c, t, p);
    var window1 := window + [l];
    if p.traffic.Ip? {
      ProcessEffect(c.table, t, p.traffic.flow, p.seconds);
    }
    forall a: nat | a < |window1| && window1[a].Tracked() && IsLast(window1, a)
      ensures NamesFlow(t1.entries, window1[a])
    {
      if a < |window| {
        assert forall b :: a < b < |window| ==> window1[b] == window[b];
        assert IsLast(window, a) && NamesFlow(t.entries, window[a]) && SlotUsed(t.entries, window[a]);
        assert window1[|window|] == l;
        var i := window[a].outcome.value.slot;
        if p.traffic.Ip? {
          var o := l.outcome.value;
          assert o.Dropped? || i != o.slot;
          assert SweptEntry(c.table, t, t1.entries[i], p.traffic.flow, p.seconds, i);
        }
      }
    }
  }

  // The server's copy of the flow lines.

  /** The server's map from ids to 5-tuples after the first m lines; later lines override. */
  function ReplayFlows(server: map<nat, FiveTuple>, lines: seq<FlowLine>, m: nat): map<nat, FiveTuple>
    requires m <= |lines|
  {
    if m == 0 then server else ReplayFlows(server, lines, m - 1)[lines[m - 1].id := lines[m - 1].flow]
  }

  ghost predicate Increasing(lines: seq<FlowLine>) {
    forall k, l :: 0 <= k < l < |lines| ==> lines[k].id < lines[l].id
  }

  lemma {:induction false} ReplayKeeps(server: map<nat, FiveTuple>, lines: seq<FlowLine>, m: nat, id: nat)
    requires m <= |lines|
    requires forall k :: 0 <= k < m ==> lines[k].id != id
    ensures id in ReplayFlows(server, lines, m) <==> id in server
    ensures id in server ==> ReplayFlows(server, lines, m)[id] == server[id]
  {
    if m > 0 {
      ReplayKeeps(server, lines, m - 1, id);
    }
  }

  lemma {:induction false} ReplayTakes(server: map<nat, FiveTuple>, lines: seq<FlowLine>, m: nat, k: nat)
    requires k < m <= |lines| && Increasing(lines)
    ensures lines[k].id in ReplayFlows(server, lines, m)
    ensures ReplayFlows(server, lines, m)[lines[k].id] == lines[k].flow
  {
    if k < m - 1 {
      ReplayTakes(server, lines, m - 1, k);
    }
  }

  /** The server knows the flow of every slot whose entry has been sent, live or not. */
  ghost predicate SentMirrored(server: map<nat, FiveTuple>, es: seq<Entry>) {
    forall i: nat :: i < |es| && (es[i].occupied.Sent? || es[i].occupied.Deleted?) ==>
      i + FLOW_ID_FIRST_UNRESERVED in server && server[i + FLOW_ID_FIRST_UNRESERVED] == es[i].flow
  }

  /** The server knows the flow of every slot that was ever used. */
  ghost predicate FullyMirrored(server: map<nat, FiveTuple>, es: seq<Entry>) {
    forall i: nat :: i < |es| && !es[i].occupied.Empty? ==>
      i + FLOW_ID_FIRST_UNRESERVED in server && server[i + FLOW_ID_FIRST_UNRESERVED] == es[i].flow
  }

  lemma ProcessMirrored(c: Params, t: Table, flow: FiveTuple, now: int, server: map<nat, FiveTuple>)
    requires Inv(c, t) && SentMirrored(server, t.entries)
    ensures SentMirrored(server, ProcessStep(c, t, flow, now).0.entries)
  {
    var (t1, o) := ProcessStep(c, t, flow, now);
    ProcessEffect(c, t, flow, now);
    forall i: nat | i < c.n && (t1.entries[i].occupied.Sent? || t1.entries[i].occupied.Deleted?)
      ensures i + FLOW_ID_FIRST_UNRESERVED in server
      ensures server[i + FLOW_ID_FIRST_UNRESERVED] == t1.entries[i].flow
    {
      assert o.Dropped? || i != o.slot ==> SweptEntry(c, t, t1.entries[i], flow, now, i);
    }
  }

  lemma WriteMirrors(server: map<nat, FiveTuple>, es: seq<Entry>)
    requires SentMirrored(server, es)
    ensures var lines := UnsentLines(es, |es|);
            FullyMirrored(ReplayFlows(server, lines, |lines|), es)
  {
    var lines := UnsentLines(es, |es|);
    assert es[..|es|] == es;
    LinesAreUnsent(es, |es|);
    forall i: nat | i < |es| && !es[i].occupied.Empty?
      ensures var id := i + FLOW_ID_FIRST_UNRESERVED; var after := ReplayFlows(server, lines, |lines|);
              id in after && after[id] == es[i].flow
    {
      var id := i + FLOW_ID_FIRST_UNRESERVED;
      if es[i].occupied.Unsent? {
        assert LineOf(es, FlowLine(id, es[i].flow));
        var k :| 0 <= k < |lines| && lines[k] == FlowLine(id, es[i].flow);
        ReplayTakes(server, lines, |lines|, k);
      } else {
        assert forall k :: 0 <= k < |lines| ==> LineOf(es, lines[k]);
        ReplayKeeps(server, lines, |lines|, id);
      }
    }
  }

  /** Marking everything sent and re-basing turns a full mirror into one of the sent entries,
      and leaves nothing unsent. */
  lemma AdvanceMirrored(server: map<nat, FiveTuple>, es: seq<Entry>, offset: int)
    requires FullyMirrored(server, es)
    ensures SentMirrored(server, RebasedAll(MarkAllSent(es), offset))
    ensures forall i: nat :: i < |es| ==> !RebasedAll(MarkAllSent(es), offset)[i].occupied.Unsent?
  {
  }

  // Sending each insertion once.

  /** The flow lines the insertions of a window call for, in the order of insertion. */
  function InsertLines(window: seq<Logged>): seq<FlowLine> {
    if window == [] then []
    else
      var l := window[|window| - 1];
      InsertLines(window[..|window| - 1])
      + if l.Tracked() && l.outcome.value.Inserted? then [FlowLine(l.id, l.Flow())] else []
  }

  ghost predicate DistinctIds(lines: seq<FlowLine>) {
    forall k, l :: 0 <= k < l < |lines| ==> lines[k].id != lines[l].id
  }

  /** The unsent entries are exactly the given insertions. */
  ghost predicate Pending(es: seq<Entry>, lines: seq<FlowLine>) {
    DistinctIds(lines) && forall line :: line in lines <==> LineOf(es, line)
  }

  lemma ProcessPending(c: Params, t: Table, flow: FiveTuple, now: int, lines: seq<FlowLine>)
    requires Inv(c, t) && Pending(t.entries, lines)
    ensures var (t1, o) := ProcessStep(c, t, flow, now);
            Pending(t1.entries, lines + if o.Inserted? then [FlowLine(FlowId(o), flow)] else [])
  {
    var (t1, o) := ProcessStep(c, t, flow, now);
    var lines1 := lines + if o.Inserted? then [FlowLine(FlowId(o), flow)] else [];
    ProcessEffect(c, t, flow, now);
    forall line ensures line in lines1 <==> LineOf(t1.entries, line) {
      UnsentAfter(c, t, flow, now, t1, o, line);
    }
    if o.Inserted? {
      assert forall k :: 0 <= k < |lines| ==> LineOf(t.entries, lines[k]);
    }
  }

  /** A packet neither deletes nor overwrites an unsent entry; an insertion adds one. */
  lemma UnsentAfter(c: Params, t: Table, flow: FiveTuple, now: int, t1: Table, o: Outcome, line: FlowLine)
    requires Inv(c, t) && Effect(c, t, flow, now, t1, o)
    ensures LineOf(t1.entries, line)
            <==> LineOf(t.entries, line) || (o.Inserted? && line == FlowLine(FlowId(o), flow))
  {
    if LineOf(t1.entries, line) {
      var i: nat :| i < c.n && t1.entries[i].occupied.Unsent?
                    && line == FlowLine(i + FLOW_ID_FIRST_UNRESERVED, t1.entries[i].flow);
      assert o.Dropped? || i != o.slot ==> SweptEntry(c, t, t1.entries[i], flow, now, i);
    }
    if LineOf(t.entries, line) {
      var i: nat :| i < c.n && t.entries[i].occupied.Unsent?
                    && line == FlowLine(i + FLOW_ID_FIRST_UNRESERVED, t.entries[i].flow);
      assert o.Dropped? || i != o.slot ==> SweptEntry(c, t, t1.entries[i], flow, now, i);
      assert t1.entries[i].occupied.Unsent? && t1.entries[i].flow == t.entries[i].flow;
    }
    if o.Inserted? && line == FlowLine(FlowId(o), flow) {
      assert t1.entries[o.slot].occupied.Unsent?;
    }
  }

  lemma {:induction false} CountOfDistinct(lines: seq<FlowLine>, line: FlowLine)
    requires DistinctIds(lines)
    ensures multiset(lines)[line] == if line in lines then 1 else 0
  {
    if lines != [] {
      var rest := lines[..|lines| - 1];
      assert lines == rest + [lines[|lines| - 1]];
      CountOfDistinct(rest, line);
    }
  }

  lemma SameLines(a: seq<FlowLine>, b: seq<FlowLine>)
    requires DistinctIds(a) && DistinctIds(b)
    requires forall line :: line in a <==> line in b
    ensures multiset(a) == multiset(b)
  {
    forall line ensures multiset(a)[line] == multiset(b)[line] {
      CountOfDistinct(a, line);
      CountOfDistinct(b, line);
    }
  }

  /** An update lists each pending insertion exactly once and nothing else. */
  lemma WriteSendsPending(es: seq<Entry>, lines: seq<FlowLine>)
    requires Pending(es, lines)
    ensures multiset(UnsentLines(es, |es|)) == multiset(lines)
  {
    assert es[..|es|] == es;
    LinesAreUnsent(es, |es|);
    SameLines(UnsentLines(es, |es|), lines);
  }

  // Packets keep their flows until the window is written.

  /** No IP packet is more than 30 minutes later than an earlier one. */
  ghost predicate Close(window: seq<Logged>) {
    forall a, b :: 0 <= a < b < |window| && window[a].packet.traffic.Ip? && window[b].packet.traffic.Ip?
                   ==> window[b].packet.seconds <= window[a].packet.seconds + 30 * 60
  }

  /** The slot of packet a of the window still holds its flow. */
  ghost predicate Held(es: seq<Entry>, window: seq<Logged>, a: nat)
    requires a < |window|
  {
    window[a].Tracked() ==>
      window[a].outcome.value.slot < |es| && es[window[a].outcome.value.slot].Holds(window[a].Flow())
  }

  /** The entry of packet a was last seen with an IP packet of the window from a on. */
  ghost predicate SeenInWindow(t: Table, window: seq<Logged>, a: nat)
    requires a < |window|
  {
    window[a].Tracked() && window[a].outcome.value.slot < |t.entries| ==>
      exists b :: a <= b < |window| && window[b].packet.traffic.Ip?
                  && Seen(t, window[a].outcome.value.slot) == window[b].packet.seconds
  }

  ghost predicate AllHeld(t: Table, window: seq<Logged>) {
    forall a: nat :: a < |window| ==> Held(t.entries, window, a) && SeenInWindow(t, window, a)
  }

  /** A packet not much later than the window so far moves no slot of the window. */
  lemma SlotStays(c: Params, t: Table, flow: FiveTuple, now: int, i: nat, g: FiveTuple)
    requires Inv(c, t) && i < c.n && t.entries[i].Holds(g)
    requires now <= Seen(t, i) + 30 * 60
    ensures var (t1, o) := ProcessStep(c, t, flow, now);
            && |t1.entries| == c.n && t1.entries[i].Holds(g)
            && Seen(t1, i) == if o.Matched? && o.slot == i then now else Seen(t, i)
  {
    var (t1, o) := ProcessStep(c, t, flow, now);
    ProcessEffect(c, t, flow, now);
    assert o.Dropped? || i != o.slot ==> SweptEntry(c, t, t1.entries[i], flow, now, i);
  }

  lemma PacketHeld(c: Config, t: Table, window: seq<Logged>, p: Packet)
    requires Inv(c.table, t) && AllHeld(t, window)
    requires Close(window + [LogOf(c, t, p)])
    ensures AllHeld(FlowStep(c, t, p).0, window + [LogOf(c, t, p)])
  {
    var window1, t1 := window + [LogOf(c, t, p)], FlowStep(c, t, p).0;
    forall a: nat | a < |window1| ensures Held(t1.entries, window1, a) && SeenInWindow(t1, window1, a) {
      if a < |window| {
        OlderHeld(c, t, window, p, a);
      } else {
        NewestHeld(c, t, window, p);
      }
    }
  }

  lemma NewestHeld(c: Config, t: Table, window: seq<Logged>, p: Packet)
    requires Inv(c.table, t)
    ensures var window1 := window + [LogOf(c, t, p)]; var t1 := FlowStep(c, t, p).0;
            Held(t1.entries, window1, |window|) && SeenInWindow(t1, window1, |window|)
  {
    if p.traffic.Ip? {
      ProcessEffect(c.table, t, p.traffic.flow, p.seconds);
      var window1 := window + [LogOf(c, t, p)];
      assert window1[|window|] == LogOf(c, t, p);
    }
  }

  lemma OlderHeld(c: Config, t: Table, window: seq<Logged>, p: Packet, a: nat)
    requires Inv(c.table, t) && a < |window| && Held(t.entries, window, a) && SeenInWindow(t, window, a)
    requires Close(window + [LogOf(c, t, p)])
    ensures var window1 := window + [LogOf(c, t, p)]; var t1 := FlowStep(c, t, p).0;
            Held(t1.entries, window1, a) && SeenInWindow(t1, window1, a)
  {
    var window1, t1 := window + [LogOf(c, t, p)], FlowStep(c, t, p).0;
    if window[a].Tracked() {
      var i := window[a].outcome.value.slot;
      var b :| a <= b < |window| && window[b].packet.traffic.Ip? && Seen(t, i) == window[b].packet.seconds;
      assert window1[b] == window[b] && window1[|window|] == LogOf(c, t, p);
      if p.traffic.Ip? {
        SlotStays(c.table, t, p.traffic.flow, p.seconds, i, window[a].Flow());
      }
      assert Seen(t1, i) == window1[b].packet.seconds || Seen(t1, i) == window1[|window|].packet.seconds;
    }
  }
}
