/** What the transitions of the flow table guarantee in every state they reach. */
module FlowTableProperties {
  import opened FlowTables
  import opened Options

  // The table invariant.

  /** Slot i is probe p of the flow it holds and no earlier probe of that flow is EMPTY. */
  ghost predicate Reaches(c: Params, es: seq<Entry>, i: nat, p: nat)
    requires i < |es| == c.n
  {
    && Slot(c, es[i].flow, p) == i
    && forall q: nat :: q < p ==> !es[Slot(c, es[i].flow, q)].occupied.Empty?
  }

  ghost predicate OnItsPath(c: Params, es: seq<Entry>, i: nat)
    requires i < |es| == c.n
  {
    exists p: nat :: p < NUM_PROBES && Reaches(c, es, i, p)
  }

  ghost predicate AllOnPath(c: Params, es: seq<Entry>)
    requires |es| == c.n
  {
    forall i: nat :: i < c.n && es[i].Live() ==> OnItsPath(c, es, i)
  }

  ghost predicate UniqueFlows(es: seq<Entry>) {
    forall i: nat, j: nat :: i < |es| && j < |es| && es[i].Live() && es[j].Holds(es[i].flow) ==> i == j
  }

  ghost predicate OffsetsFit(es: seq<Entry>) {
    forall i: nat :: i < |es| && es[i].Live() ==> MIN_UPDATE_OFFSET <= es[i].lastUpdate <= MAX_UPDATE_OFFSET
  }

  ghost predicate Inv(c: Params, t: Table) {
    && |t.entries| == c.n
    && t.numElements == |LiveSlots(t.entries)|
    && AllOnPath(c, t.entries)
    && UniqueFlows(t.entries)
    && OffsetsFit(t.entries)
  }

  /** The three probes of a flow are its hash and the slots 1 and 3 behind it, all different. */
  lemma ProbesAre(c: Params, flow: FiveTuple)
    ensures Slot(c, flow, 0) == c.hash(flow) % c.n
    ensures Slot(c, flow, 1) == (Slot(c, flow, 0) + 1) % c.n
    ensures Slot(c, flow, 2) == (Slot(c, flow, 0) + 3) % c.n
    ensures forall p: nat, q: nat :: p < q < NUM_PROBES ==> Slot(c, flow, p) != Slot(c, flow, q)
  {
    var h := c.hash(flow);
    SlotBehind(h, 1, c.n);
    SlotBehind(h, 3, c.n);
  }

  lemma SlotBehind(h: nat, d: nat, n: nat)
    requires d < n
    ensures (h + d) % n == (h % n + d) % n == if h % n + d < n then h % n + d else h % n + d - n
  {
    var q, r := h / n, h % n;
    if r + d < n {
      Remainder(h + d, n, q, r + d);
      Remainder(r + d, n, 0, r + d);
    } else {
      assert n * (q + 1) == n * q + n;
      Remainder(h + d, n, q + 1, r + d - n);
      Remainder(r + d, n, 1, r + d - n);
    }
  }

  lemma Remainder(x: nat, n: nat, q: nat, r: nat)
    requires x == n * q + r && r < n
    ensures x % n == r
  {
    var d := x / n - q;
    assert n * d == n * (x / n) - n * q;
    assert d >= 1 ==> n * d >= n;
    assert d <= -1 ==> n * (d + 1) <= 0;
  }

  lemma SizedInv(c: Params, t: Table)
    requires Inv(c, t)
    ensures |t.entries| == c.n
  {
  }

  // What probing does to the table.

  ghost predicate Probed(c: Params, flow: FiveTuple, i: nat) {
    exists p: nat :: p < NUM_PROBES && Slot(c, flow, p) == i
  }

  ghost predicate SweptEntry(c: Params, t: Table, e: Entry, flow: FiveTuple, now: int, i: nat)
    requires i < |t.entries|
  {
    || e == t.entries[i]
    || (t.entries[i].Stale(t.base, now) && Probed(c, flow, i) && e == t.entries[i].(occupied := Deleted))
  }

  /** t1 is t with some stale entries on the path of the flow turned into tombstones. */
  ghost predicate Swept(c: Params, t: Table, t1: Table, flow: FiveTuple, now: int) {
    && |t1.entries| == |t.entries| == c.n
    && t1.base == t.base
    && t1.numDropped == t.numDropped
    && (forall i: nat :: i < c.n ==> SweptEntry(c, t, t1.entries[i], flow, now, i))
    && t1.numExpired - t.numExpired == t.numElements - t1.numElements
    && t.numElements - t1.numElements == |LiveSlots(t.entries)| - |LiveSlots(t1.entries)|
  }

  lemma LiveSlotsUpdate(es: seq<Entry>, i: nat, e: Entry)
    requires i < |es|
    ensures |LiveSlots(es[i := e])|
            == |LiveSlots(es)| + (if e.Live() then 1 else 0) - (if es[i].Live() then 1 else 0)
  {
    var rest := LiveSlots(es) - {i};
    assert LiveSlots(es[i := e]) == if e.Live() then rest + {i} else rest;
    assert LiveSlots(es) == if es[i].Live() then rest + {i} else rest;
  }

  lemma VisitSweeps(c: Params, t: Table, flow: FiveTuple, now: int, p: nat)
    requires |t.entries| == c.n && p < NUM_PROBES
    ensures Swept(c, t, Visit(t, Slot(c, flow, p), now), flow, now)
  {
    var i := Slot(c, flow, p);
    LiveSlotsUpdate(t.entries, i, t.entries[i].(occupied := Deleted));
  }

  lemma SweptTwice(c: Params, t: Table, t1: Table, t2: Table, flow: FiveTuple, now: int)
    requires Swept(c, t, t1, flow, now) && Swept(c, t1, t2, flow, now)
    ensures Swept(c, t, t2, flow, now)
  {
  }

  lemma {:induction false} ProbeSweeps(
    c: Params, t: Table, flow: FiveTuple, now: int, p: nat, available: Option<nat>)
    requires |t.entries| == c.n
    requires available.Some? ==> available.value < c.n
    ensures Swept(c, t, Probe(c, t, flow, now, p, available).table, flow, now)
    decreases NUM_PROBES - p
  {
    if p < NUM_PROBES {
      var i := Slot(c, flow, p);
      var t1 := Visit(t, i, now);
      VisitSweeps(c, t, flow, now, p);
      var e := t1.entries[i];
      var free := if e.Live() || available.Some? then available else Some(i);
      ProbeSweeps(c, t1, flow, now, p + 1, free);
      SweptTwice(c, t, t1, Probe(c, t1, flow, now, p + 1, free).table, flow, now);
    }
  }

  /** A hit is an entry that held the flow and was not stale; it is untouched by the sweep. */
  lemma {:induction false} HitWasLive(
    c: Params, t: Table, flow: FiveTuple, now: int, p: nat, available: Option<nat>)
    requires |t.entries| == c.n
    requires available.Some? ==> available.value < c.n
    ensures var r := Probe(c, t, flow, now, p, available);
            r.Hit? ==> Probed(c, flow, r.slot)
                       && r.table.entries[r.slot] == t.entries[r.slot]
                       && t.entries[r.slot].Holds(flow) && !t.entries[r.slot].Stale(t.base, now)
    decreases NUM_PROBES - p
  {
    if p < NUM_PROBES {
      var i := Slot(c, flow, p);
      var t1 := Visit(t, i, now);
      var e := t1.entries[i];
      if e.Holds(flow) {
        assert Probed(c, flow, i);
      } else {
        HitWasLive(c, t1, flow, now, p + 1, if e.Live() || available.Some? then available else Some(i));
      }
    }
  }

  /** The first s probes of the flow: none is EMPTY and none holds the flow. */
  ghost predicate Passed(c: Params, es: seq<Entry>, flow: FiveTuple, s: nat)
    requires |es| == c.n
  {
    forall q: nat :: q < s ==>
      !es[Slot(c, flow, q)].occupied.Empty? && !es[Slot(c, flow, q)].Holds(flow)
  }

  /** A miss stops at probe s: every earlier probe was passed and s is EMPTY or beyond the last. */
  ghost predicate StopsAt(c: Params, es: seq<Entry>, flow: FiveTuple, s: nat)
    requires |es| == c.n
  {
    && s <= NUM_PROBES
    && Passed(c, es, flow, s)
    && (s < NUM_PROBES ==> es[Slot(c, flow, s)].occupied.Empty?)
  }

  /** The slot offered by a miss is probe a of the flow, free, with no EMPTY probe before it. */
  ghost predicate Offers(c: Params, es: seq<Entry>, flow: FiveTuple, i: nat, a: nat)
    requires |es| == c.n
  {
    && a < NUM_PROBES && Slot(c, flow, a) == i
    && !es[i].Live()
    && Passed(c, es, flow, a)
  }

  /** The first p probes of the flow are taken by entries that stay. */
  ghost predicate AllStay(c: Params, t: Table, flow: FiveTuple, now: int, p: nat)
    requires |t.entries| == c.n
  {
    forall q: nat :: q < p ==>
      var e := t.entries[Slot(c, flow, q)]; e.Live() && !e.Stale(t.base, now)
  }

  ghost predicate MissMeans(
    c: Params, t: Table, flow: FiveTuple, now: int, available: Option<nat>, s: nat, a: nat)
    requires |t.entries| == c.n
  {
    && StopsAt(c, t.entries, flow, s)
    && match available
       case None => s == NUM_PROBES && AllStay(c, t, flow, now, NUM_PROBES)
       case Some(i) => Offers(c, t.entries, flow, i, a) && AllStay(c, t, flow, now, a) && a <= s
  }

  /** Before probe p: what was passed, and the first free slot met, which is probe a. */
  ghost predicate Past(c: Params, t: Table, flow: FiveTuple, now: int, p: nat, available: Option<nat>, a: nat)
    requires |t.entries| == c.n
  {
    && Passed(c, t.entries, flow, p)
    && match available
       case None => AllStay(c, t, flow, now, p)
       case Some(i) => i < c.n && a < p && Offers(c, t.entries, flow, i, a) && AllStay(c, t, flow, now, a)
  }

  lemma VisitKeepsPast(c: Params, t: Table, flow: FiveTuple, now: int, p: nat, available: Option<nat>, a: nat)
    requires |t.entries| == c.n && p < NUM_PROBES && Past(c, t, flow, now, p, available, a)
    ensures Past(c, Visit(t, Slot(c, flow, p), now), flow, now, p, available, a)
  {
    hide Slot;
  }

  /** One probe further, if the loop does not stop at probe p. */
  lemma ProbeKeepsPast(c: Params, t: Table, flow: FiveTuple, now: int, p: nat, available: Option<nat>, a: nat)
    requires |t.entries| == c.n && p < NUM_PROBES && Past(c, t, flow, now, p, available, a)
    requires var e := t.entries[Slot(c, flow, p)];
             !e.Stale(t.base, now) && !e.Holds(flow) && !e.occupied.Empty?
    ensures var e := t.entries[Slot(c, flow, p)];
            if e.Live() || available.Some? then Past(c, t, flow, now, p + 1, available, a)
            else Past(c, t, flow, now, p + 1, Some(Slot(c, flow, p)), p)
  {
    hide Slot;
  }

  lemma MissEnds(c: Params, t: Table, flow: FiveTuple, now: int, p: nat, available: Option<nat>, a: nat)
    requires |t.entries| == c.n && Past(c, t, flow, now, p, available, a)
    ensures p == NUM_PROBES ==> MissMeans(c, t, flow, now, available, p, a)
    ensures p < NUM_PROBES && t.entries[Slot(c, flow, p)].occupied.Empty?
            ==> MissMeans(c, t, flow, now, if available.Some? then available else Some(Slot(c, flow, p)), p,
                          if available.Some? then a else p)
  {
    hide Slot;
  }

  lemma {:induction false} MissStops(
    c: Params, t: Table, flow: FiveTuple, now: int, p: nat, available: Option<nat>, a0: nat) returns (s: nat, a: nat)
    requires |t.entries| == c.n && p <= NUM_PROBES && Past(c, t, flow, now, p, available, a0)
    ensures var r := Probe(c, t, flow, now, p, available);
            r.Miss? ==> MissMeans(c, r.table, flow, now, r.available, s, a)
    decreases NUM_PROBES - p
  {
    s, a := p, a0;
    hide Past, MissMeans, Slot;
    if p == NUM_PROBES {
      MissEnds(c, t, flow, now, p, available, a0);
    } else {
      var i := Slot(c, flow, p);
      var t1 := Visit(t, i, now);
      var e := t1.entries[i];
      VisitKeepsPast(c, t, flow, now, p, available, a0);
      var first := e.Live() || available.Some?;
      if e.occupied.Empty? {
        MissEnds(c, t1, flow, now, p, available, a0);
        a := if first then a0 else p;
      } else if !e.Holds(flow) {
        ProbeKeepsPast(c, t1, flow, now, p, available, a0);
        s, a := MissStops(c, t1, flow, now, p + 1, if first then available else Some(i), if first then a0 else p);
      }
    }
  }

  // Every transition keeps the invariant.

  lemma InitInv(c: Params)
    ensures Inv(c, InitTable(c))
  {
  }

  lemma SweepKeepsInv(c: Params, t: Table, t1: Table, flow: FiveTuple, now: int)
    requires Inv(c, t) && Swept(c, t, t1, flow, now)
    ensures Inv(c, t1)
  {
    forall i: nat | i < c.n
      ensures t1.entries[i] == t.entries[i] || t1.entries[i] == t.entries[i].(occupied := Deleted)
    {
      assert SweptEntry(c, t, t1.entries[i], flow, now, i);
    }
    forall i: nat | i < c.n && t1.entries[i].Live() ensures OnItsPath(c, t1.entries, i) {
      assert OnItsPath(c, t.entries, i);
      var p: nat :| p < NUM_PROBES && Reaches(c, t.entries, i, p);
      assert Reaches(c, t1.entries, i, p);
    }
  }

  /** The early break at an EMPTY probe loses nothing: the flow is nowhere in the table. */
  lemma StoppedMeansAbsent(c: Params, es: seq<Entry>, flow: FiveTuple, s: nat)
    requires |es| == c.n && AllOnPath(c, es)
    requires StopsAt(c, es, flow, s)
    ensures forall j: nat :: j < c.n ==> !es[j].Holds(flow)
  {
  }

  lemma PlacingKeepsPaths(c: Params, es: seq<Entry>, i: nat, e: Entry, a: nat)
    requires |es| == c.n && AllOnPath(c, es)
    requires e.Live() && Offers(c, es, e.flow, i, a)
    ensures AllOnPath(c, es[i := e])
  {
    var es1 := es[i := e];
    forall j: nat | j < c.n && es1[j].Live() ensures OnItsPath(c, es1, j) {
      if j == i {
        assert Reaches(c, es1, i, a);
      } else {
        assert OnItsPath(c, es, j);
        var p: nat :| p < NUM_PROBES && Reaches(c, es, j, p);
        assert Reaches(c, es1, j, p);
      }
    }
  }

  lemma InsertKeepsInv(c: Params, t: Table, i: nat, flow: FiveTuple, now: int, a: nat)
    requires Inv(c, t)
    requires i < c.n && Offers(c, t.entries, flow, i, a)
    requires forall j: nat :: j < c.n ==> !t.entries[j].Holds(flow)
    requires !OutOfRange(t, now)
    ensures Inv(c, Insert(t, i, flow, now))
  {
    var base := if t.numElements == 0 then now else t.base;
    var e := Entry(flow, Unsent, 1, ToInt16(now - base));
    LiveSlotsUpdate(t.entries, i, e);
    PlacingKeepsPaths(c, t.entries, i, e, a);
  }

  lemma TouchKeepsInv(c: Params, t: Table, i: nat, now: int)
    requires Inv(c, t)
    requires i < c.n && t.entries[i].Live() && !OutOfRange(t, now)
    ensures Inv(c, Touch(t, i, now))
  {
    var es1 := Touch(t, i, now).entries;
    LiveSlotsUpdate(t.entries, i, es1[i]);
    forall j: nat | j < c.n && es1[j].Live() ensures OnItsPath(c, es1, j) {
      assert OnItsPath(c, t.entries, j);
      var p: nat :| p < NUM_PROBES && Reaches(c, t.entries, j, p);
      assert Reaches(c, es1, j, p);
    }
  }

  /** A flow that is in the table and will not be expired by a packet at `now`. */
  ghost predicate Fresh(t: Table, j: nat, flow: FiveTuple, now: int) {
    j < |t.entries| && t.entries[j].Holds(flow) && !t.entries[j].Stale(t.base, now)
  }

  /** What a probe with no free slot known yet returns. */
  ghost predicate ProbeOutcome(c: Params, t: Table, flow: FiveTuple, now: int, r: ProbeResult, a: nat) {
    && Swept(c, t, r.table, flow, now)
    && Inv(c, r.table)
    && match r
       case Hit(t1, i) =>
         && i < c.n && t1.entries[i] == t.entries[i]
         && Probed(c, flow, i)
         && Fresh(t, i, flow, now)
       case Miss(t1, available) =>
         && (forall j: nat :: j < c.n ==> !t1.entries[j].Holds(flow))
         && if available.Some? then Offers(c, t1.entries, flow, available.value, a) && AllStay(c, t1, flow, now, a)
            else AllStay(c, t1, flow, now, NUM_PROBES)
  }

  lemma ProbeMeans(c: Params, t: Table, flow: FiveTuple, now: int) returns (a: nat)
    requires Inv(c, t)
    ensures ProbeOutcome(c, t, flow, now, Probe(c, t, flow, now, 0, None), a)
  {
    var r := Probe(c, t, flow, now, 0, None);
    ProbeSweeps(c, t, flow, now, 0, None);
    SweepKeepsInv(c, t, r.table, flow, now);
    HitWasLive(c, t, flow, now, 0, None);
    var s;
    s, a := MissStops(c, t, flow, now, 0, None, 0);
    if r.Miss? {
      StoppedMeansAbsent(c, r.table.entries, flow, s);
    }
  }

  lemma ConcludeKeepsInv(c: Params, t: Table, flow: FiveTuple, now: int, r: ProbeResult, a: nat)
    requires ProbeOutcome(c, t, flow, now, r, a) && !OutOfRange(t, now)
    requires Inv(c, t)
    ensures Inv(c, Conclude(r, flow, now).0)
  {
    NoElementsNoLive(c, t);
    NoElementsNoLive(c, r.table);
    match r
    case Hit(t1, i) => TouchKeepsInv(c, t1, i, now);
    case Miss(t1, None) =>
    case Miss(t1, Some(i)) => InsertKeepsInv(c, t1, i, flow, now, a);
  }

  lemma ProcessKeepsInv(c: Params, t: Table, flow: FiveTuple, now: int)
    requires Inv(c, t)
    ensures Inv(c, ProcessStep(c, t, flow, now).0)
  {
    if !OutOfRange(t, now) {
      var a := ProbeMeans(c, t, flow, now);
      ConcludeKeepsInv(c, t, flow, now, Probe(c, t, flow, now, 0, None), a);
    }
  }

  lemma AdvanceLiveSlots(es: seq<Entry>, offset: int)
    ensures LiveSlots(RebasedAll(es, offset)) == LiveSlots(es) - Falling(es, offset)
    ensures |LiveSlots(RebasedAll(es, offset))| == |LiveSlots(es)| - |Falling(es, offset)|
  {
    assert Falling(es, offset) <= LiveSlots(es);
  }

  lemma AdvanceKeepsPaths(c: Params, es: seq<Entry>, offset: int)
    requires |es| == c.n && AllOnPath(c, es)
    ensures AllOnPath(c, RebasedAll(es, offset))
  {
    var es1 := RebasedAll(es, offset);
    forall i: nat | i < c.n && es1[i].Live() ensures OnItsPath(c, es1, i) {
      assert OnItsPath(c, es, i);
      var p: nat :| p < NUM_PROBES && Reaches(c, es, i, p);
      assert Reaches(c, es1, i, p);
    }
  }

  lemma SubtableUnique(es: seq<Entry>, es1: seq<Entry>)
    requires |es1| == |es| && UniqueFlows(es)
    requires forall i: nat :: i < |es| && es1[i].Live() ==> es[i].Holds(es1[i].flow)
    ensures UniqueFlows(es1)
  {
  }

  lemma RebasedFits(es: seq<Entry>, offset: int)
    ensures OffsetsFit(RebasedAll(es, offset))
  {
  }

  lemma AdvanceKeepsInv(c: Params, t: Table, now: int)
    requires Inv(c, t)
    ensures Inv(c, AdvanceStep(t, now))
  {
    hide RebasedAll, AllOnPath, UniqueFlows, OffsetsFit, LiveSlots, Falling;
    var offset := now - t.base;
    var es1 := RebasedAll(t.entries, offset);
    assert AllOnPath(c, es1) by {
      AdvanceKeepsPaths(c, t.entries, offset);
    }
    assert UniqueFlows(es1) by {
      SubtableUnique(t.entries, es1);
    }
    assert OffsetsFit(es1) by {
      RebasedFits(t.entries, offset);
    }
    AdvanceLiveSlots(t.entries, offset);
  }

  lemma WriteKeepsInv(c: Params, t: Table)
    requires Inv(c, t)
    ensures Inv(c, WriteStep(t).0)
  {
    var t1 := WriteStep(t).0;
    assert LiveSlots(t1.entries) == LiveSlots(t.entries);
    forall i: nat | i < c.n && t1.entries[i].Live() ensures OnItsPath(c, t1.entries, i) {
      assert OnItsPath(c, t.entries, i);
      var p: nat :| p < NUM_PROBES && Reaches(c, t.entries, i, p);
      assert Reaches(c, t1.entries, i, p);
    }
  }

  // What one call to process_flow means.

  /** Every probe slot of the flow is taken by another flow that stays. */
  ghost predicate PathFull(c: Params, t: Table, flow: FiveTuple, now: int)
    requires |t.entries| == c.n
  {
    forall p: nat :: p < NUM_PROBES ==>
      var e := t.entries[Slot(c, flow, p)]; e.Live() && e.flow != flow && !e.Stale(t.base, now)
  }

  /** The entry of slot i is not live, or a packet at `now` expires it. */
  ghost predicate Free(t: Table, i: nat, now: int)
    requires i < |t.entries|
  {
    !t.entries[i].Live() || t.entries[i].Stale(t.base, now)
  }

  /** Slot i is the first free slot on the path of the flow. */
  ghost predicate FirstFree(c: Params, t: Table, flow: FiveTuple, now: int, i: nat)
    requires |t.entries| == c.n
  {
    exists a: nat :: a < NUM_PROBES && FreeFrom(c, t, flow, now, i, a)
  }

  ghost predicate FreeFrom(c: Params, t: Table, flow: FiveTuple, now: int, i: nat, a: nat)
    requires |t.entries| == c.n
  {
    && Slot(c, flow, a) == i && Free(t, i, now)
    && forall q: nat :: q < a ==> !Free(t, Slot(c, flow, q), now)
  }

  lemma FirstFreeIsUnique(c: Params, t: Table, flow: FiveTuple, now: int, i: nat, j: nat)
    requires |t.entries| == c.n
    requires FirstFree(c, t, flow, now, i) && FirstFree(c, t, flow, now, j)
    ensures i == j
  {
    hide Free;
    var a: nat :| a < NUM_PROBES && FreeFrom(c, t, flow, now, i, a);
    var b: nat :| b < NUM_PROBES && FreeFrom(c, t, flow, now, j, b);
    assert a < b || b < a || a == b;
  }

  /** The effect of a call, slot by slot. */
  ghost predicate Effect(c: Params, t: Table, flow: FiveTuple, now: int, t1: Table, o: Outcome) {
    && |t1.entries| == |t.entries| == c.n
    && (forall j: nat :: j < c.n && (o.Dropped? || j != o.slot) ==> SweptEntry(c, t, t1.entries[j], flow, now, j))
    && match o
       case Dropped => t1.base == t.base
       case Matched(i) =>
         && i < c.n && t1.base == t.base
         && Fresh(t, i, flow, now)
         && t1.entries[i].flow == flow && t1.entries[i].occupied == t.entries[i].occupied
         && t1.base + t1.entries[i].lastUpdate == now
       case Inserted(i) =>
         && i < c.n && FirstFree(c, t, flow, now, i)
         && t1.entries[i].flow == flow && t1.entries[i].occupied == Unsent
         && t1.base + t1.entries[i].lastUpdate == now
         && (forall j: nat :: j < c.n && j != i ==> !t1.entries[j].Holds(flow))
         && (t1.base == t.base || forall j: nat :: j < c.n && j != i ==> !t1.entries[j].Live())
  }

  lemma NoElementsNoLive(c: Params, t: Table)
    requires Inv(c, t)
    ensures t.numElements == 0 <==> forall j: nat :: j < c.n ==> !t.entries[j].Live()
  {
    if t.numElements == 0 {
      assert LiveSlots(t.entries) == {};
    }
    forall j: nat | j < c.n && t.entries[j].Live() ensures t.numElements != 0 {
      assert j in LiveSlots(t.entries);
    }
    if forall j: nat :: j < c.n ==> !t.entries[j].Live() {
      assert LiveSlots(t.entries) == {};
    }
  }

  /** The slot a miss offers was the first free one before the call. */
  lemma OfferedIsFirstFree(c: Params, t: Table, flow: FiveTuple, now: int, t1: Table, i: nat, a: nat)
    requires Swept(c, t, t1, flow, now)
    requires i < c.n && Offers(c, t1.entries, flow, i, a) && AllStay(c, t1, flow, now, a)
    ensures FirstFree(c, t, flow, now, i)
  {
    assert SweptEntry(c, t, t1.entries[i], flow, now, i);
    forall q: nat | q < a ensures !Free(t, Slot(c, flow, q), now) {
      assert SweptEntry(c, t, t1.entries[Slot(c, flow, q)], flow, now, Slot(c, flow, q));
    }
    assert FreeFrom(c, t, flow, now, i, a);
  }

  lemma ConcludeEffect(c: Params, t: Table, flow: FiveTuple, now: int, r: ProbeResult, a: nat)
    requires Inv(c, t) && !OutOfRange(t, now)
    requires ProbeOutcome(c, t, flow, now, r, a)
    ensures var (t1, o) := Conclude(r, flow, now); Effect(c, t, flow, now, t1, o)
  {
    NoElementsNoLive(c, t);
    NoElementsNoLive(c, r.table);
    if r.Miss? && r.available.Some? {
      OfferedIsFirstFree(c, t, flow, now, r.table, r.available.value, a);
    }
  }

  lemma ProcessEffect(c: Params, t: Table, flow: FiveTuple, now: int)
    requires Inv(c, t)
    ensures var (t1, o) := ProcessStep(c, t, flow, now); Effect(c, t, flow, now, t1, o)
  {
    if !OutOfRange(t, now) {
      var a := ProbeMeans(c, t, flow, now);
      ConcludeEffect(c, t, flow, now, Probe(c, t, flow, now, 0, None), a);
    }
  }

  // The table as a map from 5-tuples to slots and times.

  datatype Tracked = Tracked(slot: nat, seen: int)

  /** The absolute time of the latest packet of the flow in slot i. */
  function Seen(t: Table, i: nat): int
    requires i < |t.entries|
  {
    t.base + t.entries[i].lastUpdate
  }

  ghost function Flows(t: Table): map<FiveTuple, Tracked>
    requires UniqueFlows(t.entries)
  {
    map i: nat | i in LiveSlots(t.entries) :: t.entries[i].flow := Tracked(i, Seen(t, i))
  }

  /** The flows a transition took out of the table. */
  ghost function Lost(es: seq<Entry>, es1: seq<Entry>): set<FiveTuple>
    requires |es1| == |es|
  {
    set i: nat | i < |es| && es[i].Live() && (!es1[i].Live() || es1[i].flow != es[i].flow) :: es[i].flow
  }

  lemma FlowsOf(t: Table, i: nat)
    requires UniqueFlows(t.entries)
    requires i < |t.entries| && t.entries[i].Live()
    ensures t.entries[i].flow in Flows(t) && Flows(t)[t.entries[i].flow] == Tracked(i, Seen(t, i))
  {
  }

  lemma LostMeans(t: Table, t1: Table, f: FiveTuple)
    requires |t1.entries| == |t.entries| && UniqueFlows(t.entries)
    ensures f in Lost(t.entries, t1.entries)
            <==> f in Flows(t) && !t1.entries[Flows(t)[f].slot].Holds(f)
  {
  }

  /** A flow other than the packet's stays, with its slot and time, unless it is lost. */
  lemma OtherFlow(c: Params, t: Table, flow: FiveTuple, now: int, t1: Table, o: Outcome, g: FiveTuple)
    requires Inv(c, t) && Inv(c, t1) && Effect(c, t, flow, now, t1, o)
    requires g != flow || o.Dropped?
    ensures g in Flows(t1) <==> g in Flows(t) && g !in Lost(t.entries, t1.entries)
    ensures g in Flows(t1) ==> Flows(t1)[g] == Flows(t)[g]
  {
    hide Lost, AllOnPath, OffsetsFit;
    LostMeans(t, t1, g);
    if g in Flows(t1) {
      var j := Flows(t1)[g].slot;
      assert t1.entries[j].Holds(g);
      assert SweptEntry(c, t, t1.entries[j], flow, now, j);
      FlowsOf(t, j);
    }
    if g in Flows(t) && g !in Lost(t.entries, t1.entries) {
      FlowsOf(t1, Flows(t)[g].slot);
    }
  }

  /** What a call loses is stale and on the path of the packet's flow. */
  lemma LostIsStale(c: Params, t: Table, flow: FiveTuple, now: int, t1: Table, o: Outcome, g: FiveTuple)
    requires Inv(c, t) && Inv(c, t1) && Effect(c, t, flow, now, t1, o)
    requires g in Lost(t.entries, t1.entries)
    ensures g in Flows(t)
    ensures var i := Flows(t)[g].slot; t.entries[i].Stale(t.base, now) && Probed(c, flow, i)
  {
    LostMeans(t, t1, g);
    var i := Flows(t)[g].slot;
    assert t.entries[i].Holds(g);
    assert o.Dropped? || o.slot != i ==> SweptEntry(c, t, t1.entries[i], flow, now, i);
  }

  ghost predicate RefinesMap(m: map<FiveTuple, Tracked>, m1: map<FiveTuple, Tracked>, lost: set<FiveTuple>,
                             flow: FiveTuple, now: int, o: Outcome) {
    var kept := m - (lost - {flow});
    match o
    case Dropped => m1 == m - lost
    case Matched(i) =>
      && flow in m && m[flow].slot == i
      && m1 == kept[flow := Tracked(i, now)]
    case Inserted(i) =>
      && (flow in m ==> m[flow].seen + EXPIRATION_SECONDS < now)
      && (forall g :: g in kept && g != flow ==> kept[g].slot != i)
      && m1 == kept[flow := Tracked(i, now)]
  }

  lemma OnlySets(m: map<FiveTuple, Tracked>, m1: map<FiveTuple, Tracked>, lost: set<FiveTuple>,
                 flow: FiveTuple, v: Tracked)
    requires flow in m1 && m1[flow] == v
    requires forall g :: g != flow ==> (g in m1 <==> g in m && g !in lost)
    requires forall g :: g != flow && g in m1 ==> m1[g] == m[g]
    ensures m1 == (m - (lost - {flow}))[flow := v]
  {
  }

  lemma EffectRefinesMap(c: Params, t: Table, flow: FiveTuple, now: int, t1: Table, o: Outcome)
    requires Inv(c, t) && Inv(c, t1) && Effect(c, t, flow, now, t1, o)
    ensures RefinesMap(Flows(t), Flows(t1), Lost(t.entries, t1.entries), flow, now, o)
  {
    hide Flows, SweptEntry, OffsetsFit, AllOnPath;
    var m, m1, lost := Flows(t), Flows(t1), Lost(t.entries, t1.entries);
    forall g | g != flow || o.Dropped?
      ensures g in m1 <==> g in m && g !in lost
      ensures g in m1 ==> m1[g] == m[g]
    {
      OtherFlow(c, t, flow, now, t1, o, g);
    }
    match o
    case Dropped => assert m1 == m - lost;
    case Matched(i) =>
      FlowsOf(t1, i);
      FlowsOf(t, i);
      OnlySets(m, m1, lost, flow, Tracked(i, now));
    case Inserted(i) =>
      FlowsOf(t1, i);
      InsertedIsNew(c, t, flow, now, t1, o);
      OnlySets(m, m1, lost, flow, Tracked(i, now));
  }

  lemma InsertedIsNew(c: Params, t: Table, flow: FiveTuple, now: int, t1: Table, o: Outcome)
    requires Inv(c, t) && Inv(c, t1) && Effect(c, t, flow, now, t1, o) && o.Inserted?
    ensures flow in Flows(t) ==> Flows(t)[flow].seen + EXPIRATION_SECONDS < now
    ensures forall g :: g in Flows(t) && g !in Lost(t.entries, t1.entries) && g != flow
                        ==> Flows(t)[g].slot != o.slot
  {
    if flow in Flows(t) {
      var j := Flows(t)[flow].slot;
      assert t.entries[j].Holds(flow);
      assert j != o.slot ==> SweptEntry(c, t, t1.entries[j], flow, now, j);
    }
    forall g | g in Flows(t) && g !in Lost(t.entries, t1.entries) && g != flow
      ensures Flows(t)[g].slot != o.slot
    {
      LostMeans(t, t1, g);
    }
  }

  /** A call removes stale flows on its own path only, and apart from that sets at most
      its own flow: a match keeps the flow's slot, an insertion takes a slot that no
      remaining flow has and happens only to a flow that is absent or stale. */
  lemma ProcessRefinesMap(c: Params, t: Table, flow: FiveTuple, now: int)
    requires Inv(c, t)
    ensures var (t1, o) := ProcessStep(c, t, flow, now);
            var lost := Lost(t.entries, t1.entries);
            && Inv(c, t1)
            && (forall g :: g in lost ==>
                 g in Flows(t) && Probed(c, flow, Flows(t)[g].slot)
                 && t.entries[Flows(t)[g].slot].Stale(t.base, now))
            && RefinesMap(Flows(t), Flows(t1), lost, flow, now, o)
  {
    var (t1, o) := ProcessStep(c, t, flow, now);
    ProcessKeepsInv(c, t, flow, now);
    ProcessEffect(c, t, flow, now);
    forall g | g in Lost(t.entries, t1.entries)
      ensures g in Flows(t) && Probed(c, flow, Flows(t)[g].slot)
      ensures t.entries[Flows(t)[g].slot].Stale(t.base, now)
    {
      LostIsStale(c, t, flow, now, t1, o, g);
    }
    EffectRefinesMap(c, t, flow, now, t1, o);
  }

  /** The 16-bit field of an entry can hold the time `now`, or the table is empty and gets a new base. */
  ghost predicate Storable(t: Table, now: int) {
    (exists i: nat :: i < |t.entries| && t.entries[i].Live()) ==> ToInt16(now - t.base) == now - t.base
  }

  lemma InRangeIsStorable(c: Params, t: Table, now: int)
    requires Inv(c, t)
    ensures Storable(t, now) <==> !OutOfRange(t, now)
  {
    NoElementsNoLive(c, t);
  }

  /** Exactly when a call drops and when it matches. */
  lemma OutcomeExactly(c: Params, t: Table, flow: FiveTuple, now: int)
    requires Inv(c, t)
    ensures var o := ProcessStep(c, t, flow, now).1;
            && (o.Dropped? <==> !Storable(t, now) || PathFull(c, t, flow, now))
            && (o.Matched? <==> Storable(t, now) && exists j :: Fresh(t, j, flow, now))
  {
    InRangeIsStorable(c, t, now);
    OutcomeInRange(c, t, flow, now);
  }

  lemma OutcomeInRange(c: Params, t: Table, flow: FiveTuple, now: int)
    requires Inv(c, t)
    ensures var o := ProcessStep(c, t, flow, now).1;
            && (o.Dropped? <==> OutOfRange(t, now) || PathFull(c, t, flow, now))
            && (o.Matched? <==> !OutOfRange(t, now) && exists j :: Fresh(t, j, flow, now))
  {
    NoElementsNoLive(c, t);
    if !OutOfRange(t, now) {
      var r := Probe(c, t, flow, now, 0, None);
      var a := ProbeMeans(c, t, flow, now);
      match r
      case Hit(t1, i) => assert Fresh(t, i, flow, now);
      case Miss(t1, available) =>
        forall j: nat | j < c.n ensures !Fresh(t, j, flow, now) {
          assert SweptEntry(c, t, t1.entries[j], flow, now, j);
        }
        if available.Some? {
          assert SweptEntry(c, t, t1.entries[available.value], flow, now, available.value);
        } else {
          forall p: nat | p < NUM_PROBES
            ensures var e := t.entries[Slot(c, flow, p)]; e.Live() && e.flow != flow && !e.Stale(t.base, now)
          {
            var i := Slot(c, flow, p);
            assert SweptEntry(c, t, t1.entries[i], flow, now, i);
          }
        }
    }
  }

  /** When a packet at `now` makes its flow take slot i. */
  ghost predicate Takes(c: Params, t: Table, flow: FiveTuple, now: int, i: nat)
    requires |t.entries| == c.n
  {
    Storable(t, now) && (forall j :: !Fresh(t, j, flow, now)) && FirstFree(c, t, flow, now, i)
  }

  /** A call inserts at slot i if and only if its time can be stored, the flow is absent or stale and
      i is the first slot on its path that is not live or is stale. */
  lemma InsertedExactly(c: Params, t: Table, flow: FiveTuple, now: int, i: nat)
    requires Inv(c, t)
    ensures ProcessStep(c, t, flow, now).1 == Inserted(i) <==> Takes(c, t, flow, now, i)
  {
    var (t1, o) := ProcessStep(c, t, flow, now);
    OutcomeExactly(c, t, flow, now);
    ProcessEffect(c, t, flow, now);
    hide ProcessStep, Inv, Fresh, Storable, SweptEntry;
    if Takes(c, t, flow, now, i) {
      FreeNotFull(c, t, flow, now, i);
      FirstFreeIsUnique(c, t, flow, now, i, o.slot);
    }
  }

  lemma FreeNotFull(c: Params, t: Table, flow: FiveTuple, now: int, i: nat)
    requires |t.entries| == c.n && FirstFree(c, t, flow, now, i)
    ensures !PathFull(c, t, flow, now)
  {
    var a: nat :| a < NUM_PROBES && FreeFrom(c, t, flow, now, i, a);
  }

  /** The flow named by slot i changes in a call if and only if another flow takes the slot. */
  lemma RenamedExactly(c: Params, t: Table, flow: FiveTuple, now: int, i: nat)
    requires Inv(c, t) && i < c.n
    ensures ProcessStep(c, t, flow, now).0.entries[i].flow
            == if Takes(c, t, flow, now, i) then flow else t.entries[i].flow
  {
    var (t1, o) := ProcessStep(c, t, flow, now);
    InsertedExactly(c, t, flow, now, i);
    ProcessEffect(c, t, flow, now);
    hide ProcessStep, Inv, Takes, FirstFree;
    assert o.Dropped? || i != o.slot ==> SweptEntry(c, t, t1.entries[i], flow, now, i);
  }

  lemma ProcessAccounts(c: Params, t: Table, flow: FiveTuple, now: int)
    requires |t.entries| == c.n
    ensures var (t1, o) := ProcessStep(c, t, flow, now);
            && t1.numElements + (t1.numExpired - t.numExpired)
               == t.numElements + (if o.Inserted? then 1 else 0)
            && t1.numDropped == t.numDropped + (if o.Dropped? then 1 else 0)
  {
    ProbeSweeps(c, t, flow, now, 0, None);
  }

  /** The 4-bit count of packets: a match counts until the flow is sent, an insertion starts at 1. */
  lemma ProcessCounts(c: Params, t: Table, flow: FiveTuple, now: int)
    requires Inv(c, t)
    ensures var (t1, o) := ProcessStep(c, t, flow, now);
            && (o.Matched? ==>
                  var e := t.entries[o.slot];
                  t1.entries[o.slot].numPackets
                  == if e.occupied.Unsent? && e.numPackets < 63 then (e.numPackets + 1) % 16 else e.numPackets)
            && (o.Inserted? ==> t1.entries[o.slot].numPackets == 1)
  {
    if !OutOfRange(t, now) {
      var a := ProbeMeans(c, t, flow, now);
    }
  }

  // Re-basing and the absolute times of flows.

  /** No live entry is too new for the base to be moved to `now`. */
  ghost predicate NoneTooNew(t: Table, now: int) {
    forall i: nat :: i < |t.entries| && t.entries[i].Live() ==> Seen(t, i) <= now + MAX_UPDATE_OFFSET
  }

  lemma AdvanceSlot(c: Params, t: Table, now: int, i: nat)
    requires Inv(c, t) && i < c.n
    ensures var t1 := AdvanceStep(t, now);
            && (t1.entries[i].Live() <==> t.entries[i].Live() && Seen(t, i) >= now + MIN_UPDATE_OFFSET)
            && (t1.entries[i].Live() ==>
                 && t1.entries[i].flow == t.entries[i].flow
                 && t1.entries[i].occupied == t.entries[i].occupied
                 && (Seen(t1, i) == Seen(t, i) <==> Seen(t, i) <= now + MAX_UPDATE_OFFSET))
  {
  }

  /** The flows that re-basing to `now` has to keep. */
  ghost function Recent(t: Table, now: int): map<FiveTuple, Tracked>
    requires UniqueFlows(t.entries)
  {
    map f | f in Flows(t) && Flows(t)[f].seen >= now + MIN_UPDATE_OFFSET :: Flows(t)[f]
  }

  lemma AdvanceFlow(c: Params, t: Table, now: int, f: FiveTuple)
    requires Inv(c, t) && Inv(c, AdvanceStep(t, now))
    ensures var m := Flows(AdvanceStep(t, now));
            && (f in m <==> f in Recent(t, now))
            && (f in m ==> m[f].slot == Flows(t)[f].slot
                           && (m[f].seen == Flows(t)[f].seen <==> Flows(t)[f].seen <= now + MAX_UPDATE_OFFSET))
  {
    var t1 := AdvanceStep(t, now);
    if f in Flows(t) {
      var i := Flows(t)[f].slot;
      AdvanceSlot(c, t, now, i);
      if t1.entries[i].Live() {
        FlowsOf(t1, i);
      }
    }
    if f in Flows(t1) {
      var i := Flows(t1)[f].slot;
      AdvanceSlot(c, t, now, i);
      FlowsOf(t, i);
      FlowsOf(t1, i);
    }
  }

  lemma SameTimesMeansNoneTooNew(c: Params, t: Table, now: int)
    requires Inv(c, t) && Inv(c, AdvanceStep(t, now))
    requires Flows(AdvanceStep(t, now)) == Recent(t, now)
    ensures NoneTooNew(t, now)
  {
    forall i: nat | i < c.n && t.entries[i].Live() ensures Seen(t, i) <= now + MAX_UPDATE_OFFSET {
      FlowsOf(t, i);
      AdvanceFlow(c, t, now, t.entries[i].flow);
    }
  }

  lemma SeenNotTooNew(t: Table, now: int, f: FiveTuple)
    requires UniqueFlows(t.entries) && NoneTooNew(t, now) && f in Flows(t)
    ensures Flows(t)[f].seen <= now + MAX_UPDATE_OFFSET
  {
  }

  lemma SameMap(m: map<FiveTuple, Tracked>, m1: map<FiveTuple, Tracked>)
    requires forall f :: f in m1 <==> f in m
    requires forall f :: f in m ==> m1[f] == m[f]
    ensures m1 == m
  {
  }

  lemma NoneTooNewMeansSameTimes(c: Params, t: Table, now: int)
    requires Inv(c, t) && Inv(c, AdvanceStep(t, now))
    requires NoneTooNew(t, now)
    ensures Flows(AdvanceStep(t, now)) == Recent(t, now)
  {
    var m, m1 := Recent(t, now), Flows(AdvanceStep(t, now));
    forall f
      ensures f in m1 <==> f in m
      ensures f in m ==> m1[f] == m[f]
    {
      AdvanceFlow(c, t, now, f);
      if f in m {
        SeenNotTooNew(t, now, f);
      }
    }
    SameMap(m, m1);
  }

  /** Re-basing keeps the flows seen since now - 32768 s and no others, each in its slot.
      It keeps their times exactly when none of them is more than 32767 s ahead of `now`:
      the code checks the lower bound of the 16-bit offset only. */
  lemma AdvanceRefinesMap(c: Params, t: Table, now: int)
    requires Inv(c, t)
    ensures var t1 := AdvanceStep(t, now);
            && Inv(c, t1)
            && Flows(t1).Keys == Recent(t, now).Keys
            && (forall f :: f in Flows(t1) ==> Flows(t1)[f].slot == Flows(t)[f].slot)
            && (Flows(t1) == Recent(t, now) <==> NoneTooNew(t, now))
  {
    hide NoneTooNew, AdvanceStep, Flows, OffsetsFit, AllOnPath;
    var t1 := AdvanceStep(t, now);
    AdvanceKeepsInv(c, t, now);
    forall f
      ensures f in Flows(t1) <==> f in Recent(t, now)
      ensures f in Flows(t1) ==> Flows(t1)[f].slot == Flows(t)[f].slot
    {
      AdvanceFlow(c, t, now, f);
    }
    if Flows(t1) == Recent(t, now) {
      SameTimesMeansNoneTooNew(c, t, now);
    }
    if NoneTooNew(t, now) {
      NoneTooNewMeansSameTimes(c, t, now);
    }
  }

  /** A base that never goes back is enough. */
  lemma ForwardIsSafe(c: Params, t: Table, now: int)
    requires Inv(c, t) && now >= t.base
    ensures NoneTooNew(t, now)
  {
  }

  /** The first packet ever goes to the first probe of its flow and sets the base. */
  lemma FirstPacket(c: Params, flow: FiveTuple, now: int)
    ensures var i := Slot(c, flow, 0);
            var (t, o) := ProcessStep(c, InitTable(c), flow, now);
            && o == Inserted(i)
            && t == InitTable(c).(entries := InitTable(c).entries[i := Entry(flow, Unsent, 1, 0)],
                                  base := now, numElements := 1)
  {
  }

  /** Going back is not: a flow seen at 100000 looks 65536 s older after re-basing to 60000. */
  lemma BackwardsAdvanceForgets(c: Params, flow: FiveTuple)
    ensures var t := ProcessStep(c, InitTable(c), flow, 100000).0;
            var t1 := AdvanceStep(t, 60000);
            Inv(c, t) && flow in Flows(t) && Flows(t)[flow].seen == 100000
            && Inv(c, t1) && flow in Flows(t1) && Flows(t1)[flow].seen == 100000 - 65536
  {
    hide ProcessStep, Slot;
    InitInv(c);
    ProcessKeepsInv(c, InitTable(c), flow, 100000);
    FirstPacket(c, flow, 100000);
    var t, i := ProcessStep(c, InitTable(c), flow, 100000).0, Slot(c, flow, 0);
    FlowsOf(t, i);
    AdvanceKeepsInv(c, t, 60000);
    var t1 := AdvanceStep(t, 60000);
    assert t1.entries[i] == Rebased(Entry(flow, Unsent, 1, 0), -40000);
    hide AdvanceStep, Inv, LiveSlots;
    FlowsOf(t1, i);
  }

  // Sending each flow once.

  ghost predicate LineOf(es: seq<Entry>, line: FlowLine) {
    exists i: nat :: i < |es| && es[i].occupied.Unsent?
                     && line == FlowLine(i + FLOW_ID_FIRST_UNRESERVED, es[i].flow)
  }

  lemma LineOfNext(es: seq<Entry>, m: nat, line: FlowLine)
    requires 0 < m <= |es|
    ensures LineOf(es[..m], line)
            <==> LineOf(es[..m - 1], line)
                 || (es[m - 1].occupied.Unsent? && line == FlowLine(m - 1 + FLOW_ID_FIRST_UNRESERVED, es[m - 1].flow))
  {
    var a, b := es[..m], es[..m - 1];
    assert forall i: nat :: i < m - 1 ==> a[i] == b[i];
    assert a[m - 1] == es[m - 1];
  }

  /** The lines of an update are the unsent entries, in slot order and hence each once. */
  lemma {:induction false} LinesAreUnsent(es: seq<Entry>, m: nat)
    requires m <= |es|
    ensures forall line :: line in UnsentLines(es, m) <==> LineOf(es[..m], line)
    ensures forall k, l :: 0 <= k < l < |UnsentLines(es, m)|
                           ==> UnsentLines(es, m)[k].id < UnsentLines(es, m)[l].id
  {
    if m > 0 {
      LinesAreUnsent(es, m - 1);
      var before := UnsentLines(es, m - 1);
      forall line ensures line in UnsentLines(es, m) <==> LineOf(es[..m], line) {
        LineOfNext(es, m, line);
      }
      assert forall k :: 0 <= k < |before| ==> LineOf(es[..m - 1], before[k]);
    }
  }
}
