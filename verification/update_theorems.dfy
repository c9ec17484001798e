/** What the head of an update says, and when updates are written. */
module UpdateTheorems {
  import opened AddressTables
  import opened Bits
  import opened FlowTables
  import opened FlowTableProperties
  import opened Options
  import opened PacketSeriesTables
  import opened PacketTheorems
  import opened Replication
  import opened Routers
  import opened Runs
  import opened Theorems
  import opened Whitelists

  // The head of the flow lines.

  /** The packets of the given windows, in order. */
  function Packets(windows: seq<seq<Logged>>): seq<Logged> {
    if windows == [] then [] else Packets(windows[..|windows| - 1]) + windows[|windows| - 1]
  }

  /** How many of the packets are IP packets without a flow id. */
  function DropsIn(ls: seq<Logged>): nat {
    if ls == [] then 0
    else DropsIn(ls[..|ls| - 1]) + One(ls[|ls| - 1].packet.traffic.Ip? && ls[|ls| - 1].id == 0)
  }

  /** For each slot the time of the last of the packets that got it. */
  function LatestIn(ls: seq<Logged>): map<nat, int> {
    if ls == [] then map[] else SeenAfter(LatestIn(ls[..|ls| - 1]), ls[|ls| - 1])
  }

  /** How many flow lines the updates have. */
  function LinesSent(us: seq<Update>): nat {
    if us == [] then 0 else LinesSent(us[..|us| - 1]) + |us[|us| - 1].flows.lines|
  }

  /** The live entries that were last seen more than 32768 s before the update that found them. */
  ghost function TooOld(u: Update, es: seq<Entry>): set<nat> {
    set i: nat | i < |es| && es[i].Live() && u.flows.base + es[i].lastUpdate < u.timestamp - 32768
  }

  ghost function Forgotten(us: seq<Update>, tables: seq<seq<Entry>>): nat
    requires |tables| == |us|
  {
    if us == [] then 0
    else
      var m := |us| - 1;
      Forgotten(us[..m], tables[..m]) + |TooOld(us[m], tables[m])|
  }

  /** The head of update n: the drops so far, the live entries it found, and how many of the flow lines
      so far are of entries that expired. */
  ghost predicate HeadRight(us: seq<Update>, windows: seq<seq<Logged>>, tables: seq<seq<Entry>>, n: nat)
    requires n < |us| == |windows| == |tables|
  {
    var head := us[n].flows;
    && head.numDropped == DropsIn(Packets(windows[..n + 1]))
    && head.numElements == |LiveSlots(tables[n])|
    && LinesSent(us[..n + 1]) == head.numElements + head.numExpired + Forgotten(us[..n], tables[..n])
  }

  ghost predicate Tallied(w: World) {
    && |w.updates| == |w.windows| == |w.tables|
    && w.drops == DropsIn(Packets(w.windows) + w.window)
    && w.insertions == LinesSent(w.updates) + |InsertLines(w.window)|
    && w.rebased == Forgotten(w.updates, w.tables)
    && w.seen == LatestIn(Packets(w.windows) + w.window)
    && Accounted(w)
    && forall n: nat :: n < |w.updates| ==> HeadRight(w.updates, w.windows, w.tables, n)
  }

  lemma NextPacket(ls: seq<Logged>, l: Logged)
    ensures DropsIn(ls + [l]) == DropsIn(ls) + One(l.packet.traffic.Ip? && l.id == 0)
    ensures LatestIn(ls + [l]) == SeenAfter(LatestIn(ls), l)
  {
    hide SeenAfter;
    assert (ls + [l])[..|ls|] == ls;
  }

  lemma LogOfDrop(c: Config, t: Table, p: Packet)
    requires |t.entries| == c.table.n
    ensures var l := LogOf(c, t, p);
            && (p.traffic.Ip? && l.id == 0 <==> l.outcome.Some? && l.outcome.value.Dropped?)
            && (l.Tracked() && l.outcome.value.Inserted? <==> l.outcome.Some? && l.outcome.value.Inserted?)
            && l.packet == p
  {
    hide ProcessStep;
  }

  lemma PacketTallied(c: Config, w: World, p: Packet)
    requires Sized(c, w.router) && Tallied(w)
    ensures Tallied(AfterPacket(c, w, p))
  {
    PacketAccounted(c, w, p);
    var all, l := Packets(w.windows) + w.window, LogOf(c, w.router.flows, p);
    LogOfDrop(c, w.router.flows, p);
    hide PacketStep, LogOf, PairsAfter, SeenAfter, HeadRight, Accounted, Packets, DropsIn, LatestIn, InsertLines;
    NextPacket(all, l);
    InsertLinesNext(w.window, l);
    assert Packets(w.windows) + (w.window + [l]) == all + [l];
  }

  lemma FallingIsTooOld(u: Update, es: seq<Entry>)
    ensures Falling(MarkAllSent(es), u.timestamp - u.flows.base) == TooOld(u, es)
  {
  }

  /** What the due alarm appends. */
  lemma AlarmAppends(c: Config, domains: seq<string>, w: World, now: int)
    requires Sized(c, w.router) && AlarmStep(c, domains, w.router, now).1.Some?
    ensures var w1, u := AfterAlarm(c, domains, w, now), AlarmStep(c, domains, w.router, now).1.value;
            && w1.drops == w.drops && w1.insertions == w.insertions && w1.seen == w.seen
            && w1.rebased == w.rebased + |Falling(MarkAllSent(w.router.flows.entries), now - w.router.flows.base)|
            && u.timestamp == now && u.flows.base == w.router.flows.base
            && u.flows.numElements == w.router.flows.numElements && u.flows.numExpired == w.router.flows.numExpired
            && u.flows.numDropped == w.router.flows.numDropped
            && w1.router.flows.base == now
  {
    hide WriteRing, WriteSeries, Printed, MarkAllSent, UnsentLines, Falling;
  }

  lemma NextUpdate(us: seq<Update>, windows: seq<seq<Logged>>, tables: seq<seq<Entry>>,
                   u: Update, window: seq<Logged>, es: seq<Entry>)
    requires |us| == |windows| == |tables|
    ensures Packets(windows + [window]) == Packets(windows) + window
    ensures LinesSent(us + [u]) == LinesSent(us) + |u.flows.lines|
    ensures Forgotten(us + [u], tables + [es]) == Forgotten(us, tables) + |TooOld(u, es)|
  {
    hide TooOld;
    assert (us + [u])[..|us|] == us && (windows + [window])[..|us|] == windows && (tables + [es])[..|us|] == tables;
  }

  lemma OlderHead(w: World, w1: World, u: Update, n: nat)
    requires n < |w.updates| == |w.windows| == |w.tables| && HeadRight(w.updates, w.windows, w.tables, n)
    requires w1.updates == w.updates + [u] && w1.windows == w.windows + [w.window]
    requires w1.tables == w.tables + [w.router.flows.entries]
    ensures HeadRight(w1.updates, w1.windows, w1.tables, n)
  {
    hide DropsIn, Packets, LinesSent, Forgotten, LiveSlots;
    assert w1.updates[..n + 1] == w.updates[..n + 1] && w1.windows[..n + 1] == w.windows[..n + 1];
    assert w1.updates[..n] == w.updates[..n] && w1.tables[..n] == w.tables[..n];
  }

  lemma SameLength<T>(a: seq<T>, b: seq<T>)
    requires multiset(a) == multiset(b)
    ensures |a| == |b|
  {
    assert |multiset(a)| == |a| && |multiset(b)| == |b|;
  }

  lemma LinesOfUpdate(c: Config, domains: seq<string>, us: seq<Update>, window: seq<Logged>, es: seq<Entry>, n: nat)
    requires n < |us| && Faithful(c, domains, us, window, es, n)
    ensures |us[n].flows.lines| == |InsertLines(window)|
  {
    SameLength(us[n].flows.lines, InsertLines(window));
  }

  lemma CountedElements(c: Config, w: World)
    requires Current(c, w)
    ensures w.router.flows.numElements == |LiveSlots(w.router.flows.entries)|
  {
  }

  lemma UpdateTallied(c: Config, domains: seq<string>, w: World, now: int)
    requires Current(c, w) && Tallied(w) && AlarmStep(c, domains, w.router, now).1.Some?
    ensures Tallied(AfterAlarm(c, domains, w, now))
  {
    hide AlarmStep, AfterAlarm, WriteStep, AdvanceStep, WriteRing, WriteSeries, Printed, Falling, TooOld, HeadRight,
         Packets, DropsIn, LatestIn, InsertLines, LinesSent, Forgotten, LiveSlots;
    var w1, u := AfterAlarm(c, domains, w, now), AlarmStep(c, domains, w.router, now).1.value;
    var es := w.router.flows.entries;
    AlarmAccounted(c, domains, w, now);
    AlarmWrites(c, domains, w, now);
    AlarmAppends(c, domains, w, now);
    FallingIsTooOld(u, es);
    UpdateIsFaithful(c, domains, w, now);
    LinesOfUpdate(c, domains, w1.updates, w.window, es, |w.updates|);
    CountedElements(c, w);
    hide Current, Faithful;
    NextUpdate(w.updates, w.windows, w.tables, u, w.window, es);
    NewHead(w, w1, u);
    forall n: nat | n < |w1.updates| ensures HeadRight(w1.updates, w1.windows, w1.tables, n) {
      if n < |w.updates| {
        OlderHead(w, w1, u, n);
      }
    }
    NoLines();
    assert Packets(w1.windows) + w1.window == Packets(w.windows) + w.window;
  }

  lemma NoLines()
    ensures InsertLines([]) == []
  {
  }

  lemma NewHead(w: World, w1: World, u: Update)
    requires Tallied(w) && w.router.flows.numElements == |LiveSlots(w.router.flows.entries)|
    requires w1.updates == w.updates + [u] && w1.windows == w.windows + [w.window]
    requires w1.tables == w.tables + [w.router.flows.entries]
    requires |u.flows.lines| == |InsertLines(w.window)|
    requires u.flows.numElements == w.router.flows.numElements && u.flows.numExpired == w.router.flows.numExpired
    requires u.flows.numDropped == w.router.flows.numDropped
    ensures |w1.updates| == |w1.windows| == |w1.tables|
    ensures HeadRight(w1.updates, w1.windows, w1.tables, |w.updates|)
  {
    NextUpdate(w.updates, w.windows, w.tables, u, w.window, w.router.flows.entries);
    var n := |w.updates|;
    assert w1.updates[..n + 1] == w1.updates && w1.windows[..n + 1] == w1.windows;
    assert w1.updates[..n] == w.updates && w1.tables[..n] == w.tables;
    hide DropsIn, LinesSent, Forgotten, LiveSlots, Packets, LatestIn, InsertLines;
  }

  lemma SkippedTallied(c: Config, domains: seq<string>, w: World, now: int)
    requires Sized(c, w.router) && Tallied(w) && AlarmStep(c, domains, w.router, now).1.None?
    ensures Tallied(AfterAlarm(c, domains, w, now))
  {
    AlarmSkips(c, domains, w, now);
    hide AlarmStep, AfterAlarm, HeadRight, DropsIn, LatestIn, InsertLines, LinesSent, Forgotten, Packets;
  }

  lemma NothingTallied(c: Config)
    ensures Tallied(InitialWorld(c))
  {
  }

  lemma {:induction false} EveryRunTallied(c: Config, domains: seq<string>, steps: seq<Step>)
    ensures Tallied(Run(c, domains, steps))
  {
    hide Tallied, Current, AfterPacket, AfterAlarm, AlarmStep, InitialWorld;
    if steps == [] {
      NothingTallied(c);
    } else {
      var w := Run(c, domains, steps[..|steps| - 1]);
      EveryRunTallied(c, domains, steps[..|steps| - 1]);
      EveryRun(c, domains, steps[..|steps| - 1]);
      match steps[|steps| - 1]
      case Arrival(p) => PacketTallied(c, w, p);
      case Alarm(now) =>
        if AlarmStep(c, domains, w.router, now).1.Some? {
          UpdateTallied(c, domains, w, now);
        } else {
          SkippedTallied(c, domains, w, now);
        }
    }
  }

  /** The head of every update of every run: the number of IP packets that got no id so far, the number
      of live entries the update found, and a number of expired entries that makes up the balance: all
      flow lines sent so far are of live entries, of expired ones, or of entries that an earlier update
      found too old. */
  lemma UpdateHeads(c: Config, domains: seq<string>, steps: seq<Step>, n: nat)
    requires n < |Run(c, domains, steps).updates|
    ensures var w := Run(c, domains, steps); var head := w.updates[n].flows;
            && |w.updates| == |w.windows| == |w.tables|
            && head.numDropped == DropsIn(Packets(w.windows[..n + 1]))
            && head.numElements == |LiveSlots(w.tables[n])|
            && LinesSent(w.updates[..n + 1])
               == head.numElements + head.numExpired + Forgotten(w.updates[..n], w.tables[..n])
  {
    EveryRunTallied(c, domains, steps);
    hide Run;
    var w := Run(c, domains, steps);
    assert HeadRight(w.updates, w.windows, w.tables, n);
  }

  /** Base plus offset of each live entry that update n found is the time of the last packet so far that
      got its slot. */
  ghost predicate HeadTimes(us: seq<Update>, windows: seq<seq<Logged>>, tables: seq<seq<Entry>>, n: nat)
    requires n < |us| == |windows| == |tables|
  {
    var latest := LatestIn(Packets(windows[..n + 1]));
    forall i: nat :: i < |tables[n]| && tables[n][i].Live()
                     ==> i in latest && us[n].flows.base + tables[n][i].lastUpdate == latest[i]
  }

  lemma NewHeadTimes(c: Config, domains: seq<string>, w: World, now: int)
    requires Sized(c, w.router) && Tallied(w) && TimesSound(w.router.flows, w.seen)
    requires AlarmStep(c, domains, w.router, now).1.Some?
    ensures var w1 := AfterAlarm(c, domains, w, now);
            && |w1.updates| == |w1.windows| == |w1.tables| == |w.updates| + 1
            && HeadTimes(w1.updates, w1.windows, w1.tables, |w.updates|)
  {
    hide AlarmStep, AfterAlarm, WriteStep, AdvanceStep, WriteRing, WriteSeries, Printed, Falling, LatestIn, Packets,
         HeadRight, Accounted, DropsIn, LinesSent, Forgotten;
    var w1, u := AfterAlarm(c, domains, w, now), AlarmStep(c, domains, w.router, now).1.value;
    AlarmWrites(c, domains, w, now);
    AlarmAppends(c, domains, w, now);
    NextUpdate(w.updates, w.windows, w.tables, u, w.window, w.router.flows.entries);
    assert w1.windows[..|w.updates| + 1] == w1.windows;
  }

  lemma OlderHeadTimes(w: World, w1: World, n: nat)
    requires |w.updates| == |w.windows| == |w.tables| && |w1.updates| == |w1.windows| == |w1.tables|
    requires w.updates <= w1.updates && w.windows <= w1.windows && w.tables <= w1.tables
    requires n < |w.updates| && HeadTimes(w.updates, w.windows, w.tables, n)
    ensures HeadTimes(w1.updates, w1.windows, w1.tables, n)
  {
    hide LatestIn, Packets;
    assert w1.windows[..n + 1] == w.windows[..n + 1];
  }

  lemma HistoryGrows(c: Config, domains: seq<string>, w: World, step: Step)
    requires Sized(c, w.router)
    ensures var w1 := After(c, domains, w, step);
            w.updates <= w1.updates && w.windows <= w1.windows && w.tables <= w1.tables
    ensures var w1 := After(c, domains, w, step);
            |w1.updates| == |w.updates| + One(step.Alarm? && AlarmStep(c, domains, w.router, step.now).1.Some?)
  {
    hide PacketStep, LogOf, AlarmStep, PairsAfter, SeenAfter;
  }

  /** If no update of the run is dated too early, the base in the head of an update plus the offset of
      any live entry that it found is the time of the last packet that got the entry's slot. */
  lemma {:induction false} UpdateHeadTimes(c: Config, domains: seq<string>, steps: seq<Step>, n: nat)
    requires n < |Run(c, domains, steps).updates| && NeverTooEarly(c, domains, steps)
    ensures var w := Run(c, domains, steps);
            && |w.updates| == |w.windows| == |w.tables|
            && HeadTimes(w.updates, w.windows, w.tables, n)
  {
    hide HeadTimes, AfterPacket, AfterAlarm, AlarmStep, TimesSound, HeadRight, Accounted, NeverTooEarly, Packets,
         DropsIn, LatestIn, LinesSent, Forgotten, InsertLines, InitialWorld;
    NoUpdates(c, domains, steps);
    var front, step := steps[..|steps| - 1], steps[|steps| - 1];
    var w := Run(c, domains, front);
    SoundBefore(c, domains, steps);
    EveryRunTallied(c, domains, front);
    EveryRunTallied(c, domains, steps);
    HistoryGrows(c, domains, w, step);
    if n < |w.updates| {
      UpdateHeadTimes(c, domains, front, n);
      OlderHeadTimes(w, Run(c, domains, steps), n);
    } else {
      NewHeadTimes(c, domains, w, step.now);
    }
  }

  lemma NoUpdates(c: Config, domains: seq<string>, steps: seq<Step>)
    requires Run(c, domains, steps).updates != []
    ensures steps != []
  {
  }

  lemma SoundBefore(c: Config, domains: seq<string>, steps: seq<Step>)
    requires NeverTooEarly(c, domains, steps) && steps != []
    ensures var front := steps[..|steps| - 1]; var w := Run(c, domains, front);
            NeverTooEarly(c, domains, front) && TimesSound(w.router.flows, w.seen)
  {
    hide Run, TimesSound, AlarmStep, NoneTooNew;
    TimesSoundExactly(c, domains, steps[..|steps| - 1]);
  }

  // When updates are written.

  /** The times of the alarms of a run. */
  function AlarmTimes(steps: seq<Step>): seq<int> {
    if steps == [] then []
    else
      var step := steps[|steps| - 1];
      AlarmTimes(steps[..|steps| - 1]) + if step.Alarm? then [step.now] else []
  }

  /** How many of the first k alarms write an update, if every a-th does and the counter of alarms
      wraps around at 2^32. */
  function UpdatesBy(a: nat, k: nat): int
    requires a > 0
  {
    k / TWO_32 * ((TWO_32 - 1) / a + 1) + k % TWO_32 / a
  }

  lemma DivideNext(r: nat, a: nat)
    requires a > 0
    ensures (r + 1) / a == r / a + One((r + 1) % a == 0)
  {
    var q, m := r / a, r % a;
    if m + 1 < a {
      QuotientIs(r + 1, a, q, m + 1);
    } else {
      assert a * (q + 1) == a * q + a;
      QuotientIs(r + 1, a, q + 1, 0);
    }
  }

  lemma QuotientIs(x: nat, n: nat, q: nat, r: nat)
    requires x == n * q + r && r < n
    ensures x / n == q && x % n == r
  {
    Remainder(x, n, q, r);
    assert n * (x / n) == n * q;
    var d := x / n - q;
    assert n * d == 0;
  }

  lemma CountNext(k: nat)
    ensures (k + 1) % TWO_32 == if k % TWO_32 == TWO_32 - 1 then 0 else k % TWO_32 + 1
    ensures (k + 1) / TWO_32 == if k % TWO_32 == TWO_32 - 1 then k / TWO_32 + 1 else k / TWO_32
  {
  }

  lemma UpdatesByNext(a: nat, k: nat)
    requires a > 0
    ensures UpdatesBy(a, k + 1) == UpdatesBy(a, k) + One((k + 1) % TWO_32 % a == 0)
  {
    CountNext(k);
    var q, r, full := k / TWO_32, k % TWO_32, (TWO_32 - 1) / a + 1;
    if r < TWO_32 - 1 {
      DivideNext(r, a);
    } else {
      assert (q + 1) * full == q * full + full;
    }
  }

  ghost predicate Scheduled(c: Config, w: World, times: seq<int>) {
    var a := c.alarmsPerUpdate;
    && w.router.alarmCount == |times| % TWO_32
    && |w.updates| == |w.starts| == UpdatesBy(a, |times|)
    && (|times| < TWO_32 ==>
          forall n: nat :: n < |w.updates| ==> DatedBy(w.updates[n], times, a * n + a - 1))
    && forall n: nat :: n < |w.updates| ==> (w.starts + [w.start])[n + 1].flows.base == w.updates[n].timestamp
  }

  predicate DatedBy(u: Update, times: seq<int>, k: nat) {
    k < |times| && u.timestamp == times[k]
  }

  lemma InitialSchedule(c: Config)
    ensures Scheduled(c, InitialWorld(c), [])
  {
  }

  lemma PacketScheduled(c: Config, w: World, p: Packet, times: seq<int>)
    requires Sized(c, w.router) && Scheduled(c, w, times)
    ensures Scheduled(c, AfterPacket(c, w, p), times)
  {
    hide FlowStep, AddressStep, AddStep, DnsPacketStep, LogOf, PairsAfter, SeenAfter, UpdatesBy, DatedBy;
  }

  lemma AlarmScheduled(c: Config, domains: seq<string>, w: World, now: int, times: seq<int>)
    requires Sized(c, w.router) && Scheduled(c, w, times)
    ensures Scheduled(c, AfterAlarm(c, domains, w, now), times + [now])
  {
    hide AlarmStep, AfterAlarm, WriteStep, AdvanceStep, WriteRing, WriteSeries, Printed, UpdatesBy, DatedBy;
    UpdatesByNext(c.alarmsPerUpdate, |times|);
    CountNext(|times|);
    AlarmIsCounted(c, domains, w, now);
    if AlarmStep(c, domains, w.router, now).1.Some? {
      AlarmWrites(c, domains, w, now);
      AlarmAppends(c, domains, w, now);
      DueScheduled(c, w, AfterAlarm(c, domains, w, now), AlarmStep(c, domains, w.router, now).1.value, times, now);
    } else {
      AlarmSkips(c, domains, w, now);
      SkippedScheduled(c, w, AfterAlarm(c, domains, w, now), times, now);
    }
  }

  lemma AlarmIsCounted(c: Config, domains: seq<string>, w: World, now: int)
    requires Sized(c, w.router)
    ensures var w1 := AfterAlarm(c, domains, w, now);
            && w1.router.alarmCount == (w.router.alarmCount + 1) % TWO_32
            && (AlarmStep(c, domains, w.router, now).1.Some? <==> w1.router.alarmCount % c.alarmsPerUpdate == 0)
  {
    hide WriteStep, AdvanceStep, WriteRing, WriteSeries, Printed;
  }

  lemma SkippedScheduled(c: Config, w: World, w1: World, times: seq<int>, now: int)
    requires Scheduled(c, w, times)
    requires w1.updates == w.updates && w1.starts == w.starts && w1.start == w.start
    requires w1.router.alarmCount == (|times| + 1) % TWO_32
    requires UpdatesBy(c.alarmsPerUpdate, |times| + 1) == UpdatesBy(c.alarmsPerUpdate, |times|)
    ensures Scheduled(c, w1, times + [now])
  {
    hide UpdatesBy;
    var a := c.alarmsPerUpdate;
    forall n: nat | n < |w.updates| && |times| + 1 < TWO_32
      ensures DatedBy(w.updates[n], times + [now], a * n + a - 1)
    {
      StillDated(w.updates[n], times, now, a * n + a - 1);
    }
  }

  lemma StillDated(u: Update, times: seq<int>, now: int, k: nat)
    requires DatedBy(u, times, k)
    ensures DatedBy(u, times + [now], k)
  {
  }

  lemma DueScheduled(c: Config, w: World, w1: World, u: Update, times: seq<int>, now: int)
    requires Scheduled(c, w, times) && u.timestamp == w1.start.flows.base == now
    requires w1.updates == w.updates + [u] && w1.starts == w.starts + [w.start]
    requires w1.router.alarmCount == (|times| + 1) % TWO_32 && w1.router.alarmCount % c.alarmsPerUpdate == 0
    requires UpdatesBy(c.alarmsPerUpdate, |times| + 1) == UpdatesBy(c.alarmsPerUpdate, |times|) + 1
    ensures Scheduled(c, w1, times + [now])
  {
    hide UpdatesBy;
    var a := c.alarmsPerUpdate;
    if |times| + 1 < TWO_32 {
      DueIndex(a, |times|, |w.updates|);
      forall n: nat | n < |w1.updates| ensures DatedBy(w1.updates[n], times + [now], a * n + a - 1) {
        if n < |w.updates| {
          StillDated(w.updates[n], times, now, a * n + a - 1);
        }
      }
    }
  }

  lemma DueIndex(a: nat, k: nat, n: nat)
    requires a > 0 && k + 1 < TWO_32 && (k + 1) % a == 0 && n == UpdatesBy(a, k)
    ensures a * n + a - 1 == k
  {
    DivideNext(k, a);
    assert n == k / a;
    assert (k + 1) / a == n + 1;
    assert a * (n + 1) == a * n + a;
  }

  lemma {:induction false} EveryRunScheduled(c: Config, domains: seq<string>, steps: seq<Step>)
    ensures Scheduled(c, Run(c, domains, steps), AlarmTimes(steps))
  {
    hide Scheduled, AfterPacket, AfterAlarm, InitialWorld;
    if steps == [] {
      InitialSchedule(c);
    } else {
      var front, step := steps[..|steps| - 1], steps[|steps| - 1];
      var w := Run(c, domains, front);
      EveryRunScheduled(c, domains, front);
      match step
      case Arrival(p) =>
        PacketScheduled(c, w, p, AlarmTimes(front));
        assert AlarmTimes(steps) == AlarmTimes(front);
      case Alarm(now) => AlarmScheduled(c, domains, w, now, AlarmTimes(front));
    }
  }

  /** Updates are written at every a-th alarm, as long as fewer than 2^32 alarms came, and carry its
      time. After that the counter of alarms starts again at 0, where an update is due as well. */
  lemma UpdatesScheduled(c: Config, domains: seq<string>, steps: seq<Step>)
    ensures var w, times, a := Run(c, domains, steps), AlarmTimes(steps), c.alarmsPerUpdate;
            && |w.updates| == UpdatesBy(a, |times|)
            && (|times| < 0x1_0000_0000 ==>
                  && |w.updates| == |times| / a
                  && forall n: nat :: n < |w.updates| ==> DatedBy(w.updates[n], times, a * n + a - 1))
  {
    EveryRunScheduled(c, domains, steps);
    hide Run, DatedBy;
  }

  /** Each window after the first starts with the timestamp of the update before it as its base. */
  lemma WindowStartsAtUpdate(c: Config, domains: seq<string>, steps: seq<Step>, n: nat)
    requires n < |Run(c, domains, steps).updates|
    ensures var w := Run(c, domains, steps);
            && |w.starts| == |w.updates|
            && (w.starts + [w.start])[n + 1].flows.base == w.updates[n].timestamp
  {
    EveryRunScheduled(c, domains, steps);
    hide Run, DatedBy;
  }

  /** A packet that was captured before an update, up to 32768 s, but is processed after it: if its flow
      is in the table and not stale, it keeps its slot. */
  lemma EarlierPacketIsMatched(c: Config, domains: seq<string>, steps: seq<Step>, now: int, p: Packet, i: nat)
    requires AlarmStep(c, domains, Run(c, domains, steps).router, now).1.Some?
    requires p.traffic.Ip? && now - 32768 <= p.seconds <= now
    requires var t := Run(c, domains, steps + [Alarm(now)]).router.flows;
             i < |t.entries| && t.entries[i].Holds(p.traffic.flow) && p.seconds <= Seen(t, i) + 30 * 60
    ensures var w := Run(c, domains, steps + [Alarm(now)] + [Arrival(p)]);
            |w.window| == 1 && w.window[0].id == i + 7
  {
    hide AlarmStep, AfterAlarm, AfterPacket;
    var w := Run(c, domains, steps);
    RunNext(c, domains, steps, Alarm(now));
    AlarmWrites(c, domains, w, now);
    AlarmAppends(c, domains, w, now);
    KnownFlowIsMatched(c, domains, steps + [Alarm(now)], p, i);
  }

  // Packets of new flows.

  /** The packets that got slot i, from the one on that inserted its flow. */
  function PacketsSince(ls: seq<Logged>, i: nat): nat {
    if ls == [] then 0
    else
      var front, l := ls[..|ls| - 1], ls[|ls| - 1];
      if !l.Tracked() || l.outcome.value.slot != i then PacketsSince(front, i)
      else if l.outcome.value.Inserted? then 1
      else PacketsSince(front, i) + 1
  }

  ghost predicate CountsPackets(es: seq<Entry>, window: seq<Logged>) {
    forall i: nat :: i < |es| && es[i].occupied.Unsent? ==> es[i].numPackets == PacketsSince(window, i) % 16
  }

  lemma SinceNext(window: seq<Logged>, l: Logged, i: nat)
    ensures PacketsSince(window + [l], i)
            == if !l.Tracked() || l.outcome.value.slot != i then PacketsSince(window, i)
               else if l.outcome.value.Inserted? then 1
               else PacketsSince(window, i) + 1
  {
    assert (window + [l])[..|window|] == window;
  }

  lemma CountNextPacket(c: Config, t: Table, window: seq<Logged>, p: Packet, i: nat)
    requires Inv(c.table, t) && CountsPackets(t.entries, window) && p.traffic.Ip?
    requires i < c.table.n && FlowStep(c, t, p).0.entries[i].occupied.Unsent?
    ensures FlowStep(c, t, p).0.entries[i].numPackets == PacketsSince(window + [LogOf(c, t, p)], i) % 16
  {
    hide ProcessStep, Inv, FirstFree, PacketsSince;
    var flow, now := p.traffic.flow, p.seconds;
    SizedInv(c.table, t);
    var (t1, o) := ProcessStep(c.table, t, flow, now);
    ProcessEffect(c.table, t, flow, now);
    ProcessCounts(c.table, t, flow, now);
    SinceNext(window, LogOf(c, t, p), i);
    if o.Dropped? || i != o.slot {
      assert SweptEntry(c.table, t, t1.entries[i], flow, now, i);
    }
  }

  lemma PacketCounts(c: Config, t: Table, window: seq<Logged>, p: Packet)
    requires Inv(c.table, t) && CountsPackets(t.entries, window)
    ensures CountsPackets(FlowStep(c, t, p).0.entries, window + [LogOf(c, t, p)])
  {
    hide ProcessStep, Inv, PacketsSince;
    SizedInv(c.table, t);
    forall i: nat | i < c.table.n && FlowStep(c, t, p).0.entries[i].occupied.Unsent?
      ensures FlowStep(c, t, p).0.entries[i].numPackets == PacketsSince(window + [LogOf(c, t, p)], i) % 16
    {
      if p.traffic.Ip? {
        CountNextPacket(c, t, window, p, i);
      } else {
        SinceNext(window, LogOf(c, t, p), i);
      }
    }
  }

  ghost predicate Counted(w: World) {
    && |w.windows| == |w.tables|
    && CountsPackets(w.router.flows.entries, w.window)
    && forall n: nat :: n < |w.tables| ==> CountsPackets(w.tables[n], w.windows[n])
  }

  lemma PacketCounted(c: Config, w: World, p: Packet)
    requires Current(c, w) && Counted(w)
    ensures Counted(AfterPacket(c, w, p))
  {
    PacketCounts(c, w.router.flows, w.window, p);
    hide CountsPackets, FlowStep, LogOf, AddressStep, AddStep, DnsPacketStep, PairsAfter, SeenAfter, Current;
  }

  lemma NothingPending(es: seq<Entry>)
    requires Pending(es, [])
    ensures CountsPackets(es, [])
  {
    forall i: nat | i < |es| ensures !es[i].occupied.Unsent? {
      assert es[i].occupied.Unsent? ==> LineOf(es, FlowLine(i + FLOW_ID_FIRST_UNRESERVED, es[i].flow));
    }
  }

  lemma AlarmCounted(c: Config, domains: seq<string>, w: World, now: int)
    requires Current(c, w) && Counted(w)
    ensures Counted(AfterAlarm(c, domains, w, now))
  {
    hide AlarmStep, AfterAlarm, CountsPackets, WriteStep, AdvanceStep, WriteRing, WriteSeries, Printed, Inv, Pending;
    if AlarmStep(c, domains, w.router, now).1.Some? {
      UpdateFlows(c, domains, w, now);
      AlarmWrites(c, domains, w, now);
      NothingPending(AfterAlarm(c, domains, w, now).router.flows.entries);
    } else {
      AlarmSkips(c, domains, w, now);
    }
  }

  lemma {:induction false} EveryRunCounted(c: Config, domains: seq<string>, steps: seq<Step>)
    ensures Counted(Run(c, domains, steps))
  {
    hide Current, Counted, AfterPacket, AfterAlarm, InitialWorld;
    if steps == [] {
      NothingCounted(c);
    } else {
      var w := Run(c, domains, steps[..|steps| - 1]);
      EveryRunCounted(c, domains, steps[..|steps| - 1]);
      EveryRun(c, domains, steps[..|steps| - 1]);
      match steps[|steps| - 1]
      case Arrival(p) => PacketCounted(c, w, p);
      case Alarm(now) => AlarmCounted(c, domains, w, now);
    }
  }

  lemma NothingCounted(c: Config)
    ensures Counted(InitialWorld(c))
  {
  }

  /** Each flow that an update finds unsent has the number of its packets modulo 16 as its count, so
      that a new flow of 16 packets has the count 0. */
  lemma NewFlowsCounted(c: Config, domains: seq<string>, steps: seq<Step>, n: nat, i: nat)
    requires var w := Run(c, domains, steps);
             n < |w.tables| && i < |w.tables[n]| && w.tables[n][i].occupied.Unsent?
    ensures var w := Run(c, domains, steps);
            |w.windows| == |w.tables| && w.tables[n][i].numPackets == PacketsSince(w.windows[n], i) % 16
  {
    EveryRunCounted(c, domains, steps);
    hide Run, PacketsSince;
    assert CountsPackets(Run(c, domains, steps).tables[n], Run(c, domains, steps).windows[n]);
  }
}
