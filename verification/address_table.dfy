/** The address table of src/address_table.c: a ring of the 256 most recently
    inserted (IP, MAC) pairs; a pair's id is its index in the ring. */
module AddressTables {
  import opened Options

  const MAC_TABLE_ENTRIES := 256

  datatype Pair = Pair(ip: bv32, mac: bv48)

  datatype Ring = Ring(entries: seq<Pair>, first: nat, last: nat, length: nat, added: nat)

  /** A zeroed table. */
  function EmptyRing(): Ring {
    Ring(seq(MAC_TABLE_ENTRIES, _ => Pair(0, 0)), 0, 0, 0, 0)
  }

  predicate IsAddressPrivate(ip: bv32) {
    || ip & 0xff00_0000 == 0x0a00_0000
    || ip & 0xfff0_0000 == 0xac10_0000
    || ip & 0xffff_0000 == 0xc0a8_0000
  }

  /** The remainder of C, which has the sign of the dividend. */
  function CRemainder(m: int, d: nat): int
    requires d > 0
  {
    if m >= 0 then m % d else -((-m) % d)
  }

  lemma SameRemainder(x: int, q: int)
    ensures (x + MAC_TABLE_ENTRIES * q) % MAC_TABLE_ENTRIES == x % MAC_TABLE_ENTRIES
  {
  }

  lemma CRemainderTwice(m: int)
    ensures CRemainder(CRemainder(m, MAC_TABLE_ENTRIES) + MAC_TABLE_ENTRIES, MAC_TABLE_ENTRIES) == m % MAC_TABLE_ENTRIES
  {
    var q, r := m / MAC_TABLE_ENTRIES, m % MAC_TABLE_ENTRIES;
    if m >= 0 {
      SameRemainder(r, 1);
    } else {
      var k := (-m) % MAC_TABLE_ENTRIES;
      SameRemainder(MAC_TABLE_ENTRIES - k, -((-m) / MAC_TABLE_ENTRIES) - 1);
      assert m == MAC_TABLE_ENTRIES - k + MAC_TABLE_ENTRIES * (-((-m) / MAC_TABLE_ENTRIES) - 1);
    }
  }

  function Norm(m: int): (r: nat)
    ensures r == m % MAC_TABLE_ENTRIES
  {
    CRemainderTwice(m);
    CRemainder(CRemainder(m, MAC_TABLE_ENTRIES) + MAC_TABLE_ENTRIES, MAC_TABLE_ENTRIES)
  }

  predicate Shaped(r: Ring) {
    |r.entries| == MAC_TABLE_ENTRIES && r.last < MAC_TABLE_ENTRIES
    && r.length <= MAC_TABLE_ENTRIES && r.added <= MAC_TABLE_ENTRIES
  }

  /** Search from the newest pair backwards, skipping the first idx. */
  function Find(r: Ring, pair: Pair, idx: nat): Option<nat>
    requires Shaped(r)
    decreases r.length - idx
  {
    if idx >= r.length then None
    else if r.entries[Norm(r.last - idx)] == pair then Some(Norm(r.last - idx))
    else Find(r, pair, idx + 1)
  }

  function Append(r: Ring, pair: Pair): (r1: Ring)
    requires Shaped(r)
    ensures Shaped(r1)
  {
    var full := r.length == MAC_TABLE_ENTRIES;
    var length := if full then r.length else r.length + 1;
    var last := if length > 1 then Norm(r.last + 1) else r.last;
    Ring(r.entries[last := pair],
         if full then Norm(r.first + 1) else r.first,
         last,
         length,
         if r.added < MAC_TABLE_ENTRIES then r.added + 1 else r.added)
  }

  /** address_table_lookup: the id of the pair, inserted if it is new; -1 for a public address. */
  function LookupStep(r: Ring, pair: Pair): (res: (Ring, int))
    requires Shaped(r)
    ensures Shaped(res.0)
  {
    if !IsAddressPrivate(pair.ip) then (r, -1)
    else
      match Find(r, pair, 0)
      case Some(id) => (r, id as int)
      case None => (Append(r, pair), Append(r, pair).last as int)
  }

  type TableSize = n: nat | n > 0 witness MAC_TABLE_ENTRIES

  datatype AddressUpdate = AddressUpdate(start: nat, size: TableSize, lines: seq<Pair>)

  function WriteRing(r: Ring): (res: (Ring, AddressUpdate))
    requires Shaped(r)
    ensures Shaped(res.0)
    ensures |res.1.lines| == r.added
  {
    (r.(added := 0),
     AddressUpdate(Norm(r.last - r.added + 1), MAC_TABLE_ENTRIES,
                   seq(r.added, i requires 0 <= i < r.added => r.entries[Norm(r.last - (r.added - i) + 1)])))
  }

  // The ring as a window on the list of pairs ever inserted.

  function Window(n: nat): nat {
    if n < MAC_TABLE_ENTRIES then n else MAC_TABLE_ENTRIES
  }

  /** The id of the k-th pair ever inserted. */
  function IdOf(k: nat): nat {
    k % MAC_TABLE_ENTRIES
  }

  predicate InWindow(h: seq<Pair>, k: nat) {
    |h| - Window(|h|) <= k < |h|
  }

  /** The live ids hold the last 256 insertions h[n - 256..n], oldest first, without repetition. */
  ghost predicate Holds(r: Ring, h: seq<Pair>) {
    && |r.entries| == MAC_TABLE_ENTRIES
    && r.length == Window(|h|)
    && r.added <= r.length
    && r.first == IdOf(|h| - Window(|h|))
    && r.last == (if |h| == 0 then 0 else IdOf(|h| - 1))
    && (forall k: nat :: InWindow(h, k) ==> r.entries[IdOf(k)] == h[k])
    && (forall k: nat, l: nat :: InWindow(h, k) && InWindow(h, l) && h[k] == h[l] ==> k == l)
  }

  lemma RingShape(r: Ring, h: seq<Pair>)
    requires Holds(r, h)
    ensures Shaped(r)
    ensures r.length > 0 ==> r.last == (r.first + r.length - 1) % MAC_TABLE_ENTRIES
  {
  }

  lemma EmptyHolds()
    ensures Holds(EmptyRing(), [])
  {
  }

  lemma IdPlus(k: nat, i: nat)
    ensures (IdOf(k) + i) % MAC_TABLE_ENTRIES == IdOf(k + i)
  {
  }

  lemma IdBack(n: nat, a: nat)
    requires 0 < a <= n
    ensures Norm(IdOf(n - 1) - a + 1) == IdOf(n - a)
  {
  }

  lemma {:induction false} FindFinds(r: Ring, h: seq<Pair>, pair: Pair, idx: nat)
    requires Holds(r, h) && Shaped(r) && idx <= r.length
    ensures match Find(r, pair, idx)
            case Some(id) => exists k: nat :: InWindow(h, k) && h[k] == pair && id == IdOf(k)
            case None => forall k: nat :: InWindow(h, k) && k < |h| - idx ==> h[k] != pair
    decreases r.length - idx
  {
    hide Norm, IdOf;
    if idx < r.length {
      var k := |h| - 1 - idx;
      IdBack(|h|, idx + 1);
      assert InWindow(h, k) && Norm(r.last - idx) == IdOf(k);
      if h[k] != pair {
        FindFinds(r, h, pair, idx + 1);
      }
    }
  }

  lemma IdsDiffer(k: nat, l: nat)
    requires k < l < k + MAC_TABLE_ENTRIES
    ensures IdOf(k) != IdOf(l)
  {
  }

  lemma NextId(k: nat)
    ensures Norm(IdOf(k) + 1) == IdOf(k + 1)
  {
  }

  lemma AppendFields(r: Ring, h: seq<Pair>, pair: Pair)
    requires Holds(r, h) && Shaped(r)
    ensures var r1 := Append(r, pair);
            && r1.length == Window(|h| + 1)
            && r1.added <= r1.length
            && r1.first == IdOf(|h| + 1 - Window(|h| + 1))
            && r1.last == IdOf(|h|)
            && r1.entries == r.entries[IdOf(|h|) := pair]
  {
    if |h| > 0 {
      NextId(|h| - 1);
    }
    if r.length == MAC_TABLE_ENTRIES {
      NextId(|h| - MAC_TABLE_ENTRIES);
    }
  }

  /** Inserting a pair that is not in the window puts it in the window as the newest. */
  lemma AppendHolds(r: Ring, h: seq<Pair>, pair: Pair)
    requires Holds(r, h) && Shaped(r)
    requires forall k: nat :: InWindow(h, k) ==> h[k] != pair
    ensures Holds(Append(r, pair), h + [pair])
    ensures Append(r, pair).last == IdOf(|h|)
  {
    var r1, h1 := Append(r, pair), h + [pair];
    AppendFields(r, h, pair);
    forall k: nat | InWindow(h1, k) ensures r1.entries[IdOf(k)] == h1[k] {
      if k < |h| {
        assert InWindow(h, k);
        IdsDiffer(k, |h|);
      }
    }
    forall k: nat, l: nat | InWindow(h1, k) && InWindow(h1, l) && h1[k] == h1[l] ensures k == l {
      assert k < |h| ==> InWindow(h, k);
      assert l < |h| ==> InWindow(h, l);
    }
  }

  /** 10.0.0.0 to 10.255.255.255, 172.16.0.0 to 172.31.255.255, 192.168.0.0 to 192.168.255.255. */
  ghost predicate InPrivateRange(ip: bv32) {
    || 0x0a00_0000 <= ip <= 0x0aff_ffff
    || 0xac10_0000 <= ip <= 0xac1f_ffff
    || 0xc0a8_0000 <= ip <= 0xc0a8_ffff
  }

  lemma MasksAreRanges(ip: bv32)
    ensures IsAddressPrivate(ip) <==> InPrivateRange(ip)
  {
  }

  /** The list of insertions after a lookup of the pair. */
  ghost function Recorded(h: seq<Pair>, pair: Pair): seq<Pair> {
    if InPrivateRange(pair.ip) && forall k: nat :: InWindow(h, k) ==> h[k] != pair then h + [pair] else h
  }

  /** A lookup of a pair in the window changes nothing and returns the pair's id, which is
      its number modulo 256: pairs keep their ids until 256 later insertions. A lookup of
      any other private pair inserts it. */
  lemma LookupExactly(r: Ring, h: seq<Pair>, pair: Pair)
    requires Holds(r, h)
    ensures Shaped(r)
    ensures var (r1, id) := LookupStep(r, pair);
            && Holds(r1, Recorded(h, pair))
            && (Recorded(h, pair) == h ==> r1 == r)
            && (id >= 0 <==> InPrivateRange(pair.ip)) && id >= -1
            && (id >= 0 ==> exists k: nat :: InWindow(Recorded(h, pair), k)
                                             && Recorded(h, pair)[k] == pair && id == IdOf(k))
  {
    RingShape(r, h);
    MasksAreRanges(pair.ip);
    hide IsAddressPrivate, InPrivateRange;
    FindFinds(r, h, pair, 0);
    if InPrivateRange(pair.ip) && Find(r, pair, 0).None? {
      AppendHolds(r, h, pair);
      assert InWindow(h + [pair], |h|) && (h + [pair])[|h|] == pair;
    }
  }

  /** The id of a pair among the last 256 insertions, -1 if it is not one of them. */
  ghost function IdIn(h: seq<Pair>, pair: Pair): (id: int)
    ensures -1 <= id < MAC_TABLE_ENTRIES
  {
    if exists k: nat :: InWindow(h, k) && h[k] == pair then
      var k: nat :| InWindow(h, k) && h[k] == pair;
      IdOf(k)
    else -1
  }

  /** What a lookup returns, in terms of the insertions alone. */
  lemma LookupReturns(r: Ring, h: seq<Pair>, pair: Pair)
    requires Holds(r, h) && Shaped(r)
    ensures LookupStep(r, pair).1 == if InPrivateRange(pair.ip) then IdIn(Recorded(h, pair), pair) else -1
  {
    LookupExactly(r, h, pair);
    hide LookupStep, Recorded, InPrivateRange;
    var h1 := Recorded(h, pair);
    assert forall k: nat, l: nat :: InWindow(h1, k) && InWindow(h1, l) && h1[k] == h1[l] ==> k == l;
  }

  /** A pair is not inserted again before 256 others have been. */
  ghost predicate Spaced(h: seq<Pair>) {
    forall k: nat, l: nat :: k < l <= k + MAC_TABLE_ENTRIES && l < |h| ==> h[k] != h[l]
  }

  lemma RecordedSpaced(h: seq<Pair>, pair: Pair)
    requires Spaced(h)
    ensures Spaced(Recorded(h, pair))
  {
    var h1 := Recorded(h, pair);
    forall k: nat, l: nat | k < l <= k + MAC_TABLE_ENTRIES && l < |h1| ensures h1[k] != h1[l] {
      assert l == |h| ==> InWindow(h, k);
    }
  }

  /** The number of the newest of n insertions that has the id; negative if there is none. */
  function Newest(n: nat, id: nat): int {
    n - 1 - (n - 1 - id) % MAC_TABLE_ENTRIES
  }

  lemma NewestIs(n: nat, k: nat)
    requires k < n
    ensures var r := Newest(n, IdOf(k));
            && k <= r < n <= r + MAC_TABLE_ENTRIES && IdOf(r) == IdOf(k)
            && (n - 1 - k < MAC_TABLE_ENTRIES ==> r == k)
            && (MAC_TABLE_ENTRIES <= n - 1 - k < 2 * MAC_TABLE_ENTRIES ==> r == k + MAC_TABLE_ENTRIES)
  {
    var q := (n - 1 - k) / MAC_TABLE_ENTRIES;
    SameRemainder(n - 1 - k, k / MAC_TABLE_ENTRIES);
    SameRemainder(k, q);
    assert n - 1 - (n - 1 - k) % MAC_TABLE_ENTRIES == k + MAC_TABLE_ENTRIES * q;
  }

  // The server's copy of the ring.

  /** The server's copy after the first m lines of an update. */
  function Replay(server: map<nat, Pair>, u: AddressUpdate, m: nat): map<nat, Pair>
    requires m <= |u.lines|
  {
    if m == 0 then server
    else Replay(server, u, m - 1)[(u.start + m - 1) % u.size := u.lines[m - 1]]
  }

  /** The server knows every live pair except the `missing` newest ones. */
  ghost predicate Mirrors(server: map<nat, Pair>, h: seq<Pair>, missing: nat) {
    forall k: nat :: InWindow(h, k) && k < |h| - missing ==> IdOf(k) in server && server[IdOf(k)] == h[k]
  }

  lemma LookupMirrors(server: map<nat, Pair>, r: Ring, h: seq<Pair>, pair: Pair)
    requires Holds(r, h) && Shaped(r)
    requires Mirrors(server, h, r.added)
    ensures Mirrors(server, Recorded(h, pair), LookupStep(r, pair).0.added)
  {
    LookupExactly(r, h, pair);
    var h1 := Recorded(h, pair);
    if h1 != h {
      FindFinds(r, h, pair, 0);
      var added1 := LookupStep(r, pair).0.added;
      forall k: nat | InWindow(h1, k) && k < |h1| - added1
        ensures IdOf(k) in server && server[IdOf(k)] == h1[k]
      {
        assert InWindow(h, k) && k < |h| - r.added;
      }
    }
  }

  lemma WrittenLine(r: Ring, h: seq<Pair>, m: nat)
    requires Holds(r, h) && Shaped(r) && m < r.added
    ensures var u := WriteRing(r).1; var k := |h| - r.added + m;
            (u.start + m) % u.size == IdOf(k) && u.lines[m] == h[k]
  {
    hide Norm, IdOf;
    var k := |h| - r.added + m;
    assert InWindow(h, k);
    IdBack(|h|, r.added);
    IdBack(|h|, r.added - m);
    IdPlus(|h| - r.added, m);
  }

  lemma {:induction false} ReplayMirrors(server: map<nat, Pair>, r: Ring, h: seq<Pair>, m: nat)
    requires Holds(r, h) && Shaped(r) && m <= r.added
    requires Mirrors(server, h, r.added)
    ensures Mirrors(Replay(server, WriteRing(r).1, m), h, r.added - m)
  {
    hide WriteRing, IdOf;
    if m > 0 {
      ReplayMirrors(server, r, h, m - 1);
      WrittenLine(r, h, m - 1);
      var last := |h| - r.added + m - 1;
      forall k: nat | InWindow(h, k) && k < last ensures IdOf(k) != IdOf(last) {
        IdsDiffer(k, last);
      }
    }
  }

  /** The id of insertion k leads the server to the newest insertion with that id: to k itself as
      long as fewer than 256 pairs were inserted after it, and to another pair during the next 256. */
  lemma IdLeads(server: map<nat, Pair>, h: seq<Pair>, k: nat)
    requires k < |h| && Mirrors(server, h, 0) && Spaced(h)
    ensures var id := IdOf(k); var r := Newest(|h|, id);
            && id in server && k <= r < |h| && IdOf(r) == id && server[id] == h[r]
            && (|h| - 1 - k < MAC_TABLE_ENTRIES ==> server[id] == h[k])
            && (MAC_TABLE_ENTRIES <= |h| - 1 - k < 2 * MAC_TABLE_ENTRIES ==> server[id] != h[k])
  {
    hide Newest, IdOf;
    NewestIs(|h|, k);
    assert InWindow(h, Newest(|h|, IdOf(k)));
  }

  /** The i-th oldest live id. */
  function LiveId(r: Ring, i: nat): nat {
    (r.first + i) % MAC_TABLE_ENTRIES
  }

  ghost predicate Agrees(server: map<nat, Pair>, r: Ring)
    requires Shaped(r)
  {
    forall i: nat :: i < r.length ==> LiveId(r, i) in server && server[LiveId(r, i)] == r.entries[LiveId(r, i)]
  }

  lemma MirrorsAgree(server: map<nat, Pair>, r: Ring, h: seq<Pair>)
    requires Holds(r, h) && Shaped(r)
    requires Mirrors(server, h, 0)
    ensures Agrees(server, r)
  {
    forall i: nat | i < r.length
      ensures LiveId(r, i) in server && server[LiveId(r, i)] == r.entries[LiveId(r, i)]
    {
      var k := |h| - r.length + i;
      IdPlus(|h| - r.length, i);
      assert InWindow(h, k);
    }
  }

  /** After an update the server agrees with the router on every live id, however many
      insertions there were since the update before. */
  lemma UpdateMirrors(server: map<nat, Pair>, r: Ring, h: seq<Pair>)
    requires Holds(r, h)
    requires Mirrors(server, h, r.added)
    ensures Shaped(r)
    ensures var (r1, u) := WriteRing(r);
            && Holds(r1, h)
            && Mirrors(Replay(server, u, |u.lines|), h, r1.added)
            && Agrees(Replay(server, u, |u.lines|), r1)
  {
    RingShape(r, h);
    ReplayMirrors(server, r, h, r.added);
    MirrorsAgree(Replay(server, WriteRing(r).1, r.added), WriteRing(r).0, h);
  }

  class AddressTable {
    const entries: array<Pair>
    var first: nat
    var last: nat
    var length: nat
    var added: nat

    ghost predicate Valid()
      reads this
    {
      && entries.Length == MAC_TABLE_ENTRIES && last < MAC_TABLE_ENTRIES
      && length <= MAC_TABLE_ENTRIES && added <= MAC_TABLE_ENTRIES
    }

    ghost function State(): (r: Ring)
      requires Valid()
      reads this, entries
      ensures Shaped(r)
    {
      Ring(entries[..], first, last, length, added)
    }

    constructor ()
      ensures Valid() && fresh(entries) && State() == EmptyRing()
    {
      entries := new Pair[MAC_TABLE_ENTRIES](_ => Pair(0, 0));
      first, last, length, added := 0, 0, 0, 0;
    }

    /** Search starting with the most recent pairs. */
    method Search(pair: Pair) returns (found: Option<nat>)
      requires Valid()
      ensures found == Find(State(), pair, 0)
    {
      if length > 0 {
        for i := 0 to length
          invariant Find(State(), pair, 0) == Find(State(), pair, i)
        {
          var macId := Norm(last - i);
          if entries[macId] == pair {
            return Some(macId);
          }
        }
      }
      return None;
    }

    method Lookup(pair: Pair) returns (id: int)
      requires Valid()
      modifies this, entries
      ensures Valid() && (State(), id) == LookupStep(old(State()), pair)
    {
      hide IsAddressPrivate, Norm, Find;
      if !IsAddressPrivate(pair.ip) {
        return -1;
      }
      var found := Search(pair);
      if found.Some? {
        return found.value;
      }
      if length == MAC_TABLE_ENTRIES {
        first := Norm(first + 1);
      } else {
        length := length + 1;
      }
      if length > 1 {
        last := Norm(last + 1);
      }
      entries[last] := pair;
      if added < MAC_TABLE_ENTRIES {
        added := added + 1;
      }
      assert State() == Append(old(State()), pair);
      return last;
    }

    method WriteUpdate() returns (u: AddressUpdate)
      requires Valid()
      modifies this`added
      ensures Valid() && (State(), u) == WriteRing(old(State()))
    {
      var start := Norm(last - added + 1);
      var lines := [];
      var i := added;
      while i > 0
        invariant 0 <= i <= added
        invariant lines == WriteRing(State()).1.lines[..added - i]
      {
        var macId := Norm(last - i + 1);
        lines := lines + [entries[macId]];
        i := i - 1;
      }
      assert lines == WriteRing(State()).1.lines;
      u := AddressUpdate(start, MAC_TABLE_ENTRIES, lines);
      added := 0;
    }
  }
}
