/** The streaming SHA-1 and HMAC-SHA-1 of src/sha1.c, as in-place code on a context, and the
    proof that it computes the functions of Sha1Spec for every way of cutting a message. */
module Sha1Code {
  import opened Bits
  import Sha1Spec
  import opened Sha1Words

  type Bytes = seq<Byte>

  function LowHash(s: seq<ULong>): Sha1Spec.Hash
    requires |s| == 5
  {
    Sha1Spec.Hash(Low(s[0]), Low(s[1]), Low(s[2]), Low(s[3]), Low(s[4]))
  }

  /** The length of the whole blocks in n bytes. */
  function FullLength(n: nat): (k: nat)
    ensures k <= n && k % 64 == 0
  {
    n - n % 64
  }

  lemma AppendBlock(m: Bytes, block: Bytes)
    requires |m| % 64 == 0 && |block| == 64
    ensures |m + block| % 64 == 0
    ensures Sha1Spec.HashBlocks(m + block) == Sha1Spec.Compress(Sha1Spec.HashBlocks(m), block)
  {
    assert (m + block)[..|m|] == m && (m + block)[|m|..] == block;
  }

  lemma WindowStart(w: seq<ULong>, block: Bytes, t: nat)
    requires |block| == 64 && t < 16 && Window(w, block, t)
    ensures Window(w, block, t + 1) && Low(w[t]) == Sha1Spec.Schedule(block, t)
  {
    assert forall j: nat :: j < 16 ==> Latest(t + 1, j) == Latest(t, j) == j;
  }

  /** W[t] for the first 16 rounds and R(t), which overwrites a word, for the others. */
  method WordFor(wide: bool, w: array<ULong>, ghost block: Bytes, t: nat) returns (x: ULong)
    requires w.Length == 16 && |block| == 64 && Window(w[..], block, t)
    modifies w
    ensures Window(w[..], block, t + 1)
    ensures Low(x) == Sha1Spec.Schedule(block, t)
  {
    hide Low, Sha1Spec.Schedule, Latest, R, Window;
    if t < 16 {
      WindowStart(w[..], block, t);
      x := w[t];
    } else {
      RIsSchedule(wide, w[..], block, t);
      WindowNext(wide, w[..], block, t);
      x := R(wide, w[..], t);
      w[Place(t)] := x;
    }
  }

  /** The values of the five variables after t + 1 rounds. */
  lemma NextRound(block: Bytes, h: Sha1Spec.Hash, t: nat)
    requires |block| == 64
    ensures Sha1Spec.Rounds(block, h, t + 1)
            == Sha1Spec.Round(t, Sha1Spec.Rounds(block, h, t), Sha1Spec.Schedule(block, t))
  {
  }

  lemma LoadedWord(data: Bytes, j: nat)
    requires |data| == 64 && j < 16
    ensures GetBytes(data[4 * j], data[4 * j + 1], data[4 * j + 2], data[4 * j + 3]) == Sha1Spec.BlockWord(data, j)
  {
    hide GetBytes, Sha1Spec.WordOf;
    GetWord(data[4 * j], data[4 * j + 1], data[4 * j + 2], data[4 * j + 3]);
  }

  lemma LoadedWindow(w: seq<ULong>, data: Bytes)
    requires |data| == 64 && |w| == 16
    requires forall k: nat :: k < 16 ==> w[k] == Sha1Spec.BlockWord(data, k)
    ensures Window(w, data, 0)
  {
    hide Low, Sha1Spec.BlockWord, Sha1Spec.WordOf;
    forall k: nat | k < 16 ensures Low(w[k]) == Sha1Spec.Schedule(data, Latest(0, k)) {
      LowOfWord(Sha1Spec.BlockWord(data, k));
    }
  }

  /** Loads the sixteen words of a block. */
  method LoadBlock(data: Bytes) returns (w: array<ULong>)
    requires |data| == 64
    ensures fresh(w) && w.Length == 16 && Window(w[..], data, 0)
  {
    hide GetBytes, Sha1Spec.BlockWord, Window;
    w := new ULong[16](_ => 0);
    for j := 0 to 16
      invariant forall k: nat :: k < j ==> w[k] == Sha1Spec.BlockWord(data, k)
    {
      LoadedWord(data, j);
      w[j] := GetBytes(data[4 * j], data[4 * j + 1], data[4 * j + 2], data[4 * j + 3]);
    }
    LoadedWindow(w[..], data);
  }

  /** The macro P for round t: changes e and b, so that the registers are then read in the
      order e, a, b, c, d. */
  method P(wide: bool, w: array<ULong>, ghost block: Bytes, ghost h: Sha1Spec.Hash, t: nat,
           a: ULong, b: ULong, c: ULong, d: ULong, e: ULong) returns (e1: ULong, b1: ULong)
    requires w.Length == 16 && |block| == 64 && Window(w[..], block, t)
    requires Carries(Sha1Spec.Rounds(block, h, t), a, b, c, d, e)
    modifies w
    ensures Window(w[..], block, t + 1)
    ensures Carries(Sha1Spec.Rounds(block, h, t + 1), e1, a, b1, c, d)
  {
    hide Low, Carries, PSum, S30, Window, Sha1Spec.Schedule, Sha1Spec.Rounds, Sha1Spec.Round;
    var x := WordFor(wide, w, block, t);
    PRefinesRound(wide, t, Sha1Spec.Rounds(block, h, t), a, b, c, d, e, x);
    NextRound(block, h, t);
    e1 := PSum(wide, t, a, b, c, d, e, x);
    b1 := S30(wide, b);
  }

  lemma CarriesAtFirst(data: Bytes, a: ULong, b: ULong, c: ULong, d: ULong, e: ULong)
    requires |data| == 64
    ensures Carries(Sha1Spec.Rounds(data, LowHash([a, b, c, d, e]), 0), a, b, c, d, e)
  {
  }

  /** Eighty rounds on five registers whose names rotate instead of their values. */
  method RunRounds(wide: bool, data: Bytes, a: ULong, b: ULong, c: ULong, d: ULong, e: ULong)
    returns (A: ULong, B: ULong, C: ULong, D: ULong, E: ULong)
    requires |data| == 64
    ensures Carries(Sha1Spec.Rounds(data, LowHash([a, b, c, d, e]), 80), A, B, C, D, E)
  {
    hide LowHash, Carries, Window, Sha1Spec.Rounds;
    ghost var h := LowHash([a, b, c, d, e]);
    var w := LoadBlock(data);
    A, B, C, D, E := a, b, c, d, e;
    CarriesAtFirst(data, a, b, c, d, e);
    for i := 0 to 16
      invariant Window(w[..], data, 5 * i)
      invariant Carries(Sha1Spec.Rounds(data, h, 5 * i), A, B, C, D, E)
    {
      var t := 5 * i;
      E, B := P(wide, w, data, h, t, A, B, C, D, E);
      D, A := P(wide, w, data, h, t + 1, E, A, B, C, D);
      C, E := P(wide, w, data, h, t + 2, D, E, A, B, C);
      B, D := P(wide, w, data, h, t + 3, C, D, E, A, B);
      A, C := P(wide, w, data, h, t + 4, B, C, D, E, A);
    }
  }

  // The byte counter.

  /** The counter total[1] after adding len bytes: one carry at most. */
  function CarryInto(wide: bool, total0: nat, total1: nat, len: nat): nat {
    if (total0 + len) % TWO_32 < len then Fit(wide, total1 + 1) else total1
  }

  predicate CountsHigh(total1: nat, n: nat) {
    total1 % TWO_32 == n / TWO_32 % TWO_32
  }

  /** The true number of carries out of the low counter. */
  function Carries32(total0: nat, len: nat): nat {
    (total0 + len) / TWO_32
  }

  lemma CarryTest(total0: nat, len: nat)
    requires total0 < TWO_32
    ensures (total0 + len) % TWO_32 < len <==> Carries32(total0, len) >= 1
  {
  }

  lemma CountSplit(n: nat, len: nat)
    ensures (n + len) / TWO_32 == n / TWO_32 + Carries32(n % TWO_32, len)
    ensures (n + len) % TWO_32 == (n % TWO_32 + len) % TWO_32
  {
    var q, r := n / TWO_32, n % TWO_32;
    assert n + len == q * TWO_32 + (r + len);
  }

  lemma SameModulo(x: nat, y: nat, a: nat, b: nat)
    requires x % TWO_32 == y % TWO_32 && a < TWO_32 && b <= TWO_32 && (a == 0 <==> b == 0) && a <= 1
    ensures (x + a) % TWO_32 == (y + b) % TWO_32 <==> a == b
  {
    var k := x / TWO_32 - y / TWO_32;
    assert x == y + k * TWO_32;
    if (x + a) % TWO_32 == (y + b) % TWO_32 {
      var l := (x + a) / TWO_32 - (y + b) / TWO_32;
      assert a - b == (l - k) * TWO_32;
    }
  }

  /** An exact count stays exact if and only if the low counter overflows at most once, that
      is if the old low counter and the length add up to less than 2^33. */
  lemma CountStep(wide: bool, n: nat, total1: nat, len: nat)
    requires CountsHigh(total1, n) && len < TWO_64
    ensures CountsHigh(CarryInto(wide, n % TWO_32, total1, len), n + len)
            <==> n % TWO_32 + len < 2 * TWO_32
  {
    var c := Carries32(n % TWO_32, len);
    CarryTest(n % TWO_32, len);
    CountSplit(n, len);
    var a := if c >= 1 then 1 else 0;
    LowFit(wide, total1 + 1);
    SameModulo(total1, n / TWO_32, a, c);
    assert c <= 1 <==> n % TWO_32 + len < 2 * TWO_32;
  }

  /** One update of 2^33 bytes, which only a 64-bit size_t can hold, carries twice and counts once. */
  lemma CountLosesCarry()
    ensures CountsHigh(0, 0) && !CountsHigh(CarryInto(true, 0, 0, 2 * TWO_32), 2 * TWO_32)
  {
    CountStep(true, 0, 0, 2 * TWO_32);
  }

  lemma CounterModulo64(n: nat)
    ensures n % TWO_32 % 64 == n % 64
  {
    var q := n / TWO_32;
    assert n == q * 0x400_0000 * 64 + n % TWO_32;
  }

  // What sha1_finish feeds.

  const PADDING: Bytes := [0x80] + seq(63, _ => 0)

  function PadLength(total0: nat): (k: nat)
    ensures 1 <= k <= 64
  {
    var last := total0 % 64;
    if last < 56 then 56 - last else 120 - last
  }

  lemma PaddingFed(wide: bool, n: nat, total1: nat)
    requires CountsHigh(total1, n)
    ensures PADDING[..PadLength(n % TWO_32)]
            + (PutBytes(HighWord(wide, n % TWO_32, total1)) + PutBytes(LowWord(wide, n % TWO_32)))
            == Sha1Spec.Padding(n)
  {
    CounterModulo64(n);
    assert PadLength(n % TWO_32) == 1 + Sha1Spec.ZeroBytes(n);
    PutLow(HighWord(wide, n % TWO_32, total1));
    PutLow(LowWord(wide, n % TWO_32));
    HighIsLength(wide, n, total1);
    LowIsLength(wide, n);
    BigEndian(8 * n);
    hide PutBytes, HighWord, LowWord, Low, Sha1Spec.WordBytes, Sha1Spec.Power256;
    assert Sha1Spec.LengthField(n) == Sha1Spec.WordBytes(8 * n / TWO_32 % TWO_32) + Sha1Spec.WordBytes(8 * n % TWO_32);
    assert PADDING[..PadLength(n % TWO_32)] == [0x80] + seq(Sha1Spec.ZeroBytes(n), _ => 0);
  }

  // The context.

  function HashOf(m: Bytes, k: nat): Sha1Spec.Hash
    requires k <= |m| && k % 64 == 0
  {
    Sha1Spec.HashBlocks(m[..k])
  }

  lemma HashOfNext(m: Bytes, k: nat)
    requires k + 64 <= |m| && k % 64 == 0
    ensures HashOf(m, k + 64) == Sha1Spec.Compress(HashOf(m, k), m[k..k + 64])
  {
    assert m[..k + 64] == m[..k] + m[k..k + 64];
    AppendBlock(m[..k], m[k..k + 64]);
  }

  lemma HashOfPrefix(m: Bytes, m1: Bytes, k: nat)
    requires k <= |m| && k % 64 == 0
    ensures HashOf(m + m1, k) == HashOf(m, k)
  {
    assert (m + m1)[..k] == m[..k];
  }

  lemma LengthOfRest(n: nat, done: nat)
    requires done % 64 == 0 && done <= n < done + 64
    ensures FullLength(n) == done && n % 64 == n - done
  {
  }

  /** memcpy into part of a buffer */
  method CopyInto(dst: array<Byte>, at: nat, src: Bytes)
    requires at + |src| <= dst.Length
    modifies dst
    ensures dst[..] == old(dst[..at]) + src + old(dst[at + |src|..])
  {
    forall i | 0 <= i < |src| {
      dst[at + i] := src[i];
    }
  }

  lemma AddRegisters(wide: bool, h: seq<ULong>, a: ULong, b: ULong, c: ULong, d: ULong, e: ULong, v: Sha1Spec.Hash)
    requires |h| == 5 && Carries(v, a, b, c, d, e)
    ensures LowHash([Plus(wide, h[0], a), Plus(wide, h[1], b), Plus(wide, h[2], c),
                     Plus(wide, h[3], d), Plus(wide, h[4], e)]) == Sha1Spec.AddHash(LowHash(h), v)
  {
    hide Low, Plus;
    LowPlus(wide, h[0], a);
    LowPlus(wide, h[1], b);
    LowPlus(wide, h[2], c);
    LowPlus(wide, h[3], d);
    LowPlus(wide, h[4], e);
  }

  lemma StartHash()
    ensures LowHash([0x67452301, 0xEFCDAB89, 0x98BADCFE, 0x10325476, 0xC3D2E1F0]) == HashOf([], FullLength(0))
    ensures CountsHigh(0, 0)
  {
    hide Sha1Spec.HashBlocks, Low;
    var empty: Bytes := [];
    assert empty[..FullLength(0)] == [];
    EmptyHash();
    LowOfWord(0x67452301);
    LowOfWord(0xEFCDAB89);
    LowOfWord(0x98BADCFE);
    LowOfWord(0x10325476);
    LowOfWord(0xC3D2E1F0);
  }

  lemma EmptyHash()
    ensures Sha1Spec.HashBlocks([]) == Sha1Spec.INITIAL
  {
  }

  class Sha1Context {
    const wide: bool
    var total0: nat
    var total1: nat
    const state: array<ULong>
    const buffer: array<Byte>
    const ipad: array<Byte>
    const opad: array<Byte>
    /** Everything hashed since the context was started. */
    ghost var msg: Bytes

    ghost predicate Shaped() {
      && state.Length == 5 && buffer.Length == 64 && ipad.Length == 64 && opad.Length == 64
      && buffer != ipad && buffer != opad && ipad != opad
      && state as object != buffer && state as object != ipad && state as object != opad
    }

    /** The state is the hash of the whole blocks of the message, the buffer holds the rest
        and the low counter is its length. */
    ghost predicate Valid()
      reads this, state, buffer
    {
      && Shaped()
      && total0 == |msg| % TWO_32
      && LowHash(state[..]) == HashOf(msg, FullLength(|msg|))
      && buffer[..|msg| % 64] == msg[FullLength(|msg|)..]
    }

    /** Both counters together are the length modulo 2^64. */
    ghost predicate CountExact()
      reads this
    {
      CountsHigh(total1, |msg|)
    }

    /** The range of size_t. */
    predicate SizeFits(n: nat) {
      n < if wide then TWO_64 else TWO_32
    }

    constructor (wide: bool)
      ensures Shaped() && this.wide == wide
      ensures fresh(state) && fresh(buffer) && fresh(ipad) && fresh(opad)
    {
      this.wide := wide;
      total0, total1, msg := 0, 0, [];
      state := new ULong[5](_ => 0);
      buffer := new Byte[64](_ => 0);
      ipad := new Byte[64](_ => 0);
      opad := new Byte[64](_ => 0);
    }

    method Starts()
      requires Shaped()
      modifies this, state
      ensures Valid() && CountExact() && msg == []
      ensures total0 == total1 == 0
    {
      total0, total1 := 0, 0;
      state[0], state[1], state[2], state[3], state[4] := 0x67452301, 0xEFCDAB89, 0x98BADCFE, 0x10325476, 0xC3D2E1F0;
      msg := [];
      assert state[..] == [0x67452301, 0xEFCDAB89, 0x98BADCFE, 0x10325476, 0xC3D2E1F0];
      StartHash();
    }

    method Process(data: Bytes)
      requires Shaped() && |data| == 64
      modifies state
      ensures LowHash(state[..]) == Sha1Spec.Compress(LowHash(old(state[..])), data)
    {
      ghost var h := state[..];
      var A, B, C, D, E := RunRounds(wide, data, state[0], state[1], state[2], state[3], state[4]);
      hide Low, Plus, LowHash, Carries, Sha1Spec.Rounds, Sha1Spec.AddHash;
      assert [state[0], state[1], state[2], state[3], state[4]] == h;
      AddRegisters(wide, h, A, B, C, D, E, Sha1Spec.Rounds(data, LowHash(h), 80));
      state[0] := Plus(wide, state[0], A);
      state[1] := Plus(wide, state[1], B);
      state[2] := Plus(wide, state[2], C);
      state[3] := Plus(wide, state[3], D);
      state[4] := Plus(wide, state[4], E);
      assert state[..] == [Plus(wide, h[0], A), Plus(wide, h[1], B), Plus(wide, h[2], C),
                           Plus(wide, h[3], D), Plus(wide, h[4], E)];
    }

    /** The first `done` bytes of m are hashed and the next `left` are in the buffer. */
    ghost predicate Hashed(m: Bytes, done: nat, left: nat)
      requires Shaped()
      reads state, buffer
    {
      && done % 64 == 0 && left < 64 && done + left <= |m|
      && LowHash(state[..]) == HashOf(m, done)
      && buffer[..left] == m[done..done + left]
    }

    /** Completes the block in the buffer and hashes it. */
    method FillBuffer(ghost m: Bytes, ghost done: nat, left: nat, input: Bytes)
      requires Shaped() && Hashed(m, done, left)
      requires left + |input| == 64 && done + 64 <= |m| && m[done + left..done + 64] == input
      modifies state, buffer
      ensures Hashed(m, done + 64, 0)
    {
      hide HashOf, LowHash;
      CopyInto(buffer, left, input);
      assert buffer[..] == m[done..done + 64];
      Process(buffer[..]);
      HashOfNext(m, done);
    }

    method ProcessNext(ghost m: Bytes, ghost done: nat, block: Bytes)
      requires Shaped() && Hashed(m, done, 0)
      requires done + 64 <= |m| && block == m[done..done + 64]
      modifies state
      ensures Hashed(m, done + 64, 0)
    {
      hide HashOf, LowHash;
      Process(block);
      HashOfNext(m, done);
    }

    /** Hashes the whole blocks of the input from pos on; there are none if the buffer is in use. */
    method HashWhole(ghost m: Bytes, input: Bytes, pos0: nat, left: nat) returns (pos: nat)
      requires Shaped() && pos0 <= |input| <= |m| && input == m[|m| - |input|..]
      requires |m| - |input| + pos0 >= left && Hashed(m, |m| - |input| + pos0 - left, left)
      requires left > 0 ==> |input| - pos0 < 64 - left
      modifies state
      ensures pos0 <= pos <= |input| && |input| - pos < 64 - left
      ensures |m| - |input| + pos >= left && Hashed(m, |m| - |input| + pos - left, left)
    {
      hide HashOf, LowHash;
      pos := pos0;
      ghost var done := |m| - |input| + pos0 - left;
      while |input| - pos >= 64
        invariant pos0 <= pos <= |input| && done == |m| - |input| + pos - left
        invariant left > 0 ==> |input| - pos < 64 - left
        invariant Hashed(m, done, left)
      {
        assert input[pos..pos + 64] == m[done..done + 64];
        ProcessNext(m, done, input[pos..pos + 64]);
        pos := pos + 64;
        done := done + 64;
      }
    }

    /** Leaves the rest of the input in the buffer. */
    method KeepRest(ghost m: Bytes, ghost done: nat, left: nat, rest: Bytes)
      requires Shaped() && Hashed(m, done, left)
      requires left + |rest| < 64 && done + left + |rest| == |m| && rest == m[done + left..]
      modifies buffer
      ensures Hashed(m, FullLength(|m|), |m| % 64)
    {
      hide HashOf, LowHash;
      if |rest| > 0 {
        CopyInto(buffer, left, rest);
        assert buffer[..left + |rest|] == m[done..];
      }
      LengthOfRest(|m|, done);
    }

    lemma HashedLonger(start: Bytes, input: Bytes, left: nat)
      requires Shaped() && left == |start| % 64 && Hashed(start, FullLength(|start|), left)
      ensures Hashed(start + input, FullLength(|start|), left)
    {
      hide HashOf, LowHash;
      var done := FullLength(|start|);
      HashOfPrefix(start, input, done);
      assert (start + input)[done..done + left] == start[done..];
    }

    /** The body of sha1_update behind the counters. */
    method Absorb(ghost start: Bytes, input: Bytes, left: nat)
      requires Shaped() && left == |start| % 64
      requires Hashed(start, FullLength(|start|), left)
      modifies state, buffer
      ensures var m := start + input; Hashed(m, FullLength(|m|), |m| % 64)
    {
      hide HashOf, LowHash, FullLength, Hashed;
      ghost var m, done := start + input, FullLength(|start|);
      LengthOfRest(|start|, |start| - left);
      HashedLonger(start, input, left);
      var fill := 64 - left;
      if left > 0 && |input| >= fill {
        FillBuffer(m, done, left, input[..fill]);
        var pos := HashWhole(m, input, fill, 0);
        KeepRest(m, |start| + pos, 0, input[pos..]);
      } else {
        var pos := HashWhole(m, input, 0, left);
        KeepRest(m, |start| + pos - left, left, input[pos..]);
      }
    }

    /** Adds a length to the two counters. */
    method CountBytes(len: nat)
      requires Valid() && SizeFits(len)
      modifies `total0, `total1
      ensures total0 == (|msg| + len) % TWO_32
      ensures old(CountExact()) ==> (CountsHigh(total1, |msg| + len) <==> old(total0) + len < 2 * TWO_32)
    {
      hide CountsHigh, HashOf, LowHash;
      CountSplit(|msg|, len);
      if CountsHigh(total1, |msg|) {
        CountStep(wide, |msg|, total1, len);
      }
      total1 := CarryInto(wide, total0, total1, len);
      total0 := (total0 + len) % TWO_32;
    }

    lemma HashedIsValid()
      requires Shaped() && Hashed(msg, FullLength(|msg|), |msg| % 64) && total0 == |msg| % TWO_32
      ensures Valid()
    {
    }

    method Update(input: Bytes)
      requires Valid() && SizeFits(|input|)
      modifies this, state, buffer
      ensures Valid() && msg == old(msg) + input
      ensures old(CountExact()) ==> (CountExact() <==> old(total0) + |input| < 2 * TWO_32)
    {
      if |input| == 0 {
        return;
      }
      hide HashOf, LowHash, CountsHigh;
      CounterModulo64(|msg|);
      var left := total0 % 64;
      ghost var start := msg;
      assert Hashed(start, FullLength(|start|), left);
      CountBytes(|input|);
      hide Hashed, FullLength;
      Absorb(start, input, left);
      msg := start + input;
      HashedIsValid();
    }

    method Finish() returns (output: Bytes)
      requires Valid()
      modifies this, state, buffer
      ensures Valid() && |output| == 20
      ensures old(CountExact()) ==> output == Sha1Spec.Sha1(old(msg))
    {
      hide HashOf, LowHash, CountsHigh, PadLength, PutBytes, HighWord, LowWord, Sha1Spec.Padding, Sha1Spec.Digest;
      ghost var m, exact := msg, CountExact();
      var msglen := PutBytes(HighWord(wide, total0, total1)) + PutBytes(LowWord(wide, total0));
      var padn := PadLength(total0);
      if exact {
        PaddingFed(wide, |m|, total1);
      }
      Update(PADDING[..padn]);
      Update(msglen);
      if exact {
        assert msg == m + Sha1Spec.Padding(|m|);
        WholeHash(msg);
      }
      output := PutBytes(state[0]) + PutBytes(state[1]) + PutBytes(state[2]) + PutBytes(state[3]) + PutBytes(state[4]);
      DigestOf(state[..]);
    }

    // HMAC.

    ghost predicate Keyed(key: Bytes)
      requires Shaped()
      reads ipad, opad
    {
      ipad[..] == Sha1Spec.XorPad(key, 0x36) && opad[..] == Sha1Spec.XorPad(key, 0x5c)
    }

    /** A context that has hashed the inner pad of the key and then the text. */
    ghost predicate Keying(key: Bytes, text: Bytes)
      reads this, state, buffer, ipad, opad
    {
      Valid() && CountExact() && Keyed(key) && msg == Sha1Spec.XorPad(key, 0x36) + text
    }

    /** Fills a pad and mixes the key into it. */
    method MixPad(pad: array<Byte>, value: Byte, key: Bytes)
      requires pad.Length == 64 && |key| <= 64
      modifies pad
      ensures forall i :: 0 <= i < 64 ==> pad[i] == Sha1Spec.XorByte(if i < |key| then key[i] else 0, value)
    {
      forall i | 0 <= i < 64 {
        pad[i] := value;
      }
      for i := 0 to |key|
        invariant forall k :: 0 <= k < i ==> pad[k] == Sha1Spec.XorByte(key[k], value)
        invariant forall k :: i <= k < 64 ==> pad[k] == value
      {
        XorCommutes(key[i], value);
        pad[i] := Sha1Spec.XorByte(pad[i], key[i]);
      }
      ZeroKeyByte(value);
    }

    method HmacStarts(key: Bytes)
      requires Shaped() && SizeFits(|key|)
      modifies this, state, buffer, ipad, opad
      ensures Valid()
      ensures |key| < 2 * TWO_32 ==> Keying(key, [])
    {
      var k := key;
      if |key| > 64 {
        k := Sha1(wide, key);
      }
      MixPad(ipad, 0x36, k);
      MixPad(opad, 0x5c, k);
      if |key| < 2 * TWO_32 {
        assert forall i :: 0 <= i < 64 ==> Sha1Spec.BlockKey(key)[i] == if i < |k| then k[i] else 0;
        assert Keyed(key);
      }
      Starts();
      Update(ipad[..]);
    }

    method HmacUpdate(input: Bytes)
      requires Valid() && SizeFits(|input|)
      modifies this, state, buffer
      ensures Valid() && msg == old(msg) + input
      ensures old(CountExact()) ==> (CountExact() <==> old(total0) + |input| < 2 * TWO_32)
    {
      Update(input);
    }

    method HmacFinish(ghost key: Bytes, ghost text: Bytes) returns (output: Bytes)
      requires Valid()
      modifies this, state, buffer
      ensures Valid() && ipad[..] == old(ipad[..]) && opad[..] == old(opad[..])
      ensures old(Keying(key, text)) ==> output == Sha1Spec.Hmac(key, text)
    {
      hide HashOf, LowHash, CountsHigh, Sha1Spec.Sha1, Sha1Spec.XorPad;
      ghost var keying := Keying(key, text);
      var inner := Finish();
      Starts();
      Update(opad[..]);
      Update(inner);
      if keying {
        assert msg == Sha1Spec.XorPad(key, 0x5c) + inner;
      }
      output := Finish();
    }

    /** After a finish, puts the context back to where HmacStarts left it. */
    method HmacReset(ghost key: Bytes)
      requires Valid() && Keyed(key)
      modifies this, state, buffer
      ensures Keying(key, [])
    {
      Starts();
      Update(ipad[..]);
    }
  }

  lemma WholeHash(m: Bytes)
    requires |m| % 64 == 0
    ensures HashOf(m, FullLength(|m|)) == Sha1Spec.HashBlocks(m)
  {
    assert m[..|m|] == m;
  }

  lemma DigestOf(h: seq<ULong>)
    requires |h| == 5
    ensures PutBytes(h[0]) + PutBytes(h[1]) + PutBytes(h[2]) + PutBytes(h[3]) + PutBytes(h[4])
            == Sha1Spec.Digest(LowHash(h))
  {
    hide PutBytes, Low, Sha1Spec.WordBytes;
    PutLow(h[0]);
    PutLow(h[1]);
    PutLow(h[2]);
    PutLow(h[3]);
    PutLow(h[4]);
  }

  lemma ZeroKeyByte(x: Byte)
    ensures Sha1Spec.XorByte(0, x) == x
  {
    XorCommutes(0, x);
    XorZero(x);
  }

  // Whole messages.

  method Sha1(wide: bool, input: Bytes) returns (output: Bytes)
    requires |input| < if wide then TWO_64 else TWO_32
    ensures |output| == 20
    ensures |input| < 2 * TWO_32 ==> output == Sha1Spec.Sha1(input)
  {
    hide HashOf, LowHash, CountsHigh, FullLength, Sha1Spec.Sha1, Sha1Context.Valid, Sha1Context.CountExact;
    var ctx := new Sha1Context(wide);
    ctx.Starts();
    assert [] + input == input;
    ctx.Update(input);
    output := ctx.Finish();
  }

  function Concat(chunks: seq<Bytes>): Bytes {
    if chunks == [] then [] else Concat(chunks[..|chunks| - 1]) + chunks[|chunks| - 1]
  }

  lemma ConcatNext(chunks: seq<Bytes>, i: nat)
    requires i < |chunks|
    ensures Concat(chunks[..i + 1]) == Concat(chunks[..i]) + chunks[i]
  {
    assert chunks[..i + 1][..i] == chunks[..i];
  }

  lemma ConcatAll(chunks: seq<Bytes>)
    ensures Concat(chunks[..0]) == [] && Concat(chunks[..|chunks|]) == Concat(chunks)
  {
    assert chunks[..|chunks|] == chunks;
  }

  /** Any message, cut in any way into updates shorter than 2^32 bytes, on either width. */
  method Sha1Chunks(wide: bool, chunks: seq<Bytes>) returns (output: Bytes)
    requires forall i :: 0 <= i < |chunks| ==> |chunks[i]| < TWO_32
    ensures output == Sha1Spec.Sha1(Concat(chunks))
  {
    hide HashOf, LowHash, CountsHigh, FullLength, Sha1Spec.Sha1, Concat;
    ConcatAll(chunks);
    var ctx := new Sha1Context(wide);
    ctx.Starts();
    for i := 0 to |chunks|
      invariant fresh(ctx.state) && fresh(ctx.buffer) && ctx.Valid() && ctx.CountExact()
      invariant ctx.msg == Concat(chunks[..i])
    {
      ConcatNext(chunks, i);
      ctx.Update(chunks[i]);
    }
    output := ctx.Finish();
  }

  method Hmac(wide: bool, key: Bytes, input: Bytes) returns (output: Bytes)
    requires |key| < if wide then TWO_64 else TWO_32
    requires |input| < if wide then TWO_64 else TWO_32
    ensures |key| < 2 * TWO_32 && |input| + 64 < 2 * TWO_32 ==> output == Sha1Spec.Hmac(key, input)
  {
    hide HashOf, LowHash, CountsHigh, Sha1Spec.Sha1;
    var ctx := new Sha1Context(wide);
    ctx.HmacStarts(key);
    ctx.HmacUpdate(input);
    output := ctx.HmacFinish(key, input);
  }

  /** Two messages under one key on one context, with a reset between them. */
  method HmacTwice(wide: bool, key: Bytes, first: seq<Bytes>, second: seq<Bytes>) returns (mac1: Bytes, mac2: Bytes)
    requires |key| < TWO_32
    requires forall i :: 0 <= i < |first| ==> |first[i]| < TWO_32
    requires forall i :: 0 <= i < |second| ==> |second[i]| < TWO_32
    ensures mac1 == Sha1Spec.Hmac(key, Concat(first))
    ensures mac2 == Sha1Spec.Hmac(key, Concat(second))
  {
    var ctx := new Sha1Context(wide);
    ctx.HmacStarts(key);
    HmacFeed(ctx, key, first);
    mac1 := ctx.HmacFinish(key, Concat(first));
    ctx.HmacReset(key);
    HmacFeed(ctx, key, second);
    mac2 := ctx.HmacFinish(key, Concat(second));
  }

  method HmacFeed(ctx: Sha1Context, ghost key: Bytes, chunks: seq<Bytes>)
    requires ctx.Keying(key, [])
    requires forall i :: 0 <= i < |chunks| ==> |chunks[i]| < TWO_32
    modifies ctx, ctx.state, ctx.buffer
    ensures ctx.Keying(key, Concat(chunks))
  {
    hide HashOf, LowHash, CountsHigh, FullLength, Concat;
    ConcatAll(chunks);
    for i := 0 to |chunks|
      invariant ctx.Keying(key, Concat(chunks[..i]))
    {
      ConcatNext(chunks, i);
      ctx.HmacUpdate(chunks[i]);
    }
  }
}
