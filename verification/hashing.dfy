/** The FNV hash of src/hashing.h and its use as the hash of the flow table. Hash values
    are the integers below 2^32; shifts and sums wrap around explicitly. */
module Hashing {
  import opened Bits
  import opened FlowTables

  const FNV_OFFSET_BASIS: nat := 0x811c9dc5
  const FNV_PRIME: nat := 16777619
  const FNV_PRIME_INVERSE: nat := 0x359c449b

  /** One step of FNV-1: multiply by the prime modulo 2^32, then take in a byte. */
  function FnvStep(h: UInt32, b: Byte): UInt32 {
    Xor32(h * FNV_PRIME % TWO_32, b)
  }

  function Fnv1(data: seq<Byte>): UInt32 {
    if data == [] then FNV_OFFSET_BASIS
    else FnvStep(Fnv1(data[..|data| - 1]), data[|data| - 1])
  }

  function Add32(x: UInt32, y: UInt32): UInt32 {
    (x + y) % TWO_32
  }

  function ShiftLeft(x: UInt32, k: nat): UInt32 {
    x * Pow2(k) % TWO_32
  }

  /** hval += (hval<<1) + (hval<<4) + (hval<<7) + (hval<<8) + (hval<<24) */
  function ShiftAdd(h: UInt32): UInt32 {
    Add32(h, Add32(Add32(Add32(Add32(ShiftLeft(h, 1), ShiftLeft(h, 4)), ShiftLeft(h, 7)), ShiftLeft(h, 8)),
                   ShiftLeft(h, 24)))
  }

  lemma AddModulo(x: nat, y: nat)
    ensures Add32(x % TWO_32, y % TWO_32) == (x + y) % TWO_32
  {
    var q, r := x / TWO_32, y / TWO_32;
    assert x + y == x % TWO_32 + y % TWO_32 + (q + r) * TWO_32;
  }

  /** The multiple k * h modulo 2^32. */
  function Multiple(h: UInt32, k: nat): UInt32 {
    h * k % TWO_32
  }

  lemma ShiftLeftIs(h: UInt32, k: nat, m: nat)
    requires Pow2(k) == m
    ensures ShiftLeft(h, k) == Multiple(h, m)
  {
  }

  lemma AddMultiples(h: UInt32, a: nat, b: nat)
    ensures Add32(Multiple(h, a), Multiple(h, b)) == Multiple(h, a + b)
  {
    AddModulo(h * a, h * b);
    assert h * a + h * b == h * (a + b);
  }

  lemma ShiftAddMultiplies(h: UInt32)
    ensures ShiftAdd(h) == h * FNV_PRIME % TWO_32
  {
    assert Multiple(h, 1) == h && Multiple(h, FNV_PRIME) == h * FNV_PRIME % TWO_32;
    Powers();
    ShiftLeftIs(h, 1, 2);
    ShiftLeftIs(h, 4, 16);
    ShiftLeftIs(h, 7, 128);
    ShiftLeftIs(h, 8, 256);
    ShiftLeftIs(h, 24, 16777216);
    hide Add32, Pow2, ShiftLeft, Multiple;
    AddMultiples(h, 2, 16);
    AddMultiples(h, 18, 128);
    AddMultiples(h, 146, 256);
    AddMultiples(h, 402, 16777216);
    AddMultiples(h, 1, 16777618);
  }

  /** The shift-and-add loop of the code computes FNV-1. */
  method FnvHash32(data: seq<Byte>) returns (hval: UInt32)
    ensures hval == Fnv1(data)
  {
    hval := FNV_OFFSET_BASIS;
    var bp := 0;
    while bp < |data|
      invariant 0 <= bp <= |data|
      invariant hval == Fnv1(data[..bp])
    {
      ShiftAddMultiplies(hval);
      hval := ShiftAdd(hval);
      hval := Xor32(hval, data[bp]);
      bp := bp + 1;
      assert data[..bp][..bp - 1] == data[..bp - 1];
    }
    assert data[..bp] == data;
  }

  lemma PrimeIsInvertible(h: UInt32)
    ensures (h * FNV_PRIME % TWO_32) * FNV_PRIME_INVERSE % TWO_32 == h
  {
    var q := h * FNV_PRIME / TWO_32;
    var k := 3513497 * h - q * FNV_PRIME_INVERSE;
    var x := (h * FNV_PRIME % TWO_32) * FNV_PRIME_INVERSE;
    assert x == h + k * TWO_32;
    assert k >= 0;
    RemainderOf(x, k, h);
  }

  lemma StepInjective(h: UInt32, g: UInt32, b: Byte)
    requires FnvStep(h, b) == FnvStep(g, b)
    ensures h == g
  {
    XorInjective(h * FNV_PRIME % TWO_32, g * FNV_PRIME % TWO_32, b);
    PrimeIsInvertible(h);
    PrimeIsInvertible(g);
  }

  lemma StepSeparatesBytes(h: UInt32, a: Byte, b: Byte)
    requires FnvStep(h, a) == FnvStep(h, b)
    ensures a == b
  {
    var x := h * FNV_PRIME % TWO_32;
    XorCommutes(x, a);
    XorCommutes(x, b);
    XorInjective(a, b, x);
  }

  /** Inputs of one length that differ in exactly one byte never collide. */
  lemma {:induction false} OneByteNeverCollides(x: seq<Byte>, y: seq<Byte>, i: nat)
    requires |x| == |y| && i < |x| && x[i] != y[i]
    requires forall k :: 0 <= k < |x| && k != i ==> x[k] == y[k]
    ensures Fnv1(x) != Fnv1(y)
  {
    var n := |x| - 1;
    var x', y' := x[..n], y[..n];
    if i == n {
      assert x' == y';
      if Fnv1(x) == Fnv1(y) {
        StepSeparatesBytes(Fnv1(x'), x[n], y[n]);
      }
    } else {
      OneByteNeverCollides(x', y', i);
      if Fnv1(x) == Fnv1(y) {
        StepInjective(Fnv1(x'), Fnv1(y'), x[n]);
      }
    }
  }

  // The hash of a flow.

  function Bytes16(x: bv16): seq<Byte> {
    [((x & 0xff) as bv8) as nat, ((x >> 8) as bv8) as nat]
  }

  function Bytes32(x: bv32): seq<Byte> {
    [((x & 0xff) as bv8) as nat, (((x >> 8) & 0xff) as bv8) as nat, (((x >> 16) & 0xff) as bv8) as nat,
     ((x >> 24) as bv8) as nat]
  }

  /** The 13 bytes of the hashed fields as they lie in memory on a little-endian machine. */
  function FlowBytes(f: FiveTuple): seq<Byte> {
    Bytes32(f.ipSource) + Bytes32(f.ipDestination) + Bytes16(f.portSource) + Bytes16(f.portDestination)
    + [f.protocol as nat]
  }

  lemma SameByte(x: bv8, y: bv8)
    requires x as nat == y as nat
    ensures x == y
  {
  }

  lemma JoinedBytes(x: bv32, y: bv32)
    requires (x & 0xff) as bv8 == (y & 0xff) as bv8 && ((x >> 8) & 0xff) as bv8 == ((y >> 8) & 0xff) as bv8
    requires ((x >> 16) & 0xff) as bv8 == ((y >> 16) & 0xff) as bv8 && (x >> 24) as bv8 == (y >> 24) as bv8
    ensures x == y
  {
  }

  lemma SameBytes32(x: bv32, y: bv32)
    requires Bytes32(x) == Bytes32(y)
    ensures x == y
  {
    var a, b := Bytes32(x), Bytes32(y);
    assert a[0] == b[0] && a[1] == b[1] && a[2] == b[2] && a[3] == b[3];
    hide Bytes32;
    SameByte((x & 0xff) as bv8, (y & 0xff) as bv8);
    SameByte(((x >> 8) & 0xff) as bv8, ((y >> 8) & 0xff) as bv8);
    SameByte(((x >> 16) & 0xff) as bv8, ((y >> 16) & 0xff) as bv8);
    SameByte((x >> 24) as bv8, (y >> 24) as bv8);
    JoinedBytes(x, y);
  }

  lemma JoinedBytes16(x: bv16, y: bv16)
    requires (x & 0xff) as bv8 == (y & 0xff) as bv8 && (x >> 8) as bv8 == (y >> 8) as bv8
    ensures x == y
  {
  }

  lemma SameBytes16(x: bv16, y: bv16)
    requires Bytes16(x) == Bytes16(y)
    ensures x == y
  {
    var a, b := Bytes16(x), Bytes16(y);
    assert a[0] == b[0] && a[1] == b[1];
    hide Bytes16;
    SameByte((x & 0xff) as bv8, (y & 0xff) as bv8);
    SameByte((x >> 8) as bv8, (y >> 8) as bv8);
    JoinedBytes16(x, y);
  }

  lemma FieldsOf(f: FiveTuple)
    ensures var b := FlowBytes(f);
            && |b| == 13 && b[..4] == Bytes32(f.ipSource) && b[4..8] == Bytes32(f.ipDestination)
            && b[8..10] == Bytes16(f.portSource) && b[10..12] == Bytes16(f.portDestination)
            && b[12] == f.protocol as nat
  {
  }

  /** Different flows have different bytes: every field is hashed. */
  lemma FlowBytesInjective(f: FiveTuple, g: FiveTuple)
    requires FlowBytes(f) == FlowBytes(g)
    ensures f == g
  {
    FieldsOf(f);
    FieldsOf(g);
    hide FlowBytes, Bytes16, Bytes32;
    SameBytes32(f.ipSource, g.ipSource);
    SameBytes32(f.ipDestination, g.ipDestination);
    SameBytes16(f.portSource, g.portSource);
    SameBytes16(f.portDestination, g.portDestination);
    SameByte(f.protocol, g.protocol);
  }

  function FlowHash(f: FiveTuple): nat {
    Fnv1(FlowBytes(f))
  }

  /** Flows that differ in one byte of one field never share a hash. */
  lemma NearFlowsNeverCollide(f: FiveTuple, g: FiveTuple, i: nat)
    requires f != g && i < |FlowBytes(f)| == |FlowBytes(g)|
    requires forall k :: 0 <= k < |FlowBytes(f)| && k != i ==> FlowBytes(f)[k] == FlowBytes(g)[k]
    ensures FlowHash(f) != FlowHash(g)
  {
    hide FlowBytes, Fnv1;
    if FlowBytes(f)[i] == FlowBytes(g)[i] {
      FlowBytesInjective(f, g);
    }
    OneByteNeverCollides(FlowBytes(f), FlowBytes(g), i);
  }

  /** The size and hash the code uses. */
  const BISMARK: Params := Sizing(FLOW_TABLE_ENTRIES, FlowHash)
}
