/** Slots of three flows in the table as it is built, computed byte by byte with FNV-1. */
module FnvExamples {
  import opened Bits
  import opened FlowTables
  import opened Hashing

  function IcmpFlow(destination: bv32): FiveTuple {
    FiveTuple(0, destination, 0, 0, 1)
  }

  // ICMP packets to 32.0.16.2, 0.1.0.8 and 0.4.1.0.
  const HIGH := IcmpFlow(0x20001002)
  const FIRST := IcmpFlow(0x00010008)
  const SECOND := IcmpFlow(0x00040100)

  /** A step of the hash that takes in the byte 0. */
  lemma NextZero(data: seq<Byte>, h: UInt32, h1: UInt32)
    requires Fnv1(data) == h && h * FNV_PRIME % TWO_32 == h1
    ensures Fnv1(data + [0]) == h1
  {
    XorZero(h1);
    assert (data + [0])[..|data|] == data;
  }

  lemma PowerOf(bit: Byte) returns (k: nat)
    requires bit in {1, 2, 4, 8, 16, 32, 64, 128}
    ensures Pow2(k) == bit
  {
    if bit == 1 {
      k := 0;
    } else {
      k := PowerOf(bit / 2);
      k := k + 1;
    }
  }

  /** A step that takes in a byte with only one bit set. */
  lemma NextBit(data: seq<Byte>, h: UInt32, bit: Byte, q: nat, r: nat, h1: UInt32)
    requires bit in {1, 2, 4, 8, 16, 32, 64, 128} && r < bit
    requires Fnv1(data) == h && h * FNV_PRIME % TWO_32 == q * bit + r
    requires var p := q * bit + r; h1 == if q % 2 == 0 then p + bit else p - bit
    ensures Fnv1(data + [bit]) == h1
  {
    var k := PowerOf(bit);
    XorBit(q, r, k);
    assert (data + [bit])[..|data|] == data;
  }

  /** The hash of the source address. */
  lemma HashOfSource()
    ensures Fnv1([0, 0, 0, 0]) == 1268118805
  {
    hide Fnv1;
    NoBytes();
    var s0: seq<Byte> := [];
    var s1 := s0 + [0];
    var s2 := s1 + [0];
    var s3 := s2 + [0];
    var s4 := s3 + [0];
    NextZero(s0, 2166136261, 84696351);
    NextZero(s1, 84696351, 292984781);
    NextZero(s2, 292984781, 1253111735);
    NextZero(s3, 1253111735, 1268118805);
    assert s4 == [0, 0, 0, 0];
  }

  lemma NoBytes()
    ensures Fnv1([]) == FNV_OFFSET_BASIS
  {
  }

  lemma HighAddress()
    ensures Fnv1([0, 0, 0, 0, 2, 16, 0, 32]) == 3186385951
  {
    hide Fnv1;
    HashOfSource();
    var s0: seq<Byte> := [0, 0, 0, 0];
    var s1 := s0 + [2];
    var s2 := s1 + [16];
    var s3 := s2 + [0];
    var s4 := s3 + [32];
    NextBit(s0, 1268118805, 2, 151545863, 1, 303091725);
    NextBit(s1, 303091725, 16, 131561543, 7, 2104984679);
    NextZero(s2, 2104984679, 3928321573);
    NextBit(s3, 3928321573, 32, 99574561, 31, 3186385951);
    assert s4 == [0, 0, 0, 0, 2, 16, 0, 32];
  }

  lemma HighHash()
    ensures Fnv1([0, 0, 0, 0, 2, 16, 0, 32, 0, 0, 0, 0, 1]) == 84794524
  {
    hide Fnv1;
    HighAddress();
    var s0: seq<Byte> := [0, 0, 0, 0, 2, 16, 0, 32];
    var s1 := s0 + [0];
    var s2 := s1 + [0];
    var s3 := s2 + [0];
    var s4 := s3 + [0];
    var s5 := s4 + [1];
    NextZero(s0, 3186385951, 438410445);
    NextZero(s1, 438410445, 4025079479);
    NextZero(s2, 4025079479, 1679622677);
    NextZero(s3, 1679622677, 2930394895);
    NextBit(s4, 2930394895, 1, 84794525, 0, 84794524);
    assert s5 == [0, 0, 0, 0, 2, 16, 0, 32, 0, 0, 0, 0, 1];
  }

  lemma HighBytes()
    ensures FlowBytes(HIGH) == [0, 0, 0, 0, 2, 16, 0, 32, 0, 0, 0, 0, 1]
  {
  }

  lemma FirstAddress()
    ensures Fnv1([0, 0, 0, 0, 8, 0, 1, 0]) == 2745947514
  {
    hide Fnv1;
    HashOfSource();
    var s0: seq<Byte> := [0, 0, 0, 0];
    var s1 := s0 + [8];
    var s2 := s1 + [0];
    var s3 := s2 + [1];
    var s4 := s3 + [0];
    NextBit(s0, 1268118805, 8, 37886465, 7, 303091719);
    NextZero(s1, 303091719, 2004318981);
    NextBit(s2, 2004318981, 1, 370583775, 0, 370583774);
    NextZero(s3, 370583774, 2745947514);
    assert s4 == [0, 0, 0, 0, 8, 0, 1, 0];
  }

  lemma FirstHash()
    ensures Fnv1([0, 0, 0, 0, 8, 0, 1, 0, 0, 0, 0, 0, 1]) == 4071518703
  {
    hide Fnv1;
    FirstAddress();
    var s0: seq<Byte> := [0, 0, 0, 0, 8, 0, 1, 0];
    var s1 := s0 + [0];
    var s2 := s1 + [0];
    var s3 := s2 + [0];
    var s4 := s3 + [0];
    var s5 := s4 + [1];
    NextZero(s0, 2745947514, 562106126);
    NextZero(s1, 562106126, 3425350410);
    NextZero(s2, 3425350410, 1899485374);
    NextZero(s3, 1899485374, 4176098074);
    NextBit(s4, 4176098074, 1, 4071518702, 0, 4071518703);
    assert s5 == [0, 0, 0, 0, 8, 0, 1, 0, 0, 0, 0, 0, 1];
  }

  lemma FirstBytes()
    ensures FlowBytes(FIRST) == [0, 0, 0, 0, 8, 0, 1, 0, 0, 0, 0, 0, 1]
  {
  }

  lemma SecondAddress()
    ensures Fnv1([0, 0, 0, 0, 0, 1, 4, 0]) == 1910436016
  {
    hide Fnv1;
    HashOfSource();
    var s0: seq<Byte> := [0, 0, 0, 0];
    var s1 := s0 + [0];
    var s2 := s1 + [1];
    var s3 := s2 + [4];
    var s4 := s3 + [0];
    NextZero(s0, 1268118805, 303091727);
    NextBit(s1, 303091727, 1, 2138539933, 0, 2138539932);
    NextBit(s2, 2138539932, 4, 290102949, 0, 1160411792);
    NextZero(s3, 1160411792, 1910436016);
    assert s4 == [0, 0, 0, 0, 0, 1, 4, 0];
  }

  lemma SecondHash()
    ensures Fnv1([0, 0, 0, 0, 0, 1, 4, 0, 0, 0, 0, 0, 1]) == 3026331153
  {
    hide Fnv1;
    SecondAddress();
    var s0: seq<Byte> := [0, 0, 0, 0, 0, 1, 4, 0];
    var s1 := s0 + [0];
    var s2 := s1 + [0];
    var s3 := s2 + [0];
    var s4 := s3 + [0];
    var s5 := s4 + [1];
    NextZero(s0, 1910436016, 4059358480);
    NextZero(s1, 4059358480, 4102330416);
    NextZero(s2, 4102330416, 482055056);
    NextZero(s3, 482055056, 3410578352);
    NextBit(s4, 3410578352, 1, 3026331152, 0, 3026331153);
    assert s5 == [0, 0, 0, 0, 0, 1, 4, 0, 0, 0, 0, 0, 1];
  }

  lemma SecondBytes()
    ensures FlowBytes(SECOND) == [0, 0, 0, 0, 0, 1, 4, 0, 0, 0, 0, 0, 1]
  {
  }

  /** A TCP packet from 1.2.3.4 port 0x090a to 5.6.7.8 port 0x0b0c: the fields are hashed in this order,
      each with its lowest byte first. */
  lemma FieldsInOrder()
    ensures FlowBytes(FiveTuple(0x01020304, 0x05060708, 0x090a, 0x0b0c, 6))
            == [4, 3, 2, 1, 8, 7, 6, 5, 0x0a, 9, 0x0c, 0x0b, 6]
  {
  }

  /** The first slot of HIGH is one of the last seven. */
  lemma HighSlot()
    ensures Slot(BISMARK, HIGH, 0) == 65527
  {
    HighHash();
    HighBytes();
    hide Fnv1, FlowBytes;
  }

  lemma FirstSlot()
    ensures Slot(BISMARK, FIRST, 0) == 5346
  {
    FirstHash();
    FirstBytes();
    hide Fnv1, FlowBytes;
  }

  lemma SecondSlot()
    ensures Slot(BISMARK, SECOND, 0) == 5346
  {
    SecondHash();
    SecondBytes();
    hide Fnv1, FlowBytes;
  }

  /** FIRST and SECOND have the same first slot. */
  lemma SameSlot()
    ensures Slot(BISMARK, FIRST, 0) == Slot(BISMARK, SECOND, 0) == 5346
  {
    FirstSlot();
    SecondSlot();
  }
}
