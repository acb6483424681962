// Cyclic redundancy checks of source/bforce/u_crc.c: the bit-serial divisions the
// three table-driven loops stand for, and the residues the receivers compare against.
// Word operations are named so that a proof can treat them as symbols (`hide`) and
// use only the few algebraic laws stated about them.
module Crc {

  type Byte = bv8

  // ---------------------------------------------------------------------------
  // Bytes and numbers
  // ---------------------------------------------------------------------------

  function ByteOf(x: nat): Byte
    requires x < 256
  {
    x as Byte
  }

  function ValueOf(b: Byte): (n: nat)
    ensures n < 256
  {
    b as nat
  }

  lemma ByteOfValue(b: Byte)
    ensures ByteOf(ValueOf(b)) == b
  {
  }

  lemma NextByte(b: Byte)
    requires b != 255
    ensures ValueOf(b + 1) == ValueOf(b) + 1
  {
  }

  lemma EndBytes()
    ensures ValueOf(0) == 0 && ValueOf(255) == 255
  {
  }

  lemma {:induction false} SomeByte(x: nat) returns (b: Byte)
    requires x < 256
    ensures ValueOf(b) == x
  {
    hide ValueOf;
    EndBytes();
    if x == 0 {
      b := 0;
    } else {
      b := SomeByte(x - 1);
      NextByte(b);
      b := b + 1;
    }
  }

  // A number that fits a byte is not changed by being stored in one.
  lemma ValueOfByte(x: nat)
    requires x < 256
    ensures ValueOf(ByteOf(x)) == x
  {
    hide ByteOf, ValueOf;
    var b := SomeByte(x);
    ByteOfValue(b);
  }

  // ---------------------------------------------------------------------------
  // 32 bits, polynomial 0xedb88320, least significant bit first
  // ---------------------------------------------------------------------------

  function Xor32(x: bv32, y: bv32): bv32 { x ^ y }

  function Half32(reg: bv32): bv32 { reg >> 1 }

  predicate Even32(reg: bv32) { reg & 1 == 0 }

  function Low32(reg: bv32): bv32 { reg & 0xff }

  function Rest32(reg: bv32): bv32 { reg >> 8 }

  // A message byte at the end of the register where the division takes place.
  function In32(b: Byte): bv32 { b as bv32 }

  // Division of one bit.
  function Bit32(reg: bv32): bv32 {
    if Even32(reg) then Half32(reg) else Xor32(Half32(reg), 0xedb88320)
  }

  function Bits32(reg: bv32): bv32 {
    Bit32(Bit32(Bit32(Bit32(Bit32(Bit32(Bit32(Bit32(reg))))))))
  }

  // Bit-serial division of a whole message, starting from a given register.
  function Crc32(reg: bv32, msg: seq<Byte>): bv32 {
    if msg == [] then reg
    else Bits32(Xor32(Crc32(reg, msg[..|msg| - 1]), In32(msg[|msg| - 1])))
  }

  function Index32(reg: bv32, b: Byte): Byte { ((reg & 0xff) as Byte) ^ b }

  // One turn of the table-driven loop.
  function Step32(reg: bv32, b: Byte): bv32 {
    Xor32(TableCrc32Ccitt(Index32(reg, b)), Rest32(reg))
  }

  lemma Bit32Algebra(x: bv32, y: bv32)
    ensures Half32(Xor32(x, y)) == Xor32(Half32(x), Half32(y))
    ensures Xor32(Xor32(Half32(x), Half32(y)), 0xedb88320) == Xor32(Xor32(Half32(x), 0xedb88320), Half32(y))
  {
  }

  lemma Bit32EvenPart(x: bv32, y: bv32)
    requires Even32(y)
    ensures Even32(Xor32(x, y)) == Even32(x)
  {
  }

  // A part of the register that misses the tested bit is only shifted.
  lemma Bit32Splits(x: bv32, y: bv32)
    requires Even32(y)
    ensures Bit32(Xor32(x, y)) == Xor32(Bit32(x), Half32(y))
  {
    hide Xor32, Half32, Even32;
    Bit32EvenPart(x, y);
    Bit32Algebra(x, y);
  }

  lemma Low32AndRest(c: bv32)
    ensures c == Xor32(Low32(c), (c >> 8) << 8)
  {
  }

  lemma Shifts32(c: bv32)
    ensures Even32((c >> 8) << 8) && Half32((c >> 8) << 8) == (c >> 8) << 7
    ensures Even32((c >> 8) << 7) && Half32((c >> 8) << 7) == (c >> 8) << 6
    ensures Even32((c >> 8) << 6) && Half32((c >> 8) << 6) == (c >> 8) << 5
    ensures Even32((c >> 8) << 5) && Half32((c >> 8) << 5) == (c >> 8) << 4
    ensures Even32((c >> 8) << 4) && Half32((c >> 8) << 4) == (c >> 8) << 3
    ensures Even32((c >> 8) << 3) && Half32((c >> 8) << 3) == (c >> 8) << 2
    ensures Even32((c >> 8) << 2) && Half32((c >> 8) << 2) == (c >> 8) << 1
    ensures Even32((c >> 8) << 1) && Half32((c >> 8) << 1) == (c >> 8) << 0
    ensures (c >> 8) << 0 == Rest32(c)
  {
  }

  lemma Bits32Splits(c: bv32)
    ensures Bits32(c) == Xor32(Bits32(Low32(c)), Rest32(c))
  {
    hide Xor32, Half32, Even32, Bit32, Low32, Rest32;
    var x0 := Low32(c);
    var x1 := Bit32(x0);
    var x2 := Bit32(x1);
    var x3 := Bit32(x2);
    var x4 := Bit32(x3);
    var x5 := Bit32(x4);
    var x6 := Bit32(x5);
    var x7 := Bit32(x6);
    Low32AndRest(c);
    Shifts32(c);
    Bit32Splits(x0, (c >> 8) << 8);
    Bit32Splits(x1, (c >> 8) << 7);
    Bit32Splits(x2, (c >> 8) << 6);
    Bit32Splits(x3, (c >> 8) << 5);
    Bit32Splits(x4, (c >> 8) << 4);
    Bit32Splits(x5, (c >> 8) << 3);
    Bit32Splits(x6, (c >> 8) << 2);
    Bit32Splits(x7, (c >> 8) << 1);
  }

  // Each of the 256 table entries is eight divisions of its index.
  lemma TableCrc32CcittIsDivision(b: Byte)
    ensures TableCrc32Ccitt(b) == Bits32(In32(b))
  {
  }

  lemma Index32IsLow(reg: bv32, b: Byte)
    ensures Low32(Xor32(reg, In32(b))) == In32(Index32(reg, b))
    ensures Rest32(Xor32(reg, In32(b))) == Rest32(reg)
  {
  }

  // One table lookup divides by the polynomial eight times.
  lemma Step32IsDivision(reg: bv32, b: Byte)
    ensures Step32(reg, b) == Bits32(Xor32(reg, In32(b)))
  {
    hide Bits32, TableCrc32Ccitt, Xor32, Index32, Low32, Rest32, In32;
    Bits32Splits(Xor32(reg, In32(b)));
    TableCrc32CcittIsDivision(Index32(reg, b));
    Index32IsLow(reg, b);
  }

  lemma Crc32Append(reg: bv32, msg: seq<Byte>, b: Byte)
    ensures Crc32(reg, msg + [b]) == Step32(Crc32(reg, msg), b)
  {
    hide Bits32, Step32, Xor32, In32;
    assert (msg + [b])[..|msg|] == msg;
    Step32IsDivision(Crc32(reg, msg), b);
  }

  method GetCrc32Ccitt(buffer: array<Byte>, buflen: nat) returns (crc: bv32)
    requires buflen <= buffer.Length
    ensures crc == Crc32(0xffffffff, buffer[..buflen])
  {
    hide Step32, Bits32, Xor32, In32;
    crc := 0xffffffff;
    for i := 0 to buflen
      invariant crc == Crc32(0xffffffff, buffer[..i])
    {
      assert buffer[..i + 1] == buffer[..i] + [buffer[i]];
      Crc32Append(0xffffffff, buffer[..i], buffer[i]);
      crc := Step32(crc, buffer[i]);
    }
  }

  // ---------------------------------------------------------------------------
  // 16 bits, polynomial 0x8408, least significant bit first
  // ---------------------------------------------------------------------------

  function Xor16(x: bv16, y: bv16): bv16 { x ^ y }

  function Half16(reg: bv16): bv16 { reg >> 1 }

  predicate Even16(reg: bv16) { reg & 1 == 0 }

  function Low16(reg: bv16): bv16 { reg & 0xff }

  function Rest16(reg: bv16): bv16 { reg >> 8 }

  // A message byte at the end of the register where the division takes place.
  function In16(b: Byte): bv16 { b as bv16 }

  // Division of one bit.
  function Bit16(reg: bv16): bv16 {
    if Even16(reg) then Half16(reg) else Xor16(Half16(reg), 0x8408)
  }

  function Bits16(reg: bv16): bv16 {
    Bit16(Bit16(Bit16(Bit16(Bit16(Bit16(Bit16(Bit16(reg))))))))
  }

  // Bit-serial division of a whole message, starting from a given register.
  function Crc16(reg: bv16, msg: seq<Byte>): bv16 {
    if msg == [] then reg
    else Bits16(Xor16(Crc16(reg, msg[..|msg| - 1]), In16(msg[|msg| - 1])))
  }

  function Index16(reg: bv16, b: Byte): Byte { ((reg & 0xff) as Byte) ^ b }

  // One turn of the table-driven loop.
  function Step16(reg: bv16, b: Byte): bv16 {
    Xor16(TableCrc16Ccitt(Index16(reg, b)), Rest16(reg))
  }

  lemma Bit16Algebra(x: bv16, y: bv16)
    ensures Half16(Xor16(x, y)) == Xor16(Half16(x), Half16(y))
    ensures Xor16(Xor16(Half16(x), Half16(y)), 0x8408) == Xor16(Xor16(Half16(x), 0x8408), Half16(y))
  {
  }

  lemma Bit16EvenPart(x: bv16, y: bv16)
    requires Even16(y)
    ensures Even16(Xor16(x, y)) == Even16(x)
  {
  }

  // A part of the register that misses the tested bit is only shifted.
  lemma Bit16Splits(x: bv16, y: bv16)
    requires Even16(y)
    ensures Bit16(Xor16(x, y)) == Xor16(Bit16(x), Half16(y))
  {
    hide Xor16, Half16, Even16;
    Bit16EvenPart(x, y);
    Bit16Algebra(x, y);
  }

  lemma Low16AndRest(c: bv16)
    ensures c == Xor16(Low16(c), (c >> 8) << 8)
  {
  }

  lemma Shifts16(c: bv16)
    ensures Even16((c >> 8) << 8) && Half16((c >> 8) << 8) == (c >> 8) << 7
    ensures Even16((c >> 8) << 7) && Half16((c >> 8) << 7) == (c >> 8) << 6
    ensures Even16((c >> 8) << 6) && Half16((c >> 8) << 6) == (c >> 8) << 5
    ensures Even16((c >> 8) << 5) && Half16((c >> 8) << 5) == (c >> 8) << 4
    ensures Even16((c >> 8) << 4) && Half16((c >> 8) << 4) == (c >> 8) << 3
    ensures Even16((c >> 8) << 3) && Half16((c >> 8) << 3) == (c >> 8) << 2
    ensures Even16((c >> 8) << 2) && Half16((c >> 8) << 2) == (c >> 8) << 1
    ensures Even16((c >> 8) << 1) && Half16((c >> 8) << 1) == (c >> 8) << 0
    ensures (c >> 8) << 0 == Rest16(c)
  {
  }

  lemma Bits16Splits(c: bv16)
    ensures Bits16(c) == Xor16(Bits16(Low16(c)), Rest16(c))
  {
    hide Xor16, Half16, Even16, Bit16, Low16, Rest16;
    var x0 := Low16(c);
    var x1 := Bit16(x0);
    var x2 := Bit16(x1);
    var x3 := Bit16(x2);
    var x4 := Bit16(x3);
    var x5 := Bit16(x4);
    var x6 := Bit16(x5);
    var x7 := Bit16(x6);
    Low16AndRest(c);
    Shifts16(c);
    Bit16Splits(x0, (c >> 8) << 8);
    Bit16Splits(x1, (c >> 8) << 7);
    Bit16Splits(x2, (c >> 8) << 6);
    Bit16Splits(x3, (c >> 8) << 5);
    Bit16Splits(x4, (c >> 8) << 4);
    Bit16Splits(x5, (c >> 8) << 3);
    Bit16Splits(x6, (c >> 8) << 2);
    Bit16Splits(x7, (c >> 8) << 1);
  }

  // Each of the 256 table entries is eight divisions of its index.
  lemma TableCrc16CcittIsDivision(b: Byte)
    ensures TableCrc16Ccitt(b) == Bits16(In16(b))
  {
  }

  lemma Index16IsLow(reg: bv16, b: Byte)
    ensures Low16(Xor16(reg, In16(b))) == In16(Index16(reg, b))
    ensures Rest16(Xor16(reg, In16(b))) == Rest16(reg)
  {
  }

  // One table lookup divides by the polynomial eight times.
  lemma Step16IsDivision(reg: bv16, b: Byte)
    ensures Step16(reg, b) == Bits16(Xor16(reg, In16(b)))
  {
    hide Bits16, TableCrc16Ccitt, Xor16, Index16, Low16, Rest16, In16;
    Bits16Splits(Xor16(reg, In16(b)));
    TableCrc16CcittIsDivision(Index16(reg, b));
    Index16IsLow(reg, b);
  }

  lemma Crc16Append(reg: bv16, msg: seq<Byte>, b: Byte)
    ensures Crc16(reg, msg + [b]) == Step16(Crc16(reg, msg), b)
  {
    hide Bits16, Step16, Xor16, In16;
    assert (msg + [b])[..|msg|] == msg;
    Step16IsDivision(Crc16(reg, msg), b);
  }

  method GetCrc16Ccitt(buffer: array<Byte>, buflen: nat) returns (crc: bv16)
    requires buflen <= buffer.Length
    ensures crc == Crc16(0xffff, buffer[..buflen])
  {
    hide Step16, Bits16, Xor16, In16;
    crc := 0xffff;
    for i := 0 to buflen
      invariant crc == Crc16(0xffff, buffer[..i])
    {
      assert buffer[..i + 1] == buffer[..i] + [buffer[i]];
      Crc16Append(0xffff, buffer[..i], buffer[i]);
      crc := Step16(crc, buffer[i]);
    }
  }

  // ---------------------------------------------------------------------------
  // 16 bits, polynomial 0x1021, most significant bit first
  // ---------------------------------------------------------------------------

  function HalfX(reg: bv16): bv16 { reg << 1 }

  predicate EvenX(reg: bv16) { reg & 0x8000 == 0 }

  function LowX(reg: bv16): bv16 { reg & 0xff00 }

  function RestX(reg: bv16): bv16 { reg << 8 }

  // A message byte at the end of the register where the division takes place.
  function InX(b: Byte): bv16 { (b as bv16) << 8 }

  // Division of one bit.
  function BitX(reg: bv16): bv16 {
    if EvenX(reg) then HalfX(reg) else Xor16(HalfX(reg), 0x1021)
  }

  function BitsX(reg: bv16): bv16 {
    BitX(BitX(BitX(BitX(BitX(BitX(BitX(BitX(reg))))))))
  }

  // Bit-serial division of a whole message, starting from a given register.
  function CrcX(reg: bv16, msg: seq<Byte>): bv16 {
    if msg == [] then reg
    else BitsX(Xor16(CrcX(reg, msg[..|msg| - 1]), InX(msg[|msg| - 1])))
  }

  function IndexX(reg: bv16, b: Byte): Byte { ((reg >> 8) as Byte) ^ b }

  // One turn of the table-driven loop.
  function StepX(reg: bv16, b: Byte): bv16 {
    Xor16(TableCrc16Xmodem(IndexX(reg, b)), RestX(reg))
  }

  lemma BitXAlgebra(x: bv16, y: bv16)
    ensures HalfX(Xor16(x, y)) == Xor16(HalfX(x), HalfX(y))
    ensures Xor16(Xor16(HalfX(x), HalfX(y)), 0x1021) == Xor16(Xor16(HalfX(x), 0x1021), HalfX(y))
  {
  }

  lemma BitXEvenPart(x: bv16, y: bv16)
    requires EvenX(y)
    ensures EvenX(Xor16(x, y)) == EvenX(x)
  {
  }

  // A part of the register that misses the tested bit is only shifted.
  lemma BitXSplits(x: bv16, y: bv16)
    requires EvenX(y)
    ensures BitX(Xor16(x, y)) == Xor16(BitX(x), HalfX(y))
  {
    hide Xor16, HalfX, EvenX;
    BitXEvenPart(x, y);
    BitXAlgebra(x, y);
  }

  lemma LowXAndRest(c: bv16)
    ensures c == Xor16(LowX(c), (c << 8) >> 8)
  {
  }

  lemma ShiftsX(c: bv16)
    ensures EvenX((c << 8) >> 8) && HalfX((c << 8) >> 8) == (c << 8) >> 7
    ensures EvenX((c << 8) >> 7) && HalfX((c << 8) >> 7) == (c << 8) >> 6
    ensures EvenX((c << 8) >> 6) && HalfX((c << 8) >> 6) == (c << 8) >> 5
    ensures EvenX((c << 8) >> 5) && HalfX((c << 8) >> 5) == (c << 8) >> 4
    ensures EvenX((c << 8) >> 4) && HalfX((c << 8) >> 4) == (c << 8) >> 3
    ensures EvenX((c << 8) >> 3) && HalfX((c << 8) >> 3) == (c << 8) >> 2
    ensures EvenX((c << 8) >> 2) && HalfX((c << 8) >> 2) == (c << 8) >> 1
    ensures EvenX((c << 8) >> 1) && HalfX((c << 8) >> 1) == (c << 8) >> 0
    ensures (c << 8) >> 0 == RestX(c)
  {
  }

  lemma BitsXSplits(c: bv16)
    ensures BitsX(c) == Xor16(BitsX(LowX(c)), RestX(c))
  {
    hide Xor16, HalfX, EvenX, BitX, LowX, RestX;
    var x0 := LowX(c);
    var x1 := BitX(x0);
    var x2 := BitX(x1);
    var x3 := BitX(x2);
    var x4 := BitX(x3);
    var x5 := BitX(x4);
    var x6 := BitX(x5);
    var x7 := BitX(x6);
    LowXAndRest(c);
    ShiftsX(c);
    BitXSplits(x0, (c << 8) >> 8);
    BitXSplits(x1, (c << 8) >> 7);
    BitXSplits(x2, (c << 8) >> 6);
    BitXSplits(x3, (c << 8) >> 5);
    BitXSplits(x4, (c << 8) >> 4);
    BitXSplits(x5, (c << 8) >> 3);
    BitXSplits(x6, (c << 8) >> 2);
    BitXSplits(x7, (c << 8) >> 1);
  }

  // Each of the 256 table entries is eight divisions of its index.
  lemma TableCrc16XmodemIsDivision(b: Byte)
    ensures TableCrc16Xmodem(b) == BitsX(InX(b))
  {
  }

  lemma IndexXIsLow(reg: bv16, b: Byte)
    ensures LowX(Xor16(reg, InX(b))) == InX(IndexX(reg, b))
    ensures RestX(Xor16(reg, InX(b))) == RestX(reg)
  {
  }

  // One table lookup divides by the polynomial eight times.
  lemma StepXIsDivision(reg: bv16, b: Byte)
    ensures StepX(reg, b) == BitsX(Xor16(reg, InX(b)))
  {
    hide BitsX, TableCrc16Xmodem, Xor16, IndexX, LowX, RestX, InX;
    BitsXSplits(Xor16(reg, InX(b)));
    TableCrc16XmodemIsDivision(IndexX(reg, b));
    IndexXIsLow(reg, b);
  }

  lemma CrcXAppend(reg: bv16, msg: seq<Byte>, b: Byte)
    ensures CrcX(reg, msg + [b]) == StepX(CrcX(reg, msg), b)
  {
    hide BitsX, StepX, Xor16, InX;
    assert (msg + [b])[..|msg|] == msg;
    StepXIsDivision(CrcX(reg, msg), b);
  }

  method GetCrc16Xmodem(buffer: array<Byte>, buflen: nat) returns (crc: bv16)
    requires buflen <= buffer.Length
    ensures crc == CrcX(0, buffer[..buflen])
  {
    hide StepX, BitsX, Xor16, InX;
    crc := 0;
    for i := 0 to buflen
      invariant crc == CrcX(0, buffer[..i])
    {
      assert buffer[..i + 1] == buffer[..i] + [buffer[i]];
      CrcXAppend(0, buffer[..i], buffer[i]);
      crc := StepX(crc, buffer[i]);
    }
  }

  // ---------------------------------------------------------------------------
  // Residues
  // ---------------------------------------------------------------------------

  // The check bytes a sender appends: the complement, low byte first.
  function Check32(crc: bv32, i: nat): Byte
    requires i < 4
  {
    var c := !crc;
    if i == 0 then (c & 0xff) as Byte
    else if i == 1 then ((c >> 8) & 0xff) as Byte
    else if i == 2 then ((c >> 16) & 0xff) as Byte
    else ((c >> 24) & 0xff) as Byte
  }

  function Check16(crc: bv16, i: nat): Byte
    requires i < 2
  {
    var c := !crc;
    if i == 0 then (c & 0xff) as Byte else ((c >> 8) & 0xff) as Byte
  }

  function Trailer32(crc: bv32): (t: seq<Byte>)
    ensures |t| == 4
  {
    [Check32(crc, 0), Check32(crc, 1), Check32(crc, 2), Check32(crc, 3)]
  }

  function Trailer16(crc: bv16): (t: seq<Byte>)
    ensures |t| == 2
  {
    [Check16(crc, 0), Check16(crc, 1)]
  }

  lemma Wash32Index0(c: bv32)
    ensures Index32(c, Check32(c, 0)) == 0xff && Rest32(c) == c >> 8
  {
  }

  lemma Wash32Index1(c: bv32)
    ensures Index32(Xor32(0x2d02ef8d, c >> 8), Check32(c, 1)) == 0x72
    ensures Xor32(0xbe0b1010, Rest32(Xor32(0x2d02ef8d, c >> 8))) == Xor32(0xbe2612ff, c >> 16)
  {
  }

  lemma Wash32Index2(c: bv32)
    ensures Index32(Xor32(0xbe2612ff, c >> 16), Check32(c, 2)) == 0x00
    ensures Xor32(0, Rest32(Xor32(0xbe2612ff, c >> 16))) == Xor32(0x00be2612, c >> 24)
  {
  }

  lemma Wash32Index3(c: bv32)
    ensures Index32(Xor32(0x00be2612, c >> 24), Check32(c, 3)) == 0xed
    ensures Xor32(0xdebb9ec5, Rest32(Xor32(0x00be2612, c >> 24))) == 0xdebb20e3
  {
  }

  // Four steps over the complement of the register itself wash the register out.
  lemma Wash32(c: bv32)
    ensures Step32(Step32(Step32(Step32(c, Check32(c, 0)), Check32(c, 1)), Check32(c, 2)), Check32(c, 3)) == 0xdebb20e3
  {
    assert TableCrc32Ccitt(0xff) == 0x2d02ef8d && TableCrc32Ccitt(0x72) == 0xbe0b1010;
    assert TableCrc32Ccitt(0x00) == 0 && TableCrc32Ccitt(0xed) == 0xdebb9ec5;
    hide TableCrc32Ccitt, Xor32, Index32, Rest32, Check32;
    Wash32Index0(c);
    Wash32Index1(c);
    Wash32Index2(c);
    Wash32Index3(c);
  }

  lemma Wash16Index(c: bv16)
    ensures Index16(c, Check16(c, 0)) == 0xff && Rest16(c) == c >> 8
    ensures Index16(Xor16(0x0f78, c >> 8), Check16(c, 1)) == 0x87
    ensures Xor16(0xf0b7, Rest16(Xor16(0x0f78, c >> 8))) == 0xf0b8
  {
  }

  lemma Wash16(c: bv16)
    ensures Step16(Step16(c, Check16(c, 0)), Check16(c, 1)) == 0xf0b8
  {
    assert TableCrc16Ccitt(0xff) == 0x0f78 && TableCrc16Ccitt(0x87) == 0xf0b7;
    hide TableCrc16Ccitt, Xor16, Index16, Rest16, Check16;
    Wash16Index(c);
  }

  // Whatever the message, its trailer leaves the constant CRC32TEST looks for.
  lemma Residue32(msg: seq<Byte>)
    ensures Crc32(0xffffffff, msg + Trailer32(Crc32(0xffffffff, msg))) == 0xdebb20e3
  {
    hide Step32, Check32, Crc32;
    var c := Crc32(0xffffffff, msg);
    var t := Trailer32(c);
    Crc32Append(0xffffffff, msg, t[0]);
    Crc32Append(0xffffffff, msg + [t[0]], t[1]);
    Crc32Append(0xffffffff, msg + [t[0]] + [t[1]], t[2]);
    Crc32Append(0xffffffff, msg + [t[0]] + [t[1]] + [t[2]], t[3]);
    assert msg + [t[0]] + [t[1]] + [t[2]] + [t[3]] == msg + t;
    Wash32(c);
  }

  lemma Residue16(msg: seq<Byte>)
    ensures Crc16(0xffff, msg + Trailer16(Crc16(0xffff, msg))) == 0xf0b8
  {
    hide Step16, Check16, Crc16;
    var c := Crc16(0xffff, msg);
    var t := Trailer16(c);
    Crc16Append(0xffff, msg, t[0]);
    Crc16Append(0xffff, msg + [t[0]], t[1]);
    assert msg + [t[0]] + [t[1]] == msg + t;
    Wash16(c);
  }

  // ---------------------------------------------------------------------------
  // The tables of u_crc.c, as binary decisions on the index
  // ---------------------------------------------------------------------------

  function TableCrc32Ccitt(b: Byte): bv32 {
    if b < 128 then
      if b < 64 then
        if b < 32 then
          if b < 16 then
            if b < 8 then
              if b < 4 then
                if b < 2 then if b < 1 then 0x00000000 else 0x77073096 else if b < 3 then 0xee0e612c else 0x990951ba
              else
                if b < 6 then if b < 5 then 0x076dc419 else 0x706af48f else if b < 7 then 0xe963a535 else 0x9e6495a3
            else
              if b < 12 then
                if b < 10 then if b < 9 then 0x0edb8832 else 0x79dcb8a4 else if b < 11 then 0xe0d5e91e else 0x97d2d988
              else
                if b < 14 then if b < 13 then 0x09b64c2b else 0x7eb17cbd else if b < 15 then 0xe7b82d07 else 0x90bf1d91
          else
            if b < 24 then
              if b < 20 then
                if b < 18 then if b < 17 then 0x1db71064 else 0x6ab020f2 else if b < 19 then 0xf3b97148 else 0x84be41de
              else
                if b < 22 then if b < 21 then 0x1adad47d else 0x6ddde4eb else if b < 23 then 0xf4d4b551 else 0x83d385c7
            else
              if b < 28 then
                if b < 26 then if b < 25 then 0x136c9856 else 0x646ba8c0 else if b < 27 then 0xfd62f97a else 0x8a65c9ec
              else
                if b < 30 then if b < 29 then 0x14015c4f else 0x63066cd9 else if b < 31 then 0xfa0f3d63 else 0x8d080df5
        else
          if b < 48 then
            if b < 40 then
              if b < 36 then
                if b < 34 then if b < 33 then 0x3b6e20c8 else 0x4c69105e else if b < 35 then 0xd56041e4 else 0xa2677172
              else
                if b < 38 then if b < 37 then 0x3c03e4d1 else 0x4b04d447 else if b < 39 then 0xd20d85fd else 0xa50ab56b
            else
              if b < 44 then
                if b < 42 then if b < 41 then 0x35b5a8fa else 0x42b2986c else if b < 43 then 0xdbbbc9d6 else 0xacbcf940
              else
                if b < 46 then if b < 45 then 0x32d86ce3 else 0x45df5c75 else if b < 47 then 0xdcd60dcf else 0xabd13d59
          else
            if b < 56 then
              if b < 52 then
                if b < 50 then if b < 49 then 0x26d930ac else 0x51de003a else if b < 51 then 0xc8d75180 else 0xbfd06116
              else
                if b < 54 then if b < 53 then 0x21b4f4b5 else 0x56b3c423 else if b < 55 then 0xcfba9599 else 0xb8bda50f
            else
              if b < 60 then
                if b < 58 then if b < 57 then 0x2802b89e else 0x5f058808 else if b < 59 then 0xc60cd9b2 else 0xb10be924
              else
                if b < 62 then if b < 61 then 0x2f6f7c87 else 0x58684c11 else if b < 63 then 0xc1611dab else 0xb6662d3d
      else
        if b < 96 then
          if b < 80 then
            if b < 72 then
              if b < 68 then
                if b < 66 then if b < 65 then 0x76dc4190 else 0x01db7106 else if b < 67 then 0x98d220bc else 0xefd5102a
              else
                if b < 70 then if b < 69 then 0x71b18589 else 0x06b6b51f else if b < 71 then 0x9fbfe4a5 else 0xe8b8d433
            else
              if b < 76 then
                if b < 74 then if b < 73 then 0x7807c9a2 else 0x0f00f934 else if b < 75 then 0x9609a88e else 0xe10e9818
              else
                if b < 78 then if b < 77 then 0x7f6a0dbb else 0x086d3d2d else if b < 79 then 0x91646c97 else 0xe6635c01
          else
            if b < 88 then
              if b < 84 then
                if b < 82 then if b < 81 then 0x6b6b51f4 else 0x1c6c6162 else if b < 83 then 0x856530d8 else 0xf262004e
              else
                if b < 86 then if b < 85 then 0x6c0695ed else 0x1b01a57b else if b < 87 then 0x8208f4c1 else 0xf50fc457
            else
              if b < 92 then
                if b < 90 then if b < 89 then 0x65b0d9c6 else 0x12b7e950 else if b < 91 then 0x8bbeb8ea else 0xfcb9887c
              else
                if b < 94 then if b < 93 then 0x62dd1ddf else 0x15da2d49 else if b < 95 then 0x8cd37cf3 else 0xfbd44c65
        else
          if b < 112 then
            if b < 104 then
              if b < 100 then
                if b < 98 then if b < 97 then 0x4db26158 else 0x3ab551ce else if b < 99 then 0xa3bc0074 else 0xd4bb30e2
              else
                if b < 102 then if b < 101 then 0x4adfa541 else 0x3dd895d7
                else if b < 103 then 0xa4d1c46d else 0xd3d6f4fb
            else
              if b < 108 then
                if b < 106 then if b < 105 then 0x4369e96a else 0x346ed9fc
                else if b < 107 then 0xad678846 else 0xda60b8d0
              else
                if b < 110 then if b < 109 then 0x44042d73 else 0x33031de5
                else if b < 111 then 0xaa0a4c5f else 0xdd0d7cc9
          else
            if b < 120 then
              if b < 116 then
                if b < 114 then if b < 113 then 0x5005713c else 0x270241aa
                else if b < 115 then 0xbe0b1010 else 0xc90c2086
              else
                if b < 118 then if b < 117 then 0x5768b525 else 0x206f85b3
                else if b < 119 then 0xb966d409 else 0xce61e49f
            else
              if b < 124 then
                if b < 122 then if b < 121 then 0x5edef90e else 0x29d9c998
                else if b < 123 then 0xb0d09822 else 0xc7d7a8b4
              else
                if b < 126 then if b < 125 then 0x59b33d17 else 0x2eb40d81
                else if b < 127 then 0xb7bd5c3b else 0xc0ba6cad
    else
      if b < 192 then
        if b < 160 then
          if b < 144 then
            if b < 136 then
              if b < 132 then
                if b < 130 then if b < 129 then 0xedb88320 else 0x9abfb3b6
                else if b < 131 then 0x03b6e20c else 0x74b1d29a
              else
                if b < 134 then if b < 133 then 0xead54739 else 0x9dd277af
                else if b < 135 then 0x04db2615 else 0x73dc1683
            else
              if b < 140 then
                if b < 138 then if b < 137 then 0xe3630b12 else 0x94643b84
                else if b < 139 then 0x0d6d6a3e else 0x7a6a5aa8
              else
                if b < 142 then if b < 141 then 0xe40ecf0b else 0x9309ff9d
                else if b < 143 then 0x0a00ae27 else 0x7d079eb1
          else
            if b < 152 then
              if b < 148 then
                if b < 146 then if b < 145 then 0xf00f9344 else 0x8708a3d2
                else if b < 147 then 0x1e01f268 else 0x6906c2fe
              else
                if b < 150 then if b < 149 then 0xf762575d else 0x806567cb
                else if b < 151 then 0x196c3671 else 0x6e6b06e7
            else
              if b < 156 then
                if b < 154 then if b < 153 then 0xfed41b76 else 0x89d32be0
                else if b < 155 then 0x10da7a5a else 0x67dd4acc
              else
                if b < 158 then if b < 157 then 0xf9b9df6f else 0x8ebeeff9
                else if b < 159 then 0x17b7be43 else 0x60b08ed5
        else
          if b < 176 then
            if b < 168 then
              if b < 164 then
                if b < 162 then if b < 161 then 0xd6d6a3e8 else 0xa1d1937e
                else if b < 163 then 0x38d8c2c4 else 0x4fdff252
              else
                if b < 166 then if b < 165 then 0xd1bb67f1 else 0xa6bc5767
                else if b < 167 then 0x3fb506dd else 0x48b2364b
            else
              if b < 172 then
                if b < 170 then if b < 169 then 0xd80d2bda else 0xaf0a1b4c
                else if b < 171 then 0x36034af6 else 0x41047a60
              else
                if b < 174 then if b < 173 then 0xdf60efc3 else 0xa867df55
                else if b < 175 then 0x316e8eef else 0x4669be79
          else
            if b < 184 then
              if b < 180 then
                if b < 178 then if b < 177 then 0xcb61b38c else 0xbc66831a
                else if b < 179 then 0x256fd2a0 else 0x5268e236
              else
                if b < 182 then if b < 181 then 0xcc0c7795 else 0xbb0b4703
                else if b < 183 then 0x220216b9 else 0x5505262f
            else
              if b < 188 then
                if b < 186 then if b < 185 then 0xc5ba3bbe else 0xb2bd0b28
                else if b < 187 then 0x2bb45a92 else 0x5cb36a04
              else
                if b < 190 then if b < 189 then 0xc2d7ffa7 else 0xb5d0cf31
                else if b < 191 then 0x2cd99e8b else 0x5bdeae1d
      else
        if b < 224 then
          if b < 208 then
            if b < 200 then
              if b < 196 then
                if b < 194 then if b < 193 then 0x9b64c2b0 else 0xec63f226
                else if b < 195 then 0x756aa39c else 0x026d930a
              else
                if b < 198 then if b < 197 then 0x9c0906a9 else 0xeb0e363f
                else if b < 199 then 0x72076785 else 0x05005713
            else
              if b < 204 then
                if b < 202 then if b < 201 then 0x95bf4a82 else 0xe2b87a14
                else if b < 203 then 0x7bb12bae else 0x0cb61b38
              else
                if b < 206 then if b < 205 then 0x92d28e9b else 0xe5d5be0d
                else if b < 207 then 0x7cdcefb7 else 0x0bdbdf21
          else
            if b < 216 then
              if b < 212 then
                if b < 210 then if b < 209 then 0x86d3d2d4 else 0xf1d4e242
                else if b < 211 then 0x68ddb3f8 else 0x1fda836e
              else
                if b < 214 then if b < 213 then 0x81be16cd else 0xf6b9265b
                else if b < 215 then 0x6fb077e1 else 0x18b74777
            else
              if b < 220 then
                if b < 218 then if b < 217 then 0x88085ae6 else 0xff0f6a70
                else if b < 219 then 0x66063bca else 0x11010b5c
              else
                if b < 222 then if b < 221 then 0x8f659eff else 0xf862ae69
                else if b < 223 then 0x616bffd3 else 0x166ccf45
        else
          if b < 240 then
            if b < 232 then
              if b < 228 then
                if b < 226 then if b < 225 then 0xa00ae278 else 0xd70dd2ee
                else if b < 227 then 0x4e048354 else 0x3903b3c2
              else
                if b < 230 then if b < 229 then 0xa7672661 else 0xd06016f7
                else if b < 231 then 0x4969474d else 0x3e6e77db
            else
              if b < 236 then
                if b < 234 then if b < 233 then 0xaed16a4a else 0xd9d65adc
                else if b < 235 then 0x40df0b66 else 0x37d83bf0
              else
                if b < 238 then if b < 237 then 0xa9bcae53 else 0xdebb9ec5
                else if b < 239 then 0x47b2cf7f else 0x30b5ffe9
          else
            if b < 248 then
              if b < 244 then
                if b < 242 then if b < 241 then 0xbdbdf21c else 0xcabac28a
                else if b < 243 then 0x53b39330 else 0x24b4a3a6
              else
                if b < 246 then if b < 245 then 0xbad03605 else 0xcdd70693
                else if b < 247 then 0x54de5729 else 0x23d967bf
            else
              if b < 252 then
                if b < 250 then if b < 249 then 0xb3667a2e else 0xc4614ab8
                else if b < 251 then 0x5d681b02 else 0x2a6f2b94
              else
                if b < 254 then if b < 253 then 0xb40bbe37 else 0xc30c8ea1
                else if b < 255 then 0x5a05df1b else 0x2d02ef8d
  }

  function TableCrc16Ccitt(b: Byte): bv16 {
    if b < 128 then
      if b < 64 then
        if b < 32 then
          if b < 16 then
            if b < 8 then
              if b < 4 then
                if b < 2 then if b < 1 then 0x0000 else 0x1189 else if b < 3 then 0x2312 else 0x329b
              else
                if b < 6 then if b < 5 then 0x4624 else 0x57ad else if b < 7 then 0x6536 else 0x74bf
            else
              if b < 12 then
                if b < 10 then if b < 9 then 0x8c48 else 0x9dc1 else if b < 11 then 0xaf5a else 0xbed3
              else
                if b < 14 then if b < 13 then 0xca6c else 0xdbe5 else if b < 15 then 0xe97e else 0xf8f7
          else
            if b < 24 then
              if b < 20 then
                if b < 18 then if b < 17 then 0x1081 else 0x0108 else if b < 19 then 0x3393 else 0x221a
              else
                if b < 22 then if b < 21 then 0x56a5 else 0x472c else if b < 23 then 0x75b7 else 0x643e
            else
              if b < 28 then
                if b < 26 then if b < 25 then 0x9cc9 else 0x8d40 else if b < 27 then 0xbfdb else 0xae52
              else
                if b < 30 then if b < 29 then 0xdaed else 0xcb64 else if b < 31 then 0xf9ff else 0xe876
        else
          if b < 48 then
            if b < 40 then
              if b < 36 then
                if b < 34 then if b < 33 then 0x2102 else 0x308b else if b < 35 then 0x0210 else 0x1399
              else
                if b < 38 then if b < 37 then 0x6726 else 0x76af else if b < 39 then 0x4434 else 0x55bd
            else
              if b < 44 then
                if b < 42 then if b < 41 then 0xad4a else 0xbcc3 else if b < 43 then 0x8e58 else 0x9fd1
              else
                if b < 46 then if b < 45 then 0xeb6e else 0xfae7 else if b < 47 then 0xc87c else 0xd9f5
          else
            if b < 56 then
              if b < 52 then
                if b < 50 then if b < 49 then 0x3183 else 0x200a else if b < 51 then 0x1291 else 0x0318
              else
                if b < 54 then if b < 53 then 0x77a7 else 0x662e else if b < 55 then 0x54b5 else 0x453c
            else
              if b < 60 then
                if b < 58 then if b < 57 then 0xbdcb else 0xac42 else if b < 59 then 0x9ed9 else 0x8f50
              else
                if b < 62 then if b < 61 then 0xfbef else 0xea66 else if b < 63 then 0xd8fd else 0xc974
      else
        if b < 96 then
          if b < 80 then
            if b < 72 then
              if b < 68 then
                if b < 66 then if b < 65 then 0x4204 else 0x538d else if b < 67 then 0x6116 else 0x709f
              else
                if b < 70 then if b < 69 then 0x0420 else 0x15a9 else if b < 71 then 0x2732 else 0x36bb
            else
              if b < 76 then
                if b < 74 then if b < 73 then 0xce4c else 0xdfc5 else if b < 75 then 0xed5e else 0xfcd7
              else
                if b < 78 then if b < 77 then 0x8868 else 0x99e1 else if b < 79 then 0xab7a else 0xbaf3
          else
            if b < 88 then
              if b < 84 then
                if b < 82 then if b < 81 then 0x5285 else 0x430c else if b < 83 then 0x7197 else 0x601e
              else
                if b < 86 then if b < 85 then 0x14a1 else 0x0528 else if b < 87 then 0x37b3 else 0x263a
            else
              if b < 92 then
                if b < 90 then if b < 89 then 0xdecd else 0xcf44 else if b < 91 then 0xfddf else 0xec56
              else
                if b < 94 then if b < 93 then 0x98e9 else 0x8960 else if b < 95 then 0xbbfb else 0xaa72
        else
          if b < 112 then
            if b < 104 then
              if b < 100 then
                if b < 98 then if b < 97 then 0x6306 else 0x728f else if b < 99 then 0x4014 else 0x519d
              else
                if b < 102 then if b < 101 then 0x2522 else 0x34ab else if b < 103 then 0x0630 else 0x17b9
            else
              if b < 108 then
                if b < 106 then if b < 105 then 0xef4e else 0xfec7 else if b < 107 then 0xcc5c else 0xddd5
              else
                if b < 110 then if b < 109 then 0xa96a else 0xb8e3 else if b < 111 then 0x8a78 else 0x9bf1
          else
            if b < 120 then
              if b < 116 then
                if b < 114 then if b < 113 then 0x7387 else 0x620e else if b < 115 then 0x5095 else 0x411c
              else
                if b < 118 then if b < 117 then 0x35a3 else 0x242a else if b < 119 then 0x16b1 else 0x0738
            else
              if b < 124 then
                if b < 122 then if b < 121 then 0xffcf else 0xee46 else if b < 123 then 0xdcdd else 0xcd54
              else
                if b < 126 then if b < 125 then 0xb9eb else 0xa862 else if b < 127 then 0x9af9 else 0x8b70
    else
      if b < 192 then
        if b < 160 then
          if b < 144 then
            if b < 136 then
              if b < 132 then
                if b < 130 then if b < 129 then 0x8408 else 0x9581 else if b < 131 then 0xa71a else 0xb693
              else
                if b < 134 then if b < 133 then 0xc22c else 0xd3a5 else if b < 135 then 0xe13e else 0xf0b7
            else
              if b < 140 then
                if b < 138 then if b < 137 then 0x0840 else 0x19c9 else if b < 139 then 0x2b52 else 0x3adb
              else
                if b < 142 then if b < 141 then 0x4e64 else 0x5fed else if b < 143 then 0x6d76 else 0x7cff
          else
            if b < 152 then
              if b < 148 then
                if b < 146 then if b < 145 then 0x9489 else 0x8500 else if b < 147 then 0xb79b else 0xa612
              else
                if b < 150 then if b < 149 then 0xd2ad else 0xc324 else if b < 151 then 0xf1bf else 0xe036
            else
              if b < 156 then
                if b < 154 then if b < 153 then 0x18c1 else 0x0948 else if b < 155 then 0x3bd3 else 0x2a5a
              else
                if b < 158 then if b < 157 then 0x5ee5 else 0x4f6c else if b < 159 then 0x7df7 else 0x6c7e
        else
          if b < 176 then
            if b < 168 then
              if b < 164 then
                if b < 162 then if b < 161 then 0xa50a else 0xb483 else if b < 163 then 0x8618 else 0x9791
              else
                if b < 166 then if b < 165 then 0xe32e else 0xf2a7 else if b < 167 then 0xc03c else 0xd1b5
            else
              if b < 172 then
                if b < 170 then if b < 169 then 0x2942 else 0x38cb else if b < 171 then 0x0a50 else 0x1bd9
              else
                if b < 174 then if b < 173 then 0x6f66 else 0x7eef else if b < 175 then 0x4c74 else 0x5dfd
          else
            if b < 184 then
              if b < 180 then
                if b < 178 then if b < 177 then 0xb58b else 0xa402 else if b < 179 then 0x9699 else 0x8710
              else
                if b < 182 then if b < 181 then 0xf3af else 0xe226 else if b < 183 then 0xd0bd else 0xc134
            else
              if b < 188 then
                if b < 186 then if b < 185 then 0x39c3 else 0x284a else if b < 187 then 0x1ad1 else 0x0b58
              else
                if b < 190 then if b < 189 then 0x7fe7 else 0x6e6e else if b < 191 then 0x5cf5 else 0x4d7c
      else
        if b < 224 then
          if b < 208 then
            if b < 200 then
              if b < 196 then
                if b < 194 then if b < 193 then 0xc60c else 0xd785 else if b < 195 then 0xe51e else 0xf497
              else
                if b < 198 then if b < 197 then 0x8028 else 0x91a1 else if b < 199 then 0xa33a else 0xb2b3
            else
              if b < 204 then
                if b < 202 then if b < 201 then 0x4a44 else 0x5bcd else if b < 203 then 0x6956 else 0x78df
              else
                if b < 206 then if b < 205 then 0x0c60 else 0x1de9 else if b < 207 then 0x2f72 else 0x3efb
          else
            if b < 216 then
              if b < 212 then
                if b < 210 then if b < 209 then 0xd68d else 0xc704 else if b < 211 then 0xf59f else 0xe416
              else
                if b < 214 then if b < 213 then 0x90a9 else 0x8120 else if b < 215 then 0xb3bb else 0xa232
            else
              if b < 220 then
                if b < 218 then if b < 217 then 0x5ac5 else 0x4b4c else if b < 219 then 0x79d7 else 0x685e
              else
                if b < 222 then if b < 221 then 0x1ce1 else 0x0d68 else if b < 223 then 0x3ff3 else 0x2e7a
        else
          if b < 240 then
            if b < 232 then
              if b < 228 then
                if b < 226 then if b < 225 then 0xe70e else 0xf687 else if b < 227 then 0xc41c else 0xd595
              else
                if b < 230 then if b < 229 then 0xa12a else 0xb0a3 else if b < 231 then 0x8238 else 0x93b1
            else
              if b < 236 then
                if b < 234 then if b < 233 then 0x6b46 else 0x7acf else if b < 235 then 0x4854 else 0x59dd
              else
                if b < 238 then if b < 237 then 0x2d62 else 0x3ceb else if b < 239 then 0x0e70 else 0x1ff9
          else
            if b < 248 then
              if b < 244 then
                if b < 242 then if b < 241 then 0xf78f else 0xe606 else if b < 243 then 0xd49d else 0xc514
              else
                if b < 246 then if b < 245 then 0xb1ab else 0xa022 else if b < 247 then 0x92b9 else 0x8330
            else
              if b < 252 then
                if b < 250 then if b < 249 then 0x7bc7 else 0x6a4e else if b < 251 then 0x58d5 else 0x495c
              else
                if b < 254 then if b < 253 then 0x3de3 else 0x2c6a else if b < 255 then 0x1ef1 else 0x0f78
  }

  function TableCrc16Xmodem(b: Byte): bv16 {
    if b < 128 then
      if b < 64 then
        if b < 32 then
          if b < 16 then
            if b < 8 then
              if b < 4 then
                if b < 2 then if b < 1 then 0x0000 else 0x1021 else if b < 3 then 0x2042 else 0x3063
              else
                if b < 6 then if b < 5 then 0x4084 else 0x50a5 else if b < 7 then 0x60c6 else 0x70e7
            else
              if b < 12 then
                if b < 10 then if b < 9 then 0x8108 else 0x9129 else if b < 11 then 0xa14a else 0xb16b
              else
                if b < 14 then if b < 13 then 0xc18c else 0xd1ad else if b < 15 then 0xe1ce else 0xf1ef
          else
            if b < 24 then
              if b < 20 then
                if b < 18 then if b < 17 then 0x1231 else 0x0210 else if b < 19 then 0x3273 else 0x2252
              else
                if b < 22 then if b < 21 then 0x52b5 else 0x4294 else if b < 23 then 0x72f7 else 0x62d6
            else
              if b < 28 then
                if b < 26 then if b < 25 then 0x9339 else 0x8318 else if b < 27 then 0xb37b else 0xa35a
              else
                if b < 30 then if b < 29 then 0xd3bd else 0xc39c else if b < 31 then 0xf3ff else 0xe3de
        else
          if b < 48 then
            if b < 40 then
              if b < 36 then
                if b < 34 then if b < 33 then 0x2462 else 0x3443 else if b < 35 then 0x0420 else 0x1401
              else
                if b < 38 then if b < 37 then 0x64e6 else 0x74c7 else if b < 39 then 0x44a4 else 0x5485
            else
              if b < 44 then
                if b < 42 then if b < 41 then 0xa56a else 0xb54b else if b < 43 then 0x8528 else 0x9509
              else
                if b < 46 then if b < 45 then 0xe5ee else 0xf5cf else if b < 47 then 0xc5ac else 0xd58d
          else
            if b < 56 then
              if b < 52 then
                if b < 50 then if b < 49 then 0x3653 else 0x2672 else if b < 51 then 0x1611 else 0x0630
              else
                if b < 54 then if b < 53 then 0x76d7 else 0x66f6 else if b < 55 then 0x5695 else 0x46b4
            else
              if b < 60 then
                if b < 58 then if b < 57 then 0xb75b else 0xa77a else if b < 59 then 0x9719 else 0x8738
              else
                if b < 62 then if b < 61 then 0xf7df else 0xe7fe else if b < 63 then 0xd79d else 0xc7bc
      else
        if b < 96 then
          if b < 80 then
            if b < 72 then
              if b < 68 then
                if b < 66 then if b < 65 then 0x48c4 else 0x58e5 else if b < 67 then 0x6886 else 0x78a7
              else
                if b < 70 then if b < 69 then 0x0840 else 0x1861 else if b < 71 then 0x2802 else 0x3823
            else
              if b < 76 then
                if b < 74 then if b < 73 then 0xc9cc else 0xd9ed else if b < 75 then 0xe98e else 0xf9af
              else
                if b < 78 then if b < 77 then 0x8948 else 0x9969 else if b < 79 then 0xa90a else 0xb92b
          else
            if b < 88 then
              if b < 84 then
                if b < 82 then if b < 81 then 0x5af5 else 0x4ad4 else if b < 83 then 0x7ab7 else 0x6a96
              else
                if b < 86 then if b < 85 then 0x1a71 else 0x0a50 else if b < 87 then 0x3a33 else 0x2a12
            else
              if b < 92 then
                if b < 90 then if b < 89 then 0xdbfd else 0xcbdc else if b < 91 then 0xfbbf else 0xeb9e
              else
                if b < 94 then if b < 93 then 0x9b79 else 0x8b58 else if b < 95 then 0xbb3b else 0xab1a
        else
          if b < 112 then
            if b < 104 then
              if b < 100 then
                if b < 98 then if b < 97 then 0x6ca6 else 0x7c87 else if b < 99 then 0x4ce4 else 0x5cc5
              else
                if b < 102 then if b < 101 then 0x2c22 else 0x3c03 else if b < 103 then 0x0c60 else 0x1c41
            else
              if b < 108 then
                if b < 106 then if b < 105 then 0xedae else 0xfd8f else if b < 107 then 0xcdec else 0xddcd
              else
                if b < 110 then if b < 109 then 0xad2a else 0xbd0b else if b < 111 then 0x8d68 else 0x9d49
          else
            if b < 120 then
              if b < 116 then
                if b < 114 then if b < 113 then 0x7e97 else 0x6eb6 else if b < 115 then 0x5ed5 else 0x4ef4
              else
                if b < 118 then if b < 117 then 0x3e13 else 0x2e32 else if b < 119 then 0x1e51 else 0x0e70
            else
              if b < 124 then
                if b < 122 then if b < 121 then 0xff9f else 0xefbe else if b < 123 then 0xdfdd else 0xcffc
              else
                if b < 126 then if b < 125 then 0xbf1b else 0xaf3a else if b < 127 then 0x9f59 else 0x8f78
    else
      if b < 192 then
        if b < 160 then
          if b < 144 then
            if b < 136 then
              if b < 132 then
                if b < 130 then if b < 129 then 0x9188 else 0x81a9 else if b < 131 then 0xb1ca else 0xa1eb
              else
                if b < 134 then if b < 133 then 0xd10c else 0xc12d else if b < 135 then 0xf14e else 0xe16f
            else
              if b < 140 then
                if b < 138 then if b < 137 then 0x1080 else 0x00a1 else if b < 139 then 0x30c2 else 0x20e3
              else
                if b < 142 then if b < 141 then 0x5004 else 0x4025 else if b < 143 then 0x7046 else 0x6067
          else
            if b < 152 then
              if b < 148 then
                if b < 146 then if b < 145 then 0x83b9 else 0x9398 else if b < 147 then 0xa3fb else 0xb3da
              else
                if b < 150 then if b < 149 then 0xc33d else 0xd31c else if b < 151 then 0xe37f else 0xf35e
            else
              if b < 156 then
                if b < 154 then if b < 153 then 0x02b1 else 0x1290 else if b < 155 then 0x22f3 else 0x32d2
              else
                if b < 158 then if b < 157 then 0x4235 else 0x5214 else if b < 159 then 0x6277 else 0x7256
        else
          if b < 176 then
            if b < 168 then
              if b < 164 then
                if b < 162 then if b < 161 then 0xb5ea else 0xa5cb else if b < 163 then 0x95a8 else 0x8589
              else
                if b < 166 then if b < 165 then 0xf56e else 0xe54f else if b < 167 then 0xd52c else 0xc50d
            else
              if b < 172 then
                if b < 170 then if b < 169 then 0x34e2 else 0x24c3 else if b < 171 then 0x14a0 else 0x0481
              else
                if b < 174 then if b < 173 then 0x7466 else 0x6447 else if b < 175 then 0x5424 else 0x4405
          else
            if b < 184 then
              if b < 180 then
                if b < 178 then if b < 177 then 0xa7db else 0xb7fa else if b < 179 then 0x8799 else 0x97b8
              else
                if b < 182 then if b < 181 then 0xe75f else 0xf77e else if b < 183 then 0xc71d else 0xd73c
            else
              if b < 188 then
                if b < 186 then if b < 185 then 0x26d3 else 0x36f2 else if b < 187 then 0x0691 else 0x16b0
              else
                if b < 190 then if b < 189 then 0x6657 else 0x7676 else if b < 191 then 0x4615 else 0x5634
      else
        if b < 224 then
          if b < 208 then
            if b < 200 then
              if b < 196 then
                if b < 194 then if b < 193 then 0xd94c else 0xc96d else if b < 195 then 0xf90e else 0xe92f
              else
                if b < 198 then if b < 197 then 0x99c8 else 0x89e9 else if b < 199 then 0xb98a else 0xa9ab
            else
              if b < 204 then
                if b < 202 then if b < 201 then 0x5844 else 0x4865 else if b < 203 then 0x7806 else 0x6827
              else
                if b < 206 then if b < 205 then 0x18c0 else 0x08e1 else if b < 207 then 0x3882 else 0x28a3
          else
            if b < 216 then
              if b < 212 then
                if b < 210 then if b < 209 then 0xcb7d else 0xdb5c else if b < 211 then 0xeb3f else 0xfb1e
              else
                if b < 214 then if b < 213 then 0x8bf9 else 0x9bd8 else if b < 215 then 0xabbb else 0xbb9a
            else
              if b < 220 then
                if b < 218 then if b < 217 then 0x4a75 else 0x5a54 else if b < 219 then 0x6a37 else 0x7a16
              else
                if b < 222 then if b < 221 then 0x0af1 else 0x1ad0 else if b < 223 then 0x2ab3 else 0x3a92
        else
          if b < 240 then
            if b < 232 then
              if b < 228 then
                if b < 226 then if b < 225 then 0xfd2e else 0xed0f else if b < 227 then 0xdd6c else 0xcd4d
              else
                if b < 230 then if b < 229 then 0xbdaa else 0xad8b else if b < 231 then 0x9de8 else 0x8dc9
            else
              if b < 236 then
                if b < 234 then if b < 233 then 0x7c26 else 0x6c07 else if b < 235 then 0x5c64 else 0x4c45
              else
                if b < 238 then if b < 237 then 0x3ca2 else 0x2c83 else if b < 239 then 0x1ce0 else 0x0cc1
          else
            if b < 248 then
              if b < 244 then
                if b < 242 then if b < 241 then 0xef1f else 0xff3e else if b < 243 then 0xcf5d else 0xdf7c
              else
                if b < 246 then if b < 245 then 0xaf9b else 0xbfba else if b < 247 then 0x8fd9 else 0x9ff8
            else
              if b < 252 then
                if b < 250 then if b < 249 then 0x6e17 else 0x7e36 else if b < 251 then 0x4e55 else 0x5e74
              else
                if b < 254 then if b < 253 then 0x2e93 else 0x3eb2 else if b < 255 then 0x0ed1 else 0x1ef0
  }
}
