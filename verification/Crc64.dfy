/** CRC-64 with the polynomial of ECMA-182: the table-driven loop, the bit-serial
  * definition it implements, and the error bursts it must notice. */
module Crc64 {

  const POLY: bv64 := 0x42f0e1eba9ea3693
  const TOP_BIT: bv64 := 0x8000000000000000

  // ----- The definition: one message bit at a time

  /** One bit-step of the register: shift left, and subtract the polynomial on overflow. */
  function Step(x: bv64): bv64 {
    if x & TOP_BIT != 0 then (x << 1) ^ POLY else x << 1
  }

  /** The register meets the next message bit at its top end. */
  function FeedBit(crc: bv64, bit: bool): bv64 {
    Step(if bit then crc ^ TOP_BIT else crc)
  }

  function FeedBits(crc: bv64, bits: seq<bool>): bv64
    decreases |bits|
  {
    if bits == [] then crc else FeedBits(FeedBit(crc, bits[0]), bits[1..])
  }

  /** The bits of a byte, most significant first. */
  function BitsOf(b: bv8): (bits: seq<bool>)
    ensures |bits| == 8
  {
    [b & 0x80 != 0, b & 0x40 != 0, b & 0x20 != 0, b & 0x10 != 0,
     b & 0x08 != 0, b & 0x04 != 0, b & 0x02 != 0, b & 0x01 != 0]
  }

  function MessageBits(data: seq<bv8>): seq<bool> {
    if data == [] then [] else BitsOf(data[0]) + MessageBits(data[1..])
  }

  /** The CRC of a message: all ones to start with, complemented at the end. */
  function BitSerialCrc(data: seq<bv8>): bv64 {
    Not(FeedBits(!0, MessageBits(data)))
  }

  function Not(x: bv64): bv64 {
    !x
  }

  // ----- The table

  const ROW_0: seq<bv64> := [
    0x0000000000000000, 0x42f0e1eba9ea3693, 0x85e1c3d753d46d26, 0xc711223cfa3e5bb5,
    0x493366450e42ecdf, 0x0bc387aea7a8da4c, 0xccd2a5925d9681f9, 0x8e224479f47cb76a,
    0x9266cc8a1c85d9be, 0xd0962d61b56fef2d, 0x17870f5d4f51b498, 0x5577eeb6e6bb820b,
    0xdb55aacf12c73561, 0x99a54b24bb2d03f2, 0x5eb4691841135847, 0x1c4488f3e8f96ed4
  ]
  const ROW_1: seq<bv64> := [
    0x663d78ff90e185ef, 0x24cd9914390bb37c, 0xe3dcbb28c335e8c9, 0xa12c5ac36adfde5a,
    0x2f0e1eba9ea36930, 0x6dfeff5137495fa3, 0xaaefdd6dcd770416, 0xe81f3c86649d3285,
    0xf45bb4758c645c51, 0xb6ab559e258e6ac2, 0x71ba77a2dfb03177, 0x334a9649765a07e4,
    0xbd68d2308226b08e, 0xff9833db2bcc861d, 0x388911e7d1f2dda8, 0x7a79f00c7818eb3b
  ]
  const ROW_2: seq<bv64> := [
    0xcc7af1ff21c30bde, 0x8e8a101488293d4d, 0x499b3228721766f8, 0x0b6bd3c3dbfd506b,
    0x854997ba2f81e701, 0xc7b97651866bd192, 0x00a8546d7c558a27, 0x4258b586d5bfbcb4,
    0x5e1c3d753d46d260, 0x1cecdc9e94ace4f3, 0xdbfdfea26e92bf46, 0x990d1f49c77889d5,
    0x172f5b3033043ebf, 0x55dfbadb9aee082c, 0x92ce98e760d05399, 0xd03e790cc93a650a
  ]
  const ROW_3: seq<bv64> := [
    0xaa478900b1228e31, 0xe8b768eb18c8b8a2, 0x2fa64ad7e2f6e317, 0x6d56ab3c4b1cd584,
    0xe374ef45bf6062ee, 0xa1840eae168a547d, 0x66952c92ecb40fc8, 0x2465cd79455e395b,
    0x3821458aada7578f, 0x7ad1a461044d611c, 0xbdc0865dfe733aa9, 0xff3067b657990c3a,
    0x711223cfa3e5bb50, 0x33e2c2240a0f8dc3, 0xf4f3e018f031d676, 0xb60301f359dbe0e5
  ]
  const ROW_4: seq<bv64> := [
    0xda050215ea6c212f, 0x98f5e3fe438617bc, 0x5fe4c1c2b9b84c09, 0x1d14202910527a9a,
    0x93366450e42ecdf0, 0xd1c685bb4dc4fb63, 0x16d7a787b7faa0d6, 0x5427466c1e109645,
    0x4863ce9ff6e9f891, 0x0a932f745f03ce02, 0xcd820d48a53d95b7, 0x8f72eca30cd7a324,
    0x0150a8daf8ab144e, 0x43a04931514122dd, 0x84b16b0dab7f7968, 0xc6418ae602954ffb
  ]
  const ROW_5: seq<bv64> := [
    0xbc387aea7a8da4c0, 0xfec89b01d3679253, 0x39d9b93d2959c9e6, 0x7b2958d680b3ff75,
    0xf50b1caf74cf481f, 0xb7fbfd44dd257e8c, 0x70eadf78271b2539, 0x321a3e938ef113aa,
    0x2e5eb66066087d7e, 0x6cae578bcfe24bed, 0xabbf75b735dc1058, 0xe94f945c9c3626cb,
    0x676dd025684a91a1, 0x259d31cec1a0a732, 0xe28c13f23b9efc87, 0xa07cf2199274ca14
  ]
  const ROW_6: seq<bv64> := [
    0x167ff3eacbaf2af1, 0x548f120162451c62, 0x939e303d987b47d7, 0xd16ed1d631917144,
    0x5f4c95afc5edc62e, 0x1dbc74446c07f0bd, 0xdaad56789639ab08, 0x985db7933fd39d9b,
    0x84193f60d72af34f, 0xc6e9de8b7ec0c5dc, 0x01f8fcb784fe9e69, 0x43081d5c2d14a8fa,
    0xcd2a5925d9681f90, 0x8fdab8ce70822903, 0x48cb9af28abc72b6, 0x0a3b7b1923564425
  ]
  const ROW_7: seq<bv64> := [
    0x70428b155b4eaf1e, 0x32b26afef2a4998d, 0xf5a348c2089ac238, 0xb753a929a170f4ab,
    0x3971ed50550c43c1, 0x7b810cbbfce67552, 0xbc902e8706d82ee7, 0xfe60cf6caf321874,
    0xe224479f47cb76a0, 0xa0d4a674ee214033, 0x67c58448141f1b86, 0x253565a3bdf52d15,
    0xab1721da49899a7f, 0xe9e7c031e063acec, 0x2ef6e20d1a5df759, 0x6c0603e6b3b7c1ca
  ]
  const ROW_8: seq<bv64> := [
    0xf6fae5c07d3274cd, 0xb40a042bd4d8425e, 0x731b26172ee619eb, 0x31ebc7fc870c2f78,
    0xbfc9838573709812, 0xfd39626eda9aae81, 0x3a28405220a4f534, 0x78d8a1b9894ec3a7,
    0x649c294a61b7ad73, 0x266cc8a1c85d9be0, 0xe17dea9d3263c055, 0xa38d0b769b89f6c6,
    0x2daf4f0f6ff541ac, 0x6f5faee4c61f773f, 0xa84e8cd83c212c8a, 0xeabe6d3395cb1a19
  ]
  const ROW_9: seq<bv64> := [
    0x90c79d3fedd3f122, 0xd2377cd44439c7b1, 0x15265ee8be079c04, 0x57d6bf0317edaa97,
    0xd9f4fb7ae3911dfd, 0x9b041a914a7b2b6e, 0x5c1538adb04570db, 0x1ee5d94619af4648,
    0x02a151b5f156289c, 0x4051b05e58bc1e0f, 0x87409262a28245ba, 0xc5b073890b687329,
    0x4b9237f0ff14c443, 0x0962d61b56fef2d0, 0xce73f427acc0a965, 0x8c8315cc052a9ff6
  ]
  const ROW_A: seq<bv64> := [
    0x3a80143f5cf17f13, 0x7870f5d4f51b4980, 0xbf61d7e80f251235, 0xfd913603a6cf24a6,
    0x73b3727a52b393cc, 0x31439391fb59a55f, 0xf652b1ad0167feea, 0xb4a25046a88dc879,
    0xa8e6d8b54074a6ad, 0xea16395ee99e903e, 0x2d071b6213a0cb8b, 0x6ff7fa89ba4afd18,
    0xe1d5bef04e364a72, 0xa3255f1be7dc7ce1, 0x64347d271de22754, 0x26c49cccb40811c7
  ]
  const ROW_B: seq<bv64> := [
    0x5cbd6cc0cc10fafc, 0x1e4d8d2b65facc6f, 0xd95caf179fc497da, 0x9bac4efc362ea149,
    0x158e0a85c2521623, 0x577eeb6e6bb820b0, 0x906fc95291867b05, 0xd29f28b9386c4d96,
    0xcedba04ad0952342, 0x8c2b41a1797f15d1, 0x4b3a639d83414e64, 0x09ca82762aab78f7,
    0x87e8c60fded7cf9d, 0xc51827e4773df90e, 0x020905d88d03a2bb, 0x40f9e43324e99428
  ]
  const ROW_C: seq<bv64> := [
    0x2cffe7d5975e55e2, 0x6e0f063e3eb46371, 0xa91e2402c48a38c4, 0xebeec5e96d600e57,
    0x65cc8190991cb93d, 0x273c607b30f68fae, 0xe02d4247cac8d41b, 0xa2dda3ac6322e288,
    0xbe992b5f8bdb8c5c, 0xfc69cab42231bacf, 0x3b78e888d80fe17a, 0x7988096371e5d7e9,
    0xf7aa4d1a85996083, 0xb55aacf12c735610, 0x724b8ecdd64d0da5, 0x30bb6f267fa73b36
  ]
  const ROW_D: seq<bv64> := [
    0x4ac29f2a07bfd00d, 0x08327ec1ae55e69e, 0xcf235cfd546bbd2b, 0x8dd3bd16fd818bb8,
    0x03f1f96f09fd3cd2, 0x41011884a0170a41, 0x86103ab85a2951f4, 0xc4e0db53f3c36767,
    0xd8a453a01b3a09b3, 0x9a54b24bb2d03f20, 0x5d45907748ee6495, 0x1fb5719ce1045206,
    0x919735e51578e56c, 0xd367d40ebc92d3ff, 0x1476f63246ac884a, 0x568617d9ef46bed9
  ]
  const ROW_E: seq<bv64> := [
    0xe085162ab69d5e3c, 0xa275f7c11f7768af, 0x6564d5fde549331a, 0x279434164ca30589,
    0xa9b6706fb8dfb2e3, 0xeb46918411358470, 0x2c57b3b8eb0bdfc5, 0x6ea7525342e1e956,
    0x72e3daa0aa188782, 0x30133b4b03f2b111, 0xf7021977f9cceaa4, 0xb5f2f89c5026dc37,
    0x3bd0bce5a45a6b5d, 0x79205d0e0db05dce, 0xbe317f32f78e067b, 0xfcc19ed95e6430e8
  ]
  const ROW_F: seq<bv64> := [
    0x86b86ed5267cdbd3, 0xc4488f3e8f96ed40, 0x0359ad0275a8b6f5, 0x41a94ce9dc428066,
    0xcf8b0890283e370c, 0x8d7be97b81d4019f, 0x4a6acb477bea5a2a, 0x089a2aacd2006cb9,
    0x14dea25f3af9026d, 0x562e43b4931334fe, 0x913f6188692d6f4b, 0xd3cf8063c0c759d8,
    0x5dedc41a34bbeeb2, 0x1f1d25f19d51d821, 0xd80c07cd676f8394, 0x9afce626ce85b507
  ]

  /** The table's sixteen rows of sixteen entries. */
  function Row(high: bv8): (row: seq<bv64>)
    ensures |row| == 16
  {
    if high == 0 then ROW_0
    else if high == 1 then ROW_1
    else if high == 2 then ROW_2
    else if high == 3 then ROW_3
    else if high == 4 then ROW_4
    else if high == 5 then ROW_5
    else if high == 6 then ROW_6
    else if high == 7 then ROW_7
    else if high == 8 then ROW_8
    else if high == 9 then ROW_9
    else if high == 10 then ROW_A
    else if high == 11 then ROW_B
    else if high == 12 then ROW_C
    else if high == 13 then ROW_D
    else if high == 14 then ROW_E
    else ROW_F
  }

  /** The table entry at an index. */
  function Lookup(index: bv8): bv64 {
    Row(index / 16)[(index % 16) as nat]
  }

  // ----- Eight bit-steps at once

  function Top(b: bv8): bv64 {
    (b as bv64) << 56
  }

  function Step2(x: bv64): bv64 {
    Step(Step(x))
  }

  function Step8(x: bv64): bv64 {
    Step2(Step2(Step2(Step2(x))))
  }

  function Xor(x: bv64, y: bv64): bv64 {
    x ^ y
  }

  // Facts about exclusive or: proved on the operator, then carried over one step at a time.

  lemma XorIs(x: bv64, y: bv64)
    ensures Xor(x, y) == x ^ y
  {
  }

  lemma RawAssoc(x: bv64, y: bv64, z: bv64)
    ensures (x ^ y) ^ z == x ^ (y ^ z)
  {
  }

  lemma XorAssoc(x: bv64, y: bv64, z: bv64)
    ensures Xor(Xor(x, y), z) == Xor(x, Xor(y, z))
  {
    calc {
      Xor(Xor(x, y), z);
      { XorIs(x, y); }
      Xor(x ^ y, z);
      { XorIs(x ^ y, z); }
      (x ^ y) ^ z;
      { RawAssoc(x, y, z); }
      x ^ (y ^ z);
      { XorIs(x, y ^ z); }
      Xor(x, y ^ z);
      { XorIs(y, z); }
      Xor(x, Xor(y, z));
    }
  }

  lemma XorComm(x: bv64, y: bv64)
    ensures Xor(x, y) == Xor(y, x)
  {
  }

  lemma XorZero(x: bv64)
    ensures Xor(x, 0) == x && Xor(0, x) == x && Xor(x, x) == 0
  {
  }

  lemma XorShuffle(x: bv64, s: bv64, y: bv64, t: bv64)
    ensures Xor(Xor(x, s), Xor(y, t)) == Xor(Xor(x, y), Xor(s, t))
  {
    hide Xor;
    XorAssoc(x, s, Xor(y, t));
    XorAssoc(s, y, t);
    XorComm(s, y);
    XorAssoc(y, s, t);
    XorAssoc(x, y, Xor(s, t));
  }

  lemma XorIsZero(x: bv64, y: bv64)
    ensures Xor(x, y) == 0 <==> x == y
  {
    hide Xor;
    XorAssoc(x, y, y);
    XorZero(x);
    XorZero(y);
  }

  // A bit-step is a shift and, by the top bit, the polynomial.

  function Shl1(x: bv64): bv64 {
    x << 1
  }

  predicate First(t: bv64) {
    t & TOP_BIT != 0
  }

  function Carry(x: bv64): bv64 {
    if First(x) then POLY else 0
  }

  lemma StepIs(x: bv64)
    ensures Step(x) == Xor(Shl1(x), Carry(x))
  {
    hide Xor;
    XorIs(Shl1(x), POLY);
    XorZero(Shl1(x));
  }

  lemma ShlLinear(x: bv64, y: bv64)
    ensures Shl1(Xor(x, y)) == Xor(Shl1(x), Shl1(y))
  {
  }

  lemma FirstOfXor(x: bv64, y: bv64)
    ensures First(Xor(x, y)) <==> First(x) != First(y)
  {
  }

  lemma CarryLinear(x: bv64, y: bv64)
    ensures Carry(Xor(x, y)) == Xor(Carry(x), Carry(y))
  {
    hide Xor, First;
    FirstOfXor(x, y);
    XorZero(POLY);
    XorZero(0);
  }

  /** A bit-step is linear over exclusive or. */
  lemma StepLinear(x: bv64, y: bv64)
    ensures Step(Xor(x, y)) == Xor(Step(x), Step(y))
  {
    hide Step, Xor, Shl1, Carry;
    StepIs(x);
    StepIs(y);
    StepIs(Xor(x, y));
    ShlLinear(x, y);
    CarryLinear(x, y);
    XorShuffle(Shl1(x), Shl1(y), Carry(x), Carry(y));
    XorShuffle(Shl1(x), Carry(x), Shl1(y), Carry(y));
  }

  lemma Step2Linear(x: bv64, y: bv64)
    ensures Step2(Xor(x, y)) == Xor(Step2(x), Step2(y))
  {
    hide Step, Xor;
    StepLinear(x, y);
    StepLinear(Step(x), Step(y));
  }

  lemma Step8Linear(x: bv64, y: bv64)
    ensures Step8(Xor(x, y)) == Xor(Step8(x), Step8(y))
  {
    hide Step2, Xor;
    Step2Linear(x, y);
    Step2Linear(Step2(x), Step2(y));
    Step2Linear(Step2(Step2(x)), Step2(Step2(y)));
    Step2Linear(Step2(Step2(Step2(x))), Step2(Step2(Step2(y))));
  }

  /** The polynomial's constant term makes a bit-step reversible: only zero maps to zero. */
  lemma StepKernel(x: bv64)
    requires Step(x) == 0
    ensures x == 0
  {
  }

  lemma Step2Kernel(x: bv64)
    requires Step2(x) == 0
    ensures x == 0
  {
    hide Step;
    StepKernel(Step(x));
    StepKernel(x);
  }

  lemma Step8Kernel(x: bv64)
    requires Step8(x) == 0
    ensures x == 0
  {
    hide Step2;
    Step2Kernel(Step2(Step2(Step2(x))));
    Step2Kernel(Step2(Step2(x)));
    Step2Kernel(Step2(x));
    Step2Kernel(x);
  }

  predicate TopClear(x: bv64) {
    x & 0xff00000000000000 == 0
  }

  function Shl8(x: bv64): bv64 {
    x << 8
  }

  /** With the top byte clear, eight bit-steps are a plain shift. */
  lemma Step8Shifts(x: bv64)
    requires TopClear(x)
    ensures Step8(x) == Shl8(x)
  {
  }

  // ----- Every table entry is eight bit-steps of its index

  lemma Row0(b: bv8)
    requires b / 16 == 0
    ensures ROW_0[(b % 16) as nat] == Step8(Top(b))
  {
  }

  lemma Row1(b: bv8)
    requires b / 16 == 1
    ensures ROW_1[(b % 16) as nat] == Step8(Top(b))
  {
  }

  lemma Row2(b: bv8)
    requires b / 16 == 2
    ensures ROW_2[(b % 16) as nat] == Step8(Top(b))
  {
  }

  lemma Row3(b: bv8)
    requires b / 16 == 3
    ensures ROW_3[(b % 16) as nat] == Step8(Top(b))
  {
  }

  lemma Row4(b: bv8)
    requires b / 16 == 4
    ensures ROW_4[(b % 16) as nat] == Step8(Top(b))
  {
  }

  lemma Row5(b: bv8)
    requires b / 16 == 5
    ensures ROW_5[(b % 16) as nat] == Step8(Top(b))
  {
  }

  lemma Row6(b: bv8)
    requires b / 16 == 6
    ensures ROW_6[(b % 16) as nat] == Step8(Top(b))
  {
  }

  lemma Row7(b: bv8)
    requires b / 16 == 7
    ensures ROW_7[(b % 16) as nat] == Step8(Top(b))
  {
  }

  lemma Row8(b: bv8)
    requires b / 16 == 8
    ensures ROW_8[(b % 16) as nat] == Step8(Top(b))
  {
  }

  lemma Row9(b: bv8)
    requires b / 16 == 9
    ensures ROW_9[(b % 16) as nat] == Step8(Top(b))
  {
  }

  lemma RowA(b: bv8)
    requires b / 16 == 10
    ensures ROW_A[(b % 16) as nat] == Step8(Top(b))
  {
  }

  lemma RowB(b: bv8)
    requires b / 16 == 11
    ensures ROW_B[(b % 16) as nat] == Step8(Top(b))
  {
  }

  lemma RowC(b: bv8)
    requires b / 16 == 12
    ensures ROW_C[(b % 16) as nat] == Step8(Top(b))
  {
  }

  lemma RowD(b: bv8)
    requires b / 16 == 13
    ensures ROW_D[(b % 16) as nat] == Step8(Top(b))
  {
  }

  lemma RowE(b: bv8)
    requires b / 16 == 14
    ensures ROW_E[(b % 16) as nat] == Step8(Top(b))
  {
  }

  lemma RowF(b: bv8)
    requires b / 16 == 15
    ensures ROW_F[(b % 16) as nat] == Step8(Top(b))
  {
  }

  lemma TableIsStep8(b: bv8)
    ensures Lookup(b) == Step8(Top(b))
  {
    hide Step8, Top;
    if b / 16 == 0 {
      Row0(b);
    } else if b / 16 == 1 {
      Row1(b);
    } else if b / 16 == 2 {
      Row2(b);
    } else if b / 16 == 3 {
      Row3(b);
    } else if b / 16 == 4 {
      Row4(b);
    } else if b / 16 == 5 {
      Row5(b);
    } else if b / 16 == 6 {
      Row6(b);
    } else if b / 16 == 7 {
      Row7(b);
    } else if b / 16 == 8 {
      Row8(b);
    } else if b / 16 == 9 {
      Row9(b);
    } else if b / 16 == 10 {
      RowA(b);
    } else if b / 16 == 11 {
      RowB(b);
    } else if b / 16 == 12 {
      RowC(b);
    } else if b / 16 == 13 {
      RowD(b);
    } else if b / 16 == 14 {
      RowE(b);
    } else {
      RowF(b);
    }
  }

  // ----- The table step is eight bits of the definition

  /** What the table-driven loop does with one byte. */
  function TableStep(crc: bv64, b: bv8): bv64 {
    Xor(Shl8(crc), Lookup(Index(crc, b)))
  }

  function Index(crc: bv64, b: bv8): bv8 {
    b ^ ((crc >> 56) as bv8)
  }

  function Rest(crc: bv64): bv64 {
    crc & 0x00ffffffffffffff
  }

  lemma SplitTop(crc: bv64, b: bv8)
    ensures Xor(crc, Top(b)) == Xor(Rest(crc), Top(Index(crc, b)))
  {
    RestAndTop(crc);
    var high := (crc >> 56) as bv8;
    TopXor(b, high);
    XorComm(Top(b), Top(high));
    XorAssoc(Rest(crc), Top(high), Top(b));
    assert Index(crc, b) == b ^ high;
    hide Xor, Top, Rest;
  }

  lemma RestShifts(crc: bv64)
    ensures TopClear(Rest(crc))
    ensures Shl8(Rest(crc)) == Shl8(crc)
  {
  }

  lemma RestAndTop(crc: bv64)
    ensures crc == Xor(Rest(crc), Top((crc >> 56) as bv8))
  {
  }

  lemma TopXor(a: bv8, b: bv8)
    ensures Top(a ^ b) == Xor(Top(a), Top(b))
  {
  }

  lemma TableStepIsStep8(crc: bv64, b: bv8)
    ensures TableStep(crc, b) == Step8(Xor(crc, Top(b)))
  {
    hide Lookup, Step8, Top, Xor, Index, Rest, Shl8, TopClear;
    SplitTop(crc, b);
    RestShifts(crc);
    Step8Linear(Rest(crc), Top(Index(crc, b)));
    Step8Shifts(Rest(crc));
    TableIsStep8(Index(crc, b));
  }

  /** With message bits `t` pending at the top of the register, one step consumes the first of them. */
  lemma FeedFirstBit(crc: bv64, t: bv64)
    ensures Step(Xor(crc, t)) == Xor(FeedBit(crc, First(t)), Shl1(t))
  {
    hide Step, Xor, First, Shl1, FeedBit;
    var bit := if First(t) then TOP_BIT else 0;
    FeedBitIs(crc, First(t));
    FirstBitOff(t);
    XorShuffle(crc, bit, t, bit);
    XorZero(bit);
    XorZero(Xor(crc, t));
    StepLinear(Xor(crc, bit), Xor(t, bit));
  }

  lemma FeedBitIs(crc: bv64, bit: bool)
    ensures FeedBit(crc, bit) == Step(Xor(crc, if bit then TOP_BIT else 0))
  {
    hide Step;
    XorZero(crc);
  }

  lemma FirstBitOff(t: bv64)
    ensures Step(Xor(t, if First(t) then TOP_BIT else 0)) == Shl1(t)
  {
    hide Step, Xor, Shl1, Carry, First;
    var bit := if First(t) then TOP_BIT else 0;
    StepIs(Xor(t, bit));
    ShlLinear(t, bit);
    CarryLinear(t, bit);
    TopBitAlone();
    XorZero(Shl1(t));
    XorZero(Carry(t));
    CarryOf(t);
  }

  lemma TopBitAlone()
    ensures Shl1(TOP_BIT) == 0 && Carry(TOP_BIT) == POLY && Shl1(0) == 0 && Carry(0) == 0
  {
  }

  lemma CarryOf(t: bv64)
    ensures Carry(t) == if First(t) then POLY else 0
  {
    hide First;
  }

  /** Two message bits off the top of `t`. */
  function FeedTwo(crc: bv64, t: bv64): bv64 {
    FeedBit(FeedBit(crc, First(t)), First(Shl1(t)))
  }

  function Next2(t: bv64): bv64 {
    Shl1(Shl1(t))
  }

  lemma FeedFirstTwo(crc: bv64, t: bv64)
    ensures Step2(Xor(crc, t)) == Xor(FeedTwo(crc, t), Next2(t))
  {
    hide Step, Xor, First, Shl1, FeedBit;
    FeedFirstBit(crc, t);
    FeedFirstBit(FeedBit(crc, First(t)), Shl1(t));
  }

  lemma FeedBitsTwo(crc: bv64, bits: seq<bool>)
    requires |bits| >= 2
    ensures FeedBits(crc, bits) == FeedBits(FeedBit(FeedBit(crc, bits[0]), bits[1]), bits[2..])
  {
    hide FeedBit;
    assert bits[1..][1..] == bits[2..];
  }

  lemma FeedByteBits(crc: bv64, b: bv8)
    ensures var t := Top(b);
            FeedBits(crc, BitsOf(b))
            == FeedTwo(FeedTwo(FeedTwo(FeedTwo(crc, t), Next2(t)), Next2(Next2(t))), Next2(Next2(Next2(t))))
  {
    var bits := BitsOf(b);
    TopBits(b);
    hide FeedBit, FeedBits, BitsOf, First, Shl1, Top;
    FeedBitsTwo(crc, bits);
    var c2 := FeedBit(FeedBit(crc, bits[0]), bits[1]);
    FeedBitsTwo(c2, bits[2..]);
    var c4 := FeedBit(FeedBit(c2, bits[2]), bits[3]);
    assert bits[2..][2..] == bits[4..];
    FeedBitsTwo(c4, bits[4..]);
    var c6 := FeedBit(FeedBit(c4, bits[4]), bits[5]);
    assert bits[4..][2..] == bits[6..];
    FeedBitsTwo(c6, bits[6..]);
    FeedBitsNone(FeedBit(FeedBit(c6, bits[6]), bits[7]), bits[6..][2..]);
  }

  lemma FeedBitsNone(crc: bv64, bits: seq<bool>)
    requires |bits| == 0
    ensures FeedBits(crc, bits) == crc
  {
  }

  lemma TopBits(b: bv8)
    ensures var t := Top(b);
            var t2 := Next2(t);
            var t4 := Next2(t2);
            var t6 := Next2(t4);
            var bits := BitsOf(b);
            bits[0] == First(t) && bits[1] == First(Shl1(t)) && bits[2] == First(t2) && bits[3] == First(Shl1(t2))
            && bits[4] == First(t4) && bits[5] == First(Shl1(t4)) && bits[6] == First(t6) && bits[7] == First(Shl1(t6))
  {
  }

  lemma TopGone(b: bv8)
    ensures Next2(Next2(Next2(Next2(Top(b))))) == 0
  {
  }

  /** The table step is what the definition does with a byte's eight bits. */
  lemma TableStepFeedsByte(crc: bv64, b: bv8)
    ensures TableStep(crc, b) == FeedBits(crc, BitsOf(b))
  {
    hide TableStep, FeedBits, BitsOf, FeedTwo, Next2, Step2, Xor, Top;
    TableStepIsStep8(crc, b);
    FeedByteBits(crc, b);
    var t := Top(b);
    FeedFirstTwo(crc, t);
    FeedFirstTwo(FeedTwo(crc, t), Next2(t));
    FeedFirstTwo(FeedTwo(FeedTwo(crc, t), Next2(t)), Next2(Next2(t)));
    FeedFirstTwo(FeedTwo(FeedTwo(FeedTwo(crc, t), Next2(t)), Next2(Next2(t))), Next2(Next2(Next2(t))));
    TopGone(b);
    XorZero(FeedBits(crc, BitsOf(b)));
  }

  // ----- The loop

  function Run(crc: bv64, data: seq<bv8>): bv64
    decreases |data|
  {
    if data == [] then crc else Run(TableStep(crc, data[0]), data[1..])
  }

  lemma {:induction false} FeedBitsAppend(crc: bv64, xs: seq<bool>, ys: seq<bool>)
    ensures FeedBits(crc, xs + ys) == FeedBits(FeedBits(crc, xs), ys)
    decreases |xs|
  {
    hide FeedBit;
    if xs == [] {
      assert xs + ys == ys;
    } else {
      assert (xs + ys)[1..] == xs[1..] + ys;
      FeedBitsAppend(FeedBit(crc, xs[0]), xs[1..], ys);
    }
  }

  lemma {:induction false} RunIsBitSerial(crc: bv64, data: seq<bv8>)
    ensures Run(crc, data) == FeedBits(crc, MessageBits(data))
    decreases |data|
  {
    hide TableStep, BitsOf;
    if data != [] {
      TableStepFeedsByte(crc, data[0]);
      FeedBitsAppend(crc, BitsOf(data[0]), MessageBits(data[1..]));
      RunIsBitSerial(TableStep(crc, data[0]), data[1..]);
    }
  }

  /** The table-driven CRC is the bit-serial one, on every input. */
  method Crc64(data: seq<bv8>) returns (result: bv64)
    ensures result == BitSerialCrc(data)
  {
    hide Lookup, Xor, Run, Index, Shl8, FeedBits, MessageBits, Not;
    var crc: bv64 := !0;
    for j := 0 to |data|
      invariant Run(crc, data[j..]) == Run(!0, data)
    {
      RunStep(crc, data[j..]);
      assert data[j..][1..] == data[j + 1..];
      var index := Index(crc, data[j]);
      var lookup := Lookup(index);
      crc := Shl8(crc);
      crc := Xor(crc, lookup);
    }
    RunStep(crc, []);
    RunIsBitSerial(!0, data);
    result := Not(crc);
  }

  lemma RunStep(crc: bv64, data: seq<bv8>)
    ensures Run(crc, data) == if data == [] then crc else Run(TableStep(crc, data[0]), data[1..])
  {
  }

  // ----- Error bursts

  lemma {:induction false} RunAppend(crc: bv64, xs: seq<bv8>, ys: seq<bv8>)
    ensures Run(crc, xs + ys) == Run(Run(crc, xs), ys)
    decreases |xs|
  {
    hide TableStep;
    if xs == [] {
      assert xs + ys == ys;
    } else {
      assert (xs + ys)[1..] == xs[1..] + ys;
      RunAppend(TableStep(crc, xs[0]), xs[1..], ys);
    }
  }

  function Shr8(x: bv64): bv64 {
    x >> 8
  }

  /** How two bytes differ, at the top of a register. */
  function TopDiff(a: bv8, b: bv8): bv64 {
    Top(a ^ b)
  }

  lemma StepDifference(x: bv64, y: bv64, a: bv8, b: bv8)
    ensures Xor(TableStep(x, a), TableStep(y, b)) == Step8(Xor(Xor(x, y), TopDiff(a, b)))
  {
    TableStepIsStep8(x, a);
    TableStepIsStep8(y, b);
    XorTops(x, y, a, b);
    Step8Linear(Xor(x, Top(a)), Xor(y, Top(b)));
    hide TableStep, TopDiff, Step8, Xor, Shr8;
  }

  lemma XorTops(x: bv64, y: bv64, a: bv8, b: bv8)
    ensures Xor(Xor(x, Top(a)), Xor(y, Top(b))) == Xor(Xor(x, y), TopDiff(a, b))
  {
    hide Xor, Top;
    TopXor(a, b);

    XorShuffle(x, Top(a), y, Top(b));
  }

  lemma TopOfEqual(b: bv8)
    ensures TopDiff(b, b) == 0
  {
  }

  /** Feeding the same bytes keeps registers that differ apart. */
  lemma {:induction false} SameBytesKeepApart(x: bv64, y: bv64, data: seq<bv8>)
    requires x != y
    ensures Run(x, data) != Run(y, data)
    decreases |data|
  {
    hide TableStep, TopDiff, Step8, Xor, Shr8;
    if data != [] {
      StepDifference(x, y, data[0], data[0]);
      TopOfEqual(data[0]);
      XorZero(Xor(x, y));
      XorIsZero(x, y);
      XorIsZero(TableStep(x, data[0]), TableStep(y, data[0]));
      if TableStep(x, data[0]) == TableStep(y, data[0]) {
        Step8Kernel(Xor(x, y));
      }
      SameBytesKeepApart(TableStep(x, data[0]), TableStep(y, data[0]), data[1..]);
    }
  }

  /** The differences of two byte strings, packed from the top of a register down. */
  function Packed(u: seq<bv8>, v: seq<bv8>): bv64
    requires |u| == |v|
  {
    if u == [] then 0 else Xor(TopDiff(u[0], v[0]), Shr8(Packed(u[1..], v[1..])))
  }

  /** The mask of the register's top n bytes. */
  function TopBytes(n: nat): bv64 {
    if n == 0 then 0 else Widened(TopBytes(n - 1))
  }

  function Widened(mask: bv64): bv64 {
    0xff00000000000000 | Shr8(mask)
  }

  predicate Within(p: bv64, mask: bv64) {
    p & !mask == 0
  }

  lemma PackedStep(a: bv8, b: bv8, p: bv64, mask: bv64)
    requires Within(p, mask)
    ensures Within(Xor(TopDiff(a, b), Shr8(p)), Widened(mask))
  {
  }

  lemma {:induction false} PackedInTopBytes(u: seq<bv8>, v: seq<bv8>)
    requires |u| == |v|
    ensures Within(Packed(u, v), TopBytes(|u|))
  {
    if u == [] {
      assert Within(0, 0);
    } else {
      hide Xor, TopDiff, Within, Shr8;
      PackedInTopBytes(u[1..], v[1..]);
      PackedStep(u[0], v[0], Packed(u[1..], v[1..]), TopBytes(|u| - 1));
    }
  }

  /** At most seven bytes leave the bottom byte clear, so a packed difference shifts down losslessly. */
  lemma SevenBytesShift(u: seq<bv8>, v: seq<bv8>)
    requires |u| == |v| <= 7
    ensures Step8(Shr8(Packed(u, v))) == Packed(u, v)
    ensures Shr8(Packed(u, v)) == 0 ==> Packed(u, v) == 0
  {
    hide Step8, Packed, Shr8, Shl8, Within, TopBytes, BottomClear, TopClear;
    PackedInTopBytes(u, v);
    SevenTopBytes(|u|);
    ShiftsBack(Packed(u, v), TopBytes(|u|));
    Step8Shifts(Shr8(Packed(u, v)));
  }

  predicate BottomClear(x: bv64) {
    x & 0xff == 0
  }

  lemma SevenTopBytes(n: nat)
    requires n <= 7
    ensures BottomClear(TopBytes(n))
  {
    assert TopBytes(1) == 0xff00000000000000;
    assert TopBytes(2) == 0xffff000000000000;
    assert TopBytes(3) == 0xffffff0000000000;
    assert TopBytes(4) == 0xffffffff00000000;
    assert TopBytes(5) == 0xffffffffff000000;
    assert TopBytes(6) == 0xffffffffffff0000;
    assert TopBytes(7) == 0xffffffffffffff00;
  }

  lemma ShiftsBack(p: bv64, mask: bv64)
    requires Within(p, mask) && BottomClear(mask)
    ensures TopClear(Shr8(p)) && Shl8(Shr8(p)) == p
    ensures Shr8(p) == 0 ==> p == 0
  {
    assert p & 0xff == 0;
  }

  /** Up to eight bytes bring two registers together exactly when the registers' difference is the packed bytes'. */
  lemma {:induction false} WindowMeets(x: bv64, y: bv64, u: seq<bv8>, v: seq<bv8>)
    requires |u| == |v| <= 8
    ensures Run(x, u) == Run(y, v) <==> Xor(x, y) == Packed(u, v)
    decreases |u|
  {
    hide TableStep, TopDiff, Step8, Xor, Shr8;
    if u == [] {
      XorIsZero(x, y);
    } else {
      var x', y' := TableStep(x, u[0]), TableStep(y, v[0]);
      var below := Packed(u[1..], v[1..]);
      WindowMeets(x', y', u[1..], v[1..]);
      StepDifference(x, y, u[0], v[0]);
      SevenBytesShift(u[1..], v[1..]);
      Step8Injective(Xor(Xor(x, y), TopDiff(u[0], v[0])), Shr8(below));
      XorCancels(Xor(x, y), TopDiff(u[0], v[0]), Shr8(below));
    }
  }

  lemma Step8Injective(x: bv64, y: bv64)
    ensures Step8(x) == Step8(y) <==> x == y
  {
    hide Step8, Xor;
    Step8Linear(x, y);
    XorIsZero(Step8(x), Step8(y));
    XorIsZero(x, y);
    if Step8(x) == Step8(y) {
      Step8Kernel(Xor(x, y));
    }
  }

  lemma XorCancels(x: bv64, y: bv64, z: bv64)
    ensures Xor(x, y) == z <==> x == Xor(y, z)
  {
    assert Xor(x, y) == z ==> Xor(y, z) == x;
    assert x == Xor(y, z) ==> Xor(x, y) == z;
  }

  lemma {:induction false} PackedIsFaithful(u: seq<bv8>, v: seq<bv8>)
    requires |u| == |v| <= 8
    ensures Packed(u, v) == 0 <==> u == v
  {
    hide Xor, TopDiff, Shr8;
    if u != [] {
      PackedIsFaithful(u[1..], v[1..]);
      SevenBytesShift(u[1..], v[1..]);
      TopAndRest(u[0], v[0], Packed(u[1..], v[1..]));
      assert u == [u[0]] + u[1..] && v == [v[0]] + v[1..];
    }
  }

  lemma TopAndRest(a: bv8, b: bv8, p: bv64)
    ensures Xor(TopDiff(a, b), Shr8(p)) == 0 <==> a == b && Shr8(p) == 0
  {
  }

  /** Two messages that differ only inside a window of eight bytes have different CRCs, and only then. */
  lemma BurstsAreNoticed(before: seq<bv8>, u: seq<bv8>, v: seq<bv8>, after: seq<bv8>)
    requires |u| == |v| <= 8
    ensures BitSerialCrc(before + u + after) == BitSerialCrc(before + v + after) <==> u == v
  {
    if u != v {
      hide Run, MessageBits, FeedBits, Packed, Xor, Not;
      var x := Run(!0, before);
      RunIsBitSerial(!0, before + u + after);
      RunIsBitSerial(!0, before + v + after);
      RunAppend(!0, before + u, after);
      RunAppend(!0, before + v, after);
      RunAppend(!0, before, u);
      RunAppend(!0, before, v);
      WindowMeets(x, x, u, v);
      XorZero(x);
      PackedIsFaithful(u, v);
      SameBytesKeepApart(Run(x, u), Run(x, v), after);
      Complements(Run(!0, before + u + after), Run(!0, before + v + after));
    }
  }

  lemma Complements(x: bv64, y: bv64)
    ensures Not(x) == Not(y) <==> x == y
  {
    hide Not;
    NotNot(x);
    NotNot(y);
  }

  lemma NotNot(x: bv64)
    ensures Not(Not(x)) == x
  {
  }

  /** The same, for two messages given whole. */
  lemma NearbyMessagesDiffer(a: seq<bv8>, b: seq<bv8>, start: nat)
    requires |a| == |b| && a != b
    requires forall j :: 0 <= j < |a| && !(start <= j < start + 8) ==> a[j] == b[j]
    ensures BitSerialCrc(a) != BitSerialCrc(b)
  {
    var lo := if start <= |a| then start else |a|;
    var hi := if start + 8 <= |a| then start + 8 else |a|;
    assert a == a[..lo] + a[lo..hi] + a[hi..];
    assert b == a[..lo] + b[lo..hi] + a[hi..];
    BurstsAreNoticed(a[..lo], a[lo..hi], b[lo..hi], a[hi..]);
  }

  // ----- What the complements at either end mean

  function Flip(b: bv8): bv8 {
    !b
  }

  function Complemented(data: seq<bv8>): (flipped: seq<bv8>)
    ensures |flipped| == |data|
  {
    seq(|data|, i requires 0 <= i < |data| => Flip(data[i]))
  }

  lemma PackedComplement(a: bv8, mask: bv64)
    ensures Xor(TopDiff(a, Flip(a)), Shr8(mask)) == Widened(mask)
  {
  }

  lemma {:induction false} ComplementsDifferEverywhere(data: seq<bv8>)
    ensures Packed(data, Complemented(data)) == TopBytes(|data|)
  {
    hide Xor, TopDiff, Shr8, Widened, Flip;
    if data != [] {
      var rest := data[1..];
      assert Complemented(data)[1..] == Complemented(rest) && Complemented(data)[0] == Flip(data[0]);
      ComplementsDifferEverywhere(rest);
      PackedComplement(data[0], TopBytes(|rest|));
    }
  }

  lemma AllEightBytes()
    ensures TopBytes(8) == !0 && Xor(!0, 0) == !0
  {
    assert TopBytes(2) == 0xffff000000000000;
    assert TopBytes(4) == 0xffffffff00000000;
    assert TopBytes(6) == 0xffffffffffff0000;
  }

  /** Starting with all ones is complementing the first eight bytes, and the result is the complement: of the
    * remainder of the message so changed, in a register that starts with zero. */
  lemma StartComplementsFirstBytes(data: seq<bv8>)
    requires |data| >= 8
    ensures BitSerialCrc(data) == !FeedBits(0, MessageBits(Complemented(data[..8]) + data[8..]))
  {
    hide Run, MessageBits, FeedBits, Packed, Xor, TopBytes;
    var head, rest := data[..8], data[8..];
    assert data == head + rest;
    ComplementsDifferEverywhere(head);
    AllEightBytes();
    WindowMeets(!0, 0, head, Complemented(head));
    RunAppend(!0, head, rest);
    RunAppend(0, Complemented(head), rest);
    RunIsBitSerial(!0, data);
    RunIsBitSerial(0, Complemented(head) + rest);
  }

  lemma ZeroByteChangesStart()
    ensures TableStep(!0, 0) != !0
  {
    assert Index(!0, 0) == 255;
  }

  /** A zero byte in front changes the CRC of every message. */
  lemma ZeroInFrontIsNoticed(data: seq<bv8>)
    ensures BitSerialCrc([0] + data) != BitSerialCrc(data)
  {
    hide TableStep, MessageBits, FeedBits, Not;
    ZeroByteChangesStart();
    RunStep(!0, [0] + data);
    assert ([0] + data)[1..] == data;
    SameBytesKeepApart(TableStep(!0, 0), !0, data);
    RunIsBitSerial(!0, [0] + data);
    RunIsBitSerial(!0, data);
    Complements(Run(!0, [0] + data), Run(!0, data));
  }

  /** Nothing has the CRC zero. */
  lemma EmptyMessage()
    ensures BitSerialCrc([]) == 0
  {
    assert MessageBits([]) == [];
  }

  lemma CheckSteps()
    ensures TableStep(0xffffffffffffffff, 0x31) == 0x8db4713229b2f2a5
    ensures TableStep(0x8db4713229b2f2a5, 0x32) == 0xf488d61a961b3128
    ensures TableStep(0xf488d61a961b3128, 0x33) == 0x2a0bb93a7813ca88
    ensures TableStep(0x2a0bb93a7813ca88, 0x34) == 0x33302b9fc23855a8
    ensures TableStep(0x33302b9fc23855a8, 0x35) == 0xfcf93a5065c329f9
    ensures TableStep(0xfcf93a5065c329f9, 0x36) == 0xc242b8ed1b26187a
    ensures TableStep(0xc242b8ed1b26187a, 0x37) == 0xcfc30460a7cc7b9f
    ensures TableStep(0xcfc30460a7cc7b9f, 0x38) == 0xcb9e4a0b1e7bf3b9
    ensures TableStep(0xcb9e4a0b1e7bf3b9, 0x39) == 0x9d13a61c0e5b0ff5
  {
    assert Index(0xffffffffffffffff, 0x31) == 206;
    assert Index(0x8db4713229b2f2a5, 0x32) == 191;
    assert Index(0xf488d61a961b3128, 0x33) == 199;
    assert Index(0x2a0bb93a7813ca88, 0x34) == 30;
    assert Index(0x33302b9fc23855a8, 0x35) == 6;
    assert Index(0xfcf93a5065c329f9, 0x36) == 202;
    assert Index(0xc242b8ed1b26187a, 0x37) == 245;
    assert Index(0xcfc30460a7cc7b9f, 0x38) == 247;
    assert Index(0xcb9e4a0b1e7bf3b9, 0x39) == 242;
  }

  /** The usual check: the nine digits "123456789". */
  lemma CheckValue()
    ensures BitSerialCrc([0x31, 0x32, 0x33, 0x34, 0x35, 0x36, 0x37, 0x38, 0x39]) == 0x62ec59e3f1a4f00a
  {
    CheckSteps();
    hide TableStep, MessageBits, FeedBits;
    var digits: seq<bv8> := [0x31, 0x32, 0x33, 0x34, 0x35, 0x36, 0x37, 0x38, 0x39];
    RunIsBitSerial(!0, digits);
    RunStep(!0, digits);
    RunStep(0x8db4713229b2f2a5, digits[1..]);
    RunStep(0xf488d61a961b3128, digits[2..]);
    RunStep(0x2a0bb93a7813ca88, digits[3..]);
    RunStep(0x33302b9fc23855a8, digits[4..]);
    RunStep(0xfcf93a5065c329f9, digits[5..]);
    RunStep(0xc242b8ed1b26187a, digits[6..]);
    RunStep(0xcfc30460a7cc7b9f, digits[7..]);
    RunStep(0xcb9e4a0b1e7bf3b9, digits[8..]);
    RunStep(0x9d13a61c0e5b0ff5, digits[9..]);
  }
}
