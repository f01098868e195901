/**
 The constant tables of the DES implementation in cntlm-0.92.3/xcrypt.c.

 Each table is a total function of its index, written as rows of eight entries in
 the order of the C initialisers.
 */
module DesTables {

  /** Entry number i % 8 of a row of eight. */
  function Pick<T>(i: bv6, a0: T, a1: T, a2: T, a3: T, a4: T, a5: T, a6: T, a7: T): T {
    if i & 4 == 0 then
      if i & 2 == 0 then (if i & 1 == 0 then a0 else a1) else (if i & 1 == 0 then a2 else a3)
    else
      if i & 2 == 0 then (if i & 1 == 0 then a4 else a5) else (if i & 1 == 0 then a6 else a7)
  }

  function Sbox1(i: bv6): bv32 {
    match i >> 3
    case 0 => Pick(i, 0x01010400, 0x00000000, 0x00010000, 0x01010404,
                   0x01010004, 0x00010404, 0x00000004, 0x00010000)
    case 1 => Pick(i, 0x00000400, 0x01010400, 0x01010404, 0x00000400,
                   0x01000404, 0x01010004, 0x01000000, 0x00000004)
    case 2 => Pick(i, 0x00000404, 0x01000400, 0x01000400, 0x00010400,
                   0x00010400, 0x01010000, 0x01010000, 0x01000404)
    case 3 => Pick(i, 0x00010004, 0x01000004, 0x01000004, 0x00010004,
                   0x00000000, 0x00000404, 0x00010404, 0x01000000)
    case 4 => Pick(i, 0x00010000, 0x01010404, 0x00000004, 0x01010000,
                   0x01010400, 0x01000000, 0x01000000, 0x00000400)
    case 5 => Pick(i, 0x01010004, 0x00010000, 0x00010400, 0x01000004,
                   0x00000400, 0x00000004, 0x01000404, 0x00010404)
    case 6 => Pick(i, 0x01010404, 0x00010004, 0x01010000, 0x01000404,
                   0x01000004, 0x00000404, 0x00010404, 0x01010400)
    case _ => Pick(i, 0x00000404, 0x01000400, 0x01000400, 0x00000000,
                   0x00010004, 0x00010400, 0x00000000, 0x01010004)
  }

  function Sbox2(i: bv6): bv32 {
    match i >> 3
    case 0 => Pick(i, 0x80108020, 0x80008000, 0x00008000, 0x00108020,
                   0x00100000, 0x00000020, 0x80100020, 0x80008020)
    case 1 => Pick(i, 0x80000020, 0x80108020, 0x80108000, 0x80000000,
                   0x80008000, 0x00100000, 0x00000020, 0x80100020)
    case 2 => Pick(i, 0x00108000, 0x00100020, 0x80008020, 0x00000000,
                   0x80000000, 0x00008000, 0x00108020, 0x80100000)
    case 3 => Pick(i, 0x00100020, 0x80000020, 0x00000000, 0x00108000,
                   0x00008020, 0x80108000, 0x80100000, 0x00008020)
    case 4 => Pick(i, 0x00000000, 0x00108020, 0x80100020, 0x00100000,
                   0x80008020, 0x80100000, 0x80108000, 0x00008000)
    case 5 => Pick(i, 0x80100000, 0x80008000, 0x00000020, 0x80108020,
                   0x00108020, 0x00000020, 0x00008000, 0x80000000)
    case 6 => Pick(i, 0x00008020, 0x80108000, 0x00100000, 0x80000020,
                   0x00100020, 0x80008020, 0x80000020, 0x00100020)
    case _ => Pick(i, 0x00108000, 0x00000000, 0x80008000, 0x00008020,
                   0x80000000, 0x80100020, 0x80108020, 0x00108000)
  }

  function Sbox3(i: bv6): bv32 {
    match i >> 3
    case 0 => Pick(i, 0x00000208, 0x08020200, 0x00000000, 0x08020008,
                   0x08000200, 0x00000000, 0x00020208, 0x08000200)
    case 1 => Pick(i, 0x00020008, 0x08000008, 0x08000008, 0x00020000,
                   0x08020208, 0x00020008, 0x08020000, 0x00000208)
    case 2 => Pick(i, 0x08000000, 0x00000008, 0x08020200, 0x00000200,
                   0x00020200, 0x08020000, 0x08020008, 0x00020208)
    case 3 => Pick(i, 0x08000208, 0x00020200, 0x00020000, 0x08000208,
                   0x00000008, 0x08020208, 0x00000200, 0x08000000)
    case 4 => Pick(i, 0x08020200, 0x08000000, 0x00020008, 0x00000208,
                   0x00020000, 0x08020200, 0x08000200, 0x00000000)
    case 5 => Pick(i, 0x00000200, 0x00020008, 0x08020208, 0x08000200,
                   0x08000008, 0x00000200, 0x00000000, 0x08020008)
    case 6 => Pick(i, 0x08000208, 0x00020000, 0x08000000, 0x08020208,
                   0x00000008, 0x00020208, 0x00020200, 0x08000008)
    case _ => Pick(i, 0x08020000, 0x08000208, 0x00000208, 0x08020000,
                   0x00020208, 0x00000008, 0x08020008, 0x00020200)
  }

  function Sbox4(i: bv6): bv32 {
    match i >> 3
    case 0 => Pick(i, 0x00802001, 0x00002081, 0x00002081, 0x00000080,
                   0x00802080, 0x00800081, 0x00800001, 0x00002001)
    case 1 => Pick(i, 0x00000000, 0x00802000, 0x00802000, 0x00802081,
                   0x00000081, 0x00000000, 0x00800080, 0x00800001)
    case 2 => Pick(i, 0x00000001, 0x00002000, 0x00800000, 0x00802001,
                   0x00000080, 0x00800000, 0x00002001, 0x00002080)
    case 3 => Pick(i, 0x00800081, 0x00000001, 0x00002080, 0x00800080,
                   0x00002000, 0x00802080, 0x00802081, 0x00000081)
    case 4 => Pick(i, 0x00800080, 0x00800001, 0x00802000, 0x00802081,
                   0x00000081, 0x00000000, 0x00000000, 0x00802000)
    case 5 => Pick(i, 0x00002080, 0x00800080, 0x00800081, 0x00000001,
                   0x00802001, 0x00002081, 0x00002081, 0x00000080)
    case 6 => Pick(i, 0x00802081, 0x00000081, 0x00000001, 0x00002000,
                   0x00800001, 0x00002001, 0x00802080, 0x00800081)
    case _ => Pick(i, 0x00002001, 0x00002080, 0x00800000, 0x00802001,
                   0x00000080, 0x00800000, 0x00002000, 0x00802080)
  }

  function Sbox5(i: bv6): bv32 {
    match i >> 3
    case 0 => Pick(i, 0x00000100, 0x02080100, 0x02080000, 0x42000100,
                   0x00080000, 0x00000100, 0x40000000, 0x02080000)
    case 1 => Pick(i, 0x40080100, 0x00080000, 0x02000100, 0x40080100,
                   0x42000100, 0x42080000, 0x00080100, 0x40000000)
    case 2 => Pick(i, 0x02000000, 0x40080000, 0x40080000, 0x00000000,
                   0x40000100, 0x42080100, 0x42080100, 0x02000100)
    case 3 => Pick(i, 0x42080000, 0x40000100, 0x00000000, 0x42000000,
                   0x02080100, 0x02000000, 0x42000000, 0x00080100)
    case 4 => Pick(i, 0x00080000, 0x42000100, 0x00000100, 0x02000000,
                   0x40000000, 0x02080000, 0x42000100, 0x40080100)
    case 5 => Pick(i, 0x02000100, 0x40000000, 0x42080000, 0x02080100,
                   0x40080100, 0x00000100, 0x02000000, 0x42080000)
    case 6 => Pick(i, 0x42080100, 0x00080100, 0x42000000, 0x42080100,
                   0x02080000, 0x00000000, 0x40080000, 0x42000000)
    case _ => Pick(i, 0x00080100, 0x02000100, 0x40000100, 0x00080000,
                   0x00000000, 0x40080000, 0x02080100, 0x40000100)
  }

  function Sbox6(i: bv6): bv32 {
    match i >> 3
    case 0 => Pick(i, 0x20000010, 0x20400000, 0x00004000, 0x20404010,
                   0x20400000, 0x00000010, 0x20404010, 0x00400000)
    case 1 => Pick(i, 0x20004000, 0x00404010, 0x00400000, 0x20000010,
                   0x00400010, 0x20004000, 0x20000000, 0x00004010)
    case 2 => Pick(i, 0x00000000, 0x00400010, 0x20004010, 0x00004000,
                   0x00404000, 0x20004010, 0x00000010, 0x20400010)
    case 3 => Pick(i, 0x20400010, 0x00000000, 0x00404010, 0x20404000,
                   0x00004010, 0x00404000, 0x20404000, 0x20000000)
    case 4 => Pick(i, 0x20004000, 0x00000010, 0x20400010, 0x00404000,
                   0x20404010, 0x00400000, 0x00004010, 0x20000010)
    case 5 => Pick(i, 0x00400000, 0x20004000, 0x20000000, 0x00004010,
                   0x20000010, 0x20404010, 0x00404000, 0x20400000)
    case 6 => Pick(i, 0x00404010, 0x20404000, 0x00000000, 0x20400010,
                   0x00000010, 0x00004000, 0x20400000, 0x00404010)
    case _ => Pick(i, 0x00004000, 0x00400010, 0x20004010, 0x00000000,
                   0x20404000, 0x20000000, 0x00400010, 0x20004010)
  }

  function Sbox7(i: bv6): bv32 {
    match i >> 3
    case 0 => Pick(i, 0x00200000, 0x04200002, 0x04000802, 0x00000000,
                   0x00000800, 0x04000802, 0x00200802, 0x04200800)
    case 1 => Pick(i, 0x04200802, 0x00200000, 0x00000000, 0x04000002,
                   0x00000002, 0x04000000, 0x04200002, 0x00000802)
    case 2 => Pick(i, 0x04000800, 0x00200802, 0x00200002, 0x04000800,
                   0x04000002, 0x04200000, 0x04200800, 0x00200002)
    case 3 => Pick(i, 0x04200000, 0x00000800, 0x00000802, 0x04200802,
                   0x00200800, 0x00000002, 0x04000000, 0x00200800)
    case 4 => Pick(i, 0x04000000, 0x00200800, 0x00200000, 0x04000802,
                   0x04000802, 0x04200002, 0x04200002, 0x00000002)
    case 5 => Pick(i, 0x00200002, 0x04000000, 0x04000800, 0x00200000,
                   0x04200800, 0x00000802, 0x00200802, 0x04200800)
    case 6 => Pick(i, 0x00000802, 0x04000002, 0x04200802, 0x04200000,
                   0x00200800, 0x00000000, 0x00000002, 0x04200802)
    case _ => Pick(i, 0x00000000, 0x00200802, 0x04200000, 0x00000800,
                   0x04000002, 0x04000800, 0x00000800, 0x00200002)
  }

  function Sbox8(i: bv6): bv32 {
    match i >> 3
    case 0 => Pick(i, 0x10001040, 0x00001000, 0x00040000, 0x10041040,
                   0x10000000, 0x10001040, 0x00000040, 0x10000000)
    case 1 => Pick(i, 0x00040040, 0x10040000, 0x10041040, 0x00041000,
                   0x10041000, 0x00041040, 0x00001000, 0x00000040)
    case 2 => Pick(i, 0x10040000, 0x10000040, 0x10001000, 0x00001040,
                   0x00041000, 0x00040040, 0x10040040, 0x10041000)
    case 3 => Pick(i, 0x00001040, 0x00000000, 0x00000000, 0x10040040,
                   0x10000040, 0x10001000, 0x00041040, 0x00040000)
    case 4 => Pick(i, 0x00041040, 0x00040000, 0x10041000, 0x00001000,
                   0x00000040, 0x10040040, 0x00001000, 0x00041040)
    case 5 => Pick(i, 0x10001000, 0x00000040, 0x10000040, 0x10040000,
                   0x10040040, 0x10000000, 0x00040000, 0x10001040)
    case 6 => Pick(i, 0x00000000, 0x10041040, 0x00040040, 0x10000040,
                   0x10040000, 0x10001000, 0x10001040, 0x00000000)
    case _ => Pick(i, 0x10041040, 0x00041000, 0x00041000, 0x00001040,
                   0x00001040, 0x00040040, 0x10000000, 0x10041000)
  }

  function LeftKeySwap(i: bv4): bv32 {
    match i >> 3
    case 0 => Pick(i as bv6, 0x00000000, 0x00000001, 0x00000100, 0x00000101,
                            0x00010000, 0x00010001, 0x00010100, 0x00010101)
    case _ => Pick(i as bv6, 0x01000000, 0x01000001, 0x01000100, 0x01000101,
                            0x01010000, 0x01010001, 0x01010100, 0x01010101)
  }

  function RightKeySwap(i: bv4): bv32 {
    match i >> 3
    case 0 => Pick(i as bv6, 0x00000000, 0x01000000, 0x00010000, 0x01010000,
                            0x00000100, 0x01000100, 0x00010100, 0x01010100)
    case _ => Pick(i as bv6, 0x00000001, 0x01000001, 0x00010001, 0x01010001,
                            0x00000101, 0x01000101, 0x00010101, 0x01010101)
  }

  /** Left rotations of the two key halves before each round. */
  const ENCRYPT_ROTATE_TAB: seq<bv6> := [1, 1, 2, 2, 2, 2, 2, 2, 1, 2, 2, 2, 2, 2, 2, 1]

  /** The 64 weak keys with cleared parity bits, each read as a big-endian 64-bit value. */
  function WeakKey(i: bv6): bv64 {
    match i >> 3
    case 0 => Pick(i, 0x0000000000000000, 0x00001e1e00000e0e, 0x0000e0e00000f0f0, 0x0000fefe0000fefe,
                   0x001e001e000e000e, 0x001e1e00000e0e00, 0x001ee0fe000ef0fe, 0x001efee0000efef0)
    case 1 => Pick(i, 0x00e000e000f000f0, 0x00e01efe00f00efe, 0x00e0e00000f0f000, 0x00e0fe1e00f0fe0e,
                   0x00fe00fe00fe00fe, 0x00fe1ee000fe0ef0, 0x00fee01e00fef00e, 0x00fefe0000fefe00)
    case 2 => Pick(i, 0x1e00001e0e00000e, 0x1e001e000e000e00, 0x1e00e0fe0e00f0fe, 0x1e00fee00e00fef0,
                   0x1e1e00000e0e0000, 0x1e1e1e1e0e0e0e0e, 0x1e1ee0e00e0ef0f0, 0x1e1efefe0e0efefe)
    case 3 => Pick(i, 0x1ee000fe0ef000fe, 0x1ee01ee00ef00ef0, 0x1ee0e01e0ef0f00e, 0x1ee0fe000ef0fe00,
                   0x1efe00e00efe00f0, 0x1efe1efe0efe0efe, 0x1efee0000efef000, 0x1efefe1e0efefe0e)
    case 4 => Pick(i, 0xe00000e0f00000f0, 0xe0001efef0000efe, 0xe000e000f000f000, 0xe000fe1ef000fe0e,
                   0xe01e00fef00e00fe, 0xe01e1ee0f00e0ef0, 0xe01ee01ef00ef00e, 0xe01efe00f00efe00)
    case 5 => Pick(i, 0xe0e00000f0f00000, 0xe0e01e1ef0f00e0e, 0xe0e0e0e0f0f0f0f0, 0xe0e0fefef0f0fefe,
                   0xe0fe001ef0fe000e, 0xe0fe1e00f0fe0e00, 0xe0fee0fef0fef0fe, 0xe0fefee0f0fefef0)
    case 6 => Pick(i, 0xfe0000fefe0000fe, 0xfe001ee0fe000ef0, 0xfe00e01efe00f00e, 0xfe00fe00fe00fe00,
                   0xfe1e00e0fe0e00f0, 0xfe1e1efefe0e0efe, 0xfe1ee000fe0ef000, 0xfe1efe1efe0efe0e)
    case _ => Pick(i, 0xfee0001efef0000e, 0xfee01e00fef00e00, 0xfee0e0fefef0f0fe, 0xfee0fee0fef0fef0,
                   0xfefe0000fefe0000, 0xfefe1e1efefe0e0e, 0xfefee0e0fefef0f0, 0xfefefefefefefefe)
  }
}
