/** The CSD register: bit fields, capacity, and where the media test may write. */
module SdCardCsd {
  import opened Options
  import opened Bytes

  const SECTOR_BYTES: nat := 512
  const TEST_AREA_DISTANCE_FROM_END: nat := 16
  const TEST_BLOCK_COUNT: nat := 8

  /** The 16 bytes as the card's 128-bit register; bit 127 is sent first. */
  function Register(csd: seq<byte>): bv128
    requires |csd| == 16
  {
    ((csd[0] as bv128) << 120) | ((csd[1] as bv128) << 112) | ((csd[2] as bv128) << 104) | ((csd[3] as bv128) << 96)
    | ((csd[4] as bv128) << 88) | ((csd[5] as bv128) << 80) | ((csd[6] as bv128) << 72) | ((csd[7] as bv128) << 64)
    | ((csd[8] as bv128) << 56) | ((csd[9] as bv128) << 48) | ((csd[10] as bv128) << 40) | ((csd[11] as bv128) << 32)
    | ((csd[12] as bv128) << 24) | ((csd[13] as bv128) << 16) | ((csd[14] as bv128) << 8) | (csd[15] as bv128)
  }

  // The driver's shift-and-mask expressions.

  function Structure(csd: seq<byte>): bv2
    requires |csd| == 16
  {
    (csd[0] >> 6) as bv2
  }

  function SizeV2(csd: seq<byte>): bv22
    requires |csd| == 16
  {
    (((csd[7] & 0x3F) as bv22) << 16) | ((csd[8] as bv22) << 8) | (csd[9] as bv22)
  }

  function SizeV1(csd: seq<byte>): bv12
    requires |csd| == 16
  {
    (((csd[6] & 0x03) as bv12) << 10) | ((csd[7] as bv12) << 2) | ((csd[8] >> 6) as bv12)
  }

  function SizeMultiplier(csd: seq<byte>): bv3
    requires |csd| == 16
  {
    (((csd[9] & 0x03) as bv3) << 1) | ((csd[10] >> 7) as bv3)
  }

  function ReadBlockLength(csd: seq<byte>): bv4
    requires |csd| == 16
  {
    (csd[5] & 0x0F) as bv4
  }

  /** For every register, the expressions are the slices of sections 5.3.2 and 5.3.3 of the
      SD Physical Layer Simplified Specification: CSD_STRUCTURE [127:126], C_SIZE [69:48]
      (version 2) or [73:62] (version 1), C_SIZE_MULT [49:47], READ_BL_LEN [83:80]. */
  lemma StructureIsSlice(csd: seq<byte>)
    requires |csd| == 16
    ensures Structure(csd) == ((Register(csd) >> 126) & 0x3) as bv2
  {
  }

  lemma SizeV2IsSlice(csd: seq<byte>)
    requires |csd| == 16
    ensures SizeV2(csd) == ((Register(csd) >> 48) & 0x3F_FFFF) as bv22
  {
  }

  lemma SizeV1IsSlices(csd: seq<byte>)
    requires |csd| == 16
    ensures SizeV1(csd) == ((Register(csd) >> 62) & 0xFFF) as bv12
    ensures SizeMultiplier(csd) == ((Register(csd) >> 47) & 0x7) as bv3
    ensures ReadBlockLength(csd) == ((Register(csd) >> 80) & 0xF) as bv4
  {
  }

  function Power2(n: nat): nat {
    if n == 0 then 1 else 2 * Power2(n - 1)
  }

  /** How far the driver shifts C_SIZE + 1 of a version 1 register. */
  function Shift(csd: seq<byte>): nat
    requires |csd| == 16
  {
    SizeMultiplier(csd) as nat + 2 + ReadBlockLength(csd) as nat
  }

  /** sd_card_parse_csd: the number of 512-byte sectors, or None for structures 2 and 3. */
  function ParseCsd(csd: seq<byte>): Option<nat>
    requires |csd| == 16
  {
    if Structure(csd) == 1 then
      Some((SizeV2(csd) as nat + 1) * 1024)
    else if Structure(csd) == 0 then
      Some((SizeV1(csd) as nat + 1) * Power2(Shift(csd)) / SECTOR_BYTES)
    else
      None
  }

  lemma {:induction false} Power2Adds(m: nat, n: nat)
    ensures Power2(m + n) == Power2(m) * Power2(n)
  {
    if m > 0 {
      Power2Adds(m - 1, n);
    }
  }

  lemma {:induction false} Power2Monotone(m: nat, n: nat)
    requires m <= n
    ensures 0 < Power2(m) <= Power2(n)
  {
    if n > 0 {
      Power2Monotone(if m < n then m else m - 1, n - 1);
    }
  }

  /** BLOCKNR and BLOCK_LEN of section 5.3.2, from C_SIZE (bits 73..62), C_SIZE_MULT (bits
      49..47) and READ_BL_LEN (bits 83..80) of the register. */
  function BlockCount(register: bv128): nat {
    (((register >> 62) & 0xFFF) as bv12 as nat + 1) * Power2(((register >> 47) & 0x7) as bv3 as nat + 2)
  }

  function BlockBytes(register: bv128): nat {
    Power2(((register >> 80) & 0xF) as bv4 as nat)
  }

  /** A version 1 card's sectors hold its BLOCKNR * BLOCK_LEN bytes. */
  lemma CapacityV1(csd: seq<byte>)
    requires |csd| == 16 && Structure(csd) == 0
    ensures ParseCsd(csd) == Some(BlockCount(Register(csd)) * BlockBytes(Register(csd)) / SECTOR_BYTES)
  {
    SizeV1IsSlices(csd);
    var m, r := SizeMultiplier(csd) as nat + 2, ReadBlockLength(csd) as nat;
    Power2Adds(m, r);
    MultiplyAssociates(SizeV1(csd) as nat + 1, Power2(m), Power2(r));
  }

  /** A version 2 card holds (C_SIZE + 1) * 512 KByte, C_SIZE being bits 69..48 of its register. */
  lemma CapacityV2(csd: seq<byte>)
    requires |csd| == 16 && Structure(csd) == 1
    ensures ParseCsd(csd).Some?
    ensures ParseCsd(csd).value * SECTOR_BYTES == (((Register(csd) >> 48) & 0x3F_FFFF) as bv22 as nat + 1) * 512 * 1024
  {
    SizeV2IsSlice(csd);
  }

  /** Only structures 0 and 1, the top two bits of the register, are supported. */
  lemma SupportedIff(csd: seq<byte>)
    requires |csd| == 16
    ensures ParseCsd(csd).Some? <==> ((Register(csd) >> 126) & 0x3) as bv2 < 2
  {
    StructureIsSlice(csd);
  }

  lemma MultiplyAssociates(a: nat, b: nat, c: nat)
    ensures a * (b * c) == (a * b) * c
  {
  }

  lemma Power2Value()
    ensures Power2(10) == 0x400 && Power2(20) == 0x10_0000 && Power2(24) == 0x100_0000
  {
  }

  lemma CapacityV1Bounded(size: nat, shift: nat, limit: nat)
    requires size < 0x1000 && shift <= limit
    ensures (size + 1) * Power2(shift) <= 0x1000 * Power2(limit)
  {
  }

  /** No card reports more than 2^32 sectors; with READ_BL_LEN at most 11 a version 1 card has
      at most 2^23. */
  lemma SectorCountBounded(csd: seq<byte>)
    requires |csd| == 16 && ParseCsd(csd).Some?
    ensures ParseCsd(csd).value <= 0x1_0000_0000
    ensures Structure(csd) == 0 ==> ParseCsd(csd).value <= 0x800_0000
    ensures Structure(csd) == 0 && ReadBlockLength(csd) <= 11 ==> ParseCsd(csd).value <= 0x80_0000
  {
    if Structure(csd) == 0 {
      var size, length, shift := SizeV1(csd) as nat, ReadBlockLength(csd) as nat, Shift(csd);
      LengthAtMost(ReadBlockLength(csd));
      Power2Value();
      CapacityV1Bounded(size, shift, 24);
      if length <= 11 {
        CapacityV1Bounded(size, shift, 20);
      }
    }
  }

  /** The driver's 32-bit sums and its 64-bit shift and product lose nothing. */
  lemma IntermediatesFit(csd: seq<byte>)
    requires |csd| == 16
    ensures SizeV1(csd) as nat + 1 <= 0x1000 && SizeV2(csd) as nat + 1 <= 0x40_0000
    ensures Shift(csd) <= 24 && (SizeV1(csd) as nat + 1) * Power2(Shift(csd)) <= 0x10_0000_0000
    ensures (SizeV2(csd) as nat + 1) * 1024 <= 0x1_0000_0000
  {
    Power2Value();
    CapacityV1Bounded(SizeV1(csd) as nat, Shift(csd), 24);
  }

  lemma LengthAtMost(length: bv4)
    ensures length <= 11 ==> length as nat <= 11
  {
  }

  // ---------------------------------------------------------------- the test area

  function WireAddress(sector: uint32, highCapacity: bool): uint32 {
    if highCapacity then sector else (sector * SECTOR_BYTES) % 0x1_0000_0000
  }

  /** `(uint32_t)(sector_count - 16)`. */
  function TestSector(sectorCount: nat): uint32
    requires sectorCount > TEST_AREA_DISTANCE_FROM_END
  {
    (sectorCount - TEST_AREA_DISTANCE_FROM_END) % 0x1_0000_0000
  }

  /** `test_sector + block` in 32 bits. */
  function BlockSector(testSector: uint32, block: nat): uint32 {
    (testSector + block) % 0x1_0000_0000
  }

  /** Where the card must find block `block` of the test area, without any 32-bit wrap. */
  function TrueAddress(sectorCount: nat, block: nat, highCapacity: bool): int {
    (sectorCount - TEST_AREA_DISTANCE_FROM_END + block) * (if highCapacity then 1 else SECTOR_BYTES)
  }

  lemma SmallSector(count: nat, block: nat)
    requires TEST_AREA_DISTANCE_FROM_END < count <= 0x1_0000_0000 && block < TEST_BLOCK_COUNT
    ensures BlockSector(TestSector(count), block) == count - TEST_AREA_DISTANCE_FROM_END + block < count
  {
  }

  /** The cast loses nothing and all eight sectors lie on the card. */
  lemma TestAreaOnCard(csd: seq<byte>, block: nat)
    requires |csd| == 16 && ParseCsd(csd).Some? && ParseCsd(csd).value > TEST_AREA_DISTANCE_FROM_END
    requires block < TEST_BLOCK_COUNT
    ensures var count := ParseCsd(csd).value;
            BlockSector(TestSector(count), block) == count - TEST_AREA_DISTANCE_FROM_END + block < count
  {
    SectorCountBounded(csd);
    SmallSector(ParseCsd(csd).value, block);
  }

  lemma WrapIff(n: nat)
    ensures n % 0x1_0000_0000 == n <==> n < 0x1_0000_0000
  {
  }

  /** The eight addresses sent to the card are the true ones exactly when the card is sector
      addressed or small enough for 32-bit byte addresses. */
  lemma AddressesFaithfulIff(csd: seq<byte>, highCapacity: bool)
    requires |csd| == 16 && ParseCsd(csd).Some? && ParseCsd(csd).value > TEST_AREA_DISTANCE_FROM_END
    ensures var count := ParseCsd(csd).value;
            (forall block :: 0 <= block < TEST_BLOCK_COUNT ==>
              WireAddress(BlockSector(TestSector(count), block), highCapacity) ==
              TrueAddress(count, block, highCapacity))
            <==> highCapacity || count <= 0x80_0008
  {
    var count := ParseCsd(csd).value;
    forall block | 0 <= block < TEST_BLOCK_COUNT
      ensures WireAddress(BlockSector(TestSector(count), block), highCapacity) ==
              TrueAddress(count, block, highCapacity)
              <==> highCapacity || count - 16 + block < 0x80_0000
    {
      TestAreaOnCard(csd, block);
      WrapIff((count - 16 + block) * SECTOR_BYTES);
    }
    if !highCapacity && count > 0x80_0008 {
      assert WireAddress(BlockSector(TestSector(count), 7), highCapacity) != TrueAddress(count, 7, highCapacity);
    }
  }

  /** In particular for the standard's version 1 cards, on which every sector then has its
      own address. */
  lemma StandardCapacityAddresses(csd: seq<byte>, a: uint32, b: uint32)
    requires |csd| == 16 && Structure(csd) == 0 && ReadBlockLength(csd) <= 11
    requires a < ParseCsd(csd).value && b < ParseCsd(csd).value
    ensures WireAddress(a, false) == a * SECTOR_BYTES
    ensures WireAddress(a, false) == WireAddress(b, false) ==> a == b
  {
    SectorCountBounded(csd);
    WrapIff(a * SECTOR_BYTES);
    WrapIff(b * SECTOR_BYTES);
  }

  /** Wrapped or not, the eight addresses of a test run are pairwise different. */
  lemma TestAddressesDistinct(testSector: uint32, highCapacity: bool, i: nat, j: nat)
    requires i < j < TEST_BLOCK_COUNT
    ensures WireAddress(BlockSector(testSector, i), highCapacity) !=
            WireAddress(BlockSector(testSector, j), highCapacity)
  {
    var a, b := BlockSector(testSector, i), BlockSector(testSector, j);
    var k := j - i;
    assert b == a + k || b == a + k - 0x1_0000_0000;
    if !highCapacity {
      SectorWrap(a, b, k);
    }
  }

  lemma SectorWrap(a: uint32, b: uint32, k: nat)
    requires 0 < k < TEST_BLOCK_COUNT && (b == a + k || b == a + k - 0x1_0000_0000)
    ensures (a * SECTOR_BYTES) % 0x1_0000_0000 != (b * SECTOR_BYTES) % 0x1_0000_0000
  {
  }
}
