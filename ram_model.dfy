/**
 * What the memory-cell-array harness expects of the RAM it drives.
 *
 * A physical word is DATA_WIDTH = 160 bits, driven as CHUNKS = 5 chunks of
 * CHUNK_LEN = 32 bits. The harness stores 64-bit values: the low half goes in
 * chunk 0, the high half in chunk 1, and every other chunk is zero. Reading an
 * address rebuilds the 64-bit value from chunks 0 and 1.
 */
module RamModel {

  const DATA_WIDTH: nat := 160
  /** Number of addressable words. */
  const HEIGHT: nat := 128
  const CHUNK_LEN: nat := 32
  /** Chunks per physical word, DATA_WIDTH / CHUNK_LEN. */
  const CHUNKS: nat := 5

  /** A physical word is exactly CHUNKS chunks, and two chunks carry a 64-bit value. */
  lemma ChunkLayout()
    ensures DATA_WIDTH / CHUNK_LEN == CHUNKS && CHUNKS * CHUNK_LEN == DATA_WIDTH
    ensures 2 * CHUNK_LEN == 64 && 2 <= CHUNKS
  {
  }

  /** The chunk holding bits [0, 32) of a 64-bit value: data & 0xFFFFFFFF. */
  function LowChunk(data: bv64): bv32
  {
    (data & 0xFFFF_FFFF) as bv32
  }

  /** The chunk holding bits [32, 64) of a 64-bit value: (data >> 32) & 0xFFFFFFFF. */
  function HighChunk(data: bv64): bv32
  {
    ((data >> 32) & 0xFFFF_FFFF) as bv32
  }

  /** The 64-bit value rebuilt from a low and a high chunk, over unsigned 64-bit words. */
  function Reassemble(low: bv32, high: bv32): (data: bv64)
    ensures LowChunk(data) == low && HighChunk(data) == high
  {
    (low as bv64) | ((high as bv64) << 32)
  }

  /** Splitting a value into its two chunks and rebuilding it gives the value back. */
  lemma ReassembleChunks(data: bv64)
    ensures Reassemble(LowChunk(data), HighChunk(data)) == data
  {
  }

  /** The physical word the harness drives for a 64-bit value. */
  function PhysicalWord(data: bv64): (word: seq<bv32>)
    ensures |word| == CHUNKS
  {
    [LowChunk(data), HighChunk(data), 0, 0, 0]
  }

  /** The value a read rebuilds from a physical word: chunks 0 and 1. */
  function ReadBack(word: seq<bv32>): bv64
    requires |word| == CHUNKS
  {
    Reassemble(word[0], word[1])
  }

  /** Reading back the physical word of a value gives the value. */
  lemma ReadBackPhysicalWord(data: bv64)
    ensures ReadBack(PhysicalWord(data)) == data
  {
    ReassembleChunks(data);
  }

  /** Two values with the same physical word are equal: the chunk split loses nothing. */
  lemma PhysicalWordInjective(a: bv64, b: bv64)
    requires PhysicalWord(a) == PhysicalWord(b)
    ensures a == b
  {
    ReadBackPhysicalWord(a);
    ReadBackPhysicalWord(b);
  }

  /** The RAM as the harness drives it: the write-data pins and the expected contents of every address. */
  class MemCellArray {
    /** The wdata pins, one entry per chunk. */
    const wdata: array<bv32>
    /** The waddr pin. */
    var waddr: nat
    /** The physical word the harness expects at each address. */
    var cells: seq<seq<bv32>>

    ghost predicate Valid()
      reads this
    {
      wdata.Length == CHUNKS && waddr < HEIGHT && |cells| == HEIGHT &&
      forall a :: 0 <= a < HEIGHT ==> |cells[a]| == CHUNKS
    }

    /** A RAM whose initial contents are given; the harness does not depend on them. */
    constructor (initial: seq<seq<bv32>>)
      requires |initial| == HEIGHT && forall a :: 0 <= a < HEIGHT ==> |initial[a]| == CHUNKS
      ensures Valid() && fresh(wdata)
      ensures cells == initial && waddr == 0
    {
      wdata := new bv32[CHUNKS];
      waddr := 0;
      cells := initial;
    }

    /**
     * write_data: drives waddr, clears every wdata chunk, puts the low and high
     * halves of the value in chunks 0 and 1, and holds wen across two clock
     * ticks, which stores the driven word at the address.
     */
    method WriteData(addr: nat, data: bv64)
      requires Valid() && addr < HEIGHT
      modifies this, wdata
      ensures Valid()
      ensures waddr == addr && wdata[..] == PhysicalWord(data)
      ensures cells == old(cells)[addr := PhysicalWord(data)]
    {
      waddr := addr;
      var i := 0;
      while i < CHUNKS
        invariant 0 <= i <= CHUNKS
        invariant waddr == addr && cells == old(cells)
        invariant forall j :: 0 <= j < i ==> wdata[j] == 0
      {
        wdata[i] := 0;
        i := i + 1;
      }
      wdata[0] := LowChunk(data);
      wdata[1] := HighChunk(data);
      cells := cells[addr := wdata[..]];
    }

    /**
     * read_data: drives raddr and, after two ticks, rebuilds the 64-bit value
     * as rdata[0] | rdata[1] << 32 (unsigned; see ReadDataSigned for the
     * harness's signed arithmetic).
     */
    method ReadData(addr: nat) returns (result: bv64)
      requires Valid() && addr < HEIGHT
      ensures result == ReadBack(cells[addr])
    {
      var rdata := cells[addr];
      result := rdata[0] as bv64;
      result := result | ((rdata[1] as bv64) << 32);
    }
  }

  /** The two test values of the harness, as 64-bit patterns. */
  const TEST_DATA: bv64 := 0x1234_5678_9ABC_DEF0
  const TEST_DATA2: bv64 := 0xDEAD_BEEF_CAFE_BABE

  /** The addresses the harness writes. */
  const FIRST_ADDR: nat := 0
  const SECOND_ADDR: nat := 10

  /**
   * The harness's sequence: write TEST_DATA at address 0 and read it back,
   * write TEST_DATA2 at address 10 and read it back, then read address 0 again.
   */
  method RunScenario(initial: seq<seq<bv32>>) returns (readBack: bv64, readBack2: bv64, verifyFirst: bv64)
    requires |initial| == HEIGHT && forall a :: 0 <= a < HEIGHT ==> |initial[a]| == CHUNKS
    ensures readBack == TEST_DATA
    ensures readBack2 == TEST_DATA2
    ensures verifyFirst == TEST_DATA
  {
    var ram := new MemCellArray(initial);
    ram.WriteData(FIRST_ADDR, TEST_DATA);
    readBack := ram.ReadData(FIRST_ADDR);
    ReadBackPhysicalWord(TEST_DATA);
    ram.WriteData(SECOND_ADDR, TEST_DATA2);
    readBack2 := ram.ReadData(SECOND_ADDR);
    ReadBackPhysicalWord(TEST_DATA2);
    verifyFirst := ram.ReadData(FIRST_ADDR);
  }

  /** A write to one address leaves what a read of any other address returns unchanged. */
  lemma WriteKeepsOtherAddresses(cells: seq<seq<bv32>>, addr: nat, other: nat, data: bv64)
    requires |cells| == HEIGHT && forall a :: 0 <= a < HEIGHT ==> |cells[a]| == CHUNKS
    requires addr < HEIGHT && other < HEIGHT && other != addr
    ensures ReadBack(cells[addr := PhysicalWord(data)][other]) == ReadBack(cells[other])
    ensures ReadBack(cells[addr := PhysicalWord(data)][addr]) == data
  {
    ReadBackPhysicalWord(data);
  }

  /** Bounds of int64_t, and the modulus of its two's-complement representation. */
  const INT64_MIN: int := -0x8000_0000_0000_0000
  const INT64_MAX: int := 0x7FFF_FFFF_FFFF_FFFF
  const TWO_TO_64: int := 0x1_0000_0000_0000_0000

  /**
   * An integer converted to int64_t: reduced modulo 2^64 into
   * [INT64_MIN, INT64_MAX]. C++20 defines the conversion this way; earlier
   * standards leave it to the implementation, and gcc and clang define it so.
   */
  function ToInt64(x: int): (r: int)
    ensures INT64_MIN <= r <= INT64_MAX
    ensures (x - r) % TWO_TO_64 == 0
    ensures INT64_MIN <= x <= INT64_MAX ==> r == x
  {
    var m := x % TWO_TO_64;
    if m > INT64_MAX then m - TWO_TO_64 else m
  }

  /** The values a 32-bit chunk can hold, as integers. */
  const TWO_TO_32: int := 0x1_0000_0000

  /**
   * read_data as written, over int64_t, on the chunks' values: result =
   * rdata[0], then result |= ((int64_t)rdata[1]) << 32. rdata[1] is
   * non-negative, so from C++14 on the shift yields rdata[1] * 2^32 converted
   * to int64_t (under the C++11 wording it is undefined once that product
   * exceeds INT64_MAX). The shifted value's low 32 bits are zero, so the OR
   * adds rdata[0].
   */
  function ReadDataSigned(low: nat, high: nat): (r: int)
    requires low < TWO_TO_32 && high < TWO_TO_32
    ensures INT64_MIN <= r <= INT64_MAX
    ensures (r - (low + high * TWO_TO_32)) % TWO_TO_64 == 0
  {
    ToInt64(high * TWO_TO_32) + low
  }

  /** The signed read is the int64_t whose two's-complement pattern is the unsigned rebuild. */
  lemma ReadDataSignedIsToInt64(low: nat, high: nat)
    requires low < TWO_TO_32 && high < TWO_TO_32
    ensures ReadDataSigned(low, high) == ToInt64(low + high * TWO_TO_32)
  {
    var h := high * TWO_TO_32;
    if high >= 0x8000_0000 {
      assert ToInt64(h) == h - TWO_TO_64;
    } else {
      assert ToInt64(h) == h;
    }
  }

  /**
   * The shifted high chunk exceeds INT64_MAX, the case C++11 leaves undefined,
   * exactly when the chunk's top bit is set; then the value read is negative.
   */
  lemma ShiftExceedsInt64Iff(low: nat, high: nat)
    requires low < TWO_TO_32 && high < TWO_TO_32
    ensures high * TWO_TO_32 > INT64_MAX <==> high >= 0x8000_0000
    ensures ReadDataSigned(low, high) < 0 <==> high >= 0x8000_0000
  {
    ReadDataSignedIsToInt64(low, high);
  }

  /**
   * Both test values read back as the int64_t the harness wrote: the second
   * one's high chunk 0xDEADBEEF takes the shift past INT64_MAX, and the
   * two's-complement conversion gives the negative value test_data2 holds.
   */
  lemma TestValuesReadBackSigned()
    ensures LowChunk(TEST_DATA) == 0x9ABC_DEF0 && HighChunk(TEST_DATA) == 0x1234_5678
    ensures ReadDataSigned(0x9ABC_DEF0, 0x1234_5678) == ToInt64(0x1234_5678_9ABC_DEF0) == 0x1234_5678_9ABC_DEF0
    ensures LowChunk(TEST_DATA2) == 0xCAFE_BABE && HighChunk(TEST_DATA2) == 0xDEAD_BEEF
    ensures 0xDEAD_BEEF * TWO_TO_32 > INT64_MAX
    ensures ReadDataSigned(0xCAFE_BABE, 0xDEAD_BEEF) == ToInt64(0xDEAD_BEEF_CAFE_BABE) < 0
  {
    ReadDataSignedIsToInt64(0x9ABC_DEF0, 0x1234_5678);
    ReadDataSignedIsToInt64(0xCAFE_BABE, 0xDEAD_BEEF);
  }
}
