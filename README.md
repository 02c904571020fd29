# FPGA BRAM transpose testbenches — a Dafny reference model

The repository is a set of Verilator testbenches for block-RAM designs: a
circulant matrix store with and without a barrel-shift corrector, a
memory-module wrapper around it, a wide memory-cell array, and an M20K-style
dual-port block RAM with configurable logical width and depth. The Verilog
devices themselves are not part of this model. What is modelled is what the
testbenches compute and expect:

- **Word packing** (`packing.dfy`). A 4 x 4 matrix of 8-bit elements moves one
  row per 32-bit word, element i in bits [8i, 8i + 8). `make_word`/`extract_col`
  and `row_to_elements`/`elements_to_row` are one split/join pair, proved
  mutually inverse.
- **Rotation** (`rotation.dfy`). One rotation function on rows of
  COLS_PER_WORD = 4 elements, with permutation, composition and inverse laws.
- **The test matrix** (`test_matrix.dfy`). Entry (r, c) is
  10 * (r + 1) + (c + 1); its transpose; the write loop shared by both circulant
  harnesses.
- **The single-word circulant harness** (`single_word_circulant.dfy`). The
  stored layout of row r is the row rotated left by r; the read of row r starts
  at chunk r mod C; the harness shows a read word at index
  (i + MATRIX_DIM - r) mod C, which is a rotation right by r.
- **The barrel-shifter harness** (`barrel_shifter.dfy`). The shift amount
  (C - r) mod C, the (commented-out) shift check and transpose check as
  methods proved against their specifications, and the raw word each row must
  have for both checks to pass.
- **The two rotation directions are kept apart.** The single-word harness
  treats the transpose as the raw word rotated right by r
  (`tb/tb_single_word_circulant.cpp:139`). The barrel-shifter harness's shift
  check makes the corrected word the raw word rotated left by r
  (`tb/tb_circulant_barrel_shifter.cpp:202-203`). `RawDirectionsDisagree`
  proves that the raw words the two harnesses expect agree only on rows 0
  and 2.
- **The memory-module harness** (`mem_modules.dfy`). `row_to_elements` and
  `elements_to_row` as loops proved against the packing functions; `write_row`
  with its size assertion as an explicit failure outcome; the documented
  circulant rows of base row [1, 2, 3, 4] (rotations right).
- **The memory-cell array harness** (`ram_model.dfy`). A 64-bit value is
  driven as chunk 0 (low half) and chunk 1 (high half) of a five-chunk, 160-bit
  word, with the other chunks zeroed; reading rebuilds the value. The array is
  a class whose `write_data` zeroing loop works on an array of chunks.
- **The M20K harness** (`m20k.dfy`). The `M20kTester` class keeps the
  harness's own state: `ref_memory`, the logical width and depth, and the
  test/pass/fail counters. Its write helpers store `data & ((1 << log_width) - 1)`,
  and its read helpers mask the device output unless raw. The block the
  harness expects is modelled separately as a pure dual-port memory: a map
  from address to word, writes truncated to the logical width, and a cycle in
  which both ports read the contents from before the cycle and then both
  writes land. Each of the six test procedures is a method that drives such a
  block; each is proved to report no failure, and the default 8 x 2048
  configuration is proved to pass all 42 of its checks.

Design notes on the M20K model:

- No harness reads an address before writing it, and the device's initial
  contents are not known, so `Lookup` returns no value for an unwritten
  address. Every read in the test procedures is proved to hit a written
  address.
- The read helpers return `data_out` unmasked on a raw read. The reference
  block stores words already truncated to the logical width, so a raw read of
  it equals a masked read (`RawReadOfStoredWord`).
- `ref_memory` is written only where the code writes it: by the four write
  helpers and by test 1 after each check. The direct pin writes of tests 4
  and 6 record nothing, and test 5 clears the map first. Each test procedure
  states the whole of `ref_memory` and of the block afterwards, as the
  ordered list of its stores (`Stores`). After the core tests `ref_memory`
  holds exactly addresses 50 to 57 and 100. At address 100 it keeps the word
  written before the collision, while the block holds the collision's word
  (`CoreTestsRecordStale`).

## Model

| member | source | states |
|---|---|---|
| Packing.WordHoldsOneRow | tb/tb_single_word_circulant.cpp:12-15 | COLS_PER_WORD = WORD_LEN / COL_WIDTH = MATRIX_DIM = 4, and a row of MATRIX_DIM elements fills a word exactly |
| Packing.FieldOffsetIsProduct | tb/tb_single_word_circulant.cpp:45-47 | the bit offset of element i is i * COL_WIDTH |
| Packing.ExtractCol | tb/tb_single_word_circulant.cpp:45-47 | extract_col: the byte at bit offset col_idx * COL_WIDTH; ExtractColFields, MakeWord and MakeWordOfColumns pin it down as the inverse of make_word |
| Packing.ExtractColFields | tb/tb_single_word_circulant.cpp:45-47 | element i of a word is exactly its bits [8i, 8i + 8): shifted back into place it is the word with every other bit cleared |
| Packing.MakeWord | tb/tb_single_word_circulant.cpp:40-42 | extracting column i of make_word(c0, c1, c2, c3) gives c_i, for every i in 0 .. 3 |
| Packing.MakeWordOfColumns | tb/tb_circulant_barrel_shifter.cpp:40-47 | make_word of the four extracted columns of any word returns that word |
| Packing.Elements | tb/tb_single_word_circulant.cpp:45-47 | a word has MATRIX_DIM elements, element i being extract_col(word, i) |
| Packing.Join | tb/tb_with_mem_modules.cpp:64-70 | splitting the word built from a row of MATRIX_DIM elements gives the row back |
| Packing.JoinElements | tb/tb_with_mem_modules.cpp:55-70 | joining the elements of any word gives the word back |
| Packing.ElementsInjective | tb/tb_single_word_circulant.cpp:40-47 | two words with the same elements are equal |
| Rotation.RotLeft | tb/tb_single_word_circulant.cpp:76 | position i of the layout holds element (i + k) mod C (its definition); the result is a row of C elements |
| Rotation.RotRight | tb/tb_with_mem_modules.cpp:158-163 | right rotation by k, as left rotation by C - (k mod C); the result is a row of C elements |
| Rotation.RotRightAt | tb/tb_with_mem_modules.cpp:158-163 | right rotation by k moves element i to position (i + k) mod C |
| Rotation.RotLeftPermutation | tb/tb_single_word_circulant.cpp:76 | the circulant layout only reorders a row: same multiset of elements |
| Rotation.RotRightPermutation | tb/tb_with_mem_modules.cpp:158-163 | a right rotation only reorders a row |
| Rotation.RotLeftAdd | tb/tb_single_word_circulant.cpp:76 | rotating left by a and then by b is rotating left by a + b |
| Rotation.RotLeftInverse | tb/tb_single_word_circulant.cpp:139 | rot(rot(s, k), C - k) == s for k <= C |
| Rotation.RotRightUndoesRotLeft | tb/tb_single_word_circulant.cpp:139 | right rotation by k undoes left rotation by k, and left undoes right |
| Rotation.UnrotateIndex | tb/tb_single_word_circulant.cpp:139 | reading a row rotated left by r at (i + C - r) mod C gives its element i |
| TestMatrix.TestEntry | tb/tb_circulant_barrel_shifter.cpp:64-67 | entry (r, c) as the uint8_t column value, listed as a table; TestEntryFits proves it is 10 * (r + 1) + (c + 1) |
| TestMatrix.TestEntryFits | tb/tb_circulant_barrel_shifter.cpp:64-67 | every entry 10 * (r + 1) + (c + 1) is below 256, so the uint8_t column value equals it |
| TestMatrix.TestEntriesDistinct | tb/tb_circulant_barrel_shifter.cpp:64-67 | entries at different coordinates differ |
| TestMatrix.TestRow | tb/tb_circulant_barrel_shifter.cpp:64-67 | row r of the matrix has COLS_PER_WORD entries |
| TestMatrix.Matrix | tb/tb_circulant_barrel_shifter.cpp:59-67 | the test matrix is square, MATRIX_DIM x COLS_PER_WORD |
| TestMatrix.Transpose | tb/tb_circulant_barrel_shifter.cpp:172 | the transpose of a square matrix is square (element c of row r is m[c][r]) |
| TestMatrix.TransposeInvolution | tb/tb_circulant_barrel_shifter.cpp:172 | transposing twice gives the matrix back |
| TestMatrix.TransposeRow | tb/tb_circulant_barrel_shifter.cpp:168-176 | row r of the expected transpose has COLS_PER_WORD entries |
| TestMatrix.TransposeRowAt | tb/tb_circulant_barrel_shifter.cpp:184 | element c of transposed row r is entry (c, r), the value 10 * (c + 1) + (r + 1) |
| TestMatrix.FillColVals | tb/tb_single_word_circulant.cpp:62-65 | the col_vals array of row r holds row r of the test matrix |
| TestMatrix.WriteTestMatrix | tb/tb_circulant_barrel_shifter.cpp:59-84 | row r is written at row r, column 0, as one word whose elements are row r |
| SingleWordCirculant.CirculantLayout | tb/tb_single_word_circulant.cpp:75-78 | position i of the layout of row r holds column (r + i) mod C, and the layout is a permutation of the row |
| SingleWordCirculant.ReadStartChunk | tb/tb_single_word_circulant.cpp:112 | the start chunk r mod C is below C, equals r for r < C, and is r's residue |
| SingleWordCirculant.Unrotated | tb/tb_single_word_circulant.cpp:138-141 | the displayed view of a read word has C elements |
| SingleWordCirculant.UnrotateIndexIsRotRight | tb/tb_single_word_circulant.cpp:139 | the index (i + MATRIX_DIM - r) mod C is the right-rotation index (i + C - r mod C) mod C |
| SingleWordCirculant.UnrotatedIsRotRight | tb/tb_single_word_circulant.cpp:139 | the displayed view of row r is the word rotated right by r |
| SingleWordCirculant.UnrotatedUndoesLayout | tb/tb_single_word_circulant.cpp:139 | the displayed view of the circulant layout of a row is the row |
| SingleWordCirculant.ShowsTransposeIff | tb/tb_single_word_circulant.cpp:133-143 | the view of row r reads as transposed row r exactly when the raw word is the transposed row rotated left by r |
| BarrelShifter.ShiftAmount | tb/tb_circulant_barrel_shifter.cpp:196 | the shift (C - r) mod C is below C, is 0 exactly when r mod C is 0, and r + shift is a multiple of C |
| BarrelShifter.ShiftCancels | tb/tb_circulant_barrel_shifter.cpp:203 | offsets by r and by the shift amount cancel modulo C |
| BarrelShifter.ShiftCorrectIsRotation | tb/tb_circulant_barrel_shifter.cpp:199-208 | the shift check holds exactly when the corrected row is the raw row rotated left by r |
| BarrelShifter.ShiftCorrectPermutation | tb/tb_circulant_barrel_shifter.cpp:199-208 | a corrected row passing the shift check has the same elements as the raw row |
| BarrelShifter.CheckShift | tb/tb_circulant_barrel_shifter.cpp:200-209 | the loop's flag is true exactly when raw element i equals corrected element (i + shift) mod C for every i |
| BarrelShifter.ExpectedShiftedWords | tb/tb_circulant_barrel_shifter.cpp:168-176 | one expected corrected word per row |
| BarrelShifter.ShowsTransposedRowIff | tb/tb_circulant_barrel_shifter.cpp:183-190 | a word shows transposed row r exactly when it is the expected corrected word of row r |
| BarrelShifter.RowFlagsShowTranspose | tb/tb_circulant_barrel_shifter.cpp:179-192 | flags that compare words with the expected words are the flags of rows showing the transpose |
| BarrelShifter.CheckTranspose | tb/tb_circulant_barrel_shifter.cpp:179-192 | row_correct[r] is true exactly when corrected row r is transposed row r; transpose_correct exactly when every row is |
| BarrelShifter.CheckTransposedRow | tb/tb_circulant_barrel_shifter.cpp:182-190 | the inner loop's flag is true exactly when the word's elements are transposed row r |
| BarrelShifter.RawWordIff | tb/tb_circulant_barrel_shifter.cpp:199-208 | the shift check against transposed row r holds for exactly one raw word: the transposed row rotated right by r |
| BarrelShifter.LeftRightAgreeIff | tb/tb_circulant_barrel_shifter.cpp:202-203 | on a row of distinct elements, rotating right by r equals rotating left by r exactly when r is even |
| BarrelShifter.TransposeRowDistinct | tb/tb_circulant_barrel_shifter.cpp:184 | the entries of a transposed row are pairwise distinct |
| BarrelShifter.RawDirectionsDisagree | tb/tb_circulant_barrel_shifter.cpp:202-203 | the raw word this harness expects for row r equals the single-word harness's exactly when r is even |
| MemModules.RowWidthIsWord | tb/tb_with_mem_modules.cpp:13-15 | ROW_WIDTH = MATRIX_DIM * MEM_WIDTH = 32 |
| MemModules.RowToElements | tb/tb_with_mem_modules.cpp:55-61 | the loop returns MATRIX_DIM elements, element i being bits [8i, 8i + 8) of the word |
| MemModules.OrChainIsMakeWord | tb/tb_with_mem_modules.cpp:66-68 | OR-ing the four elements into their fields in order builds make_word's word |
| MemModules.PackedPrefixIsJoin | tb/tb_with_mem_modules.cpp:64-70 | after MATRIX_DIM steps the word holds exactly the first MATRIX_DIM elements |
| MemModules.ElementsToRow | tb/tb_with_mem_modules.cpp:64-70 | the loop packs the first MATRIX_DIM elements, and splitting the result gives them back |
| MemModules.WriteRow | tb/tb_with_mem_modules.cpp:85-103 | the size assertion fails exactly when the row does not have MATRIX_DIM elements; otherwise the row is driven as one packed word at its address |
| MemModules.BasicTestMatrix | tb/tb_with_mem_modules.cpp:126-131 | four rows of four elements |
| MemModules.WriteBasicMatrix | tb/tb_with_mem_modules.cpp:133-136 | row r of the test matrix is driven at address r, and its word splits back into the row |
| MemModules.DocumentedCirculantRow | tb/tb_with_mem_modules.cpp:158-163 | documented transform k of [1, 2, 3, 4] is the row rotated right by k |
| RamModel.ChunkLayout | tb/tb_ram_model.cpp:6-8 | DATA_WIDTH / CHUNK_LEN = 5 chunks fill the word exactly, and a 64-bit value takes two of them |
| RamModel.LowChunk | tb/tb_ram_model.cpp:30 | chunk 0 of a value: data & 0xFFFFFFFF; Reassemble and ReassembleChunks make it, with HighChunk, the inverse of the rebuild |
| RamModel.HighChunk | tb/tb_ram_model.cpp:31 | chunk 1 of a value: (data >> 32) & 0xFFFFFFFF, over the value's 64-bit pattern |
| RamModel.Reassemble | tb/tb_ram_model.cpp:44-47 | the rebuilt value's low and high chunks are the two chunks read |
| RamModel.ReassembleChunks | tb/tb_ram_model.cpp:30-31 | splitting a value into its two chunks and rebuilding it gives the value |
| RamModel.PhysicalWord | tb/tb_ram_model.cpp:27-31 | the driven word has DATA_WIDTH / CHUNK_LEN chunks |
| RamModel.ReadBack | tb/tb_ram_model.cpp:45-46 | the value rebuilt from chunks 0 and 1 of a physical word, over unsigned 64-bit words; ReadBackPhysicalWord is its round trip |
| RamModel.ReadBackPhysicalWord | tb/tb_ram_model.cpp:44-47 | reading back the driven word of a value gives the value |
| RamModel.PhysicalWordInjective | tb/tb_ram_model.cpp:27-31 | two values with the same driven word are equal |
| RamModel.MemCellArray.constructor | tb/tb_ram_model.cpp:12-15 | a new array has five write-data chunks and the given initial contents |
| RamModel.MemCellArray.WriteData | tb/tb_ram_model.cpp:24-37 | wdata holds the low half, the high half and three zero chunks; only the written address changes |
| RamModel.MemCellArray.ReadData | tb/tb_ram_model.cpp:39-48 | the result is chunk 0 OR chunk 1 shifted left by 32, over unsigned 64-bit values |
| RamModel.RunScenario | tb/tb_ram_model.cpp:53-72 | both values read back as written, and address 0 still holds the first value after address 10 is written |
| RamModel.WriteKeepsOtherAddresses | tb/tb_ram_model.cpp:70-72 | a write to one address leaves every other address's read-back value unchanged |
| RamModel.ToInt64 | tb/tb_ram_model.cpp:46 | conversion to int64_t: the result lies in [INT64_MIN, INT64_MAX], is congruent to the input modulo 2^64, and equals every input already in range |
| RamModel.ReadDataSigned | tb/tb_ram_model.cpp:45-46 | read_data over int64_t: the result lies within int64_t and is congruent modulo 2^64 to chunk 0 + chunk 1 * 2^32 |
| RamModel.ReadDataSignedIsToInt64 | tb/tb_ram_model.cpp:45-46 | the signed read is the int64_t whose two's-complement pattern is the unsigned rebuild |
| RamModel.ShiftExceedsInt64Iff | tb/tb_ram_model.cpp:46 | the shifted high chunk exceeds INT64_MAX exactly when its top bit is set, and exactly then the value read is negative |
| RamModel.TestValuesReadBackSigned | tb/tb_ram_model.cpp:54-67 | both test values read back as the int64_t written; the second one's shift exceeds INT64_MAX and its value is negative |
| M20k.Mask | tb/tb_m20k.cpp:395 | the mask (1 << log_width) - 1; MaskFits and the lemmas below use it |
| M20k.Truncate | tb/tb_m20k.cpp:395 | data & ((1 << log_width) - 1); TruncateIdempotent, UpperBitsIgnored and WriteThenRead state what it keeps |
| M20k.TruncateIdempotent | tb/tb_m20k.cpp:418-427 | masking twice is masking once, so a masked write and a raw write record the same word |
| M20k.UpperBitsIgnored | tb/tb_m20k.cpp:314-327 | base OR (x << log_width) truncates to base when base fits the width |
| M20k.MaskFits | tb/tb_m20k.cpp:283-290 | the all-ones word of the width reads back unchanged |
| M20k.StoreKeepsTruncated | tb/tb_m20k.cpp:402 | storing a masked word keeps every recorded word within the width |
| M20k.WalkingOneFits | tb/tb_m20k.cpp:181-193 | 1 << bit fits the width for bit < log_width |
| M20k.WalkingZeroFits | tb/tb_m20k.cpp:195-208 | max_data & ~(1 << bit) fits the width |
| M20k.U32 | tb/tb_m20k.cpp:120 | int-to-uint32_t conversion: the result is below 2^32 and congruent to the input |
| M20k.Lookup | tb/tb_m20k.cpp:26 | a lookup finds a word exactly when the address was written, and then it is the stored word |
| M20k.Cycle | tb/tb_m20k.cpp:362-381 | in one cycle both ports read the contents from before the cycle |
| M20k.CycleWritesCommute | tb/tb_m20k.cpp:240-254 | the order in which two non-conflicting writes of one cycle land does not matter |
| M20k.PortsShareArray | tb/tb_m20k.cpp:329-343 | an operation through port A or port B leaves the same contents and reads the same word |
| M20k.WriteThenRead | tb/tb_m20k.cpp:426 | after a write the address holds the truncated data and every other address is unchanged |
| M20k.SinglePortRead | tb/tb_m20k.cpp:440-450 | a port reading alone outputs the stored word and changes nothing |
| M20k.HeldWriteIdempotent | tb/tb_m20k.cpp:418-427 | holding a write for a second cycle stores nothing new |
| M20k.CollisionReadsOld | tb/tb_m20k.cpp:362-388 | a read on B in the cycle of a write on A to the same address returns the old word; a later read returns the new one |
| M20k.DualWritesTakeEffect | tb/tb_m20k.cpp:229-269 | simultaneous writes through A and B to different addresses both take effect |
| M20k.ReadValue | tb/tb_m20k.cpp:446-449 | a read helper's result: data_out if raw, data_out & mask otherwise; RawReadOfStoredWord and ReadPort use it |
| M20k.RawReadOfStoredWord | tb/tb_m20k.cpp:440-450 | a raw read and a masked read of a stored word agree |
| M20k.Stores | tb/tb_m20k.cpp:402 | the contents after a list of stores ref_memory[addr] = word, applied in order; its partners are the four lemmas below |
| M20k.StoresOther | tb/tb_m20k.cpp:402 | an address that no store names keeps what it held |
| M20k.StoresLast | tb/tb_m20k.cpp:402 | an address holds the word of its last store |
| M20k.StoresOverride | tb/tb_m20k.cpp:402 | what a stored address holds does not depend on the contents before the stores |
| M20k.StoresKeys | tb/tb_m20k.cpp:402 | after the stores, exactly the addresses defined before and the addresses stored are defined |
| M20k.StoresAppend | tb/tb_m20k.cpp:175-226 | storing one list and then another is storing their concatenation |
| M20k.BasicAddrs | tb/tb_m20k.cpp:120 | test 1's addresses 0, 1, log_depth / 2 and log_depth - 1, as uint32_t |
| M20k.BasicWords | tb/tb_m20k.cpp:121-125 | test 1's words 0x00, 0xFF, 0xAA and 0x55, each masked to the width |
| M20k.BoundaryAddrs | tb/tb_m20k.cpp:155-156 | test 2's seven boundary addresses, as uint32_t |
| M20k.BoundaryWord | tb/tb_m20k.cpp:159 | test 2's word for an address: (addr * 0x13) as uint32_t, masked |
| M20k.BoundaryWords | tb/tb_m20k.cpp:158-159 | one boundary word per boundary address |
| M20k.WalkingOne | tb/tb_m20k.cpp:184 | the walking-one word 1 << bit; WalkingOneFits shows it fits the width |
| M20k.WalkingZero | tb/tb_m20k.cpp:198 | the walking-zero word max_data & ~(1 << bit); WalkingZeroFits shows it fits the width |
| M20k.WalkingOneAddrs | tb/tb_m20k.cpp:182-183 | addresses 0 .. log_width - 1 |
| M20k.WalkingOneWords | tb/tb_m20k.cpp:184 | the walking-one words of bits 0 .. log_width - 1 |
| M20k.WalkingZeroAddrs | tb/tb_m20k.cpp:196-197 | addresses log_width .. 2 * log_width - 1 |
| M20k.WalkingZeroWords | tb/tb_m20k.cpp:198 | the walking-zero words of bits 0 .. log_width - 1 |
| M20k.CheckerboardAddrs | tb/tb_m20k.cpp:213-214 | addresses 2 * log_width .. 2 * log_width + 3 |
| M20k.CheckerboardWords | tb/tb_m20k.cpp:211-212 | 0xAA, 0x55, 0xCC and 0x33, each masked to the width |
| M20k.PatternAddrs | tb/tb_m20k.cpp:175-226 | test 3's addresses in order: walking ones, walking zeros, checkerboards |
| M20k.PatternWords | tb/tb_m20k.cpp:175-226 | test 3's words in the same order |
| M20k.OversizedAddrs | tb/tb_m20k.cpp:301-305 | the four addresses after base, one per oversized word |
| M20k.OversizedWords | tb/tb_m20k.cpp:293-303 | the four oversized words, each masked as ref_memory records it |
| M20k.WidthAddrs | tb/tb_m20k.cpp:277-335 | test 5's addresses in order: 50, 51 to 54, 55, 56 and 57 |
| M20k.WidthWords | tb/tb_m20k.cpp:283-335 | test 5's recorded words in order: the mask, the four oversized words masked, the base pattern, and the dual-port word masked twice |
| M20k.WidthAddrsConsecutive | tb/tb_m20k.cpp:277-335 | test 5 writes the eight addresses 50 to 57 in order, each once |
| M20k.WidthStores | tb/tb_m20k.cpp:277-335 | test 5's stores, taken as its steps perform them, are its list of stores |
| M20k.CollisionFirst | tb/tb_m20k.cpp:352 | test 6's first word, 0x77 masked |
| M20k.CollisionSecond | tb/tb_m20k.cpp:353 | test 6's collision word, 0x88 masked |
| M20k.CollisionWordsDiffer | tb/tb_m20k.cpp:352-353 | the two words of test 6 differ exactly when the width is at least one bit |
| M20k.CoreTestsRecord | tb/tb_m20k.cpp:472-483 | ref_memory after the core tests: test 5's eight words and test 6's first word at 100 |
| M20k.CoreTestsBlock | tb/tb_m20k.cpp:472-483 | the block after the core tests: every write of tests 1 to 6, in order |
| M20k.CoreTestsRecordStale | tb/tb_m20k.cpp:472-483 | after the core tests ref_memory holds exactly addresses 50 to 57 and 100; it agrees with the block at 50 to 57 whatever the block held before, and at 100 it holds 0x77 & mask while the block holds 0x88 & mask, which differ for every width of at least one bit |
| M20k.M20kTester.constructor | tb/tb_m20k.cpp:29-38 | a new tester has the given width and depth, zero counters and an empty ref_memory |
| M20k.M20kTester.DutReset | tb/tb_m20k.cpp:72-78 | reset keeps ref_memory and the counters |
| M20k.M20kTester.AssertTest | tb/tb_m20k.cpp:81-94 | test_count grows by one and exactly one of pass_count and fail_count with it; the invariant test = pass + fail is kept |
| M20k.M20kTester.WritePort | tb/tb_m20k.cpp:393-438 | the port drives the data, masked unless raw, and ref_memory[addr] becomes the masked data |
| M20k.M20kTester.ReadPort | tb/tb_m20k.cpp:440-462 | the result is the device output, masked unless raw |
| M20k.M20kTester.TestBasicSinglePortRw | tb/tb_m20k.cpp:115-148 | all 4 checks pass; ref_memory and the block each end with test 1's four masked words stored in order at its four addresses |
| M20k.M20kTester.TestAddressBoundaries | tb/tb_m20k.cpp:151-172 | all 7 checks pass; ref_memory and the block each end with (addr * 0x13) & mask stored at each boundary address, in order |
| M20k.M20kTester.TestDataPatterns | tb/tb_m20k.cpp:175-226 | all 2 * log_width + 4 checks pass; ref_memory and the block each end with the walking-ones, walking-zeros and checkerboard words stored in order |
| M20k.M20kTester.WalkingOnes | tb/tb_m20k.cpp:181-193 | log_width passing checks; ref_memory[bit] and the block at bit become 1 << bit for every bit |
| M20k.M20kTester.WalkingZeros | tb/tb_m20k.cpp:195-208 | log_width passing checks; ref_memory and the block at log_width + bit become max_data & ~(1 << bit) |
| M20k.M20kTester.Checkerboards | tb/tb_m20k.cpp:210-225 | four passing checks; ref_memory and the block at 2 * log_width + i become pattern i masked |
| M20k.M20kTester.TestDualPortIndependent | tb/tb_m20k.cpp:229-269 | both checks pass; the block gets 0x12 & mask at 10 and 0x34 & mask at 20, and ref_memory is unchanged because the pins are driven directly |
| M20k.M20kTester.TestDataWidthHandling | tb/tb_m20k.cpp:272-344 | all 7 truncation checks pass; ref_memory is cleared and then holds exactly test 5's eight truncated words at 50 to 57, and the block gets the same stores |
| M20k.M20kTester.OversizedTruncation | tb/tb_m20k.cpp:293-312 | four passing checks; ref_memory and the block at base + 1 .. base + 4 become the oversized words masked |
| M20k.M20kTester.UpperBitsCheck | tb/tb_m20k.cpp:314-327 | one passing check; ref_memory and the block at addr become 0x55 & mask, whatever was written above the width |
| M20k.M20kTester.DualPortWidthConsistency | tb/tb_m20k.cpp:329-343 | one passing check; ref_memory and the block at addr and addr + 1 both become 0x12345678 & mask |
| M20k.M20kTester.TestSameAddressAccess | tb/tb_m20k.cpp:347-389 | the collision read returns 0x77 & mask, the word from before the write, and both checks pass; ref_memory[100] is 0x77 & mask while the block holds 0x88 & mask |
| M20k.M20kTester.RunCoreTests | tb/tb_m20k.cpp:472-483 | all 2 * log_width + 26 checks pass; ref_memory ends as CoreTestsRecord and the block as CoreTestsBlock |
| M20k.TestMemoryConfigurations | tb/tb_m20k.cpp:487-500 | the 8 x 2048 tester passes all 42 checks, fails none, and ends with ref_memory as CoreTestsRecord |

## Left out

- Everything that drives the devices: `eval`, `tick`, `posedge`, `wait_cycles`,
  clock and enable toggling. The devices are not part of this model. The
  testbenches' outputs are what the model expects of them.
- Pipeline latencies (the 1, 2, 3 and 6 tick waits). They differ between
  harnesses and belong to the devices. An M20K helper is modelled as one cycle
  of its operation. `HeldWriteIdempotent` shows that holding a write for a
  second cycle changes nothing.
- M20k.M20kTester.TestSameAddressAccess: the collision is held for two ticks
  in the harness. The model gives it one cycle, the one whose read the
  harness comment describes. The collision read is printed, not checked.
- Printing: `cout` output, `print_row`, `print_memory`, `print_summary`,
  `to_hex`, and the floating-point success rate.
- `tb/tb_circulant.cpp` writes and prints through its device and computes
  no expectation.
- The `read_transformed_row` results of the memory-module harness are printed,
  not compared. Only their documented pattern is modelled
  (`DocumentedCirculantRow`).
- The 40 x 512 and 4 x 4096 configurations need a rebuilt device.
  `(1 << log_width) - 1` is undefined from width 32 on, so `M20kTester`
  requires a width below 32.
- M20k.Truncate: for width 31 the source's `(1 << 31) - 1` overflows `int`.
  The model takes the intended mask 0x7FFFFFFF.
- M20k.Lookup: the device's contents at addresses never written are unknown,
  so the model leaves them undefined. No test reads such an address.
- M20k.U32: addresses are kept as unbounded naturals after the uint32_t
  conversion of the test-address arithmetic. The model does not check them
  against `log_depth`, because the harness does not either.
- RamModel.ReadDataSigned: works on the chunks' integer values. Only for the
  two test values is it tied to the chunks of their 64-bit words
  (`TestValuesReadBackSigned`), because converting between 64-bit words and
  integers in general is too costly to prove here. The conversion to int64_t
  is taken as two's-complement wrap-around (`ToInt64`). That is what C++20
  defines and what gcc and clang do before it. Under the C++11 wording the
  shift of a high chunk with its top bit set is undefined instead.
- RamModel.MemCellArray.WriteData: takes the value's 64-bit pattern. The
  harness passes an int64_t, whose pattern is its two's-complement
  representation, so `(data >> 32) & 0xFFFFFFFF` gives the same chunk.
- RamModel.MemCellArray: initial contents are a constructor parameter. The
  harness prints `rdata[0]` before any write, and the model does not.
