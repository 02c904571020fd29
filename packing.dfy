/**
 * Little-endian packing of matrix elements into bus words.
 *
 * The circulant testbenches work on a 4 x 4 matrix of 8-bit elements and move
 * one whole row per 32-bit transaction: element i of a row occupies bits
 * [8i, 8i + 8) of the word. Every testbench that packs or unpacks a word
 * (make_word / extract_col, row_to_elements / elements_to_row) uses this
 * layout; it is modelled here once.
 */
module Packing {

  /** Rows and columns of the square test matrix. */
  const MATRIX_DIM: nat := 4
  /** Bits of one matrix element (MEM_WIDTH in the memory-module testbench). */
  const COL_WIDTH: nat := 8
  /** Bits of one read or write transaction (ROW_WIDTH in the memory-module testbench). */
  const WORD_LEN: nat := 32
  /** Elements carried by one word, WORD_LEN / COL_WIDTH. */
  const COLS_PER_WORD: nat := 4

  /** One word carries exactly one matrix row: ROW_WIDTH == MATRIX_DIM * MEM_WIDTH == WORD_LEN. */
  lemma WordHoldsOneRow()
    ensures COLS_PER_WORD == WORD_LEN / COL_WIDTH == MATRIX_DIM
    ensures MATRIX_DIM * COL_WIDTH == WORD_LEN
  {
  }

  /** Bit offset of element i inside a word, i * COL_WIDTH, listed per element (see FieldOffsetIsProduct). */
  function FieldOffset(i: nat): bv32
    requires i < COLS_PER_WORD
  {
    if i == 0 then 0 else if i == 1 then 8 else if i == 2 then 16 else 24
  }

  /** The offsets are the multiples of COL_WIDTH. */
  lemma FieldOffsetIsProduct(i: nat)
    requires i < COLS_PER_WORD
    ensures FieldOffset(i) as nat == i * COL_WIDTH
  {
  }

  /** Element colIdx of a word: the byte at bit offset colIdx * COL_WIDTH. */
  function ExtractCol(word: bv32, colIdx: nat): bv8
    requires colIdx < COLS_PER_WORD
  {
    ((word >> FieldOffset(colIdx)) & 0xFF) as bv8
  }

  /**
   * Element i is the field of bits [8i, 8i + 8): put back at its offset it
   * equals the word with every other bit cleared.
   */
  lemma ExtractColFields(word: bv32)
    ensures ExtractCol(word, 0) as bv32 == word & 0x0000_00FF
    ensures (ExtractCol(word, 1) as bv32) << 8 == word & 0x0000_FF00
    ensures (ExtractCol(word, 2) as bv32) << 16 == word & 0x00FF_0000
    ensures (ExtractCol(word, 3) as bv32) << 24 == word & 0xFF00_0000
  {
  }

  /** The word holding col0 .. col3 as elements 0 .. 3 (col0 in the least significant byte). */
  function MakeWord(col0: bv8, col1: bv8, col2: bv8, col3: bv8): (word: bv32)
    ensures ExtractCol(word, 0) == col0 && ExtractCol(word, 1) == col1
    ensures ExtractCol(word, 2) == col2 && ExtractCol(word, 3) == col3
  {
    ((col3 as bv32) << 24) | ((col2 as bv32) << 16) | ((col1 as bv32) << 8) | (col0 as bv32)
  }

  /** Re-packing the four elements of any word gives that word back. */
  lemma MakeWordOfColumns(word: bv32)
    ensures MakeWord(ExtractCol(word, 0), ExtractCol(word, 1), ExtractCol(word, 2), ExtractCol(word, 3)) == word
  {
  }

  /** The elements of a word, element 0 first. */
  function Elements(word: bv32): (row: seq<bv8>)
    ensures |row| == MATRIX_DIM
    ensures forall i :: 0 <= i < MATRIX_DIM ==> row[i] == ExtractCol(word, i)
  {
    seq(MATRIX_DIM, i requires 0 <= i < MATRIX_DIM => ExtractCol(word, i))
  }

  /** The word whose elements are the given row. */
  function Join(row: seq<bv8>): (word: bv32)
    requires |row| == MATRIX_DIM
    ensures Elements(word) == row
  {
    MakeWord(row[0], row[1], row[2], row[3])
  }

  /** Splitting a word and joining its elements gives the word back. */
  lemma JoinElements(word: bv32)
    ensures Join(Elements(word)) == word
  {
    MakeWordOfColumns(word);
  }

  /** Two words with the same elements are the same word. */
  lemma ElementsInjective(a: bv32, b: bv32)
    requires Elements(a) == Elements(b)
    ensures a == b
  {
    JoinElements(a);
    JoinElements(b);
  }
}
