/**
 * The 4 x 4 test matrix the circulant harnesses write, its transpose, and the
 * write loop that drives one row word per row.
 *
 * Entry (r, c) is 10 * (r + 1) + (c + 1), so the rows read 11 12 13 14,
 * 21 22 23 24, and so on; every entry names its own coordinates, which makes
 * a misplaced element visible.
 */
module TestMatrix {
  import opened Packing

  /** Entry (r, c) of the test matrix as the harness computes it, before narrowing to uint8_t. */
  function TestValue(r: nat, c: nat): nat
  {
    10 * (r + 1) + (c + 1)
  }

  /**
   * Entry (r, c) of the test matrix as the 8-bit column value written to the
   * device, listed as a table; TestEntryFits proves it is TestValue(r, c).
   */
  function TestEntry(r: nat, c: nat): bv8
    requires r < MATRIX_DIM && c < COLS_PER_WORD
  {
    [[11, 12, 13, 14], [21, 22, 23, 24], [31, 32, 33, 34], [41, 42, 43, 44]][r][c]
  }

  /** Every entry fits in 8 bits, so narrowing it to uint8_t loses nothing. */
  lemma TestEntryFits(r: nat, c: nat)
    requires r < MATRIX_DIM && c < COLS_PER_WORD
    ensures TestValue(r, c) < 256 && TestEntry(r, c) as nat == TestValue(r, c)
  {
  }

  /** No two entries of the test matrix are equal. */
  lemma TestEntriesDistinct(r1: nat, c1: nat, r2: nat, c2: nat)
    requires r1 < MATRIX_DIM && c1 < COLS_PER_WORD && r2 < MATRIX_DIM && c2 < COLS_PER_WORD
    requires r1 != r2 || c1 != c2
    ensures TestEntry(r1, c1) != TestEntry(r2, c2)
  {
    TestEntryFits(r1, c1);
    TestEntryFits(r2, c2);
  }

  /** A square matrix of 8-bit elements, MATRIX_DIM rows of COLS_PER_WORD columns. */
  ghost predicate IsSquare(m: seq<seq<bv8>>)
  {
    |m| == MATRIX_DIM && forall r :: 0 <= r < MATRIX_DIM ==> |m[r]| == COLS_PER_WORD
  }

  /** Row r of the test matrix: the col_vals array of that row. */
  function TestRow(r: nat): (row: seq<bv8>)
    requires r < MATRIX_DIM
    ensures |row| == COLS_PER_WORD
  {
    seq(COLS_PER_WORD, c requires 0 <= c < COLS_PER_WORD => TestEntry(r, c))
  }

  /** The whole test matrix, row by row. */
  function Matrix(): (m: seq<seq<bv8>>)
    ensures IsSquare(m)
  {
    seq(MATRIX_DIM, r requires 0 <= r < MATRIX_DIM => TestRow(r))
  }

  /** The transpose: element c of row r is element r of row c. */
  function Transpose(m: seq<seq<bv8>>): (t: seq<seq<bv8>>)
    requires IsSquare(m)
    ensures IsSquare(t)
  {
    seq(MATRIX_DIM, r requires 0 <= r < MATRIX_DIM =>
      seq(COLS_PER_WORD, c requires 0 <= c < COLS_PER_WORD => m[c][r]))
  }

  /** Transposing twice gives the matrix back. */
  lemma TransposeInvolution(m: seq<seq<bv8>>)
    requires IsSquare(m)
    ensures Transpose(Transpose(m)) == m
  {
    forall r | 0 <= r < MATRIX_DIM ensures Transpose(Transpose(m))[r] == m[r] {
    }
  }

  /** Row r of the transposed test matrix: M[c][r] at position c. */
  function TransposeRow(r: nat): (row: seq<bv8>)
    requires r < MATRIX_DIM
    ensures |row| == COLS_PER_WORD
  {
    Transpose(Matrix())[r]
  }

  /** Element c of transposed row r is entry (c, r), the value 10 * (c + 1) + (r + 1). */
  lemma TransposeRowAt(r: nat, c: nat)
    requires r < MATRIX_DIM && c < COLS_PER_WORD
    ensures TransposeRow(r)[c] == TestEntry(c, r)
    ensures TransposeRow(r)[c] as nat == 10 * (c + 1) + (r + 1)
  {
    TestEntryFits(c, r);
  }

  /** One write the harness issues: the row and start column it drives and the word on data_in. */
  datatype WriteRequest = WriteRequest(writeRow: nat, writeCol: nat, dataIn: bv32)

  /** The col_vals array of one row: entry (row, col) at index col. */
  method FillColVals(row: nat) returns (colVals: array<bv8>)
    requires row < MATRIX_DIM
    ensures fresh(colVals) && colVals[..] == TestRow(row)
  {
    colVals := new bv8[COLS_PER_WORD];
    var col := 0;
    while col < COLS_PER_WORD
      invariant 0 <= col <= COLS_PER_WORD
      invariant forall c :: 0 <= c < col ==> colVals[c] == TestEntry(row, c)
    {
      TestEntryFits(row, col);
      colVals[col] := (10 * (row + 1) + (col + 1)) as bv8;
      col := col + 1;
    }
  }

  /**
   * The write phase of both circulant harnesses: for each row, fill col_vals
   * with the row's entries, pack them with make_word, and issue one write at
   * column 0 that spans all COLS_PER_WORD columns.
   */
  method WriteTestMatrix() returns (writes: seq<WriteRequest>)
    ensures |writes| == MATRIX_DIM
    ensures forall r :: 0 <= r < MATRIX_DIM ==>
      writes[r].writeRow == r && writes[r].writeCol == 0 && Elements(writes[r].dataIn) == TestRow(r)
  {
    writes := [];
    var row := 0;
    while row < MATRIX_DIM
      invariant 0 <= row <= MATRIX_DIM
      invariant |writes| == row
      invariant forall r :: 0 <= r < row ==>
        writes[r].writeRow == r && writes[r].writeCol == 0 && Elements(writes[r].dataIn) == TestRow(r)
    {
      var colVals := FillColVals(row);
      var testWord := MakeWord(colVals[0], colVals[1], colVals[2], colVals[3]);
      assert testWord == Join(colVals[..]);
      writes := writes + [WriteRequest(row, 0, testWord)];
      row := row + 1;
    }
  }
}
