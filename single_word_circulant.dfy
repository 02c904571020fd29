/**
 * What the single-word circulant harness computes about the device it drives.
 *
 * The harness writes the test matrix one row word at a time, describes the
 * circulant storage of row r as the row rotated left by r, and reads row r
 * starting at chunk r mod C, reporting those raw reads as transposed data
 * that is still circulant. It then shows each read word un-rotated by the
 * index (i + MATRIX_DIM - r) mod C, as the non-circulant layout.
 */
module SingleWordCirculant {
  import opened Packing
  import opened Rotation
  import opened TestMatrix

  /**
   * The circulant layout of a row: position i holds column (r + i) mod C.
   * This is the left rotation by r, and it only reorders the row.
   */
  lemma CirculantLayout(colVals: seq<bv8>, r: nat)
    requires |colVals| == COLS_PER_WORD
    ensures forall i :: 0 <= i < COLS_PER_WORD ==> RotLeft(colVals, r)[i] == colVals[(r + i) % COLS_PER_WORD]
    ensures multiset(RotLeft(colVals, r)) == multiset(colVals)
  {
    RotLeftPermutation(colVals, r);
  }

  /** The column at which the read of row r starts: indented one chunk per row. */
  function ReadStartChunk(row: nat): (chunk: nat)
    ensures chunk < COLS_PER_WORD
    ensures row < COLS_PER_WORD ==> chunk == row
    ensures (row + COLS_PER_WORD - chunk) % COLS_PER_WORD == 0
  {
    row % COLS_PER_WORD
  }

  /**
   * The elements of the word read for row r, listed at index
   * (i + MATRIX_DIM - r) mod C: the order in which the harness shows them.
   */
  function Unrotated<T>(s: seq<T>, row: nat): (view: seq<T>)
    requires |s| == COLS_PER_WORD && row <= MATRIX_DIM
    ensures |view| == COLS_PER_WORD
  {
    seq(COLS_PER_WORD, i requires 0 <= i < COLS_PER_WORD => s[(i + MATRIX_DIM - row) % COLS_PER_WORD])
  }

  /** The index the harness un-rotates with is the right-rotation index. */
  lemma UnrotateIndexIsRotRight(i: nat, row: nat)
    requires i < COLS_PER_WORD && row <= MATRIX_DIM
    ensures (i + MATRIX_DIM - row) % COLS_PER_WORD == (i + (COLS_PER_WORD - row % COLS_PER_WORD)) % COLS_PER_WORD
  {
    if row == MATRIX_DIM {
      assert row % COLS_PER_WORD == 0;
    }
  }

  /** The un-rotated view of a row is the row rotated right by the row index. */
  lemma UnrotatedIsRotRight<T>(s: seq<T>, row: nat)
    requires |s| == COLS_PER_WORD && row <= MATRIX_DIM
    ensures Unrotated(s, row) == RotRight(s, row)
  {
    forall i | 0 <= i < COLS_PER_WORD ensures Unrotated(s, row)[i] == RotRight(s, row)[i] {
      UnrotateIndexIsRotRight(i, row);
    }
  }

  /** Un-rotating a row that was rotated left by r gives the row back. */
  lemma UnrotatedUndoesLayout<T>(s: seq<T>, r: nat)
    requires |s| == COLS_PER_WORD && r <= MATRIX_DIM
    ensures Unrotated(RotLeft(s, r), r) == s
  {
    forall i | 0 <= i < COLS_PER_WORD ensures Unrotated(RotLeft(s, r), r)[i] == s[i] {
      UnrotateIndex(s, r, i);
    }
  }

  /**
   * The raw word of row r that the harness's un-rotated view shows as row r of
   * the transpose: the transposed row rotated left by r.
   */
  function ExpectedRawWord(r: nat): bv32
    requires r < MATRIX_DIM
  {
    Join(RotLeft(TransposeRow(r), r))
  }

  /**
   * The view of row r reads as row r of the transpose exactly when the raw word
   * is ExpectedRawWord(r): in this harness the transpose is the raw word rotated
   * right by r.
   */
  lemma ShowsTransposeIff(word: bv32, r: nat)
    requires r < MATRIX_DIM
    ensures Unrotated(Elements(word), r) == TransposeRow(r) <==> word == ExpectedRawWord(r)
  {
    UnrotatedUndoesLayout(TransposeRow(r), r);
    if Unrotated(Elements(word), r) == TransposeRow(r) {
      UnrotatedIsRotRight(Elements(word), r);
      RotRightUndoesRotLeft(Elements(word), r);
      assert Elements(word) == RotLeft(TransposeRow(r), r);
      ElementsInjective(word, ExpectedRawWord(r));
    }
  }
}
