/**
 * What the circulant barrel-shifter harness expects of the device it drives.
 *
 * The harness writes the test matrix (one row word per row, at column 0),
 * reads each row twice starting at chunk r mod C: once raw
 * (barrel_shift_en = 0) and once corrected (barrel_shift_en = 1). Its checks
 * say that the corrected word of row r is row r of the transpose, and that
 * element i of the raw word is element (i + shift) mod C of the corrected
 * word, where shift = (C - r) mod C.
 */
module BarrelShifter {
  import opened Packing
  import opened Rotation
  import opened TestMatrix
  import SingleWordCirculant

  /** The barrel-shift amount for row r. */
  function ShiftAmount(row: nat): (shift: nat)
    requires row < MATRIX_DIM
    ensures shift < COLS_PER_WORD
    ensures shift == 0 <==> row % COLS_PER_WORD == 0
    ensures (row + shift) % COLS_PER_WORD == 0
  {
    (COLS_PER_WORD - row) % COLS_PER_WORD
  }

  /** The shift check of one row: raw element i is corrected element (i + shift) mod C. */
  ghost predicate ShiftCorrect<T>(raw: seq<T>, shifted: seq<T>, row: nat)
    requires |raw| == COLS_PER_WORD && |shifted| == COLS_PER_WORD && row < MATRIX_DIM
  {
    forall i :: 0 <= i < COLS_PER_WORD ==> raw[i] == shifted[(i + ShiftAmount(row)) % COLS_PER_WORD]
  }

  /** Offsets by the row index and by its shift amount cancel modulo C. */
  lemma ShiftCancels(i: nat, row: nat)
    requires i < COLS_PER_WORD && row < MATRIX_DIM
    ensures ((i + ShiftAmount(row)) % COLS_PER_WORD + row) % COLS_PER_WORD == i
    ensures ((i + row) % COLS_PER_WORD + ShiftAmount(row)) % COLS_PER_WORD == i
  {
    var shift := ShiftAmount(row);
    assert row + shift == 0 || row + shift == COLS_PER_WORD;
    ModAdd(i, row, shift);
    ModAdd(i, shift, row);
  }

  /**
   * The shift check holds exactly when the corrected row is the raw row
   * rotated left by the row index.
   */
  lemma ShiftCorrectIsRotation<T>(raw: seq<T>, shifted: seq<T>, row: nat)
    requires |raw| == COLS_PER_WORD && |shifted| == COLS_PER_WORD && row < MATRIX_DIM
    ensures ShiftCorrect(raw, shifted, row) <==> shifted == RotLeft(raw, row)
  {
    if ShiftCorrect(raw, shifted, row) {
      forall j | 0 <= j < COLS_PER_WORD ensures shifted[j] == RotLeft(raw, row)[j] {
        ShiftCancels(j, row);
        var i := (j + row) % COLS_PER_WORD;
        assert raw[i] == shifted[(i + ShiftAmount(row)) % COLS_PER_WORD];
      }
    }
    if shifted == RotLeft(raw, row) {
      forall i | 0 <= i < COLS_PER_WORD ensures raw[i] == shifted[(i + ShiftAmount(row)) % COLS_PER_WORD] {
        ShiftCancels(i, row);
      }
    }
  }

  /** A corrected row that passes the shift check holds the same elements as the raw row. */
  lemma ShiftCorrectPermutation<T>(raw: seq<T>, shifted: seq<T>, row: nat)
    requires |raw| == COLS_PER_WORD && |shifted| == COLS_PER_WORD && row < MATRIX_DIM
    requires ShiftCorrect(raw, shifted, row)
    ensures multiset(shifted) == multiset(raw)
  {
    ShiftCorrectIsRotation(raw, shifted, row);
    RotLeftPermutation(raw, row);
  }

  /** The shift-pattern check of one row: compares element by element and stops at the first mismatch. */
  method CheckShift(rawWord: bv32, shiftedWord: bv32, row: nat) returns (shiftCorrect: bool)
    requires row < MATRIX_DIM
    ensures shiftCorrect <==> ShiftCorrect(Elements(rawWord), Elements(shiftedWord), row)
  {
    ghost var raw, shifted := Elements(rawWord), Elements(shiftedWord);
    var shift := ShiftAmount(row);
    shiftCorrect := true;
    var i := 0;
    while i < COLS_PER_WORD
      invariant 0 <= i <= COLS_PER_WORD
      invariant forall j :: 0 <= j < i ==> raw[j] == shifted[(j + shift) % COLS_PER_WORD]
    {
      var rawVal := ExtractCol(rawWord, i);
      var shiftedVal := ExtractCol(shiftedWord, (i + shift) % COLS_PER_WORD);
      assert rawVal == raw[i] && shiftedVal == shifted[(i + shift) % COLS_PER_WORD];
      if rawVal != shiftedVal {
        shiftCorrect := false;
        break;
      }
      i := i + 1;
    }
  }

  /** The corrected words the harness expects: row r of the transposed test matrix. */
  function ExpectedShiftedWords(): (words: seq<bv32>)
    ensures |words| == MATRIX_DIM
  {
    seq(MATRIX_DIM, r requires 0 <= r < MATRIX_DIM => Join(TransposeRow(r)))
  }

  /** A corrected word shows transposed row r exactly when it is the expected word of row r. */
  lemma ShowsTransposedRowIff(word: bv32, r: nat)
    requires r < MATRIX_DIM
    ensures Elements(word) == TransposeRow(r) <==> word == ExpectedShiftedWords()[r]
  {
    if Elements(word) == TransposeRow(r) {
      ElementsInjective(word, ExpectedShiftedWords()[r]);
    }
  }

  /** Row flags that match the expected words are exactly the flags of rows showing the transpose. */
  lemma RowFlagsShowTranspose(words: seq<bv32>, flags: seq<bool>)
    requires |words| == MATRIX_DIM && |flags| == MATRIX_DIM
    requires forall r :: 0 <= r < MATRIX_DIM ==> (flags[r] <==> words[r] == ExpectedShiftedWords()[r])
    ensures forall r :: 0 <= r < MATRIX_DIM ==> (flags[r] <==> Elements(words[r]) == TransposeRow(r))
  {
    forall r | 0 <= r < MATRIX_DIM ensures flags[r] <==> Elements(words[r]) == TransposeRow(r) {
      ShowsTransposedRowIff(words[r], r);
    }
  }

  /**
   * The transpose check: compares element c of corrected row r with entry
   * (c, r) of the test matrix, flags each row, and flags the whole matrix.
   */
  method CheckTranspose(shiftedWords: seq<bv32>) returns (transposeCorrect: bool, rowCorrect: seq<bool>)
    requires |shiftedWords| == MATRIX_DIM
    ensures |rowCorrect| == MATRIX_DIM
    ensures forall r :: 0 <= r < MATRIX_DIM ==> (rowCorrect[r] <==> Elements(shiftedWords[r]) == TransposeRow(r))
    ensures transposeCorrect <==> shiftedWords == ExpectedShiftedWords()
  {
    ghost var expected := ExpectedShiftedWords();
    transposeCorrect := true;
    rowCorrect := [];
    var row := 0;
    while row < MATRIX_DIM
      invariant 0 <= row <= MATRIX_DIM
      invariant |rowCorrect| == row
      invariant forall r :: 0 <= r < row ==> (rowCorrect[r] <==> shiftedWords[r] == expected[r])
      invariant transposeCorrect <==> forall r :: 0 <= r < row ==> shiftedWords[r] == expected[r]
    {
      var rowOk := CheckTransposedRow(shiftedWords[row], row);
      if !rowOk {
        transposeCorrect := false;
      }
      rowCorrect := rowCorrect + [rowOk];
      row := row + 1;
    }
    RowFlagsShowTranspose(shiftedWords, rowCorrect);
  }

  /** The inner loop of the transpose check: one corrected row against column r of the matrix. */
  method CheckTransposedRow(word: bv32, row: nat) returns (rowOk: bool)
    requires row < MATRIX_DIM
    ensures rowOk <==> Elements(word) == TransposeRow(row)
    ensures rowOk <==> word == ExpectedShiftedWords()[row]
  {
    rowOk := true;
    var col := 0;
    while col < COLS_PER_WORD
      invariant 0 <= col <= COLS_PER_WORD
      invariant rowOk <==> forall c :: 0 <= c < col ==> Elements(word)[c] == TransposeRow(row)[c]
    {
      TransposeRowAt(row, col);
      var expected := TestEntry(col, row);
      var actual := ExtractCol(word, col);
      if expected != actual {
        rowOk := false;
      }
      col := col + 1;
    }
    ShowsTransposedRowIff(word, row);
  }

  /** The raw word of row r that passes the shift check against row r of the transpose. */
  function ExpectedRawWord(r: nat): bv32
    requires r < MATRIX_DIM
  {
    Join(RotRight(TransposeRow(r), r))
  }

  /**
   * The shift check against the transposed row holds for exactly one raw word:
   * in this harness the corrected word is the raw word rotated left by r, so
   * the raw word is the transposed row rotated right by r.
   */
  lemma RawWordIff(raw: bv32, r: nat)
    requires r < MATRIX_DIM
    ensures ShiftCorrect(Elements(raw), TransposeRow(r), r) <==> raw == ExpectedRawWord(r)
  {
    var t := TransposeRow(r);
    ShiftCorrectIsRotation(Elements(raw), t, r);
    RotRightUndoesRotLeft(Elements(raw), r);
    RotRightUndoesRotLeft(t, r);
    if ShiftCorrect(Elements(raw), t, r) {
      assert Elements(raw) == RotRight(t, r);
      ElementsInjective(raw, ExpectedRawWord(r));
    }
  }

  /**
   * On a row with distinct elements, rotating right by r and rotating left by
   * r agree exactly when r is even (a rotation by 0 or by half the row).
   */
  lemma LeftRightAgreeIff<T>(t: seq<T>, r: nat)
    requires |t| == COLS_PER_WORD && r < COLS_PER_WORD
    requires forall i, j :: 0 <= i < j < COLS_PER_WORD ==> t[i] != t[j]
    ensures RotRight(t, r) == RotLeft(t, r) <==> r % 2 == 0
  {
    if r == 0 {
      assert RotRight(t, 0) == RotLeft(t, 0);
    } else if r == 2 {
    } else {
      assert RotRight(t, r)[0] == t[COLS_PER_WORD - r];
      assert RotLeft(t, r)[0] == t[r];
    }
  }

  /** The entries of a transposed row are pairwise distinct. */
  lemma TransposeRowDistinct(r: nat)
    requires r < MATRIX_DIM
    ensures forall i, j :: 0 <= i < j < COLS_PER_WORD ==> TransposeRow(r)[i] != TransposeRow(r)[j]
  {
    forall i, j | 0 <= i < j < COLS_PER_WORD ensures TransposeRow(r)[i] != TransposeRow(r)[j] {
      TransposeRowAt(r, i);
      TransposeRowAt(r, j);
      TestEntriesDistinct(i, r, j, r);
    }
  }

  /**
   * The two circulant harnesses imply opposite rotation directions: the raw
   * word this harness expects for row r is the one the single-word harness
   * expects only for the even rows 0 and 2, where left and right rotation by
   * r coincide.
   */
  lemma RawDirectionsDisagree(r: nat)
    requires r < MATRIX_DIM
    ensures ExpectedRawWord(r) == SingleWordCirculant.ExpectedRawWord(r) <==> r % 2 == 0
  {
    var t := TransposeRow(r);
    TransposeRowDistinct(r);
    LeftRightAgreeIff(t, r);
    var right, left := RotRight(t, r), RotLeft(t, r);
    assert Elements(Join(right)) == right && Elements(Join(left)) == left;
  }
}
