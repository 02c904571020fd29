/**
 * The row helpers of the memory-module harness for the circulant barrel
 * shifter: a row is MATRIX_DIM elements of MEM_WIDTH = 8 bits, moved as one
 * ROW_WIDTH = 32-bit word, element i at bits [8i, 8i + 8).
 */
module MemModules {
  import opened Packing
  import opened Rotation

  /** Width of one element (MEM_WIDTH). */
  const MEM_WIDTH: nat := COL_WIDTH
  /** Width of one row word, MATRIX_DIM * MEM_WIDTH (ROW_WIDTH). */
  const ROW_WIDTH: nat := MATRIX_DIM * MEM_WIDTH

  /** A row word is exactly one 32-bit transaction. */
  lemma RowWidthIsWord()
    ensures ROW_WIDTH == WORD_LEN == 32
  {
    WordHoldsOneRow();
  }

  /** Splits a row word into its elements, element 0 first, appending one element per step. */
  method RowToElements(rowData: bv32) returns (elements: seq<bv8>)
    ensures |elements| == MATRIX_DIM
    ensures elements == Elements(rowData)
  {
    elements := [];
    var i := 0;
    while i < MATRIX_DIM
      invariant 0 <= i <= MATRIX_DIM
      invariant elements == Elements(rowData)[..i]
    {
      elements := elements + [ExtractCol(rowData, i)];
      i := i + 1;
    }
  }

  /** The word after the first n packing steps: elements 0 .. n - 1 OR-ed into their fields. */
  ghost function PackedPrefix(elements: seq<bv8>, n: nat): bv32
    requires n <= MATRIX_DIM <= |elements|
  {
    if n == 0 then 0 else PackedPrefix(elements, n - 1) | ((elements[n - 1] as bv32) << FieldOffset(n - 1))
  }

  /** One packing step ORs element n into field n of the word built so far. */
  lemma PackStep(elements: seq<bv8>, n: nat)
    requires n < MATRIX_DIM <= |elements|
    ensures PackedPrefix(elements, n + 1) == PackedPrefix(elements, n) | ((elements[n] as bv32) << FieldOffset(n))
  {
  }

  /** OR-ing the four elements into their fields in order 0 .. 3 builds the same word as MakeWord. */
  lemma OrChainIsMakeWord(col0: bv8, col1: bv8, col2: bv8, col3: bv8)
    ensures (((0 | (col0 as bv32)) | ((col1 as bv32) << 8)) | ((col2 as bv32) << 16)) | ((col3 as bv32) << 24)
            == MakeWord(col0, col1, col2, col3)
  {
  }

  /** After all MATRIX_DIM steps the word holds exactly the first MATRIX_DIM elements. */
  lemma PackedPrefixIsJoin(elements: seq<bv8>)
    requires MATRIX_DIM <= |elements|
    ensures PackedPrefix(elements, MATRIX_DIM) == Join(elements[..MATRIX_DIM])
  {
    PackStep(elements, 0);
    PackStep(elements, 1);
    PackStep(elements, 2);
    PackStep(elements, 3);
    OrChainIsMakeWord(elements[0], elements[1], elements[2], elements[3]);
  }

  /**
   * Packs the first MATRIX_DIM elements into a row word by OR-ing each one
   * into its field; elements past MATRIX_DIM are not read.
   */
  method ElementsToRow(elements: seq<bv8>) returns (rowData: bv32)
    requires |elements| >= MATRIX_DIM
    ensures rowData == Join(elements[..MATRIX_DIM])
    ensures Elements(rowData) == elements[..MATRIX_DIM]
  {
    rowData := 0;
    var i := 0;
    while i < MATRIX_DIM
      invariant 0 <= i <= MATRIX_DIM
      invariant rowData == PackedPrefix(elements, i)
    {
      PackStep(elements, i);
      rowData := rowData | ((elements[i] as bv32) << FieldOffset(i));
      i := i + 1;
    }
    PackedPrefixIsJoin(elements);
  }

  /** What one write_row call does: aborts on a failed size assertion, or drives one write. */
  datatype WriteOutcome =
    | AssertionFailed
    | Driven(waddr: bv8, wdata: bv32)

  /**
   * write_row: asserts that the row has exactly MATRIX_DIM elements, packs it,
   * and drives waddr and wdata for one cycle with wen raised.
   */
  method WriteRow(rowAddr: bv8, data: seq<bv8>) returns (outcome: WriteOutcome)
    ensures |data| != MATRIX_DIM <==> outcome == AssertionFailed
    ensures |data| == MATRIX_DIM ==> outcome == Driven(rowAddr, Join(data))
    ensures outcome.Driven? ==> Elements(outcome.wdata) == data
  {
    if |data| != MATRIX_DIM {
      return AssertionFailed;
    }
    var rowData := ElementsToRow(data);
    assert data[..MATRIX_DIM] == data;
    outcome := Driven(rowAddr, rowData);
  }

  /** The rows written by the basic-operations test, each with a distinct high nibble. */
  function BasicTestMatrix(): (m: seq<seq<bv8>>)
    ensures |m| == MATRIX_DIM
    ensures forall r :: 0 <= r < MATRIX_DIM ==> |m[r]| == MATRIX_DIM
  {
    [[0x10, 0x11, 0x12, 0x13],
     [0x20, 0x21, 0x22, 0x23],
     [0x30, 0x31, 0x32, 0x33],
     [0x40, 0x41, 0x42, 0x43]]
  }

  /** The write phase of the basic-operations test: row r of the test matrix written to address r. */
  method WriteBasicMatrix() returns (outcomes: seq<WriteOutcome>)
    ensures |outcomes| == MATRIX_DIM
    ensures forall r :: 0 <= r < MATRIX_DIM ==>
      outcomes[r].Driven? && outcomes[r].waddr as nat == r && Elements(outcomes[r].wdata) == BasicTestMatrix()[r]
  {
    var testMatrix := BasicTestMatrix();
    outcomes := [];
    var row := 0;
    while row < MATRIX_DIM
      invariant 0 <= row <= MATRIX_DIM
      invariant |outcomes| == row
      invariant forall r :: 0 <= r < row ==>
        outcomes[r].Driven? && outcomes[r].waddr as nat == r && Elements(outcomes[r].wdata) == testMatrix[r]
    {
      var outcome := WriteRow(row as bv8, testMatrix[row]);
      outcomes := outcomes + [outcome];
      row := row + 1;
    }
  }

  /** The base row of the documented circulant pattern. */
  const BASE_ROW: seq<bv8> := [0x01, 0x02, 0x03, 0x04]

  /** The rows the harness documents for transforms 0 .. 3 of the base row. */
  const DOCUMENTED_ROWS: seq<seq<bv8>> :=
    [[0x01, 0x02, 0x03, 0x04],
     [0x04, 0x01, 0x02, 0x03],
     [0x03, 0x04, 0x01, 0x02],
     [0x02, 0x03, 0x04, 0x01]]

  /** Transform k of the base row, as documented, is the base row rotated right by k. */
  lemma DocumentedCirculantRow(k: nat)
    requires k < MATRIX_DIM
    ensures RotRight(BASE_ROW, k) == DOCUMENTED_ROWS[k]
  {
    var r := RotRight(BASE_ROW, k);
    if k == 0 {
      assert r[0] == 0x01 && r[1] == 0x02 && r[2] == 0x03 && r[3] == 0x04;
    } else if k == 1 {
      assert r[0] == 0x04 && r[1] == 0x01 && r[2] == 0x02 && r[3] == 0x03;
    } else if k == 2 {
      assert r[0] == 0x03 && r[1] == 0x04 && r[2] == 0x01 && r[3] == 0x02;
    } else {
      assert r[0] == 0x02 && r[1] == 0x03 && r[2] == 0x04 && r[3] == 0x01;
    }
  }
}
