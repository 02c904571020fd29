/**
 * Cyclic rotation of one matrix row (COLS_PER_WORD elements).
 *
 * The circulant testbenches describe stored, raw and corrected rows as
 * rotations of one another. Rotation is modelled once, as a left rotation;
 * a right rotation by k is the left rotation by the rest of the row.
 */
module Rotation {
  import opened Packing

  /** Rotates a row left by k: position i of the result holds element (i + k) mod C of the row. */
  function RotLeft<T>(s: seq<T>, k: nat): (r: seq<T>)
    requires |s| == COLS_PER_WORD
    ensures |r| == COLS_PER_WORD
  {
    seq(COLS_PER_WORD, i requires 0 <= i < COLS_PER_WORD => s[(i + k) % COLS_PER_WORD])
  }

  /** Rotates a row right by k, as a left rotation by C - (k mod C). */
  function RotRight<T>(s: seq<T>, k: nat): (r: seq<T>)
    requires |s| == COLS_PER_WORD
    ensures |r| == COLS_PER_WORD
  {
    RotLeft(s, COLS_PER_WORD - k % COLS_PER_WORD)
  }

  /** Index arithmetic modulo the row length: two successive offsets add up. */
  lemma ModAdd(i: nat, a: nat, b: nat)
    ensures ((i + b) % COLS_PER_WORD + a) % COLS_PER_WORD == (i + (a + b)) % COLS_PER_WORD
  {
  }

  /** Right rotation by k moves element i of the row to position (i + k) mod C. */
  lemma RotRightAt<T>(s: seq<T>, k: nat, i: nat)
    requires |s| == COLS_PER_WORD && i < COLS_PER_WORD
    ensures RotRight(s, k)[(i + k) % COLS_PER_WORD] == s[i]
  {
    ModAdd(i, COLS_PER_WORD - k % COLS_PER_WORD, k);
  }

  /** Rotation only reorders a row: the result is a permutation of it. */
  lemma RotLeftPermutation<T>(s: seq<T>, k: nat)
    requires |s| == COLS_PER_WORD
    ensures multiset(RotLeft(s, k)) == multiset(s)
  {
    var m := k % COLS_PER_WORD;
    assert RotLeft(s, k) == s[m..] + s[..m];
    assert s == s[..m] + s[m..];
  }

  /** Right rotation is a permutation too. */
  lemma RotRightPermutation<T>(s: seq<T>, k: nat)
    requires |s| == COLS_PER_WORD
    ensures multiset(RotRight(s, k)) == multiset(s)
  {
    RotLeftPermutation(s, COLS_PER_WORD - k % COLS_PER_WORD);
  }

  /** Element i of a row rotated left by a and then by b. */
  lemma RotLeftTwiceAt<T>(s: seq<T>, a: nat, b: nat, i: nat)
    requires |s| == COLS_PER_WORD && i < COLS_PER_WORD
    ensures RotLeft(RotLeft(s, a), b)[i] == s[(i + (a + b)) % COLS_PER_WORD]
  {
    ModAdd(i, a, b);
  }

  /** Rotating left by a and then by b is rotating left by a + b. */
  lemma RotLeftAdd<T>(s: seq<T>, a: nat, b: nat)
    requires |s| == COLS_PER_WORD
    ensures RotLeft(RotLeft(s, a), b) == RotLeft(s, a + b)
  {
    var u := RotLeft(RotLeft(s, a), b);
    forall i | 0 <= i < COLS_PER_WORD ensures u[i] == RotLeft(s, a + b)[i] {
      RotLeftTwiceAt(s, a, b, i);
    }
  }

  /** rot(rot(s, k), C - k) == s: left rotation by k is undone by left rotation by C - k. */
  lemma RotLeftInverse<T>(s: seq<T>, k: nat)
    requires |s| == COLS_PER_WORD && k <= COLS_PER_WORD
    ensures RotLeft(RotLeft(s, k), COLS_PER_WORD - k) == s
  {
    var u := RotLeft(RotLeft(s, k), COLS_PER_WORD - k);
    forall i | 0 <= i < COLS_PER_WORD ensures u[i] == s[i] {
      RotLeftTwiceAt(s, k, COLS_PER_WORD - k, i);
    }
  }

  /** A rotation by k followed by one by the rest of the row, C - (k mod C), is a whole turn. */
  lemma WholeTurn(i: nat, k: nat)
    requires i < COLS_PER_WORD
    ensures (i + (k + (COLS_PER_WORD - k % COLS_PER_WORD))) % COLS_PER_WORD == i
  {
    var q := k / COLS_PER_WORD;
    assert k == COLS_PER_WORD * q + k % COLS_PER_WORD;
    assert i + (k + (COLS_PER_WORD - k % COLS_PER_WORD)) == i + COLS_PER_WORD * (q + 1);
  }

  /** Right rotation by k undoes left rotation by k, and the other way round. */
  lemma RotRightUndoesRotLeft<T>(s: seq<T>, k: nat)
    requires |s| == COLS_PER_WORD
    ensures RotRight(RotLeft(s, k), k) == s
    ensures RotLeft(RotRight(s, k), k) == s
  {
    var j := COLS_PER_WORD - k % COLS_PER_WORD;
    var u := RotRight(RotLeft(s, k), k);
    forall i | 0 <= i < COLS_PER_WORD ensures u[i] == s[i] {
      RotLeftTwiceAt(s, k, j, i);
      WholeTurn(i, k);
    }
    var v := RotLeft(RotRight(s, k), k);
    forall i | 0 <= i < COLS_PER_WORD ensures v[i] == s[i] {
      RotLeftTwiceAt(s, j, k, i);
      WholeTurn(i, k);
    }
  }

  /**
   * Un-rotation by index: reading a row that was rotated left by r at
   * position (i + C - r) mod C gives back its element i.
   */
  lemma UnrotateIndex<T>(s: seq<T>, r: nat, i: nat)
    requires |s| == COLS_PER_WORD && r <= COLS_PER_WORD && i < COLS_PER_WORD
    ensures RotLeft(s, r)[(i + COLS_PER_WORD - r) % COLS_PER_WORD] == s[i]
  {
    ModAdd(i, r, COLS_PER_WORD - r);
  }
}
