/** Row-level semantics of a left move, common to the console game and the browser game:
    compressing a row (non-zero values packed to the left, zeros after them), the single
    left-to-right merge pass, and their composition, the slide of one row. */
module Tiles {

  /** The side length of the board: GRID_SIZE in the console game, gridSize in the browser game. */
  const Size: nat := 4

  /** Sum of the values of a row. */
  function Sum(s: seq<nat>): nat
  {
    if s == [] then 0 else s[0] + Sum(s[1..])
  }

  /** The non-zero values of s in their original order. */
  function NonZeros(s: seq<nat>): (nz: seq<nat>)
    ensures |nz| <= |s|
    ensures forall k :: 0 <= k < |nz| ==> nz[k] != 0
  {
    if s == [] then []
    else if s[0] != 0 then [s[0]] + NonZeros(s[1..])
    else NonZeros(s[1..])
  }

  /** A row of n empty cells. */
  function Zeros(n: nat): seq<nat>
  {
    seq(n, _ => 0)
  }

  /** All non-zero cells come before all empty cells. */
  predicate IsPacked(s: seq<nat>)
  {
    forall i, j :: 0 <= i < j < |s| && s[i] == 0 ==> s[j] == 0
  }

  /** Some adjacent pair of equal non-zero cells, which the merge pass would combine. */
  predicate HasPair(s: seq<nat>)
  {
    exists i :: 0 <= i < |s| - 1 && s[i] != 0 && s[i] == s[i + 1]
  }

  /** compress_row_left (and the array that compress returns): keep the non-zero values, in
      order, and pad with zeros up to the board size. */
  function Compressed(row: seq<nat>): (c: seq<nat>)
    requires |row| <= Size
    ensures |c| == Size
  {
    NonZeros(row) + Zeros(Size - |NonZeros(row)|)
  }

  /** The single left-to-right merge pass: an equal non-zero pair at the front becomes
      (2v, 0) and the pass goes on after the pair; otherwise the front cell is kept. */
  function Merged(s: seq<nat>): (m: seq<nat>)
    ensures |m| == |s|
  {
    if |s| < 2 then s
    else if s[0] != 0 && s[0] == s[1] then [2 * s[0], 0] + Merged(s[2..])
    else [s[0]] + Merged(s[1..])
  }

  /** The score the merge pass gains: the sum of the doubled values it creates. */
  function MergeGain(s: seq<nat>): nat
  {
    if |s| < 2 then 0
    else if s[0] != 0 && s[0] == s[1] then 2 * s[0] + MergeGain(s[2..])
    else MergeGain(s[1..])
  }

  /** Sum of the cells of after that differ from before and are not empty: the cells that
      a merge pass doubled. */
  function DoubledSum(before: seq<nat>, after: seq<nat>): nat
    requires |before| == |after|
  {
    if before == [] then 0
    else (if after[0] != before[0] && after[0] != 0 then after[0] else 0)
         + DoubledSum(before[1..], after[1..])
  }

  /** A left move of one row: compress, merge, compress again. */
  function Slide(row: seq<nat>): seq<nat>
    requires |row| <= Size
  {
    Compressed(Merged(Compressed(row)))
  }

  /** The score a left move of one row gains. */
  function RowGain(row: seq<nat>): nat
    requires |row| <= Size
  {
    MergeGain(Compressed(row))
  }

  // ---------------------------------------------------------------------------
  // Sums and filtering

  lemma {:induction false} SumAppend(a: seq<nat>, b: seq<nat>)
    ensures Sum(a + b) == Sum(a) + Sum(b)
  {
    if a == [] {
      assert a + b == b;
    } else {
      assert (a + b)[1..] == a[1..] + b;
      SumAppend(a[1..], b);
    }
  }

  lemma {:induction false} NonZerosAppend(a: seq<nat>, b: seq<nat>)
    ensures NonZeros(a + b) == NonZeros(a) + NonZeros(b)
  {
    if a == [] {
      assert a + b == b;
    } else {
      assert (a + b)[1..] == a[1..] + b;
      NonZerosAppend(a[1..], b);
    }
  }

  /** Dropping the empty cells does not change the sum. */
  lemma {:induction false} SumNonZeros(s: seq<nat>)
    ensures Sum(NonZeros(s)) == Sum(s)
  {
    if s != [] {
      SumNonZeros(s[1..]);
      if s[0] != 0 {
        SumAppend([s[0]], NonZeros(s[1..]));
      }
    }
  }

  /** A row of empty cells has no non-zero value and sums to 0. */
  lemma {:induction false} ZerosFacts(n: nat)
    ensures NonZeros(Zeros(n)) == []
    ensures Sum(Zeros(n)) == 0
  {
    if n > 0 {
      assert Zeros(n)[1..] == Zeros(n - 1);
      ZerosFacts(n - 1);
    }
  }

  /** A row without empty cells is its own list of non-zero values. */
  lemma {:induction false} NonZerosOfFull(s: seq<nat>)
    requires forall k :: 0 <= k < |s| ==> s[k] != 0
    ensures NonZeros(s) == s
  {
    if s != [] {
      NonZerosOfFull(s[1..]);
    }
  }

  /** A packed row is its non-zero values followed by zeros. */
  lemma {:induction false} PackedShape(s: seq<nat>)
    requires IsPacked(s)
    ensures s == NonZeros(s) + Zeros(|s| - |NonZeros(s)|)
  {
    if s != [] {
      if s[0] == 0 {
        assert s == Zeros(|s|);
        ZerosFacts(|s|);
      } else {
        PackedShape(s[1..]);
      }
    }
  }

  /** Non-zero values followed by zeros form a packed row. */
  lemma NonZerosThenZerosPacked(s: seq<nat>, n: nat)
    ensures IsPacked(NonZeros(s) + Zeros(n))
  {
  }

  /** A packed row is determined by its length and its non-zero values. */
  lemma PackedUnique(a: seq<nat>, b: seq<nat>)
    requires IsPacked(a) && IsPacked(b)
    requires |a| == |b| && NonZeros(a) == NonZeros(b)
    ensures a == b
  {
    PackedShape(a);
    PackedShape(b);
  }

  // ---------------------------------------------------------------------------
  // compress_row_left: 2048_game.py:102-105, app.js:80-86

  /** The compressed row has the board's length, is packed, holds the input's non-zero
      values in their original order, and has the input's sum. */
  lemma CompressFacts(row: seq<nat>)
    requires |row| <= Size
    ensures |Compressed(row)| == Size
    ensures IsPacked(Compressed(row))
    ensures NonZeros(Compressed(row)) == NonZeros(row)
    ensures Sum(Compressed(row)) == Sum(row)
  {
    var n := Size - |NonZeros(row)|;
    NonZerosThenZerosPacked(row, n);
    NonZerosAppend(NonZeros(row), Zeros(n));
    ZerosFacts(n);
    NonZerosOfFull(NonZeros(row));
    SumAppend(NonZeros(row), Zeros(n));
    SumNonZeros(row);
  }

  /** A packed row of the board's length is left as it is by compression. */
  lemma CompressOfPacked(row: seq<nat>)
    requires |row| == Size && IsPacked(row)
    ensures Compressed(row) == row
  {
    CompressFacts(row);
    PackedUnique(Compressed(row), row);
  }

  /** Compression is idempotent. */
  lemma CompressIdempotent(row: seq<nat>)
    requires |row| <= Size
    ensures Compressed(Compressed(row)) == Compressed(row)
  {
    CompressFacts(row);
    CompressOfPacked(Compressed(row));
  }

  // ---------------------------------------------------------------------------
  // The merge pass: 2048_game.py:108-115, app.js:88-98

  /** Merging preserves the sum of the row. */
  lemma {:induction false} MergedSum(s: seq<nat>)
    ensures Sum(Merged(s)) == Sum(s)
  {
    if |s| >= 2 {
      assert s[1..][1..] == s[2..];
      if s[0] != 0 && s[0] == s[1] {
        MergedSum(s[2..]);
        SumAppend([2 * s[0], 0], Merged(s[2..]));
        assert Sum([2 * s[0], 0]) == 2 * s[0];
      } else {
        MergedSum(s[1..]);
        SumAppend([s[0]], Merged(s[1..]));
      }
    }
  }

  /** The gain of the pass is the sum of the cells it doubled. */
  lemma {:induction false} MergeGainIsDoubledSum(s: seq<nat>)
    ensures MergeGain(s) == DoubledSum(s, Merged(s))
  {
    if |s| < 2 {
      if |s| == 1 {
        assert DoubledSum(s[1..], Merged(s)[1..]) == 0;
      }
    } else if s[0] != 0 && s[0] == s[1] {
      var m := Merged(s);
      MergeGainIsDoubledSum(s[2..]);
      assert m[1..][1..] == Merged(s[2..]);
      assert s[1..][1..] == s[2..];
    } else {
      var m := Merged(s);
      MergeGainIsDoubledSum(s[1..]);
      assert m[1..] == Merged(s[1..]);
    }
  }

  /** The pass gains nothing exactly when it changes nothing. */
  lemma {:induction false} MergeGainZeroIff(s: seq<nat>)
    ensures MergeGain(s) == 0 <==> Merged(s) == s
  {
    if |s| >= 2 {
      if s[0] != 0 && s[0] == s[1] {
        assert Merged(s)[0] != s[0];
      } else {
        MergeGainZeroIff(s[1..]);
        assert Merged(s) == [s[0]] + Merged(s[1..]);
        if Merged(s) == s {
          assert Merged(s)[1..] == s[1..];
        }
      }
    }
  }

  /** The pass gains something exactly when the row has an adjacent equal non-zero pair. */
  lemma {:induction false} MergeGainPositiveIff(s: seq<nat>)
    ensures MergeGain(s) > 0 <==> HasPair(s)
  {
    if |s| >= 2 {
      if s[0] != 0 && s[0] == s[1] {
        assert s[0] != 0 && s[0] == s[0 + 1];
      } else {
        MergeGainPositiveIff(s[1..]);
        if HasPair(s) {
          var i :| 0 <= i < |s| - 1 && s[i] != 0 && s[i] == s[i + 1];
          assert i > 0;
          assert s[1..][i - 1] != 0 && s[1..][i - 1] == s[1..][i];
        }
        if HasPair(s[1..]) {
          var i :| 0 <= i < |s[1..]| - 1 && s[1..][i] != 0 && s[1..][i] == s[1..][i + 1];
          assert s[i + 1] != 0 && s[i + 1] == s[i + 2];
        }
      }
    }
  }

  /** Every merge empties a cell, so a pass that gains something leaves fewer tiles. */
  lemma {:induction false} MergedTileCount(s: seq<nat>)
    ensures |NonZeros(Merged(s))| <= |NonZeros(s)|
    ensures MergeGain(s) > 0 ==> |NonZeros(Merged(s))| < |NonZeros(s)|
  {
    if |s| >= 2 {
      assert s[1..][1..] == s[2..];
      if s[0] != 0 && s[0] == s[1] {
        MergedTileCount(s[2..]);
        NonZerosAppend([2 * s[0], 0], Merged(s[2..]));
        assert NonZeros([2 * s[0], 0]) == [2 * s[0]];
      } else {
        MergedTileCount(s[1..]);
        NonZerosAppend([s[0]], Merged(s[1..]));
      }
    }
  }

  /** No chained merges: every cell of the merged row is either its input value, or the
      double of the left cell of an equal non-zero pair whose right cell became 0, or that
      emptied right cell. */
  lemma {:induction false} MergedAt(s: seq<nat>, i: nat)
    requires i < |s|
    ensures
      var m := Merged(s);
      || m[i] == s[i]
      || (i + 1 < |s| && s[i] != 0 && s[i] == s[i + 1] && m[i] == 2 * s[i] && m[i + 1] == 0)
      || (0 < i && s[i] != 0 && s[i - 1] == s[i] && m[i - 1] == 2 * s[i - 1] && m[i] == 0)
  {
    if |s| >= 2 {
      if s[0] != 0 && s[0] == s[1] {
        if i >= 2 {
          MergedAt(s[2..], i - 2);
        }
      } else if i >= 1 {
        MergedAt(s[1..], i - 1);
      }
    }
  }

  /** A running total over a prefix grows by the next element. */
  lemma SumPrefixStep(s: seq<nat>, r: nat)
    requires r < |s|
    ensures Sum(s[..r + 1]) == Sum(s[..r]) + s[r]
  {
    assert s[..r + 1] == s[..r] + [s[r]];
    SumAppend(s[..r], [s[r]]);
  }

  /** One step of the index loop that computes the merge pass in place: the cells before i
      are final and the pass still has to run on the cells from i on. Examining cell i either
      doubles it and empties cell i + 1, or leaves it; in both cases the same holds with i + 1. */
  lemma MergeStep(a: seq<nat>, i: nat)
    requires i + 1 < |a|
    ensures a[i] != 0 && a[i] == a[i + 1] ==>
      var b := a[i := 2 * a[i]][i + 1 := 0];
      && b[..i + 1] + Merged(b[i + 1..]) == a[..i] + Merged(a[i..])
      && b[i] + MergeGain(b[i + 1..]) == MergeGain(a[i..])
    ensures !(a[i] != 0 && a[i] == a[i + 1]) ==>
      && a[..i + 1] + Merged(a[i + 1..]) == a[..i] + Merged(a[i..])
      && MergeGain(a[i + 1..]) == MergeGain(a[i..])
  {
    if a[i] != 0 && a[i] == a[i + 1] {
      var rest := a[i + 2..];
      assert a[i..][2..] == rest;
      var b := a[i := 2 * a[i]][i + 1 := 0];
      assert b[..i + 1] == a[..i] + [2 * a[i]];
      assert b[i + 1..] == [0] + rest;
      assert ([0] + rest)[1..] == rest;
    } else {
      assert a[i..][1..] == a[i + 1..];
      assert a[..i + 1] == a[..i] + [a[i]];
    }
  }

  /** When the loop reaches the last cell the pass is complete. */
  lemma MergeDone(a: seq<nat>)
    requires |a| > 0
    ensures a[..|a| - 1] + Merged(a[|a| - 1..]) == a
    ensures MergeGain(a[|a| - 1..]) == 0
  {
  }

  /** A row with no adjacent equal non-zero pair is left unchanged by the pass. */
  lemma {:induction false} MergedNoPair(s: seq<nat>)
    requires !HasPair(s)
    ensures Merged(s) == s
  {
    MergeGainPositiveIff(s);
    MergeGainZeroIff(s);
  }

  // ---------------------------------------------------------------------------
  // A left move of one row: 2048_game.py:123-125, app.js:104-106

  /** The slid row has the board's length, is packed and keeps the row's sum. */
  lemma SlideFacts(row: seq<nat>)
    requires |row| <= Size
    ensures |Slide(row)| == Size
    ensures IsPacked(Slide(row))
    ensures Sum(Slide(row)) == Sum(row)
  {
    CompressFacts(row);
    MergedSum(Compressed(row));
    CompressFacts(Merged(Compressed(row)));
  }

  /** A row is a fixed point of the slide exactly when it is packed and has no adjacent equal
      non-zero pair. */
  lemma SlideFixedIff(row: seq<nat>)
    requires |row| == Size
    ensures Slide(row) == row <==> IsPacked(row) && !HasPair(row)
  {
    SlideFacts(row);
    if Slide(row) == row {
      CompressOfPacked(row);
      MergeGainPositiveIff(row);
      if MergeGain(row) > 0 {
        MergedTileCount(row);
        CompressFacts(Merged(row));
        assert false;
      }
    }
    if IsPacked(row) && !HasPair(row) {
      CompressOfPacked(row);
      MergedNoPair(row);
    }
  }

  /** A row the slide leaves unchanged gains no score. */
  lemma SlideFixedNoGain(row: seq<nat>)
    requires |row| == Size && Slide(row) == row
    ensures RowGain(row) == 0
  {
    SlideFixedIff(row);
    CompressOfPacked(row);
    MergeGainPositiveIff(row);
  }

  /** Worked example: [2,2,2,2] merges to [4,0,4,0], gaining 8, without chaining, and a left
      move turns it into [4,4,0,0]. */
  lemma ExampleNoChain()
    ensures Merged([2, 2, 2, 2]) == [4, 0, 4, 0] && MergeGain([2, 2, 2, 2]) == 8
    ensures Slide([2, 2, 2, 2]) == [4, 4, 0, 0] && RowGain([2, 2, 2, 2]) == 8
  {
    assert NonZeros([2, 2, 2, 2]) == [2, 2, 2, 2];
    assert Compressed([2, 2, 2, 2]) == [2, 2, 2, 2];
    assert Merged([2, 2]) == [4, 0];
    assert Merged([2, 2, 2, 2]) == [4, 0] + Merged([2, 2]);
    assert NonZeros([4, 0, 4, 0]) == [4, 4];
  }

  /** Worked example: [2,0,2,2] moves left to [4,2,0,0], gaining 4; the third 2 does not
      merge with the new 4. */
  lemma ExampleLeadingPair()
    ensures Slide([2, 0, 2, 2]) == [4, 2, 0, 0] && RowGain([2, 0, 2, 2]) == 4
  {
    assert NonZeros([2, 0, 2, 2]) == [2, 2, 2];
    assert Compressed([2, 0, 2, 2]) == [2, 2, 2, 0];
    assert Merged([2, 0]) == [2, 0];
    assert Merged([2, 2, 2, 0]) == [4, 0] + Merged([2, 0]);
    assert NonZeros([4, 0, 2, 0]) == [4, 2];
  }

  /** Worked example: [2,4,8,16] is a fixed point of the left move and gains nothing. */
  lemma ExampleNoMove()
    ensures Slide([2, 4, 8, 16]) == [2, 4, 8, 16] && RowGain([2, 4, 8, 16]) == 0
  {
    assert NonZeros([2, 4, 8, 16]) == [2, 4, 8, 16];
    assert Compressed([2, 4, 8, 16]) == [2, 4, 8, 16];
    assert Merged([8, 16]) == [8, 16];
    assert Merged([4, 8, 16]) == [4] + Merged([8, 16]);
    assert Merged([2, 4, 8, 16]) == [2] + Merged([4, 8, 16]);
  }
}
