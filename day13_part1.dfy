/** Day 13, part 1: every pattern has a perfect line of reflection; the
    notes summarise 100 per row above a horizontal line and 1 per column
    left of a vertical one. */
module Day13Part1 {
  import opened Wrappers
  import opened Day13Shared

  /** The rows above line `x`, read upwards, equal the rows below it as far
      as the shorter side reaches: the direct test the solution first used
      before switching to the smudge count with 0 smudges. */
  predicate RowsMirror(block: seq<string>, x: nat)
    requires x <= |block|
  {
    var above, below := Reverse(block[..x]), block[x..];
    var shorter := Min(|above|, |below|);
    above[..shorter] == below[..shorter]
  }

  function FirstMirrorFrom(block: seq<string>, x: nat): nat
    requires 1 <= x
    decreases |block| - x
  {
    if x >= |block| then 0
    else if RowsMirror(block, x) then x
    else FirstMirrorFrom(block, x + 1)
  }

  /** In a rectangular pattern a line needs no smudge exactly when the rows
      mirror each other outright. */
  lemma {:induction false} NoSmudgeIffRowsMirror(block: seq<string>, x: nat)
    requires x <= |block| && Rectangular(block)
    ensures Smudges(block, x) == 0 <==> RowsMirror(block, x)
  {
    NoSmudgeMeansMirror(block, x);
    MirroredIffRowsMirror(block, x);
  }

  /** In a rectangular pattern, rows agreeing wherever both exist are
      equal. */
  lemma {:induction false} MirroredIffRowsMirror(block: seq<string>, x: nat)
    requires x <= |block| && Rectangular(block)
    ensures MirroredAt(block, x) <==> RowsMirror(block, x)
  {
    var above, below := Reverse(block[..x]), block[x..];
    var shorter := Min(|above|, |below|);
    if MirroredAt(block, x) {
      forall k | 0 <= k < shorter ensures above[..shorter][k] == below[..shorter][k] {
        var i, j := x + k, x - 1 - k;
        assert Agree(block[i], block[j]);
        assert |block[i]| == |block[j]|;
        assert block[i] == block[j];
      }
    } else {
      var i, j :| 0 <= j < x <= i < |block| && i - x == x - 1 - j && !Agree(block[i], block[j]);
      assert above[..shorter][i - x] == block[j] && below[..shorter][i - x] == block[i];
    }
  }

  lemma {:induction false} FirstLinesAgree(block: seq<string>, x: nat)
    requires 1 <= x && Rectangular(block)
    ensures FirstLineFrom(block, 0, x) == FirstMirrorFrom(block, x)
    decreases |block| - x
  {
    if x < |block| {
      NoSmudgeIffRowsMirror(block, x);
      FirstLinesAgree(block, x + 1);
    }
  }

  /** On a rectangular pattern the smudge search with 0 smudges finds the
      same line as the direct mirror test. */
  lemma {:induction false} NoSmudgeSearchIsMirrorSearch(block: seq<string>)
    requires Rectangular(block)
    ensures Reflection(block, 0) == FirstMirrorFrom(block, 1)
  {
    FirstLinesAgree(block, 1);
  }

  /** `process`: the summary with 0 smudges; a pattern whose first line is
      not its longest panics in `rotate`. */
  method Process(blocks: seq<seq<string>>) returns (r: Result<nat>)
    requires forall i | 0 <= i < |blocks| :: |blocks[i]| > 0
    ensures r.Success? <==> forall i | 0 <= i < |blocks| :: FitsFirst(blocks[i])
    ensures r.Success? ==> r.value == Summary(blocks, 0)
  {
    r := Summarize(blocks, 0);
  }
}
