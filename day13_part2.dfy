/** Day 13, part 2: every pattern has exactly one smudge, so the line of
    reflection is the one whose mirrored rows differ in exactly one
    cell. */
module Day13Part2 {
  import opened Wrappers
  import opened Day13Shared

  /** A line found with one smudge is not a perfect mirror line, and the
      rows on its two sides differ in exactly one cell. */
  lemma {:induction false} OneSmudgeIsNotAMirror(block: seq<string>)
    requires Reflection(block, 1) != 0
    ensures var x := Reflection(block, 1); x < |block| && Smudges(block, x) == 1 && !MirroredAt(block, x)
  {
    ReflectionIsFirst(block, 1);
    NoSmudgeMeansMirror(block, Reflection(block, 1));
  }

  /** `process`: the summary with 1 smudge; a pattern whose first line is
      not its longest panics in `rotate`. */
  method Process(blocks: seq<seq<string>>) returns (r: Result<nat>)
    requires forall i | 0 <= i < |blocks| :: |blocks[i]| > 0
    ensures r.Success? <==> forall i | 0 <= i < |blocks| :: FitsFirst(blocks[i])
    ensures r.Success? ==> r.value == Summary(blocks, 1)
  {
    r := Summarize(blocks, 1);
  }
}
