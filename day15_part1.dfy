/** Day 15, part 1: the sum of the hashes of the comma-separated steps of
    the initialization sequence. */
module Day15Part1 {
  import opened Text
  import opened Day15Shared

  function SumHashes(pieces: seq<string>): (r: nat)
    ensures r < 256 * |pieces| || (pieces == [] && r == 0)
  {
    if pieces == [] then 0 else Hash(pieces[0]) + SumHashes(pieces[1..])
  }

  /** `process`: every step, empty ones included, contributes its hash,
      so the sum stays below 256 per step. */
  function Process(input: string): (r: nat)
    ensures r < 256 * |Split(input, ',')|
  {
    SumHashes(Split(input, ','))
  }

  lemma {:induction false} SumHashesAppend(a: seq<string>, b: seq<string>)
    ensures SumHashes(a + b) == SumHashes(a) + SumHashes(b)
  {
    if a != [] {
      assert (a + b)[0] == a[0] && (a + b)[1..] == a[1..] + b;
      SumHashesAppend(a[1..], b);
    } else {
      assert a + b == b;
    }
  }

  /** The sum over two sequences joined by a comma is the sum of their
      sums. */
  lemma {:induction false} ProcessJoin(a: string, b: string)
    ensures Process(a + "," + b) == Process(a) + Process(b)
  {
    SplitAppend(a, b, ',');
    SumHashesAppend(Split(a, ','), Split(b, ','));
  }

  /** A step without a comma is hashed as a whole. */
  lemma {:induction false} ProcessSingle(step: string)
    requires ',' !in step
    ensures Process(step) == Hash(step)
  {
    SplitFree(step, ',');
  }
}
