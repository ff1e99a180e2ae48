/** Day 15, part 2: the HASHMAP procedure. Each step names a lens label
    whose hash picks one of 256 boxes; `lens=n` puts a lens of focal
    length `n` into that box (replacing the focal length of a lens already
    there, in place) and `lens-` takes the lens out of the box. The result
    is the focusing power of the lenses left in the boxes. */
module Day15Part2 {
  import opened Wrappers
  import opened Day15Shared

  datatype Operation = Set | Remove

  /** A parsed step; the parser stores the hash of the lens and a focal
      length for every `=` step. */
  datatype Instruction = Instruction(lens: string, op: Operation, focalLen: Option<nat>, hash: nat)

  predicate Hashed(ins: Instruction) {
    ins.hash == Hash(ins.lens)
  }

  /** `iter().position`: the first slot holding the lens. */
  function Position(lenses: seq<string>, lens: string): (r: Option<nat>)
    ensures r.None? <==> lens !in lenses
    ensures r.Some? ==> r.value < |lenses| && lenses[r.value] == lens && lens !in lenses[..r.value]
  {
    if lenses == [] then None
    else if lenses[0] == lens then Some(0)
    else
      match Position(lenses[1..], lens)
      case None => None
      case Some(i) =>
        assert lenses[..i + 1] == [lenses[0]] + lenses[1..][..i];
        Some(i + 1)
  }

  /** One step on the box of its lens: `=` appends an absent lens and
      leaves a present one where it is; `-` removes the lens if present. */
  function StepBox(lenses: seq<string>, ins: Instruction): seq<string> {
    match ins.op
    case Set => if Position(lenses, ins.lens).None? then lenses + [ins.lens] else lenses
    case Remove =>
      match Position(lenses, ins.lens)
      case None => lenses
      case Some(i) => lenses[..i] + lenses[i + 1..]
  }

  datatype Table = Table(boxes: seq<seq<string>>, focal: map<string, nat>)

  /** One step on the whole table; an `=` step without a focal length
      aborts (`expect`). */
  function Step(t: Table, ins: Instruction): (r: Result<Table>)
    requires |t.boxes| == 256 && Hashed(ins)
    ensures r.Success? ==> |r.value.boxes| == 256
  {
    if ins.op == Set && ins.focalLen.None? then Failure("value should exist")
    else
      var boxes := t.boxes[ins.hash := StepBox(t.boxes[ins.hash], ins)];
      Success(Table(boxes, if ins.op == Set then t.focal[ins.lens := ins.focalLen.value] else t.focal))
  }

  /** The table after the steps, one after the other, from 256 empty boxes. */
  function Run(instrs: seq<Instruction>): (r: Result<Table>)
    requires forall i | 0 <= i < |instrs| :: Hashed(instrs[i])
    ensures r.Success? ==> |r.value.boxes| == 256
  {
    if instrs == [] then Success(Table(seq(256, _ => []), map[]))
    else
      var ins := instrs[|instrs| - 1];
      match Run(instrs[..|instrs| - 1])
      case Failure(e) => Failure(e)
      case Success(t) =>
        assert Hashed(ins);
        Step(t, ins)
  }

  /** Running one more step of a prefix. */
  lemma {:induction false} RunPrefix(instrs: seq<Instruction>, k: nat)
    requires k < |instrs| && forall i | 0 <= i < |instrs| :: Hashed(instrs[i])
    ensures Run(instrs[..k]).Failure? ==> Run(instrs[..k + 1]).Failure?
    ensures Run(instrs[..k]).Success? ==> Run(instrs[..k + 1]) == Step(Run(instrs[..k]).value, instrs[k])
  {
    assert instrs[..k + 1][..k] == instrs[..k] && instrs[..k + 1][k] == instrs[k];
  }

  // ---------------------------------------------------------------------
  // What the table holds

  predicate NoDup(lenses: seq<string>) {
    forall i, j | 0 <= i < j < |lenses| :: lenses[i] != lenses[j]
  }

  /** Box `b` holds only labels hashing to `b`, each at most once. */
  predicate BoxOk(lenses: seq<string>, b: nat) {
    NoDup(lenses) && forall i | 0 <= i < |lenses| :: Hash(lenses[i]) == b
  }

  predicate Organised(boxes: seq<seq<string>>) {
    |boxes| == 256 && forall b | 0 <= b < 256 :: BoxOk(boxes[b], b)
  }

  /** The operation of the latest step on a lens. */
  function LastOp(instrs: seq<Instruction>, lens: string): Option<Operation> {
    if instrs == [] then None
    else if instrs[|instrs| - 1].lens == lens then Some(instrs[|instrs| - 1].op)
    else LastOp(instrs[..|instrs| - 1], lens)
  }

  /** The focal length of the latest `=` step on a lens. */
  function LastSet(instrs: seq<Instruction>, lens: string): Option<nat> {
    if instrs == [] then None
    else
      var ins := instrs[|instrs| - 1];
      if ins.lens == lens && ins.op == Set then ins.focalLen
      else LastSet(instrs[..|instrs| - 1], lens)
  }

  /** Steps on another lens do not change whether a lens is boxed. */
  lemma {:induction false} StepBoxOthers(lenses: seq<string>, ins: Instruction, lens: string)
    requires lens != ins.lens
    ensures lens in StepBox(lenses, ins) <==> lens in lenses
  {
    match Position(lenses, ins.lens)
    case None =>
    case Some(i) =>
      assert lenses == lenses[..i] + [lenses[i]] + lenses[i + 1..];
  }

  /** `-` takes out every lens with that label, because a box holds each
      lens at most once; the other lenses keep their order. */
  lemma {:induction false} RemoveIsFilter(lenses: seq<string>, ins: Instruction)
    requires NoDup(lenses) && ins.op == Remove
    ensures StepBox(lenses, ins) == Without(lenses, ins.lens)
  {
    match Position(lenses, ins.lens)
    case None =>
      WithoutAbsent(lenses, ins.lens);
    case Some(i) =>
      WithoutAt(lenses, i);
  }

  lemma {:induction false} WithoutAt(lenses: seq<string>, i: nat)
    requires NoDup(lenses) && i < |lenses|
    ensures Without(lenses, lenses[i]) == lenses[..i] + lenses[i + 1..]
  {
    var lens, before, after := lenses[i], lenses[..i], lenses[i + 1..];
    assert lenses == before + ([lens] + after);
    assert lens !in before by {
      forall k | 0 <= k < |before| ensures before[k] != lens {
        assert before[k] == lenses[k];
      }
    }
    assert lens !in after by {
      forall k | 0 <= k < |after| ensures after[k] != lens {
        assert after[k] == lenses[i + 1 + k];
      }
    }
    calc {
      Without(lenses, lens);
      { WithoutAppend(before, [lens] + after, lens); }
      Without(before, lens) + Without([lens] + after, lens);
      { WithoutAbsent(before, lens); WithoutAppend([lens], after, lens); }
      before + (Without([lens], lens) + Without(after, lens));
      { assert [lens][1..] == []; WithoutAbsent(after, lens); }
      before + after;
    }
  }

  /** The lenses other than `lens`, in order. */
  function Without(lenses: seq<string>, lens: string): seq<string> {
    if lenses == [] then []
    else (if lenses[0] == lens then [] else [lenses[0]]) + Without(lenses[1..], lens)
  }

  lemma {:induction false} WithoutAbsent(lenses: seq<string>, lens: string)
    requires lens !in lenses
    ensures Without(lenses, lens) == lenses
  {
    if lenses != [] {
      assert lens !in lenses[1..];
      WithoutAbsent(lenses[1..], lens);
      assert lenses == [lenses[0]] + lenses[1..];
    }
  }

  lemma {:induction false} WithoutAppend(a: seq<string>, b: seq<string>, lens: string)
    ensures Without(a + b, lens) == Without(a, lens) + Without(b, lens)
  {
    if a == [] {
      assert a + b == b;
    } else {
      assert (a + b)[0] == a[0] && (a + b)[1..] == a[1..] + b;
      WithoutAppend(a[1..], b, lens);
    }
  }

  lemma {:induction false} StepBoxOk(lenses: seq<string>, ins: Instruction, b: nat)
    requires BoxOk(lenses, b) && Hash(ins.lens) == b
    ensures BoxOk(StepBox(lenses, ins), b)
    ensures ins.op == Set ==> ins.lens in StepBox(lenses, ins)
    ensures ins.op == Remove ==> ins.lens !in StepBox(lenses, ins)
  {
    match Position(lenses, ins.lens)
    case None =>
    case Some(i) =>
      if ins.op == Remove {
        RemoveAtOk(lenses, i, b);
      }
  }

  /** Taking the only copy of a lens out of a box. */
  lemma {:induction false} RemoveAtOk(lenses: seq<string>, i: nat, b: nat)
    requires BoxOk(lenses, b) && i < |lenses|
    ensures BoxOk(lenses[..i] + lenses[i + 1..], b)
    ensures lenses[i] !in lenses[..i] + lenses[i + 1..]
  {
    var r := lenses[..i] + lenses[i + 1..];
    forall k | 0 <= k < |r| ensures r[k] == lenses[if k < i then k else k + 1] {
    }
    forall x, y | 0 <= x < y < |r| ensures r[x] != r[y] {
      assert r[x] == lenses[if x < i then x else x + 1];
    }
    forall k | 0 <= k < |r| ensures r[k] != lenses[i] {
      assert r[k] == lenses[if k < i then k else k + 1];
    }
  }

  /** The table after the steps: every lens sits only in the box its hash
      names, at most once, exactly when its latest step was `=`; its focal
      length is that of its latest `=` step. */
  lemma {:induction false} RunFacts(instrs: seq<Instruction>)
    requires forall i | 0 <= i < |instrs| :: Hashed(instrs[i])
    requires Run(instrs).Success?
    ensures Organised(Run(instrs).value.boxes)
    ensures forall lens :: lens in Run(instrs).value.boxes[Hash(lens)] <==> LastOp(instrs, lens) == Some(Set)
    ensures forall lens :: lens in Run(instrs).value.focal <==> LastSet(instrs, lens).Some?
    ensures forall lens | lens in Run(instrs).value.focal :: Run(instrs).value.focal[lens] == LastSet(instrs, lens).value
  {
    if instrs != [] {
      var init, ins := instrs[..|instrs| - 1], instrs[|instrs| - 1];
      RunFacts(init);
      var t, t' := Run(init).value, Run(instrs).value;
      var h := ins.hash;
      StepBoxOk(t.boxes[h], ins, h);
      forall lens ensures lens in t'.boxes[Hash(lens)] <==> LastOp(instrs, lens) == Some(Set) {
        if lens != ins.lens {
          StepBoxOthers(t.boxes[h], ins, lens);
        }
      }
    }
  }

  /** Every lens in a box has a focal length, so `focal_lengths[&lens]`
      never panics. */
  lemma {:induction false} BoxedHaveFocal(instrs: seq<Instruction>)
    requires forall i | 0 <= i < |instrs| :: Hashed(instrs[i])
    requires Run(instrs).Success?
    ensures forall b, i | 0 <= b < 256 && 0 <= i < |Run(instrs).value.boxes[b]| ::
      Run(instrs).value.boxes[b][i] in Run(instrs).value.focal
  {
    RunFacts(instrs);
    var t := Run(instrs).value;
    forall b, i | 0 <= b < 256 && 0 <= i < |t.boxes[b]| ensures t.boxes[b][i] in t.focal {
      var lens := t.boxes[b][i];
      assert Hash(lens) == b;
      SetSetsFocal(instrs, lens);
    }
  }

  lemma {:induction false} SetSetsFocal(instrs: seq<Instruction>, lens: string)
    requires forall i | 0 <= i < |instrs| :: Hashed(instrs[i])
    requires Run(instrs).Success? && LastOp(instrs, lens) == Some(Set)
    ensures LastSet(instrs, lens).Some?
  {
    var init, ins := instrs[..|instrs| - 1], instrs[|instrs| - 1];
    if ins.lens != lens {
      SetSetsFocal(init, lens);
    }
  }

  /** Only an `=` step without a focal length aborts the run. */
  lemma {:induction false} RunFails(instrs: seq<Instruction>)
    requires forall i | 0 <= i < |instrs| :: Hashed(instrs[i])
    ensures Run(instrs).Failure? <==> exists i | 0 <= i < |instrs| :: instrs[i].op == Set && instrs[i].focalLen.None?
  {
    if instrs != [] {
      var init, ins := instrs[..|instrs| - 1], instrs[|instrs| - 1];
      RunFails(init);
      assert instrs == init + [ins];
      MissingSnoc(init, ins);
    }
  }

  lemma {:induction false} MissingSnoc(init: seq<Instruction>, last: Instruction)
    ensures (exists i | 0 <= i < |init + [last]| :: (init + [last])[i].op == Set && (init + [last])[i].focalLen.None?)
      <==> (exists i | 0 <= i < |init| :: init[i].op == Set && init[i].focalLen.None?) || (last.op == Set && last.focalLen.None?)
  {
    assert forall i | 0 <= i < |init| :: (init + [last])[i] == init[i];
    assert (init + [last])[|init|] == last;
  }

  // ---------------------------------------------------------------------
  // Focusing power

  /** The lenses of box number `boxNo` (1-based): box number times slot
      number times focal length. */
  function BoxPower(boxNo: nat, lenses: seq<string>, focal: map<string, nat>): nat
    requires forall i | 0 <= i < |lenses| :: lenses[i] in focal
  {
    if lenses == [] then 0
    else BoxPower(boxNo, lenses[..|lenses| - 1], focal) + boxNo * |lenses| * focal[lenses[|lenses| - 1]]
  }

  function Power(boxes: seq<seq<string>>, focal: map<string, nat>): nat
    requires forall b, i | 0 <= b < |boxes| && 0 <= i < |boxes[b]| :: boxes[b][i] in focal
  {
    if boxes == [] then 0
    else Power(boxes[..|boxes| - 1], focal) + BoxPower(|boxes|, boxes[|boxes| - 1], focal)
  }

  /** An empty box adds nothing. */
  lemma {:induction false} EmptyBoxesNoPower(boxes: seq<seq<string>>, focal: map<string, nat>)
    requires forall b | 0 <= b < |boxes| :: boxes[b] == []
    ensures Power(boxes, focal) == 0
  {
    if boxes != [] {
      EmptyBoxesNoPower(boxes[..|boxes| - 1], focal);
    }
  }

  /** `process`: run the steps on 256 boxes in place, then add up the
      focusing power. */
  method Process(instrs: seq<Instruction>) returns (r: Result<nat>)
    requires forall i | 0 <= i < |instrs| :: Hashed(instrs[i])
    ensures r.Failure? <==> exists i | 0 <= i < |instrs| :: instrs[i].op == Set && instrs[i].focalLen.None?
    ensures r.Success? ==> Run(instrs).Success?
    ensures r.Success? ==> (BoxedHaveFocal(instrs); r.value == Power(Run(instrs).value.boxes, Run(instrs).value.focal))
  {
    RunFails(instrs);
    var boxes := new seq<string>[256](_ => []);
    var focal: map<string, nat> := map[];
    assert boxes[..] == seq(256, _ => []);
    for k := 0 to |instrs|
      invariant Run(instrs[..k]) == Success(Table(boxes[..], focal))
    {
      RunPrefix(instrs, k);
      assert Hashed(instrs[k]);
      var ok;
      focal, ok := ApplyStep(boxes, focal, instrs[k]);
      if !ok {
        MissingFocalPersists(instrs, k + 1);
        return Failure("value should exist");
      }
    }
    assert instrs[..|instrs|] == instrs;
    BoxedHaveFocal(instrs);
    r := Success(Power(boxes[..], focal));
  }

  /** One step of the loop of `process` on the boxes in place; `ok` is
      false when an `=` step has no focal length. */
  method ApplyStep(boxes: array<seq<string>>, focal: map<string, nat>, ins: Instruction)
    returns (focal': map<string, nat>, ok: bool)
    requires boxes.Length == 256 && Hashed(ins)
    modifies boxes
    ensures ok <==> !(ins.op == Set && ins.focalLen.None?)
    ensures ok ==> Step(Table(old(boxes[..]), focal), ins) == Success(Table(boxes[..], focal'))
  {
    ghost var t := Table(boxes[..], focal);
    var h := ins.hash;
    var idx := Position(boxes[h], ins.lens);
    focal' := focal;
    match ins.op {
      case Set =>
        if idx.None? {
          boxes[h] := boxes[h] + [ins.lens];
        }
        if ins.focalLen.None? {
          return focal', false;
        }
        focal' := focal[ins.lens := ins.focalLen.value];
      case Remove =>
        if idx.Some? {
          boxes[h] := boxes[h][..idx.value] + boxes[h][idx.value + 1..];
        }
    }
    ok := true;
    assert boxes[..] == t.boxes[h := StepBox(t.boxes[h], ins)];
  }

  lemma {:induction false} MissingFocalPersists(instrs: seq<Instruction>, k: nat)
    requires k <= |instrs| && forall i | 0 <= i < |instrs| :: Hashed(instrs[i])
    requires Run(instrs[..k]).Failure?
    ensures Run(instrs).Failure?
    decreases |instrs| - k
  {
    if k < |instrs| {
      assert instrs[..k + 1][..k] == instrs[..k];
      MissingFocalPersists(instrs, k + 1);
    } else {
      assert instrs[..k] == instrs;
    }
  }
}
