/** Day 2, the shared game record: a game is a list of draws of coloured
    cubes, and `initialize_max` records the largest count of every colour. */
module Day02Game {
  datatype Color = Blue | Red | Green

  /** One count of cubes of one colour, as in "3 blue". */
  datatype Move = Move(number: nat, color: Color)

  /** A count per colour; `Default` is all zeros. */
  datatype MaxVal = MaxVal(red: nat, green: nat, blue: nat)

  const Zero := MaxVal(0, 0, 0)

  /** The count of one colour. */
  function Component(m: MaxVal, c: Color): nat {
    match c
    case Red => m.red
    case Green => m.green
    case Blue => m.blue
  }

  /** `is_possible`: every count of `m` is at most the one of `limit`. */
  predicate Fits(m: MaxVal, limit: MaxVal) {
    m.red <= limit.red && m.green <= limit.green && m.blue <= limit.blue
  }

  /** One step of the loop in `initialize_max`: the move's colour is raised
      to the move's count when that is larger. */
  function Bump(m: MaxVal, mv: Move): MaxVal {
    match mv.color
    case Red => if mv.number > m.red then m.(red := mv.number) else m
    case Blue => if mv.number > m.blue then m.(blue := mv.number) else m
    case Green => if mv.number > m.green then m.(green := mv.number) else m
  }

  /** The draws of a game one after the other. */
  function Flatten(moves: seq<seq<Move>>): seq<Move> {
    if moves == [] then [] else Flatten(moves[..|moves| - 1]) + moves[|moves| - 1]
  }

  /** The counts `initialize_max` ends with on a list of moves. */
  function Maxima(flat: seq<Move>): MaxVal {
    if flat == [] then Zero else Bump(Maxima(flat[..|flat| - 1]), flat[|flat| - 1])
  }

  /** Every colour's count is the largest count of a move of that colour:
      no move of the colour exceeds it, and it is 0 or the count of some
      move of the colour, so it is 0 when the colour never appears. */
  lemma {:induction false} MaximaIsMax(flat: seq<Move>, c: Color)
    ensures forall k | 0 <= k < |flat| && flat[k].color == c :: flat[k].number <= Component(Maxima(flat), c)
    ensures Component(Maxima(flat), c) == 0 ||
      exists k | 0 <= k < |flat| :: flat[k].color == c && flat[k].number == Component(Maxima(flat), c)
    ensures (forall k | 0 <= k < |flat| :: flat[k].color != c) ==> Component(Maxima(flat), c) == 0
  {
    if flat != [] {
      var n := |flat| - 1;
      MaximaIsMax(flat[..n], c);
      assert forall k | 0 <= k < n :: flat[..n][k] == flat[k];
      var before := Component(Maxima(flat[..n]), c);
      if before != 0 && Component(Maxima(flat), c) == before {
        var k :| 0 <= k < n && flat[..n][k].color == c && flat[..n][k].number == before;
        assert flat[k].color == c && flat[k].number == before;
      }
    }
  }

  /** A game with the maxima recorded is possible under a limit exactly when
      every single move stays within the limit of its colour. */
  lemma {:induction false} FitsIffMovesFit(flat: seq<Move>, limit: MaxVal)
    ensures Fits(Maxima(flat), limit) <==>
      forall k | 0 <= k < |flat| :: flat[k].number <= Component(limit, flat[k].color)
  {
    MaximaIsMax(flat, Red);
    MaximaIsMax(flat, Green);
    MaximaIsMax(flat, Blue);
    var m := Maxima(flat);
    if forall k | 0 <= k < |flat| :: flat[k].number <= Component(limit, flat[k].color) {
      forall c: Color
        ensures Component(m, c) <= Component(limit, c)
      {
        if Component(m, c) != 0 {
          var k :| 0 <= k < |flat| && flat[k].color == c && flat[k].number == Component(m, c);
        }
      }
      assert Component(m, Red) <= Component(limit, Red);
      assert Component(m, Green) <= Component(limit, Green);
      assert Component(m, Blue) <= Component(limit, Blue);
    }
  }

  /** One more move of a draw is one more `Bump`. */
  lemma {:induction false} MaximaStep(done: seq<Move>, moveset: seq<Move>, j: nat)
    requires j < |moveset|
    ensures Maxima(done + moveset[..j + 1]) == Bump(Maxima(done + moveset[..j]), moveset[j])
  {
    var seen := done + moveset[..j + 1];
    assert seen[..|seen| - 1] == done + moveset[..j];
  }

  /** One more draw appends its moves. */
  lemma {:induction false} FlattenStep(moves: seq<seq<Move>>, i: nat)
    requires i < |moves|
    ensures Flatten(moves[..i + 1]) == Flatten(moves[..i]) + moves[i][..|moves[i]|]
  {
    assert moves[i][..|moves[i]|] == moves[i];
    assert moves[..i + 1][..i] == moves[..i];
  }

  /** A game: its id, its draws, and the maxima `initialize_max` fills in. */
  class Game {
    const id: nat
    const moves: seq<seq<Move>>
    var max: MaxVal

    /** As `line_parser` builds it: the maxima start at zero. */
    constructor (id: nat, moves: seq<seq<Move>>)
      ensures this.id == id && this.moves == moves && max == Zero
    {
      this.id := id;
      this.moves := moves;
      max := Zero;
    }

    /** `Game::is_possible`. */
    predicate IsPossible(limit: MaxVal)
      reads this
    {
      Fits(max, limit)
    }

    /** `Game::initialize_max`: scans every move of every draw and stores
        the per-colour maxima; the id and the draws stay as they are. */
    method InitializeMax()
      modifies this
      ensures max == Maxima(Flatten(moves))
    {
      var newMax := Zero;
      for i := 0 to |moves|
        invariant newMax == Maxima(Flatten(moves[..i]))
      {
        var moveset := moves[i];
        assert Flatten(moves[..i]) + moveset[..0] == Flatten(moves[..i]);
        for j := 0 to |moveset|
          invariant newMax == Maxima(Flatten(moves[..i]) + moveset[..j])
        {
          ghost var before := newMax;
          var single := moveset[j];
          match single.color {
            case Red =>
              if single.number > newMax.red {
                newMax := newMax.(red := single.number);
              }
            case Blue =>
              if single.number > newMax.blue {
                newMax := newMax.(blue := single.number);
              }
            case Green =>
              if single.number > newMax.green {
                newMax := newMax.(green := single.number);
              }
          }
          assert newMax == Bump(before, single);
          MaximaStep(Flatten(moves[..i]), moveset, j);
        }
        FlattenStep(moves, i);
      }
      assert moves[..|moves|] == moves;
      max := newMax;
    }
  }
}
