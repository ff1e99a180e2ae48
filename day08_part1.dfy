/** Day 8, part 1: follow the moves from node AAA until node ZZZ and count
    the steps. */
module Day08Part1 {
  import opened Wrappers
  import opened Day08Shared

  /** The name reached after `n` moves from "AAA", the k-th move being
      `moves[k % |moves|]`; `None` once a name is missing from the map. */
  function Trail(m: map<string, Node>, moves: seq<Movement>, n: nat): Option<string>
    requires |moves| > 0
  {
    if n == 0 then Some("AAA")
    else
      match Trail(m, moves, n - 1)
      case None => None
      case Some(name) => if name in m then Some(Target(m[name], moves[(n - 1) % |moves|])) else None
  }

  /** The walk stops after exactly `n` moves: it reaches ZZZ then and not before. */
  ghost predicate EndsAfter(m: map<string, Node>, moves: seq<Movement>, n: nat)
    requires |moves| > 0
  {
    Trail(m, moves, n) == Some("ZZZ") && forall j | 0 <= j < n :: Trail(m, moves, j) != Some("ZZZ")
  }

  /** Once a name is missing, the walk is lost for good. */
  lemma {:induction false} LostStaysLost(m: map<string, Node>, moves: seq<Movement>, j: nat, n: nat)
    requires |moves| > 0 && j <= n && Trail(m, moves, j) == None
    ensures Trail(m, moves, n) == None
    decreases n - j
  {
    if j < n {
      LostStaysLost(m, moves, j + 1, n);
    }
  }

  /** The `while` loop of `process`, given a fresh move set; the source
      loops for as long as it takes, the model gives up after `fuel` moves. */
  method Walk(m: map<string, Node>, moveSet: MoveSet, fuel: nat) returns (r: Result<nat>)
    requires moveSet.Valid() && moveSet.calls == 0
    modifies moveSet
    ensures r.Success? ==> r.value <= fuel && EndsAfter(m, moveSet.moves, r.value)
    ensures r.Failure? ==> forall n | 0 <= n <= fuel :: Trail(m, moveSet.moves, n) != Some("ZZZ")
  {
    var moves := moveSet.moves;
    var number := 0;
    var name := "AAA";
    while name != "ZZZ"
      invariant moveSet.Valid() && moveSet.calls == number && moveSet.moves == moves
      invariant number <= fuel
      invariant Trail(m, moves, number) == Some(name)
      invariant forall j | 0 <= j < number :: Trail(m, moves, j) != Some("ZZZ")
      decreases fuel - number
    {
      if number == fuel {
        return Failure("gave up");
      }
      if name !in m {
        forall n | 0 <= n <= fuel ensures Trail(m, moves, n) != Some("ZZZ") {
          if n > number {
            LostStaysLost(m, moves, number + 1, n);
          }
        }
        return Failure("well defined input");
      }
      var node := m[name];
      var movement := moveSet.Next();
      name := Target(node, movement.value);
      number := number + 1;
    }
    r := Success(number);
  }

  /** `process`, on the parsed move list and nodes: the number of moves
      from AAA to ZZZ. An empty move list makes `next` panic. */
  method Process(moves: seq<Movement>, nodes: seq<Node>, fuel: nat) returns (r: Result<nat>)
    ensures r.Success? ==> |moves| > 0 && r.value <= fuel && EndsAfter(NodeMap(nodes), moves, r.value)
    ensures |moves| > 0 && r.Failure? ==> forall n | 0 <= n <= fuel :: Trail(NodeMap(nodes), moves, n) != Some("ZZZ")
  {
    var m := BuildMap(nodes);
    if moves == [] {
      return Failure("index out of bounds");
    }
    var moveSet := new MoveSet(moves);
    r := Walk(m, moveSet, fuel);
  }

  /** The second example: R then L leads from AAA through CCC to ZZZ. */
  lemma {:induction false} Example()
    ensures EndsAfter(NodeMap(ExampleNodes()), [Right, Left], 2)
  {
    var m := NodeMap(ExampleNodes());
    ExampleLookups();
    assert Trail(m, [Right, Left], 1) == Some("CCC");
    assert Trail(m, [Right, Left], 2) == Some("ZZZ");
  }

  /** The example map sends AAA and CCC to their own nodes. */
  lemma {:induction false} ExampleLookups()
    ensures "AAA" in NodeMap(ExampleNodes()) && NodeMap(ExampleNodes())["AAA"] == Node("AAA", "BBB", "CCC")
    ensures "CCC" in NodeMap(ExampleNodes()) && NodeMap(ExampleNodes())["CCC"] == Node("CCC", "ZZZ", "GGG")
  {
    var nodes := ExampleNodes();
    NodeMapAt(nodes, 0);
    assert nodes[0].name != nodes[2].name && nodes[1].name != nodes[2].name;
    NodeMapAt(nodes, 2);
  }

  function ExampleNodes(): seq<Node> {
    [ Node("AAA", "BBB", "CCC"), Node("BBB", "DDD", "EEE"), Node("CCC", "ZZZ", "GGG"),
      Node("DDD", "DDD", "DDD"), Node("EEE", "EEE", "EEE"), Node("GGG", "GGG", "GGG"),
      Node("ZZZ", "ZZZ", "ZZZ") ]
  }
}
