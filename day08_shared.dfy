/** Day 8, shared part: the cyclic list of left/right moves and the network
    of nodes. */
module Day08Shared {
  import opened Wrappers

  datatype Movement = Left | Right

  datatype Node = Node(name: string, left: string, right: string)

  /** The name a move leads to from a node. */
  function Target(node: Node, movement: Movement): string {
    match movement
    case Left => node.left
    case Right => node.right
  }

  /** The move list, replayed forever: `next` hands out the move at
      `current` and advances `current` cyclically. */
  class MoveSet {
    const moves: seq<Movement>
    var current: nat
    /** How many moves have been handed out. */
    ghost var calls: nat

    ghost predicate Valid()
      reads this
    {
      |moves| > 0 && current == calls % |moves|
    }

    /** `MoveSet::new`: starts at the first move. */
    constructor (moves: seq<Movement>)
      ensures this.moves == moves && current == 0 && calls == 0
      ensures |moves| > 0 ==> Valid()
    {
      this.moves := moves;
      current := 0;
      calls := 0;
    }

    /** `next`: the k-th call (counting from 0) returns the move at
        k modulo the length, and never ends the iteration. */
    method Next() returns (r: Option<Movement>)
      requires Valid()
      modifies this
      ensures Valid() && calls == old(calls) + 1
      ensures current == (old(current) + 1) % |moves| && current < |moves|
      ensures r == Some(moves[old(calls) % |moves|])
    {
      r := Some(moves[current]);
      ModSucc(calls, |moves|);
      current := (current + 1) % |moves|;
      calls := calls + 1;
    }
  }

  lemma {:induction false} ModSucc(c: nat, n: nat)
    requires n > 0
    ensures (c % n + 1) % n == (c + 1) % n
  {
    var q, r := c / n, c % n;
    if r + 1 == n {
      ModUnique(c + 1, q + 1, 0, n);
      ModUnique(n, 1, 0, n);
    } else {
      ModUnique(c + 1, q, r + 1, n);
      ModUnique(r + 1, 0, r + 1, n);
    }
  }

  /** Euclidean division is unique. */
  lemma {:induction false} ModUnique(x: int, q: int, r: int, n: int)
    requires n > 0 && 0 <= r < n && x == q * n + r
    ensures x % n == r
  {
    var q', r' := x / n, x % n;
    assert (q - q') * n == r' - r;
    assert (q' - q) * n == r - r';
    if q > q' {
      MulAtLeast(q - q', n);
    } else if q < q' {
      MulAtLeast(q' - q, n);
    }
  }

  lemma {:induction false} MulAtLeast(a: int, n: int)
    requires a >= 1 && n > 0
    ensures a * n >= n
  {
  }

  /** The map `process` builds from the node list: the first node listed
      under a name wins (`entry(..).or_insert(..)`). */
  function NodeMap(nodes: seq<Node>): map<string, Node> {
    if nodes == [] then map[]
    else
      var m := NodeMap(nodes[..|nodes| - 1]);
      var node := nodes[|nodes| - 1];
      if node.name in m then m else m[node.name := node]
  }

  /** A node whose name no earlier node has is what the map holds under
      that name. */
  lemma {:induction false} NodeMapAt(nodes: seq<Node>, i: nat)
    requires i < |nodes| && forall j | 0 <= j < i :: nodes[j].name != nodes[i].name
    ensures nodes[i].name in NodeMap(nodes) && NodeMap(nodes)[nodes[i].name] == nodes[i]
  {
    NodeMapFirst(nodes);
    var name := nodes[i].name;
    var k :| 0 <= k < |nodes| && nodes[k] == NodeMap(nodes)[name] && nodes[k].name == name
      && forall j | 0 <= j < k :: nodes[j].name != name;
    assert !(k < i) && !(i < k);
  }

  /** The map holds exactly the listed names, each with the first node
      listed under it. */
  lemma {:induction false} NodeMapFirst(nodes: seq<Node>)
    ensures forall name :: name in NodeMap(nodes) <==> exists i | 0 <= i < |nodes| :: nodes[i].name == name
    ensures forall name | name in NodeMap(nodes) :: exists i | 0 <= i < |nodes| ::
      nodes[i] == NodeMap(nodes)[name] && nodes[i].name == name && forall j | 0 <= j < i :: nodes[j].name != name
  {
    NodeMapKeys(nodes);
    NodeMapValues(nodes);
  }

  lemma {:induction false} NodeMapKeys(nodes: seq<Node>)
    ensures forall name :: name in NodeMap(nodes) <==> exists i | 0 <= i < |nodes| :: nodes[i].name == name
  {
    if nodes != [] {
      var n := |nodes| - 1;
      var init := nodes[..n];
      NodeMapKeys(init);
      var m := NodeMap(nodes);
      assert m.Keys == NodeMap(init).Keys + {nodes[n].name};
      forall name ensures name in m <==> exists i | 0 <= i < |nodes| :: nodes[i].name == name {
        if name == nodes[n].name {
          assert nodes[n].name == name;
        }
        if exists i | 0 <= i < |init| :: init[i].name == name {
          var i :| 0 <= i < |init| && init[i].name == name;
          assert nodes[i] == init[i];
        }
        if exists i | 0 <= i < |nodes| :: nodes[i].name == name {
          var i :| 0 <= i < |nodes| && nodes[i].name == name;
          if i < n {
            assert init[i] == nodes[i];
          }
        }
      }
    }
  }

  lemma {:induction false} NodeMapValues(nodes: seq<Node>)
    ensures forall name | name in NodeMap(nodes) :: exists i | 0 <= i < |nodes| ::
      nodes[i] == NodeMap(nodes)[name] && nodes[i].name == name && forall j | 0 <= j < i :: nodes[j].name != name
  {
    if nodes != [] {
      var n := |nodes| - 1;
      var init := nodes[..n];
      NodeMapValues(init);
      var m := NodeMap(nodes);
      assert m == if nodes[n].name in NodeMap(init) then NodeMap(init) else NodeMap(init)[nodes[n].name := nodes[n]];
      forall name | name in m ensures exists i | 0 <= i < |nodes| ::
        nodes[i] == m[name] && nodes[i].name == name && forall j | 0 <= j < i :: nodes[j].name != name
      {
        if name in NodeMap(init) {
          var i :| 0 <= i < |init| && init[i] == NodeMap(init)[name] && init[i].name == name
            && forall j | 0 <= j < i :: init[j].name != name;
          assert nodes[i] == init[i];
          assert forall j | 0 <= j < i :: nodes[j] == init[j];
        } else {
          NodeMapKeys(init);
          assert forall j | 0 <= j < n :: nodes[j] == init[j];
          assert nodes[n] == m[name];
        }
      }
    }
  }

  /** The insertion loop of `process`. */
  method BuildMap(nodes: seq<Node>) returns (m: map<string, Node>)
    ensures m == NodeMap(nodes)
  {
    m := map[];
    for k := 0 to |nodes|
      invariant m == NodeMap(nodes[..k])
    {
      assert nodes[..k + 1][..k] == nodes[..k];
      var node := nodes[k];
      if node.name !in m {
        m := m[node.name := node];
      }
    }
    assert nodes[..|nodes|] == nodes;
  }
}
