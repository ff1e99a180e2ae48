/** Day 8, part 2: walk from every node whose name ends in 'A' at once,
    note when each walker first reaches a node ending in 'Z', and combine
    those step counts with a least common multiple. */
module Day08Part2 {
  import opened Wrappers
  import opened Day08Shared

  // ---------------------------------------------------------------------
  // Divisibility, gcd and lcm

  predicate Divides(d: nat, n: int) {
    d > 0 && n % d == 0
  }

  /** Euclidean division is unique. */
  lemma {:induction false} DivUnique(x: int, q: int, r: int, n: int)
    requires n > 0 && 0 <= r < n && x == q * n + r
    ensures x / n == q && x % n == r
  {
    var q', r' := x / n, x % n;
    assert (q - q') * n == r' - r;
    assert (q' - q) * n == r - r';
    if q > q' {
      MulAtLeast(q - q', n);
    } else if q < q' {
      MulAtLeast(q' - q, n);
    }
  }

  lemma {:induction false} MulAtLeast(a: int, n: int)
    requires a >= 1 && n > 0
    ensures a * n >= n
  {
  }

  /** A divisor of two numbers divides every combination of them. */
  lemma {:induction false} DividesCombination(d: nat, x: int, y: int, k: int)
    requires Divides(d, x) && Divides(d, y)
    ensures Divides(d, x + k * y)
  {
    var qx, qy := x / d, y / d;
    assert x == qx * d && y == qy * d;
    assert x + k * y == (qx + k * qy) * d;
    DivUnique(x + k * y, qx + k * qy, 0, d);
  }

  lemma {:induction false} DividesMultiple(d: nat, k: int)
    requires d > 0
    ensures Divides(d, k * d)
  {
    DivUnique(k * d, k, 0, d);
  }

  lemma {:induction false} DividesTransitive(a: nat, b: nat, c: int)
    requires Divides(a, b) && Divides(b, c)
    ensures Divides(a, c)
  {
    var p, q := b / a, c / b;
    assert b == p * a && c == q * b;
    assert c == (q * p) * a;
    DividesMultiple(a, q * p);
  }

  /** Euclid's recursion, the function `gcd` computes. */
  function Euclid(a: nat, b: nat): nat
    decreases b
  {
    if b == 0 then a else Euclid(b, a % b)
  }

  /** `gcd`: the `while b > 0` loop. */
  method Gcd(a: nat, b: nat) returns (r: nat)
    ensures r == Euclid(a, b)
  {
    var x, y := a, b;
    while y > 0
      invariant Euclid(x, y) == Euclid(a, b)
      decreases y
    {
      var t := x;
      x := y;
      y := t % y;
    }
    r := x;
  }

  /** Euclid's value is zero only for two zeros; gcd(a, 0) = a. */
  lemma {:induction false} EuclidZero(a: nat, b: nat)
    ensures Euclid(a, b) == 0 <==> a == 0 && b == 0
    ensures Euclid(a, 0) == a
    decreases b
  {
    if b > 0 {
      EuclidZero(b, a % b);
    }
  }

  /** Euclid's value divides both numbers. */
  lemma {:induction false} EuclidDivides(a: nat, b: nat)
    requires Euclid(a, b) > 0
    ensures Divides(Euclid(a, b), a) && Divides(Euclid(a, b), b)
    decreases b
  {
    if b == 0 {
      DividesMultiple(a, 1);
      DividesMultiple(a, 0);
    } else {
      var r := a % b;
      EuclidDivides(b, r);
      assert a == r + (a / b) * b;
      DividesCombination(Euclid(b, r), r, b, a / b);
    }
  }

  /** Every common divisor divides Euclid's value, so it is the greatest. */
  lemma {:induction false} EuclidGreatest(a: nat, b: nat, d: nat)
    requires Divides(d, a) && Divides(d, b)
    ensures Divides(d, Euclid(a, b))
    decreases b
  {
    if b > 0 {
      DividesCombination(d, a, b, -(a / b));
      assert a + -(a / b) * b == a % b;
      EuclidGreatest(b, a % b, d);
    }
  }

  /** `lcm`: a * b / gcd(a, b); two zeros divide by zero. */
  function Lcm(a: nat, b: nat): nat
    requires a > 0 || b > 0
  {
    EuclidZero(a, b);
    a * b / Euclid(a, b)
  }

  /** For positive numbers `lcm` is a positive common multiple of both, no
      larger than their product. */
  lemma {:induction false} LcmIsCommonMultiple(a: nat, b: nat)
    requires a > 0 && b > 0
    ensures Lcm(a, b) > 0 && Divides(a, Lcm(a, b)) && Divides(b, Lcm(a, b))
    ensures Lcm(a, b) <= a * b
  {
    EuclidZero(a, b);
    EuclidDivides(a, b);
    var g := Euclid(a, b);
    var j, k := a / g, b / g;
    assert a == j * g && b == k * g;
    LcmByCofactors(a, b, g, j, k);
  }

  lemma {:induction false} LcmByCofactors(a: nat, b: nat, g: nat, j: nat, k: nat)
    requires a > 0 && b > 0 && g > 0 && a == j * g && b == k * g && g == Euclid(a, b)
    ensures Lcm(a, b) > 0 && Divides(a, Lcm(a, b)) && Divides(b, Lcm(a, b))
    ensures Lcm(a, b) <= a * b
  {
    LcmValue(a, b, g, k);
    CrossCofactors(a, b, g, j, k);
    DividesMultiple(a, k);
    DividesMultiple(b, j);
    MulPositive(k, g);
    MulAtLeast(g, k);
    MulMonotone(a, k, b);
  }

  /** `lcm(a, b)` is `a` times the cofactor of `b`. */
  lemma {:induction false} LcmValue(a: nat, b: nat, g: nat, k: nat)
    requires a > 0 && b > 0 && g > 0 && b == k * g && g == Euclid(a, b)
    ensures Lcm(a, b) == a * k
  {
    MulAssoc(a, k, g);
    DivUnique(a * b, a * k, 0, g);
  }

  lemma {:induction false} MulAssoc(a: int, k: int, g: int)
    ensures a * (k * g) == (a * k) * g
  {
  }

  /** `a * (b / g) == (a / g) * b`. */
  lemma {:induction false} CrossCofactors(a: nat, b: nat, g: nat, j: nat, k: nat)
    requires a == j * g && b == k * g
    ensures a * k == k * a && k * a == j * b
  {
    MulAssoc(j, g, k);
    MulAssoc(j, k, g);
    assert g * k == k * g;
  }

  lemma {:induction false} MulPositive(k: nat, g: nat)
    requires k * g > 0
    ensures k > 0
  {
  }

  lemma {:induction false} MulMonotone(a: nat, k: nat, b: nat)
    requires k <= b
    ensures a * k <= a * b
  {
  }

  /** `vec_lcm`: fold `lcm` from 1. */
  function VecLcm(xs: seq<nat>): (r: nat)
    requires forall i | 0 <= i < |xs| :: xs[i] > 0
    ensures r > 0
  {
    if xs == [] then 1
    else
      var acc := VecLcm(xs[..|xs| - 1]);
      LcmIsCommonMultiple(acc, xs[|xs| - 1]);
      Lcm(acc, xs[|xs| - 1])
  }

  /** The fold is a common multiple of every number; `vec_lcm([]) = 1`. */
  lemma {:induction false} VecLcmIsCommonMultiple(xs: seq<nat>)
    requires forall i | 0 <= i < |xs| :: xs[i] > 0
    ensures forall i | 0 <= i < |xs| :: Divides(xs[i], VecLcm(xs))
    ensures xs == [] ==> VecLcm(xs) == 1
  {
    if xs != [] {
      var n := |xs| - 1;
      var init := xs[..n];
      VecLcmIsCommonMultiple(init);
      var acc := VecLcm(init);
      LcmIsCommonMultiple(acc, xs[n]);
      forall i | 0 <= i < |xs| ensures Divides(xs[i], VecLcm(xs)) {
        if i < n {
          assert xs[i] == init[i];
          DividesTransitive(xs[i], acc, VecLcm(xs));
        }
      }
    }
  }

  /** Scaling both numbers scales Euclid's value. */
  lemma {:induction false} EuclidScale(a: nat, b: nat, c: nat)
    requires c > 0
    ensures Euclid(c * a, c * b) == c * Euclid(a, b)
    decreases b
  {
    if b > 0 {
      var q, r := a / b, a % b;
      assert c * a == q * (c * b) + c * r by {
        assert a == q * b + r;
        MulAssoc(c, q, b);
        assert c * (q * b) == q * (c * b);
      }
      MulMonotone(c, r + 1, b);
      DivUnique(c * a, q, c * r, c * b);
      EuclidScale(b, r, c);
    }
  }

  lemma {:induction false} MulCancel(x: int, y: int, g: int)
    requires g > 0 && x * g == y * g
    ensures x == y
  {
    assert (x - y) * g == 0;
  }

  /** `lcm` divides every common multiple of its arguments. */
  lemma {:induction false} LcmLeast(a: nat, b: nat, m: nat)
    requires a > 0 && b > 0 && Divides(a, m) && Divides(b, m)
    ensures Divides(Lcm(a, b), m)
  {
    EuclidZero(a, b);
    EuclidDivides(a, b);
    var g := Euclid(a, b);
    var k := b / g;
    assert b == k * g;
    LcmValue(a, b, g, k);
    if m == 0 {
      LcmIsCommonMultiple(a, b);
      assert m % Lcm(a, b) == 0;
    } else {
      MulPositiveBoth(a, b);
      ProductDividesScaled(a, b, m);
      ProductDividesScaled(b, a, m);
      assert b * a == a * b && m * b == b * m && m * a == a * m;
      EuclidGreatest(a * m, b * m, a * b);
      EuclidScaleRight(a, b, m);
      ProductSplit(a, k, g);
      CancelDivides(a * k, g, m);
    }
  }

  /** A multiple of `b` times `a` is a multiple of `a * b`. */
  lemma {:induction false} ProductDividesScaled(a: nat, b: nat, m: nat)
    requires a > 0 && b > 0 && Divides(b, m)
    ensures a * b > 0 && Divides(a * b, a * m)
  {
    var u := m / b;
    assert m == u * b;
    MulAssoc(a, u, b);
    assert a * m == (a * u) * b;
    assert (a * u) * b == u * (a * b);
    MulPositiveBoth(a, b);
    DividesMultiple(a * b, u);
  }

  lemma {:induction false} EuclidScaleRight(a: nat, b: nat, m: nat)
    requires m > 0
    ensures Euclid(a * m, b * m) == m * Euclid(a, b)
  {
    EuclidScale(a, b, m);
    assert a * m == m * a && b * m == m * b;
  }

  lemma {:induction false} ProductSplit(a: nat, k: nat, g: nat)
    ensures a * (k * g) == (a * k) * g
  {
    MulAssoc(a, k, g);
  }

  /** Dividing out a common positive factor keeps divisibility. */
  lemma {:induction false} CancelDivides(l: nat, g: nat, m: nat)
    requires g > 0 && Divides(l * g, m * g)
    ensures Divides(l, m)
  {
    var t := (m * g) / (l * g);
    assert m * g == t * (l * g);
    MulAssoc(t, l, g);
    MulCancel(m, t * l, g);
    MulPositive(l, g);
    DividesMultiple(l, t);
  }

  lemma {:induction false} MulPositiveBoth(a: nat, b: nat)
    requires a > 0 && b > 0
    ensures a * b > 0
  {
  }

  /** Two positive numbers that divide each other are equal. */
  lemma {:induction false} DividesAntisymmetric(a: nat, b: nat)
    requires Divides(a, b) && Divides(b, a) && a > 0 && b > 0
    ensures a == b
  {
    var p, q := b / a, a / b;
    assert b == p * a && a == q * b;
    if p == 0 || q == 0 {
      assert false;
    }
    MulAtLeast(p, a);
    MulAtLeast(q, b);
  }

  /** `vec_lcm` divides every common multiple of the numbers: it is their
      least common multiple. */
  lemma {:induction false} VecLcmLeast(xs: seq<nat>, m: nat)
    requires forall i | 0 <= i < |xs| :: xs[i] > 0
    requires forall i | 0 <= i < |xs| :: Divides(xs[i], m)
    ensures Divides(VecLcm(xs), m)
  {
    if xs == [] {
      assert m % 1 == 0;
    } else {
      var n := |xs| - 1;
      var init := xs[..n];
      assert forall i | 0 <= i < n :: init[i] == xs[i];
      VecLcmLeast(init, m);
      LcmLeast(VecLcm(init), xs[n], m);
    }
  }

  /** The order of the numbers does not matter to `vec_lcm`, so neither
      does the order in which the walkers arrive. */
  lemma {:induction false} VecLcmPermutation(xs: seq<nat>, ys: seq<nat>)
    requires forall i | 0 <= i < |xs| :: xs[i] > 0
    requires multiset(xs) == multiset(ys)
    ensures forall j | 0 <= j < |ys| :: ys[j] > 0
    ensures VecLcm(xs) == VecLcm(ys)
  {
    forall j | 0 <= j < |ys| ensures ys[j] > 0 && Divides(ys[j], VecLcm(xs)) {
      assert ys[j] in multiset(xs);
      var i :| 0 <= i < |xs| && xs[i] == ys[j];
      VecLcmIsCommonMultiple(xs);
    }
    forall i | 0 <= i < |xs| ensures Divides(xs[i], VecLcm(ys)) {
      assert xs[i] in multiset(ys);
      var j :| 0 <= j < |ys| && ys[j] == xs[i];
      VecLcmIsCommonMultiple(ys);
    }
    VecLcmLeast(xs, VecLcm(ys));
    VecLcmLeast(ys, VecLcm(xs));
    DividesAntisymmetric(VecLcm(xs), VecLcm(ys));
  }

  // ---------------------------------------------------------------------
  // The walkers

  predicate EndsWith(name: string, c: char) {
    |name| > 0 && name[|name| - 1] == c
  }

  /** The nodes listed with a name ending in 'A', in order. */
  function Starts(nodes: seq<Node>): (r: seq<Node>)
    ensures forall i | 0 <= i < |r| :: r[i] in nodes && EndsWith(r[i].name, 'A')
    ensures forall node | node in nodes && EndsWith(node.name, 'A') :: node in r
  {
    if nodes == [] then []
    else
      var n := |nodes| - 1;
      var init := Starts(nodes[..n]);
      assert forall node | node in nodes[..n] :: node in nodes;
      assert forall node | node in nodes :: node in nodes[..n] || node == nodes[n];
      if EndsWith(nodes[n].name, 'A') then init + [nodes[n]] else init
  }

  /** How many listed nodes have a name ending in `c`. */
  function CountEnding(nodes: seq<Node>, c: char): nat {
    if nodes == [] then 0
    else CountEnding(nodes[..|nodes| - 1], c) + if EndsWith(nodes[|nodes| - 1].name, c) then 1 else 0
  }

  /** The node a walker stands on after `n` moves from `start`; `None`
      once a name is missing from the map. */
  function Path(m: map<string, Node>, moves: seq<Movement>, start: Node, n: nat): Option<Node>
    requires |moves| > 0
  {
    if n == 0 then Some(start)
    else
      match Path(m, moves, start, n - 1)
      case None => None
      case Some(node) =>
        var name := Target(node, moves[(n - 1) % |moves|]);
        if name in m then Some(m[name]) else None
  }

  /** The walker has not stood on a 'Z' node after any of moves 1..n. */
  ghost predicate Walking(m: map<string, Node>, moves: seq<Movement>, start: Node, n: nat)
    requires |moves| > 0
  {
    forall j | 1 <= j <= n :: Path(m, moves, start, j).Some? && !EndsWith(Path(m, moves, start, j).value.name, 'Z')
  }

  /** The walker first stands on a 'Z' node after `t` moves. */
  ghost predicate ArrivesAt(m: map<string, Node>, moves: seq<Movement>, start: Node, t: nat)
    requires |moves| > 0
  {
    t >= 1 && Walking(m, moves, start, t - 1)
    && Path(m, moves, start, t).Some? && EndsWith(Path(m, moves, start, t).value.name, 'Z')
  }

  /** The walker never arrives. */
  ghost predicate Lost(m: map<string, Node>, moves: seq<Movement>, start: Node)
    requires |moves| > 0
  {
    forall t: nat :: !ArrivesAt(m, moves, start, t)
  }

  /** The walker does not arrive within `bound` moves. */
  ghost predicate NeverArrives(m: map<string, Node>, moves: seq<Movement>, start: Node, bound: nat)
    requires |moves| > 0
  {
    forall t: nat | t <= bound :: !ArrivesAt(m, moves, start, t)
  }

  lemma {:induction false} LostStaysLost(m: map<string, Node>, moves: seq<Movement>, start: Node, j: nat, n: nat)
    requires |moves| > 0 && j <= n && Path(m, moves, start, j) == None
    ensures Path(m, moves, start, n) == None
    decreases n - j
  {
    if j < n {
      LostStaysLost(m, moves, start, j + 1, n);
    }
  }

  /** A walker still walking after `n` moves arrives at no time up to `n`;
      one lost at move `n + 1` arrives at no time at all. */
  lemma {:induction false} NoArrival(m: map<string, Node>, moves: seq<Movement>, start: Node, n: nat, lost: bool)
    requires |moves| > 0 && Walking(m, moves, start, n)
    requires lost ==> Path(m, moves, start, n + 1) == None
    ensures NeverArrives(m, moves, start, n)
    ensures lost ==> Lost(m, moves, start)
  {
    if lost {
      forall t: nat | t > n ensures !ArrivesAt(m, moves, start, t) {
        LostStaysLost(m, moves, start, n + 1, t);
      }
    }
  }

  /** Every start index once, in `alive` or in `owner`. */
  ghost predicate Partition(count: nat, alive: seq<nat>, owner: seq<nat>) {
    multiset(alive) + multiset(owner) == multiset(Indices(count))
  }

  function Indices(count: nat): (r: seq<nat>)
    ensures |r| == count && forall i | 0 <= i < count :: r[i] == i
  {
    seq(count, i => i)
  }

  /** Walker `alive[k]` stands on `current[k]` after `n` moves and has
      not arrived yet. */
  ghost predicate AliveOk(m: map<string, Node>, moves: seq<Movement>, starts: seq<Node>, n: nat,
                          current: seq<Node>, alive: seq<nat>)
    requires |moves| > 0
  {
    |alive| == |current|
    && forall k | 0 <= k < |alive| :: alive[k] < |starts|
         && Path(m, moves, starts[alive[k]], n) == Some(current[k]) && Walking(m, moves, starts[alive[k]], n)
  }

  /** `cycleEnd[k]` is the arrival time of walker `owner[k]`. */
  ghost predicate ArrivedOk(m: map<string, Node>, moves: seq<Movement>, starts: seq<Node>,
                            cycleEnd: seq<nat>, owner: seq<nat>)
    requires |moves| > 0
  {
    |owner| == |cycleEnd|
    && forall k | 0 <= k < |owner| :: owner[k] < |starts| && ArrivesAt(m, moves, starts[owner[k]], cycleEnd[k])
  }

  lemma {:induction false} AliveAppend(m: map<string, Node>, moves: seq<Movement>, starts: seq<Node>, n: nat,
                                       current: seq<Node>, alive: seq<nat>, node: Node, i: nat)
    requires |moves| > 0 && AliveOk(m, moves, starts, n, current, alive) && i < |starts|
    requires Path(m, moves, starts[i], n) == Some(node) && Walking(m, moves, starts[i], n)
    ensures AliveOk(m, moves, starts, n, current + [node], alive + [i])
  {
    var c, a := current + [node], alive + [i];
    forall k | 0 <= k < |a| ensures a[k] < |starts| && Path(m, moves, starts[a[k]], n) == Some(c[k]) && Walking(m, moves, starts[a[k]], n) {
      if k < |alive| {
        assert a[k] == alive[k] && c[k] == current[k];
      }
    }
  }

  lemma {:induction false} ArrivedAppend(m: map<string, Node>, moves: seq<Movement>, starts: seq<Node>,
                                         cycleEnd: seq<nat>, owner: seq<nat>, t: nat, i: nat)
    requires |moves| > 0 && ArrivedOk(m, moves, starts, cycleEnd, owner) && i < |starts|
    requires ArrivesAt(m, moves, starts[i], t)
    ensures ArrivedOk(m, moves, starts, cycleEnd + [t], owner + [i])
  {
    var e, o := cycleEnd + [t], owner + [i];
    forall k | 0 <= k < |o| ensures o[k] < |starts| && ArrivesAt(m, moves, starts[o[k]], e[k]) {
      if k < |owner| {
        assert o[k] == owner[k] && e[k] == cycleEnd[k];
      }
    }
  }

  /** One move of one walker. */
  lemma {:induction false} StepWalker(m: map<string, Node>, moves: seq<Movement>, start: Node, n: nat, node: Node)
    requires |moves| > 0 && Path(m, moves, start, n) == Some(node) && Walking(m, moves, start, n)
    ensures var name := Target(node, moves[n % |moves|]);
      && (name !in m ==> Lost(m, moves, start))
      && (name in m ==> Path(m, moves, start, n + 1) == Some(m[name]))
      && (name in m && EndsWith(m[name].name, 'Z') ==> ArrivesAt(m, moves, start, n + 1))
      && (name in m && !EndsWith(m[name].name, 'Z') ==> Walking(m, moves, start, n + 1))
  {
    var name := Target(node, moves[n % |moves|]);
    if name !in m {
      NoArrival(m, moves, start, n, true);
    }
  }

  lemma {:induction false} SplitFirst(s: seq<nat>, k: nat)
    requires k < |s|
    ensures multiset(s[k..]) == multiset{s[k]} + multiset(s[k + 1..])
  {
    assert s[k..] == [s[k]] + s[k + 1..];
  }

  /** One walker's move in a round: it is recorded with the round number
      when it reaches a 'Z' node and kept walking otherwise; a missing
      name fails. */
  method Visit(m: map<string, Node>, moves: seq<Movement>, starts: seq<Node>, n: nat, movement: Movement,
               node: Node, ghost i: nat,
               tmp: seq<Node>, ghost alive: seq<nat>, cycleEnd: seq<nat>, ghost owner: seq<nat>)
    returns (ok: bool, tmp': seq<Node>, ghost alive': seq<nat>, cycleEnd': seq<nat>, ghost owner': seq<nat>)
    requires |moves| > 0 && i < |starts| && movement == moves[n % |moves|]
    requires Path(m, moves, starts[i], n) == Some(node) && Walking(m, moves, starts[i], n)
    requires AliveOk(m, moves, starts, n + 1, tmp, alive) && ArrivedOk(m, moves, starts, cycleEnd, owner)
    ensures ok ==> AliveOk(m, moves, starts, n + 1, tmp', alive') && ArrivedOk(m, moves, starts, cycleEnd', owner')
    ensures ok ==> multiset(alive') + multiset(owner') == multiset(alive) + multiset(owner) + multiset{i}
    ensures !ok ==> Lost(m, moves, starts[i])
  {
    StepWalker(m, moves, starts[i], n, node);
    var name := Target(node, movement);
    tmp', alive', cycleEnd', owner' := tmp, alive, cycleEnd, owner;
    if name !in m {
      return false, tmp', alive', cycleEnd', owner';
    }
    var next := m[name];
    if EndsWith(next.name, 'Z') {
      ArrivedAppend(m, moves, starts, cycleEnd, owner, n + 1, i);
      cycleEnd' := cycleEnd + [n + 1];
      owner' := owner + [i];
    } else {
      AliveAppend(m, moves, starts, n + 1, tmp, alive, next, i);
      tmp' := tmp + [next];
      alive' := alive + [i];
    }
    ok := true;
  }

  /** One round: every walker makes the same move; those reaching a 'Z'
      node are recorded with the round number, the others walk on. */
  method Round(m: map<string, Node>, moveSet: MoveSet, starts: seq<Node>, n: nat,
               current: seq<Node>, ghost alive: seq<nat>, cycleEnd: seq<nat>, ghost owner: seq<nat>)
    returns (r: Result<seq<Node>>, ghost alive': seq<nat>, cycleEnd': seq<nat>, ghost owner': seq<nat>)
    requires moveSet.Valid() && moveSet.calls == n
    requires AliveOk(m, moveSet.moves, starts, n, current, alive)
    requires ArrivedOk(m, moveSet.moves, starts, cycleEnd, owner)
    requires Partition(|starts|, alive, owner)
    modifies moveSet
    ensures moveSet.Valid() && moveSet.calls == n + 1
    ensures r.Success? ==> AliveOk(m, moveSet.moves, starts, n + 1, r.value, alive')
    ensures r.Success? ==> ArrivedOk(m, moveSet.moves, starts, cycleEnd', owner')
    ensures r.Success? ==> Partition(|starts|, alive', owner')
    ensures r.Failure? ==> exists i | 0 <= i < |starts| :: Lost(m, moveSet.moves, starts[i])
  {
    var moves := moveSet.moves;
    var movement := moveSet.Next();
    assert movement.value == moves[n % |moves|];
    var tmp: seq<Node> := [];
    alive', cycleEnd', owner' := [], cycleEnd, owner;
    for k := 0 to |current|
      invariant moveSet.Valid() && moveSet.calls == n + 1
      invariant AliveOk(m, moves, starts, n + 1, tmp, alive')
      invariant ArrivedOk(m, moves, starts, cycleEnd', owner')
      invariant multiset(alive') + multiset(owner') + multiset(alive[k..]) == multiset(Indices(|starts|))
    {
      ghost var i := alive[k];
      SplitFirst(alive, k);
      var ok;
      ok, tmp, alive', cycleEnd', owner' := Visit(m, moves, starts, n, movement.value, current[k], i, tmp, alive', cycleEnd', owner');
      if !ok {
        return Failure("well defined input"), alive', cycleEnd', owner';
      }
    }
    r := Success(tmp);
  }

  /** The `while` loop of `process`: rounds until every walker has
      arrived; the source loops for as long as it takes, the model gives
      up after `fuel` rounds. */
  method WalkAll(m: map<string, Node>, moveSet: MoveSet, starts: seq<Node>, fuel: nat)
    returns (r: Result<seq<nat>>, ghost owner: seq<nat>)
    requires moveSet.Valid() && moveSet.calls == 0
    modifies moveSet
    ensures r.Success? ==> ArrivedOk(m, moveSet.moves, starts, r.value, owner) && Partition(|starts|, [], owner)
    ensures r.Failure? ==> exists i | 0 <= i < |starts| :: NeverArrives(m, moveSet.moves, starts[i], fuel)
  {
    var moves := moveSet.moves;
    var current := starts;
    ghost var alive := Indices(|starts|);
    var cycleEnd: seq<nat> := [];
    owner := [];
    var number := 0;
    Initially(m, moves, starts);
    while current != []
      invariant moveSet.Valid() && moveSet.calls == number && number <= fuel
      invariant AliveOk(m, moves, starts, number, current, alive)
      invariant ArrivedOk(m, moves, starts, cycleEnd, owner)
      invariant Partition(|starts|, alive, owner)
      decreases fuel - number
    {
      if number == fuel {
        ghost var i := alive[0];
        NoArrival(m, moves, starts[i], number, false);
        return Failure("gave up"), owner;
      }
      var res;
      res, alive, cycleEnd, owner := Round(m, moveSet, starts, number, current, alive, cycleEnd, owner);
      if res.Failure? {
        ghost var i :| 0 <= i < |starts| && Lost(m, moves, starts[i]);
        assert NeverArrives(m, moves, starts[i], fuel);
        return Failure(res.error), owner;
      }
      current := res.value;
      number := number + 1;
    }
    r := Success(cycleEnd);
  }

  /** Before the first round every walker stands on its start node. */
  lemma {:induction false} Initially(m: map<string, Node>, moves: seq<Movement>, starts: seq<Node>)
    requires |moves| > 0
    ensures AliveOk(m, moves, starts, 0, starts, Indices(|starts|))
    ensures ArrivedOk(m, moves, starts, [], [])
    ensures Partition(|starts|, Indices(|starts|), [])
  {
  }

  /** Every start index appears among the owners once all have arrived. */
  lemma {:induction false} EveryStartArrives(count: nat, owner: seq<nat>, i: nat)
    requires Partition(count, [], owner) && i < count
    ensures exists k | 0 <= k < |owner| :: owner[k] == i
  {
    assert Indices(count)[i] == i;
    assert i in multiset(Indices(count));
    assert multiset(owner) == multiset(Indices(count));
    assert i in owner;
  }

  /** `process`, on the parsed move list and nodes: the lcm of the step
      counts at which the walkers from the 'A' nodes first reach a 'Z'
      node. As many 'A' nodes as 'Z' nodes are required; an empty move
      list makes `next` panic once there is a walker. */
  method Process(moves: seq<Movement>, nodes: seq<Node>, fuel: nat) returns (r: Result<nat>)
    ensures CountEnding(nodes, 'Z') != |Starts(nodes)| ==> r.Failure?
    ensures r.Success? && |moves| > 0 ==> forall i | 0 <= i < |Starts(nodes)| :: exists t: nat ::
      ArrivesAt(NodeMap(nodes), moves, Starts(nodes)[i], t) && Divides(t, r.value)
    ensures r.Success? && |moves| > 0 ==> exists times: seq<nat>, owner: seq<nat> ::
      ArrivedOk(NodeMap(nodes), moves, Starts(nodes), times, owner) && Partition(|Starts(nodes)|, [], owner)
      && (forall k | 0 <= k < |times| :: times[k] > 0) && r.value == VecLcm(times)
    ensures r.Success? && moves == [] ==> r.value == 1 && Starts(nodes) == []
    ensures r.Failure? && |moves| > 0 && CountEnding(nodes, 'Z') == |Starts(nodes)| ==>
      exists i | 0 <= i < |Starts(nodes)| :: NeverArrives(NodeMap(nodes), moves, Starts(nodes)[i], fuel)
  {
    var m := BuildMap(nodes);
    var endNodeCount := CountEnding(nodes, 'Z');
    var starts := Starts(nodes);
    if |starts| != endNodeCount {
      return Failure("assertion `left == right` failed");
    }
    if moves == [] {
      if starts == [] {
        return Success(VecLcm([]));
      }
      return Failure("index out of bounds");
    }
    var moveSet := new MoveSet(moves);
    var cycleEnd;
    ghost var owner;
    cycleEnd, owner := WalkAll(m, moveSet, starts, fuel);
    if cycleEnd.Failure? {
      ghost var i :| 0 <= i < |starts| && NeverArrives(m, moveSet.moves, starts[i], fuel);
      assert NeverArrives(NodeMap(nodes), moves, Starts(nodes)[i], fuel);
      return Failure(cycleEnd.error);
    }
    var times := cycleEnd.value;
    assert forall k | 0 <= k < |times| :: times[k] > 0;
    r := Success(VecLcm(times));
    assert ArrivedOk(m, moves, starts, times, owner);
    VecLcmIsCommonMultiple(times);
    forall i | 0 <= i < |starts| ensures exists t: nat :: ArrivesAt(m, moves, starts[i], t) && Divides(t, r.value) {
      EveryStartArrives(|starts|, owner, i);
      var k :| 0 <= k < |owner| && owner[k] == i;
      assert ArrivesAt(m, moves, starts[i], times[k]) && Divides(times[k], r.value);
    }
  }
}
