/** Reachability along an arbitrary step relation, by hop-bounded balls: the reference the traversals
    are proved against. */
module Reachability {
  import opened Units

  /** The ids one hop away. */
  type Steps = Id -> set<Id>

  ghost function Image(nb: Steps, s: set<Id>): set<Id> {
    set x, y | x in s && y in nb(x) :: y
  }

  /** The ids within `n` hops of `start`. */
  ghost function Ball(nb: Steps, start: Id, n: nat): set<Id> {
    if n == 0 then {start} else Ball(nb, start, n - 1) + Image(nb, Ball(nb, start, n - 1))
  }

  ghost predicate Reaches(nb: Steps, start: Id, x: Id) {
    exists n: nat :: x in Ball(nb, start, n)
  }

  lemma {:induction false} BallGrows(nb: Steps, start: Id, m: nat, n: nat)
    requires m <= n
    ensures Ball(nb, start, m) <= Ball(nb, start, n)
    decreases n
  {
    if m < n {
      BallGrows(nb, start, m, n - 1);
    }
  }

  lemma BallStep(nb: Steps, start: Id, n: nat, x: Id, y: Id)
    requires x in Ball(nb, start, n) && y in nb(x)
    ensures y in Ball(nb, start, n + 1)
  {
  }

  /** A set that contains the start and is closed under steps contains everything reachable. */
  lemma {:induction false} ClosedContainsBall(nb: Steps, start: Id, closed: set<Id>, n: nat)
    requires start in closed
    requires forall x :: x in closed ==> nb(x) <= closed
    ensures Ball(nb, start, n) <= closed
  {
    if n > 0 {
      ClosedContainsBall(nb, start, closed, n - 1);
    }
  }

  // ---------------------------------------------------------------------------
  // Balls and walks
  // ---------------------------------------------------------------------------

  ghost predicate IsWalk(nb: Steps, a: Id, b: Id, p: seq<Id>) {
    && p != [] && p[0] == a && p[|p| - 1] == b
    && forall i :: 0 <= i < |p| - 1 ==> p[i + 1] in nb(p[i])
  }

  lemma {:induction false} WalkOf(nb: Steps, a: Id, b: Id, n: nat) returns (p: seq<Id>)
    requires b in Ball(nb, a, n)
    ensures IsWalk(nb, a, b, p) && |p| <= n + 1
    decreases n
  {
    if n == 0 {
      p := [a];
    } else if b in Ball(nb, a, n - 1) {
      p := WalkOf(nb, a, b, n - 1);
    } else {
      var x :| x in Ball(nb, a, n - 1) && b in nb(x);
      p := WalkOf(nb, a, x, n - 1);
      p := p + [b];
    }
  }

  lemma {:induction false} WalkEndsInBall(nb: Steps, a: Id, b: Id, p: seq<Id>)
    requires IsWalk(nb, a, b, p)
    ensures b in Ball(nb, a, |p| - 1)
    decreases |p|
  {
    if |p| > 1 {
      var q := p[..|p| - 1];
      WalkEndsInBall(nb, a, q[|q| - 1], q);
      BallStep(nb, a, |q| - 1, q[|q| - 1], b);
    }
  }

  /** `x` lies within `n` hops exactly when some walk of at most `n` steps leads to it. */
  lemma BallIsWalks(nb: Steps, a: Id, b: Id, n: nat)
    ensures b in Ball(nb, a, n) <==> exists p :: IsWalk(nb, a, b, p) && |p| <= n + 1
  {
    if b in Ball(nb, a, n) {
      var p := WalkOf(nb, a, b, n);
    }
    if p :| IsWalk(nb, a, b, p) && |p| <= n + 1 {
      WalkEndsInBall(nb, a, b, p);
      BallGrows(nb, a, |p| - 1, n);
    }
  }

  /** Two relations that agree on a walk's steps share the walk. */
  lemma WalkCarriesOver(nb: Steps, nb': Steps, a: Id, b: Id, p: seq<Id>)
    requires IsWalk(nb, a, b, p)
    requires forall i :: 0 <= i < |p| - 1 && p[i + 1] in nb(p[i]) ==> p[i + 1] in nb'(p[i])
    ensures IsWalk(nb', a, b, p)
  {
  }

  /** Reversing every step reverses every walk. */
  lemma ReverseWalk(nb: Steps, back: Steps, a: Id, b: Id, p: seq<Id>)
    requires IsWalk(nb, a, b, p)
    requires forall x, y :: x in p && y in p && y in nb(x) ==> x in back(y)
    ensures IsWalk(back, b, a, seq(|p|, i requires 0 <= i < |p| => p[|p| - 1 - i]))
  {
  }

  /** Reachable is the same as connected by a walk. */
  lemma ReachesByWalk(nb: Steps, a: Id, b: Id)
    ensures Reaches(nb, a, b) <==> exists p :: IsWalk(nb, a, b, p)
  {
    if n: nat :| b in Ball(nb, a, n) {
      var p := WalkOf(nb, a, b, n);
    }
    if p :| IsWalk(nb, a, b, p) {
      WalkEndsInBall(nb, a, b, p);
    }
  }

  // ---------------------------------------------------------------------------
  // Breadth-first order
  // ---------------------------------------------------------------------------

  function Elems(s: seq<Id>): set<Id> {
    set x | x in s
  }

  lemma ElemsAppend(s: seq<Id>, x: Id)
    ensures Elems(s + [x]) == Elems(s) + {x}
  {
  }

  lemma {:induction false} DistinctSize(s: seq<Id>)
    requires Distinct(s)
    ensures |Elems(s)| == |s|
  {
    if s == [] {
      assert Elems(s) == {};
    } else {
      var front, last := s[..|s| - 1], s[|s| - 1];
      DistinctSize(front);
      assert Elems(s) == Elems(front) + {last} by {
        assert s == front + [last];
      }
      assert last !in front;
    }
  }

  /** Every ball around the start is a prefix of the order: the hop distance never decreases. */
  ghost predicate Layered(nb: Steps, start: Id, order: seq<Id>) {
    forall i, j, n: nat :: 0 <= i < j < |order| && order[j] in Ball(nb, start, n) ==> order[i] in Ball(nb, start, n)
  }

  /** A traversal under way: `order` is what has been visited, start first; the first `h` have been
      expanded; the first `m` are exactly the ids within `d` hops; the others are `d + 1` hops away. */
  ghost predicate Exploring(nb: Steps, start: Id, order: seq<Id>, h: nat, m: nat, d: nat) {
    && h <= m <= |order| && order != [] && order[0] == start
    && Distinct(order)
    && Elems(order[..m]) == Ball(nb, start, d)
    && Elems(order) <= Ball(nb, start, d + 1)
    && (forall k :: 0 <= k < h ==> nb(order[k]) <= Elems(order))
    && Layered(nb, start, order)
  }

  /** When all of the current layer is expanded, the next layer is complete. */
  lemma NextLayer(nb: Steps, start: Id, order: seq<Id>, h: nat, m: nat, d: nat)
    requires Exploring(nb, start, order, h, m, d) && h == m
    ensures Exploring(nb, start, order, h, |order|, d + 1)
  {
  }

  lemma DistinctAppend(a: seq<Id>, b: seq<Id>)
    requires Distinct(a) && Distinct(b) && Elems(a) !! Elems(b)
    ensures Distinct(a + b) && Elems(a + b) == Elems(a) + Elems(b)
  {
    forall i, j | 0 <= i < j < |a + b| ensures (a + b)[i] != (a + b)[j] {
      if i < |a| <= j {
        assert a[i] in Elems(a) && b[j - |a|] in Elems(b);
      }
    }
  }

  lemma LayeredAppend(nb: Steps, start: Id, order: seq<Id>, added: seq<Id>, d: nat)
    requires Layered(nb, start, order)
    requires Elems(order + added) <= Ball(nb, start, d + 1)
    requires Elems(added) !! Ball(nb, start, d)
    ensures Layered(nb, start, order + added)
  {
    var all := order + added;
    forall i, j, n: nat | 0 <= i < j < |all| && all[j] in Ball(nb, start, n) ensures all[i] in Ball(nb, start, n) {
      if j >= |order| {
        assert all[j] in Elems(added);
        if n <= d {
          BallGrows(nb, start, n, d);
        } else {
          assert all[i] in Elems(all);
          BallGrows(nb, start, d + 1, n);
        }
      }
    }
  }

  /** Expanding the next id appends its unvisited neighbours. */
  lemma Expand(nb: Steps, start: Id, order: seq<Id>, h: nat, m: nat, d: nat, added: seq<Id>)
    requires Exploring(nb, start, order, h, m, d) && h < m
    requires Distinct(added) && Elems(added) == nb(order[h]) - Elems(order)
    ensures Exploring(nb, start, order + added, h + 1, m, d)
  {
    var all := order + added;
    DistinctAppend(order, added);
    assert all[..m] == order[..m];
    hide Ball, Layered, Distinct;
    LayeredAppend(nb, start, order, added, d);
    forall k | 0 <= k < h + 1 ensures nb(all[k]) <= Elems(all) {
      assert all[k] == order[k];
    }
  }

  /** With nothing left to expand, everything reachable has been visited. */
  lemma ExploredAll(nb: Steps, start: Id, order: seq<Id>, m: nat, d: nat)
    requires Exploring(nb, start, order, |order|, m, d)
    ensures forall x :: x in order <==> Reaches(nb, start, x)
  {
    assert order[..m] == order;
    forall x | x in Elems(order) ensures nb(x) <= Elems(order) {
      var k :| 0 <= k < |order| && order[k] == x;
    }
    forall x | Reaches(nb, start, x) ensures x in order {
      var n: nat :| x in Ball(nb, start, n);
      ClosedContainsBall(nb, start, Elems(order), n);
    }
  }
}
