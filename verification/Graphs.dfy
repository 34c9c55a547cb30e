/** Reachability along a relation. */
module Graphs {
  type Relation = (string, string) -> bool

  /** `x` reaches `y` through `n` steps. */
  ghost predicate Reaches(edge: Relation, x: string, y: string, n: nat)
    decreases n
  {
    if n == 0 then x == y else exists z :: edge(x, z) && Reaches(edge, z, y, n - 1)
  }

  ghost predicate Acyclic(edge: Relation) {
    forall x, n: nat :: n >= 1 ==> !Reaches(edge, x, x, n)
  }

  lemma {:induction false} ReachFurther(edge: Relation, x: string, y: string, z: string, m: nat, n: nat)
    requires Reaches(edge, x, y, m) && Reaches(edge, y, z, n)
    ensures Reaches(edge, x, z, m + n)
    decreases m
  {
    if m > 0 {
      var w :| edge(x, w) && Reaches(edge, w, y, m - 1);
      ReachFurther(edge, w, y, z, m - 1, n);
    }
  }

  lemma {:induction false} OneStep(edge: Relation, x: string, y: string)
    requires edge(x, y)
    ensures Reaches(edge, x, y, 1)
  {
    assert Reaches(edge, y, y, 0);
  }

  lemma {:induction false} OneMore(edge: Relation, x: string, z: string, y: string, n: nat)
    requires edge(x, z) && Reaches(edge, z, y, n)
    ensures Reaches(edge, x, y, n + 1)
  {
  }

  predicate IsChain(edge: Relation, ids: seq<string>) {
    forall k :: 0 < k < |ids| ==> edge(ids[k], ids[k - 1])
  }

  lemma {:induction false} ChainReachesBack(edge: Relation, ids: seq<string>, i: nat, j: nat)
    requires IsChain(edge, ids) && j <= i < |ids|
    ensures Reaches(edge, ids[i], ids[j], i - j)
    decreases i - j
  {
    if j < i {
      ChainReachesBack(edge, ids, i - 1, j);
      OneMore(edge, ids[i], ids[i - 1], ids[j], i - 1 - j);
    }
  }

  /** A detour from an element of a chain to a later one closes a cycle. */
  lemma {:induction false} DetourMakesCycle(edge: Relation, ids: seq<string>, i: nat, via: string, j: nat)
    requires IsChain(edge, ids) && i <= j < |ids| && edge(ids[i], via) && edge(via, ids[j])
    ensures !Acyclic(edge)
  {
    ChainReachesBack(edge, ids, j, i);
    OneStep(edge, via, ids[j]);
    OneMore(edge, ids[i], via, ids[j], 1);
    CycleBreaksIt(edge, ids[j], ids[i], j - i, 2);
  }

  lemma {:induction false} CycleBreaksIt(edge: Relation, x: string, y: string, m: nat, n: nat)
    requires m + n >= 1 && Reaches(edge, x, y, m) && Reaches(edge, y, x, n)
    ensures !Acyclic(edge)
  {
    ReachFurther(edge, x, y, x, m, n);
  }

  ghost predicate Descends(edge: Relation, rank: string -> int) {
    forall x, y :: edge(x, y) ==> rank(y) < rank(x)
  }

  lemma {:induction false} RankFalls(edge: Relation, rank: string -> int, x: string, y: string, n: nat)
    requires Descends(edge, rank) && Reaches(edge, x, y, n)
    ensures rank(y) <= rank(x) - n
    decreases n
  {
    if n > 0 {
      var z :| edge(x, z) && Reaches(edge, z, y, n - 1);
      RankFalls(edge, rank, z, y, n - 1);
    }
  }

  /** A rank that falls along every step rules cycles out. */
  lemma {:induction false} DescendingIsAcyclic(edge: Relation, rank: string -> int)
    requires Descends(edge, rank)
    ensures Acyclic(edge)
  {
    forall x, n: nat | n >= 1
      ensures !Reaches(edge, x, x, n)
    {
      if Reaches(edge, x, x, n) {
        RankFalls(edge, rank, x, x, n);
        assert false;
      }
    }
  }

  /** A set whose steps stay inside it cannot be left. */
  lemma {:induction false} ClosedSetIsNotLeft(edge: Relation, inside: set<string>, x: string, y: string, n: nat)
    requires forall a, b :: a in inside && edge(a, b) ==> b in inside
    requires x in inside && Reaches(edge, x, y, n)
    ensures y in inside
    decreases n
  {
    if n > 0 {
      var z :| edge(x, z) && Reaches(edge, z, y, n - 1);
      ClosedSetIsNotLeft(edge, inside, z, y, n - 1);
    }
  }

  lemma {:induction false} NeverReached(edge: Relation, inside: set<string>, x: string, y: string, n: nat)
    requires forall a, b :: a in inside && edge(a, b) ==> b in inside
    requires x in inside && y !in inside
    ensures !Reaches(edge, x, y, n)
  {
    if Reaches(edge, x, y, n) {
      ClosedSetIsNotLeft(edge, inside, x, y, n);
    }
  }

  ghost predicate TwoSteps(edge: Relation, a: string, b: string) { exists via :: edge(a, via) && edge(via, b) }

  /** Steps of one relation that are double steps of another. */
  lemma {:induction false} DoubleSteps(fine: Relation, coarse: Relation, x: string, y: string, n: nat)
    requires forall a, b :: coarse(a, b) ==> TwoSteps(fine, a, b)
    requires Reaches(coarse, x, y, n)
    ensures Reaches(fine, x, y, 2 * n)
    decreases n
  {
    if n > 0 {
      var z :| coarse(x, z) && Reaches(coarse, z, y, n - 1);
      DoubleSteps(fine, coarse, z, y, n - 1);
      var via :| fine(x, via) && fine(via, z);
      OneMore(fine, via, z, y, 2 * (n - 1));
      OneMore(fine, x, via, y, 2 * n - 1);
    }
  }

  ghost predicate Closed(edge: Relation, dead: string -> bool) {
    forall a, b :: dead(a) && edge(a, b) ==> dead(b)
  }

  lemma {:induction false} StaysDead(edge: Relation, dead: string -> bool, x: string, y: string, n: nat)
    requires Closed(edge, dead) && dead(x) && Reaches(edge, x, y, n)
    ensures dead(y)
    decreases n
  {
    if n > 0 {
      var z :| edge(x, z) && Reaches(edge, z, y, n - 1);
      StaysDead(edge, dead, z, y, n - 1);
    }
  }

  /** `mid` only joins: from a live top node it leads only to nodes the top node is related to. */
  ghost predicate Joins(fine: Relation, coarse: Relation, top: string -> bool, a: string, mid: string) {
    !top(mid) && forall c :: fine(mid, c) ==> top(c) && coarse(a, c)
  }

  /** Apart from dead ends, the fine relation goes from top nodes over joining nodes to top nodes. */
  ghost predicate Alternates(fine: Relation, coarse: Relation, top: string -> bool, dead: string -> bool) {
    && Closed(fine, dead)
    && (forall a, b :: top(a) && !dead(a) && fine(a, b) ==> dead(b) || Joins(fine, coarse, top, a, b))
    && (forall b, c :: !top(b) && !dead(b) && fine(b, c) ==> top(c))
  }

  /** A walk between live top nodes is a walk of the coarse relation. */
  lemma {:induction false} WalkCoarsens(fine: Relation, coarse: Relation, top: string -> bool, dead: string -> bool,
                                        x: string, y: string, n: nat)
    returns (m: nat)
    requires Alternates(fine, coarse, top, dead) && top(x) && top(y) && !dead(y) && Reaches(fine, x, y, n)
    ensures Reaches(coarse, x, y, m) && (n >= 1 ==> m >= 1)
    decreases n
  {
    if n == 0 {
      m := 0;
    } else {
      NotDead(fine, dead, x, y, n);
      var z :| fine(x, z) && Reaches(fine, z, y, n - 1);
      NotDead(fine, dead, z, y, n - 1);
      assert Joins(fine, coarse, top, x, z);
      assert n - 1 > 0;
      var w :| fine(z, w) && Reaches(fine, w, y, n - 2);
      m := WalkCoarsens(fine, coarse, top, dead, w, y, n - 2);
      OneMore(coarse, x, w, y, m);
      m := m + 1;
    }
  }

  lemma {:induction false} NotDead(edge: Relation, dead: string -> bool, x: string, y: string, n: nat)
    requires Closed(edge, dead) && !dead(y) && Reaches(edge, x, y, n)
    ensures !dead(x)
  {
    if dead(x) {
      StaysDead(edge, dead, x, y, n);
    }
  }

  /** A cycle through a live node is a cycle of the coarse relation. */
  lemma {:induction false} CycleCoarsens(fine: Relation, coarse: Relation, top: string -> bool, dead: string -> bool,
                                         x: string, n: nat)
    requires Alternates(fine, coarse, top, dead) && !dead(x) && n >= 1 && Reaches(fine, x, x, n)
    ensures !Acyclic(coarse)
  {
    if top(x) {
      var m := WalkCoarsens(fine, coarse, top, dead, x, x, n);
    } else {
      var w :| fine(x, w) && Reaches(fine, w, x, n - 1);
      OneStep(fine, x, w);
      ReachFurther(fine, w, x, w, n - 1, 1);
      NotDead(fine, dead, w, x, n - 1);
      var m := WalkCoarsens(fine, coarse, top, dead, w, w, n);
    }
  }
}
