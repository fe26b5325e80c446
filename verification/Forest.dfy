/**
 The parent_id forest that the recursive queries and the key chain walk.

 A table is seen here only through its parent links. Climbing from a row
 follows parent_id one step at a time; a filter (`ok`) says which rows a
 walk may visit, which is how the WHERE clauses of the recursive queries
 enter.
 */
module Forest {
  import opened Common

  type Id = nat
  type Parents = map<Id, Option<Id>>

  /** `x` reaches `top` by exactly `n` parent steps, visiting only rows in `ok`. */
  predicate Climbs(par: Parents, ok: set<Id>, x: Id, top: Id, n: nat)
    decreases n
  {
    && x in par
    && x in ok
    && if n == 0 then x == top else par[x].Some? && Climbs(par, ok, par[x].value, top, n - 1)
  }

  ghost predicate Reaches(par: Parents, ok: set<Id>, x: Id, top: Id) {
    exists n: nat :: Climbs(par, ok, x, top, n)
  }

  /** The rows joined to `top` by a chain of rows in `ok`, `top` included. */
  ghost function Subtree(par: Parents, ok: set<Id>, top: Id): set<Id> {
    set x | x in par && Reaches(par, ok, x, top)
  }

  /** Parents exist (the foreign key) and sit strictly lower in `rank`. */
  ghost predicate Ranked(par: Parents, rank: map<Id, nat>) {
    && par.Keys <= rank.Keys
    && forall x :: x in par && par[x].Some? ==> par[x].value in par && rank[par[x].value] < rank[x]
  }

  ghost predicate Acyclic(par: Parents) {
    exists rank: map<Id, nat> :: Ranked(par, rank)
  }

  /** `top` lies on a loop of parent links inside `ok`. */
  ghost predicate OnCycle(par: Parents, ok: set<Id>, top: Id) {
    exists n: nat :: n > 0 && Climbs(par, ok, top, top, n)
  }

  lemma ReachesStep(par: Parents, ok: set<Id>, x: Id, top: Id)
    ensures x in Subtree(par, ok, top) <==>
            x in par && x in ok && (x == top || (par[x].Some? && par[x].value in Subtree(par, ok, top)))
  {
    if x in Subtree(par, ok, top) {
      var n: nat :| Climbs(par, ok, x, top, n);
      if n > 0 {
        assert Climbs(par, ok, par[x].value, top, n - 1);
      }
    }
    if x in par && x in ok && x == top {
      assert Climbs(par, ok, x, top, 0);
    }
    if x in par && x in ok && par[x].Some? && par[x].value in Subtree(par, ok, top) {
      var n: nat :| Climbs(par, ok, par[x].value, top, n);
      assert Climbs(par, ok, x, top, n + 1);
    }
  }

  lemma {:induction false} RankFalls(par: Parents, ok: set<Id>, rank: map<Id, nat>, x: Id, top: Id, n: nat)
    requires Ranked(par, rank) && Climbs(par, ok, x, top, n)
    ensures top in par && rank[top] + n <= rank[x]
    decreases n
  {
    if n > 0 {
      RankFalls(par, ok, rank, par[x].value, top, n - 1);
    }
  }

  lemma AcyclicHasNoCycle(par: Parents, ok: set<Id>, top: Id)
    requires Acyclic(par)
    ensures !OnCycle(par, ok, top)
  {
    var rank :| Ranked(par, rank);
    forall n: nat | n > 0
      ensures !Climbs(par, ok, top, top, n)
    {
      if Climbs(par, ok, top, top, n) {
        RankFalls(par, ok, rank, top, top, n);
      }
    }
  }

  /** With no loop through `top`, a row sits at one depth only. */
  lemma {:induction false} DepthIsUnique(par: Parents, ok: set<Id>, x: Id, top: Id, m: nat, n: nat)
    requires !OnCycle(par, ok, top)
    requires Climbs(par, ok, x, top, m) && Climbs(par, ok, x, top, n)
    ensures m == n
    decreases m + n
  {
    if m > 0 && n > 0 {
      DepthIsUnique(par, ok, par[x].value, top, m - 1, n - 1);
    }
  }

  /** A walk that may visit fewer rows finds fewer rows. */
  lemma {:induction false} ClimbsMonotone(par: Parents, small: set<Id>, large: set<Id>, x: Id, top: Id, n: nat)
    requires small <= large && Climbs(par, small, x, top, n)
    ensures Climbs(par, large, x, top, n)
    decreases n
  {
    if n > 0 {
      ClimbsMonotone(par, small, large, par[x].value, top, n - 1);
    }
  }

  /** Every row on a chain to `top` is itself in the subtree, so the subtree alone carries the walk. */
  lemma {:induction false} ClimbsInsideSubtree(par: Parents, ok: set<Id>, x: Id, top: Id, n: nat)
    requires Climbs(par, ok, x, top, n)
    ensures Climbs(par, Subtree(par, ok, top), x, top, n)
    decreases n
  {
    assert x in Subtree(par, ok, top);
    if n > 0 {
      ClimbsInsideSubtree(par, ok, par[x].value, top, n - 1);
    }
  }

  lemma SubtreeOfSubtree(par: Parents, ok: set<Id>, top: Id)
    ensures Subtree(par, Subtree(par, ok, top), top) == Subtree(par, ok, top)
  {
    var s := Subtree(par, ok, top);
    forall x | x in s
      ensures x in Subtree(par, s, top)
    {
      var n: nat :| Climbs(par, ok, x, top, n);
      ClimbsInsideSubtree(par, ok, x, top, n);
    }
    forall x | x in Subtree(par, s, top)
      ensures x in s
    {
      var n: nat :| Climbs(par, s, x, top, n);
      assert x in s;
    }
  }

  /** A set closed under the step relation from below contains the whole walk. */
  lemma {:induction false} SubtreeWithin(par: Parents, ok: set<Id>, top: Id, bound: set<Id>, x: Id, n: nat)
    requires Climbs(par, ok, x, top, n)
    requires top in ok ==> top in bound
    requires forall y :: y in par && y in ok && par[y].Some? && par[y].value in bound ==> y in bound
    ensures x in bound
    decreases n
  {
    if n > 0 {
      SubtreeWithin(par, ok, top, bound, par[x].value, n - 1);
    }
  }

  /** Hanging `x` under a row outside its own subtree keeps the forest a forest. */
  lemma MoveKeepsAcyclic(par: Parents, x: Id, dest: Option<Id>)
    requires Acyclic(par) && x in par
    requires dest.Some? ==> dest.value in par && dest.value !in Subtree(par, par.Keys, x)
    ensures Acyclic(par[x := dest])
  {
    var rank :| Ranked(par, rank);
    var below := Subtree(par, par.Keys, x);
    var lift := if dest.Some? then rank[dest.value] + 1 else 0;
    var lifted: map<Id, nat> := map y | y in par :: if y in below then rank[y] + lift else rank[y];
    var par' := par[x := dest];
    forall y | y in par' && par'[y].Some?
      ensures par'[y].value in par' && lifted[par'[y].value] < lifted[y]
    {
      ReachesStep(par, par.Keys, y, x);
    }
    assert Ranked(par', lifted);
  }

  /** Hanging `x` under a row of its own subtree closes a loop. */
  lemma MoveBelowItselfLoops(par: Parents, x: Id, dest: Id)
    requires x in par && dest in Subtree(par, par.Keys, x)
    ensures !Acyclic(par[x := Some(dest)])
  {
    var n: nat :| Climbs(par, par.Keys, dest, x, n);
    var par' := par[x := Some(dest)];
    var k := FirstArrival(par, par', x, dest, n);
    assert Climbs(par', par'.Keys, x, x, k + 1);
    assert OnCycle(par', par'.Keys, x);
    if Acyclic(par') {
      AcyclicHasNoCycle(par', par'.Keys, x);
    }
  }

  /** Until `x` is first met, a climb does not notice that x's own parent changed. */
  lemma {:induction false} FirstArrival(par: Parents, par': Parents, x: Id, y: Id, n: nat) returns (k: nat)
    requires Climbs(par, par.Keys, y, x, n) && x in par
    requires par'.Keys == par.Keys && forall z :: z in par && z != x ==> par'[z] == par[z]
    ensures k <= n && Climbs(par', par'.Keys, y, x, k)
    decreases n
  {
    if y == x {
      k := 0;
    } else {
      k := FirstArrival(par, par', x, par[y].value, n - 1);
      k := k + 1;
    }
  }

  /** Adding a childless row under an existing one keeps the forest a forest. */
  lemma InsertKeepsAcyclic(par: Parents, x: Id, parent: Option<Id>)
    requires Acyclic(par) && x !in par
    requires parent.Some? ==> parent.value in par
    ensures Acyclic(par[x := parent])
  {
    var rank :| Ranked(par, rank);
    var rank' := rank[x := if parent.Some? then rank[parent.value] + 1 else 0];
    assert Ranked(par[x := parent], rank');
  }

  // -------------------------------------------------------------------
  // Evaluation of a recursive common table expression with UNION ALL
  // -------------------------------------------------------------------

  function Repeat(x: Id, n: nat): (r: seq<Id>)
    ensures |r| == n
    ensures forall y :: multiset(r)[y] == if y == x then n else 0
  {
    if n == 0 then [] else
      var rest := Repeat(x, n - 1);
      assert multiset([x] + rest) == multiset([x]) + multiset(rest);
      [x] + rest
  }

  /** How often the join `f.parent_id = s.id` yields `f` for the working table `work`. */
  function Matches(par: Parents, ok: set<Id>, work: seq<Id>, f: Id): nat {
    if f in par && f in ok && par[f].Some? then multiset(work)[par[f].value] else 0
  }

  /** One recursive step: the join of the whole table, in scan order, with the working table. */
  function Join(par: Parents, ok: set<Id>, scan: seq<Id>, work: seq<Id>): seq<Id> {
    if scan == [] then [] else
      Repeat(scan[0], Matches(par, ok, work, scan[0])) + Join(par, ok, scan[1..], work)
  }

  lemma {:induction false} JoinCount(par: Parents, ok: set<Id>, scan: seq<Id>, work: seq<Id>, f: Id)
    requires forall i, j :: 0 <= i < j < |scan| ==> scan[i] != scan[j]
    ensures multiset(Join(par, ok, scan, work))[f] == if f in scan then Matches(par, ok, work, f) else 0
    decreases |scan|
  {
    if scan != [] {
      var rest := scan[1..];
      JoinCount(par, ok, rest, work, f);
      assert f in scan <==> f == scan[0] || f in rest;
      assert scan[0] !in rest;
    }
  }

  /** The scan lists every row of the table once. */
  ghost predicate ScanOf(par: Parents, scan: seq<Id>) {
    && (forall i, j :: 0 <= i < j < |scan| ==> scan[i] != scan[j])
    && forall x :: x in scan <==> x in par
  }

  /** The rows of the n-th working table, each of them once. */
  ghost predicate IsLevel(par: Parents, ok: set<Id>, top: Id, n: nat, work: seq<Id>) {
    forall x :: multiset(work)[x] == if Climbs(par, ok, x, top, n) then 1 else 0
  }

  lemma NextLevel(par: Parents, ok: set<Id>, scan: seq<Id>, top: Id, n: nat, work: seq<Id>)
    requires ScanOf(par, scan) && IsLevel(par, ok, top, n, work)
    ensures IsLevel(par, ok, top, n + 1, Join(par, ok, scan, work))
  {
    forall x
      ensures multiset(Join(par, ok, scan, work))[x] == if Climbs(par, ok, x, top, n + 1) then 1 else 0
    {
      JoinCount(par, ok, scan, work, x);
    }
  }

  /** The rows found by the first `n` working tables. */
  ghost predicate FoundBelow(par: Parents, ok: set<Id>, x: Id, top: Id, n: nat) {
    exists m: nat :: m < n && Climbs(par, ok, x, top, m)
  }

  /**
   WITH RECURSIVE ... UNION ALL, evaluated as the engine does: keep joining the
   last working table until it is empty, and return all working tables.
   With no loop through the anchor row the evaluation ends, and every row of
   the subtree is returned exactly once.
   */
  method EvaluateRecursive(par: Parents, ok: set<Id>, scan: seq<Id>, top: Id) returns (out: seq<Id>)
    requires ScanOf(par, scan) && !OnCycle(par, ok, top)
    ensures multiset(out) == multiset(Subtree(par, ok, top))
  {
    var work := if top in par && top in ok then [top] else [];
    out := [];
    ghost var n: nat := 0;
    while work != []
      invariant IsLevel(par, ok, top, n, work)
      invariant forall x :: multiset(out)[x] == if FoundBelow(par, ok, x, top, n) then 1 else 0
      decreases par.Keys - (set x | x in out)
    {
      ghost var before, found := out, set x | x in out;
      forall x
        ensures multiset(out + work)[x] == if FoundBelow(par, ok, x, top, n + 1) then 1 else 0
      {
        LevelIsNew(par, ok, x, top, n);
      }
      assert work[0] in work;
      assert multiset(work)[work[0]] == 1;
      LevelIsNew(par, ok, work[0], top, n);
      assert work[0] in par && work[0] !in before;
      NextLevel(par, ok, scan, top, n, work);
      out := out + work;
      assert work[0] in out;
      assert work[0] in par.Keys - found && work[0] !in par.Keys - (set x | x in out);
      work := Join(par, ok, scan, work);
      n := n + 1;
    }
    LevelsExhausted(par, ok, top, n, work);
    forall x
      ensures multiset(out)[x] == multiset(Subtree(par, ok, top))[x]
    {
      if x in Subtree(par, ok, top) {
        var m: nat :| Climbs(par, ok, x, top, m);
        if m >= n {
          EmptyForever(par, ok, x, top, n, m);
        }
      }
    }
  }

  lemma LevelIsNew(par: Parents, ok: set<Id>, x: Id, top: Id, n: nat)
    requires !OnCycle(par, ok, top)
    ensures Climbs(par, ok, x, top, n) ==> !FoundBelow(par, ok, x, top, n)
    ensures FoundBelow(par, ok, x, top, n + 1) <==> FoundBelow(par, ok, x, top, n) || Climbs(par, ok, x, top, n)
  {
    if Climbs(par, ok, x, top, n) && FoundBelow(par, ok, x, top, n) {
      var m: nat :| m < n && Climbs(par, ok, x, top, m);
      DepthIsUnique(par, ok, x, top, m, n);
    }
  }

  lemma LevelsExhausted(par: Parents, ok: set<Id>, top: Id, n: nat, work: seq<Id>)
    requires IsLevel(par, ok, top, n, work) && work == []
    ensures forall x :: !Climbs(par, ok, x, top, n)
  {
    forall x
      ensures !Climbs(par, ok, x, top, n)
    {
      assert multiset(work)[x] == 0;
    }
  }

  lemma {:induction false} EmptyForever(par: Parents, ok: set<Id>, x: Id, top: Id, n: nat, m: nat)
    requires n <= m && forall y :: !Climbs(par, ok, y, top, n)
    ensures !Climbs(par, ok, x, top, m)
    decreases m
  {
    if m > n && Climbs(par, ok, x, top, m) {
      EmptyForever(par, ok, par[x].value, top, n, m - 1);
    }
  }

  /** The condition is exact: with a loop through the anchor row no working table is ever empty. */
  lemma {:induction false} CycleNeverEnds(par: Parents, ok: set<Id>, top: Id, n: nat)
    requires OnCycle(par, ok, top)
    ensures exists x :: Climbs(par, ok, x, top, n)
    decreases n
  {
    var k: nat :| k > 0 && Climbs(par, ok, top, top, k);
    if n == 0 {
      assert Climbs(par, ok, top, top, 0);
    } else if n <= k {
      var x := Along(par, ok, top, top, k, n);
    } else {
      CycleNeverEnds(par, ok, top, n - k);
      var x :| Climbs(par, ok, x, top, n - k);
      ClimbsOn(par, ok, x, top, top, n - k, k);
    }
  }

  /** A climb of length k passes a row at every smaller distance from its end. */
  lemma {:induction false} Along(par: Parents, ok: set<Id>, x: Id, top: Id, k: nat, n: nat) returns (y: Id)
    requires Climbs(par, ok, x, top, k) && n <= k
    ensures Climbs(par, ok, y, top, n)
    decreases k
  {
    if n == k {
      y := x;
    } else {
      y := Along(par, ok, par[x].value, top, k - 1, n);
    }
  }

  lemma {:induction false} ClimbsOn(par: Parents, ok: set<Id>, x: Id, y: Id, z: Id, m: nat, n: nat)
    requires Climbs(par, ok, x, y, m) && Climbs(par, ok, y, z, n)
    ensures Climbs(par, ok, x, z, m + n)
    decreases m
  {
    if m > 0 {
      ClimbsOn(par, ok, par[x].value, y, z, m - 1, n);
    }
  }

  lemma {:induction false} AncestorsExist(par: Parents, ok: set<Id>, x: Id, top: Id, n: nat)
    requires Climbs(par, ok, x, top, n)
    ensures top in par && top in ok
    decreases n
  {
    if n > 0 {
      AncestorsExist(par, ok, par[x].value, top, n - 1);
    }
  }

  /** Parents are unique, so two ancestors of one row lie on one line. */
  lemma {:induction false} OnOneLine(par: Parents, ok: set<Id>, x: Id, a: Id, b: Id, m: nat, n: nat)
    requires Climbs(par, ok, x, a, m) && Climbs(par, ok, x, b, n)
    ensures Reaches(par, ok, a, b) || Reaches(par, ok, b, a)
    decreases m
  {
    if m > 0 && n > 0 {
      OnOneLine(par, ok, par[x].value, a, b, m - 1, n - 1);
    }
  }

  lemma ReachesTransitive(par: Parents, ok: set<Id>, x: Id, y: Id, z: Id)
    requires Reaches(par, ok, x, y) && Reaches(par, ok, y, z)
    ensures Reaches(par, ok, x, z)
  {
    var m: nat :| Climbs(par, ok, x, y, m);
    var n: nat :| Climbs(par, ok, y, z, n);
    ClimbsOn(par, ok, x, y, z, m, n);
  }

  // -------------------------------------------------------------------
  // Chains of rows
  // -------------------------------------------------------------------

  /** From `x` up to `top`, each row followed by its parent. */
  predicate Chain(par: Parents, path: seq<Id>, x: Id, top: Id) {
    && path != [] && path[0] == x && path[|path| - 1] == top
    && (forall i :: 0 <= i < |path| ==> path[i] in par)
    && (forall i :: 0 <= i < |path| - 1 ==> par[path[i]] == Some(path[i + 1]))
  }

  lemma {:induction false} ClimbIsChain(par: Parents, ok: set<Id>, x: Id, top: Id, n: nat) returns (path: seq<Id>)
    requires Climbs(par, ok, x, top, n)
    ensures Chain(par, path, x, top) && forall i :: 0 <= i < |path| ==> path[i] in ok
    decreases n
  {
    if n == 0 {
      path := [x];
    } else {
      var rest := ClimbIsChain(par, ok, par[x].value, top, n - 1);
      path := [x] + rest;
    }
  }

  lemma {:induction false} ChainIsClimb(par: Parents, ok: set<Id>, x: Id, top: Id, path: seq<Id>)
    requires Chain(par, path, x, top) && forall i :: 0 <= i < |path| ==> path[i] in ok
    ensures Climbs(par, ok, x, top, |path| - 1)
    decreases |path|
  {
    if |path| > 1 {
      assert par[path[0]] == Some(path[1]);
      ChainIsClimb(par, ok, path[1], top, path[1..]);
    }
  }

  // -------------------------------------------------------------------
  // What lies above a row after a move
  // -------------------------------------------------------------------

  lemma ReachesItself(par: Parents, x: Id)
    requires x in par
    ensures Reaches(par, par.Keys, x, x)
  {
    assert Climbs(par, par.Keys, x, x, 0);
  }

  lemma {:induction false} ClimbsOutside(par: Parents, id: Id, dest: Option<Id>, x: Id, top: Id, n: nat)
    requires id in par && !Reaches(par, par.Keys, x, id)
    ensures Climbs(par[id := dest], par.Keys, x, top, n) <==> Climbs(par, par.Keys, x, top, n)
    decreases n
  {
    if x in par {
      ReachesItself(par, x);
      if n > 0 && par[x].Some? {
        if Reaches(par, par.Keys, par[x].value, id) {
          var m: nat :| Climbs(par, par.Keys, par[x].value, id, m);
          assert Climbs(par, par.Keys, x, id, m + 1);
        }
        ClimbsOutside(par, id, dest, par[x].value, top, n - 1);
      }
    }
  }

  lemma ReachesOutside(par: Parents, id: Id, dest: Option<Id>, x: Id, top: Id)
    requires id in par && !Reaches(par, par.Keys, x, id)
    ensures Reaches(par[id := dest], par.Keys, x, top) <==> Reaches(par, par.Keys, x, top)
  {
    if Reaches(par, par.Keys, x, top) {
      var n: nat :| Climbs(par, par.Keys, x, top, n);
      ClimbsOutside(par, id, dest, x, top, n);
    }
    if Reaches(par[id := dest], par.Keys, x, top) {
      var n: nat :| Climbs(par[id := dest], par.Keys, x, top, n);
      ClimbsOutside(par, id, dest, x, top, n);
    }
  }

  lemma OneStepUp(par: Parents, x: Id, top: Id)
    requires x in par
    ensures Reaches(par, par.Keys, x, top) <==>
            x == top || (par[x].Some? && Reaches(par, par.Keys, par[x].value, top))
  {
    ReachesItself(par, x);
    if Reaches(par, par.Keys, x, top) {
      var n: nat :| Climbs(par, par.Keys, x, top, n);
      if n > 0 {
        assert Climbs(par, par.Keys, par[x].value, top, n - 1);
      }
    }
    if par[x].Some? && Reaches(par, par.Keys, par[x].value, top) {
      var n: nat :| Climbs(par, par.Keys, par[x].value, top, n);
      assert Climbs(par, par.Keys, x, top, n + 1);
    }
  }

  /** Above a row of the moved subtree are its rows up to the one moved, and then what is above the new parent. */
  lemma {:induction false} ReachesInside(par: Parents, id: Id, dest: Option<Id>, x: Id, top: Id, n: nat)
    requires Acyclic(par) && Climbs(par, par.Keys, x, id, n)
    requires dest.Some? ==> !Reaches(par, par.Keys, dest.value, id)
    ensures Reaches(par[id := dest], par.Keys, x, top) <==>
            || (Reaches(par, par.Keys, x, top) && Reaches(par, par.Keys, top, id))
            || (dest.Some? && Reaches(par, par.Keys, dest.value, top))
    decreases n
  {
    var moved := par[id := dest];
    AncestorsExist(par, par.Keys, x, id, n);
    assert moved.Keys == par.Keys && Reaches(par, par.Keys, x, id);
    OneStepUp(par, x, top);
    OneStepUp(moved, x, top);
    if n == 0 {
      if dest.Some? { ReachesOutside(par, id, dest, dest.value, top); }
      if Reaches(par, par.Keys, x, top) && Reaches(par, par.Keys, top, id) {
        BothWaysIsSame(par, x, top);
      }
    } else {
      AcyclicHasNoCycle(par, par.Keys, id);
      ReachesInside(par, id, dest, par[x].value, top, n - 1);
    }
  }

  lemma BothWaysIsSame(par: Parents, x: Id, y: Id)
    requires Acyclic(par) && Reaches(par, par.Keys, x, y) && Reaches(par, par.Keys, y, x)
    ensures x == y
  {
    var m: nat :| Climbs(par, par.Keys, x, y, m);
    var n: nat :| Climbs(par, par.Keys, y, x, n);
    var rank :| Ranked(par, rank);
    RankFalls(par, par.Keys, rank, x, y, m);
    RankFalls(par, par.Keys, rank, y, x, n);
  }

  // -------------------------------------------------------------------
  // The depth-capped upward walk behind the cycle check
  // -------------------------------------------------------------------

  const MAX_DEPTH := 64

  /** Capped stands for the exception thrown at the depth cap. */
  datatype Verdict = Yes | No | Capped

  function WalkUp(par: Parents, ancestor: Id, current: Id, budget: nat): Verdict
    decreases budget
  {
    if budget == 0 then Capped
    else if current !in par then No
    else match par[current]
      case None => No
      case Some(next) => if next == ancestor then Yes else WalkUp(par, ancestor, next, budget - 1)
  }

  function IsDescendantOf(par: Parents, ancestor: Id, candidate: Id): Verdict {
    if ancestor == candidate then Yes else WalkUp(par, ancestor, candidate, MAX_DEPTH)
  }

  ghost predicate ReachesWithin(par: Parents, x: Id, top: Id, limit: nat) {
    exists n: nat :: n <= limit && Climbs(par, par.Keys, x, top, n)
  }

  ghost predicate HasAncestorAt(par: Parents, x: Id, n: nat) {
    exists y :: Climbs(par, par.Keys, x, y, n)
  }

  lemma {:induction false} WalkUpExact(par: Parents, ancestor: Id, x: Id, budget: nat)
    requires Acyclic(par) && ancestor != x && x in par
    ensures WalkUp(par, ancestor, x, budget) == Yes <==> ReachesWithin(par, x, ancestor, budget)
    ensures WalkUp(par, ancestor, x, budget) == No ==> !Reaches(par, par.Keys, x, ancestor)
    ensures WalkUp(par, ancestor, x, budget) == Capped <==>
            HasAncestorAt(par, x, budget) && !ReachesWithin(par, x, ancestor, budget)
    decreases budget
  {
    if budget == 0 {
      assert Climbs(par, par.Keys, x, x, 0);
    } else if par[x].Some? {
      var next := par[x].value;
      var rank :| Ranked(par, rank);
      if next == ancestor {
        assert Climbs(par, par.Keys, ancestor, ancestor, 0);
        assert Climbs(par, par.Keys, x, ancestor, 1);
      } else {
        WalkUpExact(par, ancestor, next, budget - 1);
        if ReachesWithin(par, next, ancestor, budget - 1) {
          var n: nat :| n <= budget - 1 && Climbs(par, par.Keys, next, ancestor, n);
          assert Climbs(par, par.Keys, x, ancestor, n + 1);
        }
        if ReachesWithin(par, x, ancestor, budget) {
          var n: nat :| n <= budget && Climbs(par, par.Keys, x, ancestor, n);
          assert Climbs(par, par.Keys, next, ancestor, n - 1);
        }
        if Reaches(par, par.Keys, x, ancestor) {
          var n: nat :| Climbs(par, par.Keys, x, ancestor, n);
          assert Climbs(par, par.Keys, next, ancestor, n - 1);
        }
        if HasAncestorAt(par, next, budget - 1) {
          var y :| Climbs(par, par.Keys, next, y, budget - 1);
          assert Climbs(par, par.Keys, x, y, budget);
        }
        if HasAncestorAt(par, x, budget) {
          var y :| Climbs(par, par.Keys, x, y, budget);
          assert Climbs(par, par.Keys, next, y, budget - 1);
        }
      }
    }
  }

  /**
   The cycle check answers yes exactly for descendants at most 64 levels down, gives up
   exactly on other rows with 64 ancestors, and so a no is always right.
   */
  lemma IsDescendantOfExact(par: Parents, ancestor: Id, candidate: Id)
    requires Acyclic(par) && candidate in par
    ensures IsDescendantOf(par, ancestor, candidate) == Yes <==> ReachesWithin(par, candidate, ancestor, 64)
    ensures IsDescendantOf(par, ancestor, candidate) == Capped <==>
            HasAncestorAt(par, candidate, 64) && !ReachesWithin(par, candidate, ancestor, 64)
    ensures IsDescendantOf(par, ancestor, candidate) == No ==> !Reaches(par, par.Keys, candidate, ancestor)
  {
    if ancestor == candidate {
      assert Climbs(par, par.Keys, candidate, ancestor, 0);
    } else {
      WalkUpExact(par, ancestor, candidate, MAX_DEPTH);
    }
  }
}
