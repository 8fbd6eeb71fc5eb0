/** The ground-truth walk over the next hops that a forwarding state holds. */
module PathTruth {
  import opened Common

  type Dict = map<(int, int), int>

  const PATH_TRUTH_BOUND: nat := 200
  const VIZ_PATH_BOUND: nat := 500

  /** fstate.get((cur, b), -1) */
  function Hop(fstate: Dict, b: int, cur: int): int
  {
    if (cur, b) in fstate then fstate[(cur, b)] else -1
  }

  /** Position i of the path is not b, and the path goes on with its next hop. */
  ghost predicate StepAt(fstate: Dict, b: int, path: seq<int>, i: nat)
    requires i + 1 < |path|
  {
    path[i] != b && path[i + 1] == Hop(fstate, b, path[i]) && path[i + 1] != -1
  }

  /** The nodes visited from a towards b by following next hops, without passing b. */
  ghost predicate IsTrajectory(fstate: Dict, a: int, b: int, path: seq<int>)
  {
    path != [] && path[0] == a &&
    forall i: nat :: i + 1 < |path| ==> StepAt(fstate, b, path, i)
  }

  ghost predicate Reaches(fstate: Dict, a: int, b: int, path: seq<int>)
  {
    IsTrajectory(fstate, a, b, path) && path[|path| - 1] == b
  }

  /** What walk returns with a given bound: a path of at most bound steps, if there is one. */
  ghost predicate WalkResult(fstate: Dict, a: int, b: int, bound: nat, r: Option<seq<int>>)
  {
    match r
    case Some(path) => Reaches(fstate, a, b, path) && |path| <= bound + 1
    case None => forall path :: Reaches(fstate, a, b, path) ==> |path| > bound + 1
  }

  lemma TrajectoryFront(fstate: Dict, a: int, b: int, t: seq<int>)
    requires IsTrajectory(fstate, a, b, t) && |t| > 1
    ensures IsTrajectory(fstate, a, b, t[..|t| - 1])
    ensures StepAt(fstate, b, t, |t| - 2)
  {
    var front := t[..|t| - 1];
    forall i: nat | i + 1 < |front|
      ensures StepAt(fstate, b, front, i)
    {
      assert StepAt(fstate, b, t, i);
    }
  }

  lemma TrajectoryExtends(fstate: Dict, a: int, b: int, t: seq<int>, y: int)
    requires IsTrajectory(fstate, a, b, t) && t[|t| - 1] != b
    requires y == Hop(fstate, b, t[|t| - 1]) && y != -1
    ensures IsTrajectory(fstate, a, b, t + [y])
  {
    var longer := t + [y];
    forall i: nat | i + 1 < |longer|
      ensures StepAt(fstate, b, longer, i)
    {
      if i + 1 < |t| { assert StepAt(fstate, b, t, i); }
    }
  }

  /** Next hops decide the trajectory: of two, the shorter is a prefix of the longer. */
  lemma {:induction false} TrajectoriesAgree(fstate: Dict, a: int, b: int, t: seq<int>, path: seq<int>)
    requires IsTrajectory(fstate, a, b, t) && IsTrajectory(fstate, a, b, path) && |t| <= |path|
    ensures t == path[..|t|]
    decreases |t|
  {
    if |t| > 1 {
      var front := t[..|t| - 1];
      TrajectoryFront(fstate, a, b, t);
      TrajectoriesAgree(fstate, a, b, front, path);
      var k := |front| - 1;
      assert t[k] == front[k] == path[k];
      assert StepAt(fstate, b, t, k);
      assert StepAt(fstate, b, path, k);
      assert t == front + [t[k + 1]];
    }
  }

  /** The end of the shorter one is not b and has a next hop. */
  lemma ShorterGoesOn(fstate: Dict, a: int, b: int, t: seq<int>, path: seq<int>)
    requires IsTrajectory(fstate, a, b, t) && IsTrajectory(fstate, a, b, path) && |t| < |path|
    ensures t[|t| - 1] != b && Hop(fstate, b, t[|t| - 1]) != -1
  {
    TrajectoriesAgree(fstate, a, b, t, path);
    var k := |t| - 1;
    assert path[k] == t[k];
    assert StepAt(fstate, b, path, k);
  }

  /** Every trajectory is a prefix of the one that reaches b. */
  lemma TrajectoryIsPrefix(fstate: Dict, a: int, b: int, t: seq<int>, path: seq<int>)
    requires IsTrajectory(fstate, a, b, t) && Reaches(fstate, a, b, path)
    ensures |t| <= |path| && t == path[..|t|]
  {
    if |path| < |t| {
      ShorterGoesOn(fstate, a, b, path, t);
    }
    TrajectoriesAgree(fstate, a, b, t, path);
  }

  /** Beyond a trajectory that has not arrived, an arriving path goes on with its next hop. */
  lemma ArrivingPathGoesOn(fstate: Dict, a: int, b: int, t: seq<int>, path: seq<int>)
    requires IsTrajectory(fstate, a, b, t) && t[|t| - 1] != b && Reaches(fstate, a, b, path)
    ensures |path| > |t| && Hop(fstate, b, t[|t| - 1]) != -1
  {
    TrajectoryIsPrefix(fstate, a, b, t, path);
    ShorterGoesOn(fstate, a, b, t, path);
  }

  method Walk(fstate: Dict, a: int, b: int, bound: nat) returns (r: Option<seq<int>>)
    ensures WalkResult(fstate, a, b, bound, r)
  {
    var path, cur := [a], a;
    while cur != b
      invariant IsTrajectory(fstate, a, b, path) && cur == path[|path| - 1]
      invariant |path| <= bound + 1
      decreases bound + 1 - |path|
    {
      cur := if (cur, b) in fstate then fstate[(cur, b)] else -1;
      if cur == -1 || |path| > bound {
        forall p | Reaches(fstate, a, b, p)
          ensures |p| > bound + 1
        {
          ArrivingPathGoesOn(fstate, a, b, path, p);
        }
        return None;
      }
      TrajectoryExtends(fstate, a, b, path, cur);
      path := path + [cur];
    }
    r := Some(path);
  }

  /** The walk of path_truth.py: paths of at most 201 nodes. */
  method PathTruthWalk(fstate: Dict, a: int, b: int) returns (r: Option<seq<int>>)
    ensures WalkResult(fstate, a, b, PATH_TRUTH_BOUND, r)
    ensures r.Some? ==> Reaches(fstate, a, b, r.value) && |r.value| <= 201
    ensures r.None? ==> forall path :: Reaches(fstate, a, b, path) ==> |path| > 201
  {
    r := Walk(fstate, a, b, PATH_TRUTH_BOUND);
  }

  /** The walk of viz_path.py: paths of at most 501 nodes. */
  method VizPathWalk(fstate: Dict, a: int, b: int) returns (r: Option<seq<int>>)
    ensures WalkResult(fstate, a, b, VIZ_PATH_BOUND, r)
    ensures r.Some? ==> Reaches(fstate, a, b, r.value) && |r.value| <= 501
    ensures r.None? ==> forall path :: Reaches(fstate, a, b, path) ==> |path| > 501
  {
    r := Walk(fstate, a, b, VIZ_PATH_BOUND);
  }

  // ---- what a returned path is ----

  lemma PathIsUnique(fstate: Dict, a: int, b: int, p: seq<int>, q: seq<int>)
    requires Reaches(fstate, a, b, p) && Reaches(fstate, a, b, q)
    ensures p == q
  {
    TrajectoryIsPrefix(fstate, a, b, p, q);
    TrajectoryIsPrefix(fstate, a, b, q, p);
  }

  lemma Suffix(fstate: Dict, a: int, b: int, path: seq<int>, i: nat)
    requires Reaches(fstate, a, b, path) && i < |path|
    ensures Reaches(fstate, path[i], b, path[i..])
  {
    var s := path[i..];
    forall k: nat | k + 1 < |s|
      ensures StepAt(fstate, b, s, k)
    {
      assert StepAt(fstate, b, path, i + k);
    }
  }

  /** A path that arrives repeats no node: otherwise it would go round forever. */
  lemma PathRepeatsNoNode(fstate: Dict, a: int, b: int, path: seq<int>)
    requires Reaches(fstate, a, b, path)
    ensures forall i, j :: 0 <= i < j < |path| ==> path[i] != path[j]
  {
    forall i, j | 0 <= i < j < |path|
      ensures path[i] != path[j]
    {
      if path[i] == path[j] {
        Suffix(fstate, a, b, path, i);
        Suffix(fstate, a, b, path, j);
        PathIsUnique(fstate, path[i], b, path[i..], path[j..]);
      }
    }
  }

  lemma {:induction false} DistinctFitsIn(path: seq<int>, nodes: set<int>)
    requires forall i, j :: 0 <= i < j < |path| ==> path[i] != path[j]
    requires forall i :: 0 <= i < |path| ==> path[i] in nodes
    ensures |path| <= |nodes|
    decreases |path|
  {
    if path != [] {
      var last := path[|path| - 1];
      DistinctFitsIn(path[..|path| - 1], nodes - {last});
      assert nodes == (nodes - {last}) + {last};
    }
  }

  /** The next hops stay within nodes. */
  ghost predicate Closed(fstate: Dict, b: int, nodes: set<int>)
  {
    forall x :: x in nodes && (x, b) in fstate && fstate[(x, b)] != -1 ==> fstate[(x, b)] in nodes
  }

  lemma {:induction false} TrajectoryStaysIn(fstate: Dict, a: int, b: int, t: seq<int>, nodes: set<int>)
    requires IsTrajectory(fstate, a, b, t) && a in nodes && Closed(fstate, b, nodes)
    ensures forall i :: 0 <= i < |t| ==> t[i] in nodes
    decreases |t|
  {
    if |t| > 1 {
      TrajectoryFront(fstate, a, b, t);
      TrajectoryStaysIn(fstate, a, b, t[..|t| - 1], nodes);
      assert t[|t| - 2] == t[..|t| - 1][|t| - 2];
    }
  }

  /** The trajectory ends at a node other than b with no next hop: a stored -1 or a missing entry. */
  ghost predicate Stops(fstate: Dict, a: int, b: int, t: seq<int>)
  {
    IsTrajectory(fstate, a, b, t) && t[|t| - 1] != b && Hop(fstate, b, t[|t| - 1]) == -1
  }

  ghost predicate Visits(fstate: Dict, a: int, b: int, n: nat)
  {
    exists t :: IsTrajectory(fstate, a, b, t) && |t| == n
  }

  /** From a there are trajectories of every length: the packet circles. */
  ghost predicate Circles(fstate: Dict, a: int, b: int)
  {
    forall n: nat :: n > 0 ==> Visits(fstate, a, b, n)
  }

  lemma {:induction false} GoesOn(fstate: Dict, a: int, b: int, n: nat) returns (t: seq<int>)
    requires n > 0
    requires forall p :: !Reaches(fstate, a, b, p) && !Stops(fstate, a, b, p)
    ensures IsTrajectory(fstate, a, b, t) && |t| == n
  {
    if n == 1 {
      t := [a];
    } else {
      var s := GoesOn(fstate, a, b, n - 1);
      assert !Reaches(fstate, a, b, s) && !Stops(fstate, a, b, s);
      TrajectoryExtends(fstate, a, b, s, Hop(fstate, b, s[|s| - 1]));
      t := s + [Hop(fstate, b, s[|s| - 1])];
    }
  }

  /** In a network of at most bound + 1 nodes the bound rejects nothing that would arrive: walk returns
      a path exactly when b is reached at all, and when it returns none the packet stops at a drop or a
      missing entry, or circles. */
  lemma BoundRejectsOnlyFailures(fstate: Dict, a: int, b: int, bound: nat, nodes: set<int>, r: Option<seq<int>>)
    requires WalkResult(fstate, a, b, bound, r)
    requires a in nodes && Closed(fstate, b, nodes) && |nodes| <= bound + 1
    ensures r.Some? <==> exists path :: Reaches(fstate, a, b, path)
    ensures r.None? ==> (exists t :: Stops(fstate, a, b, t)) || Circles(fstate, a, b)
  {
    forall path | Reaches(fstate, a, b, path)
      ensures |path| <= bound + 1
    {
      PathRepeatsNoNode(fstate, a, b, path);
      TrajectoryStaysIn(fstate, a, b, path, nodes);
      DistinctFitsIn(path, nodes);
    }
    if r.None? && !(exists t :: Stops(fstate, a, b, t)) {
      forall n: nat | n > 0
        ensures Visits(fstate, a, b, n)
      {
        var t := GoesOn(fstate, a, b, n);
      }
    }
  }

  /** viz_path.py returns the path of path_truth.py whenever that has one, and beyond it exactly the
      paths of 201 to 500 steps. */
  lemma VizPathAgrees(fstate: Dict, a: int, b: int, truth: Option<seq<int>>, viz: Option<seq<int>>)
    requires WalkResult(fstate, a, b, PATH_TRUTH_BOUND, truth)
    requires WalkResult(fstate, a, b, VIZ_PATH_BOUND, viz)
    ensures truth.Some? ==> viz == truth
    ensures truth.None? && viz.Some? <==>
              exists path :: Reaches(fstate, a, b, path) && 201 < |path| <= 501
  {
    if truth.Some? {
      forall path | Reaches(fstate, a, b, path)
        ensures path == truth.value
      {
        PathIsUnique(fstate, a, b, path, truth.value);
      }
      assert viz.Some?;
    }
  }
}
