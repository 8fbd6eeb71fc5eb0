/** Satellites numbered shell by shell, and the limits read back per satellite. */
module Shells {
  import opened Common

  datatype Shell = Shell(orbits: nat, satsPerOrbit: nat, maxGsl: real, maxIsl: real)

  function Size(sh: Shell): nat
  {
    sh.orbits * sh.satsPerOrbit
  }

  /** The first satellite id of shell k; k == |shells| gives the number of satellites. */
  function Start(shells: seq<Shell>, k: nat): nat
    requires k <= |shells|
  {
    if k == 0 then 0 else Start(shells, k - 1) + Size(shells[k - 1])
  }

  /** The id range of shell k contains satellite s. */
  predicate Contains(shells: seq<Shell>, k: nat, s: nat)
  {
    k < |shells| && Start(shells, k) <= s < Start(shells, k) + Size(shells[k])
  }

  lemma {:induction false} StartGrows(shells: seq<Shell>, j: nat, k: nat)
    requires j <= k <= |shells|
    ensures Start(shells, j) <= Start(shells, k)
    decreases k
  {
    if j < k {
      StartGrows(shells, j, k - 1);
    }
  }

  /** Id ranges do not overlap. */
  lemma RangesAreDisjoint(shells: seq<Shell>, j: nat, k: nat, s: nat)
    requires Contains(shells, j, s) && Contains(shells, k, s)
    ensures j == k
  {
    if j < k {
      StartGrows(shells, j + 1, k);
    } else if k < j {
      StartGrows(shells, k + 1, j);
    }
  }

  /** Every satellite is in some shell; with RangesAreDisjoint, in exactly one. */
  lemma SomeShellContains(shells: seq<Shell>, s: nat) returns (k: nat)
    requires s < Start(shells, |shells|)
    ensures Contains(shells, k, s)
  {
    k := |shells| - 1;
    while s < Start(shells, k)
      invariant k < |shells| && s < Start(shells, k) + Size(shells[k])
      decreases k
    {
      k := k - 1;
    }
  }

  /** A shell holds exactly one satellite for each of its orbits and each place on it, orbit by orbit. */
  lemma PlacesInShell(shells: seq<Shell>, k: nat, s: nat)
    requires k < |shells|
    ensures Start(shells, k + 1) - Start(shells, k) == shells[k].orbits * shells[k].satsPerOrbit
    ensures Contains(shells, k, s) <==>
              exists orbit: nat, place: nat ::
                IsPlace(shells[k], orbit, place) && s == Start(shells, k) + PlaceNumber(shells[k], orbit, place)
  {
    var n := shells[k].satsPerOrbit;
    if Contains(shells, k, s) {
      var i := s - Start(shells, k);
      PlaceOf(i, shells[k].orbits, n);
      assert IsPlace(shells[k], i / n, i % n) && i == PlaceNumber(shells[k], i / n, i % n);
    }
    if orbit: nat, place: nat :|
      IsPlace(shells[k], orbit, place) && s == Start(shells, k) + PlaceNumber(shells[k], orbit, place)
    {
      Ordered(orbit + 1, shells[k].orbits, n);
      assert (orbit + 1) * n == orbit * n + n;
    }
  }

  predicate IsPlace(sh: Shell, orbit: nat, place: nat)
  {
    orbit < sh.orbits && place < sh.satsPerOrbit
  }

  function PlaceNumber(sh: Shell, orbit: nat, place: nat): nat
  {
    orbit * sh.satsPerOrbit + place
  }

  lemma PlaceOf(i: nat, orbits: nat, n: nat)
    requires i < orbits * n
    ensures n > 0 && i / n < orbits && i == i / n * n + i % n
  {
    if n == 0 {
      assert false;
    }
    if i / n >= orbits {
      Ordered(orbits, i / n, n);
    }
  }

  /** A satellite in tles.txt: the shell it is named after and its id. */
  datatype Named = Named(shell: nat, sid: nat)

  /** write_shells: the satellites in file order, and the total. Satellite s is line s, has id s, and is
      named after the shell whose range contains s. */
  method WriteShells(shells: seq<Shell>) returns (tles: seq<Named>, offset: nat)
    ensures offset == |tles| == Start(shells, |shells|)
    ensures forall s :: 0 <= s < |tles| ==> tles[s].sid == s && Contains(shells, tles[s].shell, s)
  {
    tles, offset := [], 0;
    for k := 0 to |shells|
      invariant offset == |tles| == Start(shells, k)
      invariant forall s :: 0 <= s < |tles| ==> tles[s].sid == s && Contains(shells, tles[s].shell, s)
    {
      var n := Size(shells[k]);
      for i := 0 to n
        invariant |tles| == offset + i
        invariant forall s :: 0 <= s < |tles| ==> tles[s].sid == s && Contains(shells, tles[s].shell, s)
      {
        var sid := offset + i;
        tles := tles + [Named(k, sid)];
      }
      offset := offset + shells[k].orbits * shells[k].satsPerOrbit;
    }
  }

  datatype Limits = Limits(gsl: real, isl: real)

  /** The countdown stands between satellites: s is the next one and shell k has `left` more. */
  predicate Counting(shells: seq<Shell>, k: nat, left: nat, s: nat)
  {
    k < |shells| && left <= Size(shells[k]) && s + left == Start(shells, k) + Size(shells[k])
  }

  /** The inner loop of read_tles_with_limits: on to the shell that contains satellite s. The index runs
      past the list exactly when no shell contains s. */
  method SkipEmpty(shells: seq<Shell>, k0: nat, left0: nat, s: nat) returns (r: Outcome<(nat, nat)>)
    requires Counting(shells, k0, left0, s)
    ensures r.Abort? ==> s == Start(shells, |shells|)
    ensures r.Next? ==> r.value.1 > 0 && Counting(shells, r.value.0, r.value.1, s)
  {
    var k: nat, left: nat := k0, left0;
    while left == 0
      invariant Counting(shells, k, left, s)
      decreases |shells| - k, left
    {
      k := k + 1;
      if k == |shells| {
        return Abort;
      }
      left := shells[k].orbits * shells[k].satsPerOrbit;
    }
    r := Next((k, left));
  }

  ghost predicate LimitsOf(shells: seq<Shell>, l: Limits, s: nat)
  {
    forall k: nat :: Contains(shells, k, s) ==> l == Limits(shells[k].maxGsl, shells[k].maxIsl)
  }

  lemma ContainerDecides(shells: seq<Shell>, k: nat, s: nat)
    requires Contains(shells, k, s)
    ensures LimitsOf(shells, Limits(shells[k].maxGsl, shells[k].maxIsl), s)
  {
    forall j: nat | Contains(shells, j, s)
      ensures j == k
    {
      RangesAreDisjoint(shells, j, k, s);
    }
  }

  /** read_tles_with_limits over n satellites: satellite s gets the limits of the shell whose range
      contains s, and the shell index runs past the list exactly when there are more satellites than the
      shells have. Empty shells are passed over. */
  method ReadLimits(shells: seq<Shell>, n: nat) returns (r: Outcome<seq<Limits>>)
    requires shells != []
    ensures r.Next? <==> n <= Start(shells, |shells|)
    ensures r.Next? ==> |r.value| == n
    ensures r.Next? ==> forall s, k: nat :: 0 <= s < n && Contains(shells, k, s) ==>
                r.value[s].gsl == shells[k].maxGsl && r.value[s].isl == shells[k].maxIsl
  {
    var k: nat, left: nat := 0, shells[0].orbits * shells[0].satsPerOrbit;
    var limits := [];
    for s := 0 to n
      invariant |limits| == s
      invariant Counting(shells, k, left, s)
      invariant forall t :: 0 <= t < s ==> LimitsOf(shells, limits[t], t)
    {
      var next := SkipEmpty(shells, k, left, s);
      if next.Abort? {
        return Abort;
      }
      k, left := next.value.0, next.value.1;
      ContainerDecides(shells, k, s);
      limits := limits + [Limits(shells[k].maxGsl, shells[k].maxIsl)];
      left := left - 1;
    }
    StartGrows(shells, k + 1, |shells|);
    r := Next(limits);
  }

  /** Read back after being written, every satellite has the limits of the shell it is named after. */
  method WriteThenRead(shells: seq<Shell>) returns (tles: seq<Named>, limits: seq<Limits>)
    requires shells != []
    ensures |tles| == |limits| == Start(shells, |shells|)
    ensures forall s :: 0 <= s < |tles| ==>
              && tles[s].shell < |shells|
              && limits[s] == Limits(shells[tles[s].shell].maxGsl, shells[tles[s].shell].maxIsl)
  {
    var n;
    tles, n := WriteShells(shells);
    var r := ReadLimits(shells, n);
    limits := r.value;
    forall s | 0 <= s < |tles|
      ensures limits[s] == Limits(shells[tles[s].shell].maxGsl, shells[tles[s].shell].maxIsl)
    {
      assert Contains(shells, tles[s].shell, s);
    }
  }
}
