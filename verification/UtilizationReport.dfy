/** The ISL utilization report: runs of equal entries are written as one row. */
module UtilizationReport {
  import opened Common
  import opened UtilizationTracker
  import opened TransmitMachine
  import opened LaserRuns

  /** One line of isl_utilization.csv before formatting: [left, right) in nanoseconds. */
  datatype Row = Row(src: int, dst: int, left: int, right: int, value: real)

  /** The rows tile [0, n * interval) without gap or overlap: each covers one or more whole intervals,
      and starts where the previous one ends. */
  ghost predicate Tiles(rows: seq<Row>, interval: nat, n: nat)
  {
    if rows == [] then n == 0
    else
      var r := rows[|rows| - 1];
      r.right == n * interval &&
      exists m: nat :: m < n && r.left == m * interval && Tiles(rows[..|rows| - 1], interval, m)
  }

  ghost predicate AdjacentDiffer(rows: seq<Row>)
  {
    forall i :: 0 <= i < |rows| - 1 ==> rows[i].value != rows[i + 1].value
  }

  /** Reading the report back: the value of each row, once per interval it covers. */
  function Expand(rows: seq<Row>, interval: nat): seq<real>
    requires interval > 0
  {
    if rows == [] then []
    else
      var r := rows[|rows| - 1];
      Expand(rows[..|rows| - 1], interval) +
      (if r.left <= r.right then Repeat(r.value, (r.right - r.left) / interval) else [])
  }

  /** The rows are a lossless compression of the utilization vector. */
  ghost predicate Compresses(rows: seq<Row>, interval: nat, u: seq<real>)
  {
    interval > 0 && Tiles(rows, interval, |u|) && AdjacentDiffer(rows) && Expand(rows, interval) == u
  }

  lemma RowCount(interval: nat, m: nat, n: nat)
    requires interval > 0 && m <= n
    ensures m * interval <= n * interval
    ensures (n * interval - m * interval) / interval == n - m
  {
    Ordered(m, n, interval);
    var d := n - m;
    assert n * interval - m * interval == d * interval;
    Quotient(d * interval, interval, d);
  }

  /** A further row for the equal entries u[m..] completes the report. */
  lemma AppendRow(rows: seq<Row>, interval: nat, u: seq<real>, m: nat, r: Row)
    requires m < |u| && Compresses(rows, interval, u[..m])
    requires r.left == m * interval && r.right == |u| * interval
    requires forall i :: m <= i < |u| ==> u[i] == r.value
    requires rows != [] ==> rows[|rows| - 1].value != r.value
    ensures Compresses(rows + [r], interval, u)
  {
    var both := rows + [r];
    assert both[..|both| - 1] == rows;
    RowCount(interval, m, |u|);
    assert u == u[..m] + Repeat(r.value, |u| - m);
  }

  lemma LastOfExpand(rows: seq<Row>, interval: nat, u: seq<real>)
    requires Compresses(rows, interval, u) && rows != []
    ensures u != [] && rows[|rows| - 1].value == u[|u| - 1]
  {
    var m := SplitLast(rows, interval, u);
  }

  /** The last row holds the entries from some m on, and the other rows compress those before. */
  lemma SplitLast(rows: seq<Row>, interval: nat, u: seq<real>) returns (m: nat)
    requires Compresses(rows, interval, u) && rows != []
    ensures m < |u| && rows[|rows| - 1].left == m * interval && rows[|rows| - 1].right == |u| * interval
    ensures forall i :: m <= i < |u| ==> u[i] == rows[|rows| - 1].value
    ensures Compresses(rows[..|rows| - 1], interval, u[..m])
  {
    var r := rows[|rows| - 1];
    m :| m < |u| && r.left == m * interval && Tiles(rows[..|rows| - 1], interval, m);
    RowCount(interval, m, |u|);
    ExpandLength(rows[..|rows| - 1], interval, m);
    assert u[..m] == Expand(rows[..|rows| - 1], interval);
  }

  lemma {:induction false} ExpandLength(rows: seq<Row>, interval: nat, n: nat)
    requires interval > 0 && Tiles(rows, interval, n)
    ensures |Expand(rows, interval)| == n
  {
    if rows != [] {
      var r := rows[|rows| - 1];
      var m: nat :| m < n && r.left == m * interval && Tiles(rows[..|rows| - 1], interval, m);
      ExpandLength(rows[..|rows| - 1], interval, m);
      RowCount(interval, m, n);
    }
  }

  /** The row for a maximal run u[m..j + 1] continues the report of u[..m]. */
  lemma NextRow(rows: seq<Row>, interval: nat, u: seq<real>, m: nat, j: nat, r: Row)
    requires m <= j < |u| && Compresses(rows, interval, u[..m])
    requires r.left == m * interval && r.right == (j + 1) * interval && r.value == u[j]
    requires forall i :: m <= i < j ==> u[i] == u[j]
    requires m > 0 ==> u[m - 1] != u[m]
    ensures Compresses(rows + [r], interval, u[..j + 1])
  {
    var upTo := u[..j + 1];
    if rows != [] {
      LastOfExpand(rows, interval, u[..m]);
    }
    assert upTo[..m] == u[..m];
    AppendRow(rows, interval, upTo, m, r);
  }

  /** The rows written for one device. */
  method CollectRows(src: int, dst: int, interval: nat, utilization: seq<real>) returns (rows: seq<Row>)
    requires interval > 0
    ensures Compresses(rows, interval, utilization)
    ensures forall i :: 0 <= i < |rows| ==> rows[i].src == src && rows[i].dst == dst
  {
    rows := [];
    var interval_left_side_ns := 0;
    ghost var m := 0;
    var j := 0;
    while j < |utilization|
      invariant 0 <= m <= j <= |utilization|
      invariant interval_left_side_ns == m * interval
      invariant Compresses(rows, interval, utilization[..m])
      invariant forall i :: 0 <= i < |rows| ==> rows[i].src == src && rows[i].dst == dst
      invariant forall i :: m <= i < j ==> j < |utilization| && utilization[i] == utilization[j]
      invariant 0 < m < |utilization| ==> utilization[m - 1] != utilization[m]
      invariant j == |utilization| ==> m == j
    {
      if j == |utilization| - 1 || utilization[j] != utilization[j + 1] {
        var row := Row(src, dst, interval_left_side_ns, (j + 1) * interval, utilization[j]);
        NextRow(rows, interval, utilization, m, j, row);
        rows := rows + [row];
        interval_left_side_ns := (j + 1) * interval;
        m := j + 1;
      }
      j := j + 1;
    }
    assert utilization[..m] == utilization;
  }

  /** No other rows for the same vector tile it, differ from one to the next and expand to it. */
  lemma {:induction false} CompressionIsUnique(a: seq<Row>, b: seq<Row>, interval: nat, u: seq<real>)
    requires Compresses(a, interval, u) && Compresses(b, interval, u)
    requires forall i, j :: 0 <= i < |a| && 0 <= j < |b| ==> a[i].src == b[j].src && a[i].dst == b[j].dst
    ensures a == b
    decreases |a|
  {
    if a == [] || b == [] {
      ExpandLength(a, interval, |u|);
      if a != [] { var m := SplitLast(a, interval, u); }
      if b != [] { var m := SplitLast(b, interval, u); }
    } else {
      var m := SplitLast(a, interval, u);
      var k := SplitLast(b, interval, u);
      NotShorter(a, b, interval, u, m, k);
      NotShorter(b, a, interval, u, k, m);
      var ra, rb := a[|a| - 1], b[|b| - 1];
      assert ra == rb by {
        assert ra.value == u[|u| - 1] == rb.value;
      }
      CompressionIsUnique(a[..|a| - 1], b[..|b| - 1], interval, u[..m]);
      assert a == a[..|a| - 1] + [ra] && b == b[..|b| - 1] + [rb];
    }
  }

  /** The last row cannot start later in one report than in another. */
  lemma NotShorter(a: seq<Row>, b: seq<Row>, interval: nat, u: seq<real>, m: nat, k: nat)
    requires AdjacentDiffer(a) && a != [] && b != []
    requires m < |u| && k < |u|
    requires Compresses(a[..|a| - 1], interval, u[..m])
    requires forall i :: m <= i < |u| ==> u[i] == a[|a| - 1].value
    requires forall i :: k <= i < |u| ==> u[i] == b[|b| - 1].value
    ensures m <= k
  {
    if k < m {
      assert u[m - 1] == b[|b| - 1].value == u[|u| - 1] == a[|a| - 1].value;
      if |a| > 1 {
        assert a[|a| - 2].value != a[|a| - 2 + 1].value;
        LastOfExpand(a[..|a| - 1], interval, u[..m]);
      }
    }
  }

  // ---- the report accounts for all busy time ----

  /** How much a value contributes over a stretch of time. */
  function Mass(length: int, v: real): real
  {
    length as real * v
  }

  /** Length times value, over all rows. */
  function Weight(rows: seq<Row>): real
  {
    if rows == [] then 0.0
    else
      var r := rows[|rows| - 1];
      Weight(rows[..|rows| - 1]) + Mass(r.right - r.left, r.value)
  }

  /** Interval length times share, over all entries. */
  function Total(u: seq<real>, interval: nat): real
  {
    if u == [] then 0.0 else Total(u[..|u| - 1], interval) + Mass(interval, u[|u| - 1])
  }

  lemma MassAdds(a: int, b: int, v: real)
    ensures Mass(a, v) + Mass(b, v) == Mass(a + b, v)
  {
  }

  lemma OneMore(interval: nat, count: nat, v: real)
    ensures Mass(count * interval, v) + Mass(interval, v) == Mass((count + 1) * interval, v)
  {
    MassAdds(count * interval, interval, v);
    assert (count + 1) * interval == count * interval + interval;
  }

  lemma {:induction false} TotalOfRun(u: seq<real>, interval: nat, m: nat, v: real)
    requires m <= |u| && forall i :: m <= i < |u| ==> u[i] == v
    ensures Total(u, interval) == Total(u[..m], interval) + Mass((|u| - m) * interval, v)
    decreases |u|
  {
    if m == |u| {
      assert u[..m] == u;
    } else {
      var front := u[..|u| - 1];
      TotalOfRun(front, interval, m, v);
      assert front[..m] == u[..m];
      OneMore(interval, |u| - 1 - m, v);
    }
  }

  lemma RowLength(interval: nat, m: nat, n: nat)
    ensures n * interval - m * interval == (n - m) * interval
  {
  }

  lemma WeightOfLast(rows: seq<Row>, length: int)
    requires rows != [] && length == rows[|rows| - 1].right - rows[|rows| - 1].left
    ensures Weight(rows) == Weight(rows[..|rows| - 1]) + Mass(length, rows[|rows| - 1].value)
  {
  }

  lemma {:induction false} WeightIsTotal(rows: seq<Row>, interval: nat, u: seq<real>)
    requires Compresses(rows, interval, u)
    ensures Weight(rows) == Total(u, interval)
    decreases |rows|
  {
    if rows != [] {
      var m := SplitLast(rows, interval, u);
      RowLength(interval, m, |u|);
      WeightOfLast(rows, (|u| - m) * interval);
      TotalOfRun(u, interval, m, rows[|rows| - 1].value);
      WeightIsTotal(rows[..|rows| - 1], interval, u[..m]);
    }
  }

  lemma ShareTimesInterval(share: real, busy: nat, interval: nat)
    requires interval > 0 && share == busy as real / interval as real
    ensures Mass(interval, share) == busy as real
  {
  }

  lemma BusyOfInterval(u: seq<real>, interval: nat, log: seq<bool>, k: nat)
    requires Correct(u, interval, log) && k < |u|
    ensures k * interval <= (k + 1) * interval <= |log|
    ensures Mass(interval, u[k]) == CountTrue(log[k * interval..(k + 1) * interval]) as real
  {
    Ordered(k, k + 1, interval);
    Ordered(k + 1, |u|, interval);
    ShareTimesInterval(u[k], BusyNs(log, interval, k), interval);
  }

  /** The busy time of the first n intervals. */
  ghost function BusyBefore(log: seq<bool>, interval: nat, n: nat): nat
    requires n * interval <= |log|
  {
    CountTrue(log[..n * interval])
  }

  lemma BusyOfLastInterval(u: seq<real>, interval: nat, log: seq<bool>, k: nat)
    requires Correct(u, interval, log) && k < |u|
    ensures k * interval <= (k + 1) * interval <= |log|
    ensures BusyBefore(log, interval, k + 1) as real == BusyBefore(log, interval, k) as real + Mass(interval, u[k])
  {
    BusyOfInterval(u, interval, log, k);
    var a, b := k * interval, (k + 1) * interval;
    CountTrueSplit(log, 0, a, b);
    assert log[0..a] == log[..a] && log[0..b] == log[..b];
  }

  lemma {:induction false} TotalIsBusyTime(u: seq<real>, interval: nat, log: seq<bool>)
    requires Correct(u, interval, log)
    ensures Total(u, interval) == BusyBefore(log, interval, |u|) as real
    decreases |u|
  {
    if u == [] {
      assert log[..0] == [];
    } else {
      var front := u[..|u| - 1];
      BusyOfLastInterval(u, interval, log, |front|);
      CorrectPrefix(u, interval, log, |front|);
      TotalIsBusyTime(front, interval, log);
    }
  }

  lemma CorrectPrefix(u: seq<real>, interval: nat, log: seq<bool>, m: nat)
    requires Correct(u, interval, log) && m <= |u|
    ensures Correct(u[..m], interval, log)
  {
    Ordered(m, |u|, interval);
  }

  /** The row-weighted sum of the report is the busy time of the log over the whole intervals. */
  lemma ReportConservesBusyTime(rows: seq<Row>, interval: nat, u: seq<real>, log: seq<bool>)
    requires Compresses(rows, interval, u) && Correct(u, interval, log)
    ensures Weight(rows) == BusyBefore(log, interval, |u|) as real
  {
    WeightIsTotal(rows, interval, u);
    TotalIsBusyTime(u, interval, log);
  }

  /** For every run: the row-weighted sum of the report written at its end is the time during which packets
      were on air, over the whole intervals. */
  lemma ReportOfEveryRun<P>(link: Link<P>, interval: nat, actions: seq<Action<P>>, rows: seq<Row>)
    requires interval > 0 && Possible(link, InitialWorld(), actions)
    ensures LaserRun(link, InitialLaser(interval), actions).Next?
    ensures LaserRun(link, InitialLaser(interval), actions).value.tracker.interval == interval
    ensures
      var lw := LaserRun(link, InitialLaser(interval), actions).value;
      var u := Finalized(lw);
      Compresses(rows, interval, u) ==>
        |u| * interval <= lw.world.now < |u| * interval + interval &&
        Weight(rows) == OnAirNs(link, lw.world.started, 0, |u| * interval) as real
  {
    InitialLaserInv(link, interval);
    LaserRunInv(link, InitialLaser(interval), actions);
    var lw := LaserRun(link, InitialLaser(interval), actions).value;
    TrackAgrees(lw.tracker, lw.world.busy, !lw.tracker.on);
    var u := Finalized(lw);
    if Compresses(rows, interval, u) {
      ReportConservesBusyTime(rows, interval, u, lw.world.busy);
      var n := |u| * interval;
      BusyIsOnAir(link, lw.world, 0, n);
      assert lw.world.busy[0..n] == lw.world.busy[..n];
    }
  }

  /** What FinalizeUtilization returns at the end of a run. */
  function Finalized<P>(lw: LaserWorld<P>): seq<real>
    requires lw.tracker.enabled ==> lw.tracker.interval > 0
  {
    match Finalize(lw.tracker, lw.world.now)
    case Abort => []
    case Next(t) => t.utilization
  }
}
