/**
  Day-stepped sampling of planetary longitudes (`calculate_planet_positions`
  of utils.py) and the grouping of its rows by Julian day that the Great Trine
  page applies to them.
*/
module Positions {
  import opened SwissEph

  /** A planet id of the planets reference table. */
  type PlanetId = int

  /** One row of the sampled table: a sample time, a planet and its longitude. */
  datatype PositionRow = PositionRow(julday: real, planetId: PlanetId, longitude: Longitude)

  /** The i-th sample time: `start` advanced by `i` steps (exact arithmetic). */
  function SampleTime(start: real, step: real, i: nat): real
  {
    start + i as real * step
  }

  lemma ScaleLe(a: real, b: real, step: real)
    requires step > 0.0
    ensures a * step <= b <==> a <= b / step
  {
    assert b / step * step == b;
    if a <= b / step {
      assert (b / step - a) * step >= 0.0;
    } else {
      assert (a - b / step) * step > 0.0;
    }
  }

  /**
    The number of sample times of `while julday <= end: ...; julday += step`:
    the times below it are exactly those that do not pass `end`.
  */
  function SampleCount(start: real, end: real, step: real): (n: nat)
    requires step > 0.0
    ensures forall i: nat :: i < n <==> SampleTime(start, step, i) <= end
  {
    if end < start then 0
    else
      var q := (end - start) / step;
      forall i: nat ensures i <= q.Floor <==> SampleTime(start, step, i) <= end {
        ScaleLe(i as real, end - start, step);
      }
      q.Floor + 1
  }

  /** The first `n` sample times, in the order the loop visits them. */
  function Samples(start: real, step: real, n: nat): (times: seq<real>)
    ensures |times| == n
    ensures forall i | 0 <= i < n :: times[i] == SampleTime(start, step, i)
  {
    seq(n, i requires 0 <= i < n => SampleTime(start, step, i))
  }

  /** The rows emitted for one sample time: one per planet, in table order. */
  function Block(t: real, planets: seq<PlanetId>, lonAt: (real, PlanetId) -> Longitude): (b: seq<PositionRow>)
    ensures |b| == |planets|
    ensures forall p | 0 <= p < |planets| :: b[p] == PositionRow(t, planets[p], lonAt(t, planets[p]))
  {
    seq(|planets|, p requires 0 <= p < |planets| => PositionRow(t, planets[p], lonAt(t, planets[p])))
  }

  /** The rows emitted for a sequence of sample times, time by time. */
  function PositionTable(times: seq<real>, planets: seq<PlanetId>,
                         lonAt: (real, PlanetId) -> Longitude): (rows: seq<PositionRow>)
    ensures forall x | 0 <= x < |rows| ::
      && rows[x].julday in times
      && rows[x].planetId in planets
      && rows[x].longitude == lonAt(rows[x].julday, rows[x].planetId)
  {
    if |times| == 0 then []
    else PositionTable(times[..|times| - 1], planets, lonAt) + Block(times[|times| - 1], planets, lonAt)
  }

  /**
    `calculate_planet_positions(julday_start, julday_end, julday_step)`: from
    `start`, while the time does not pass `end`, one row per planet, then
    advance by `step`. The planet positions come from the ephemeris `lonAt`.
  */
  method CalculatePlanetPositions(start: real, end: real, step: real, planets: seq<PlanetId>,
                                  lonAt: (real, PlanetId) -> Longitude)
    returns (data: seq<PositionRow>)
    requires step > 0.0
    ensures data == PositionTable(Samples(start, step, SampleCount(start, end, step)), planets, lonAt)
  {
    data := [];
    var julday := start;
    ghost var n := SampleCount(start, end, step);
    ghost var i: nat := 0;
    while julday <= end
      invariant i <= n
      invariant julday == SampleTime(start, step, i)
      invariant data == PositionTable(Samples(start, step, i), planets, lonAt)
      decreases n - i
    {
      ghost var before := data;
      for p := 0 to |planets|
        invariant |data| == |before| + p
        invariant data[..|before|] == before
        invariant forall q | 0 <= q < p ::
                    data[|before| + q] == PositionRow(julday, planets[q], lonAt(julday, planets[q]))
      {
        data := data + [PositionRow(julday, planets[p], lonAt(julday, planets[p]))];
      }
      assert data == before + Block(julday, planets, lonAt);
      PositionTableNextSample(start, step, i, planets, lonAt);
      julday := julday + step;
      i := i + 1;
    }
  }

  /** One more sample time appends that time's block of rows. */
  lemma PositionTableNextSample(start: real, step: real, i: nat, planets: seq<PlanetId>,
                                lonAt: (real, PlanetId) -> Longitude)
    ensures SampleTime(start, step, i) + step == SampleTime(start, step, i + 1)
    ensures PositionTable(Samples(start, step, i + 1), planets, lonAt)
            == PositionTable(Samples(start, step, i), planets, lonAt)
               + Block(SampleTime(start, step, i), planets, lonAt)
  {
    var s := Samples(start, step, i + 1);
    assert s[..i] == Samples(start, step, i);
    assert (i + 1) as real * step == i as real * step + step;
  }

  /** The table has one row per sample time and planet. */
  lemma {:induction false} PositionTableLength(times: seq<real>, planets: seq<PlanetId>,
                                               lonAt: (real, PlanetId) -> Longitude)
    ensures |PositionTable(times, planets, lonAt)| == |times| * |planets|
  {
    if |times| > 0 {
      PositionTableLength(times[..|times| - 1], planets, lonAt);
      assert (|times| - 1) * |planets| + |planets| == |times| * |planets|;
    }
  }

  /** Row `t * |planets| + p` is planet `p` (in table order) at sample time `t`. */
  lemma {:induction false} PositionTableAt(times: seq<real>, planets: seq<PlanetId>,
                                           lonAt: (real, PlanetId) -> Longitude, t: nat, p: nat)
    requires t < |times| && p < |planets|
    ensures t * |planets| + p < |PositionTable(times, planets, lonAt)|
    ensures PositionTable(times, planets, lonAt)[t * |planets| + p]
            == PositionRow(times[t], planets[p], lonAt(times[t], planets[p]))
  {
    var init := times[..|times| - 1];
    var head := PositionTable(init, planets, lonAt);
    var last := Block(times[|times| - 1], planets, lonAt);
    assert PositionTable(times, planets, lonAt) == head + last;
    PositionTableLength(init, planets, lonAt);
    if t < |times| - 1 {
      PositionTableAt(init, planets, lonAt, t, p);
      assert init[t] == times[t];
    } else {
      assert t * |planets| == |head|;
    }
  }

  /** Sample times strictly increase when the step is positive. */
  lemma SamplesIncreasing(start: real, step: real, n: nat, a: nat, b: nat)
    requires step > 0.0 && a < b < n
    ensures Samples(start, step, n)[a] < Samples(start, step, n)[b]
  {
    assert (b - a) as real * step > 0.0;
  }

  /**
    With increasing sample times the rows come out in ascending time order.
  */
  lemma {:induction false} PositionTableSorted(times: seq<real>, planets: seq<PlanetId>,
                                               lonAt: (real, PlanetId) -> Longitude, x: nat, y: nat)
    requires forall a, b | 0 <= a < b < |times| :: times[a] < times[b]
    requires x < y < |PositionTable(times, planets, lonAt)|
    ensures PositionTable(times, planets, lonAt)[x].julday <= PositionTable(times, planets, lonAt)[y].julday
  {
    var init := times[..|times| - 1];
    var tab := PositionTable(times, planets, lonAt);
    var head := PositionTable(init, planets, lonAt);
    if y < |head| {
      PositionTableSorted(init, planets, lonAt, x, y);
      assert tab[x] == head[x] && tab[y] == head[y];
    } else {
      assert tab[y].julday == times[|times| - 1];
      if x < |head| {
        assert tab[x] == head[x];
      }
    }
  }

  // Grouping rows by Julian day

  /** All rows of a run carry the Julian day of its first row. */
  predicate SameDay(r: seq<PositionRow>)
    requires |r| > 0
  {
    forall y | 0 <= y < |r| :: r[y].julday == r[0].julday
  }

  /** The rows of a sequence of groups, group after group. */
  function Flatten(g: seq<seq<PositionRow>>): seq<PositionRow>
  {
    if |g| == 0 then [] else Flatten(g[..|g| - 1]) + g[|g| - 1]
  }

  /** What grouping promises of its groups: non-empty, one day each, neighbours differ. */
  predicate Grouped(g: seq<seq<PositionRow>>)
  {
    && (forall x | 0 <= x < |g| :: |g[x]| > 0 && SameDay(g[x]))
    && (forall x, y | 0 <= x < |g| && 0 <= y < |g| && y == x + 1 :: g[x][0].julday != g[y][0].julday)
  }

  /** One more row: it joins the last group when it carries that group's day. */
  function AddRow(g: seq<seq<PositionRow>>, r: PositionRow): seq<seq<PositionRow>>
  {
    if |g| > 0 && |g[|g| - 1]| > 0 && g[|g| - 1][0].julday == r.julday then
      g[..|g| - 1] + [g[|g| - 1] + [r]]
    else
      g + [[r]]
  }

  lemma AddRowKeeps(g: seq<seq<PositionRow>>, r: PositionRow)
    requires Grouped(g)
    ensures Grouped(AddRow(g, r))
    ensures Flatten(AddRow(g, r)) == Flatten(g) + [r]
    ensures var g' := AddRow(g, r); |g'| > 0 && g'[|g'| - 1][0].julday == r.julday
  {
    var g' := AddRow(g, r);
    if |g| > 0 && g[|g| - 1][0].julday == r.julday {
      assert g'[..|g'| - 1] == g[..|g| - 1];
      assert Flatten(g) == Flatten(g[..|g| - 1]) + g[|g| - 1];
    } else {
      assert g'[..|g'| - 1] == g;
    }
  }

  /** Adding row n-1 to a partition of the first n-1 rows partitions the first n. */
  lemma AddRowExtends(g: seq<seq<PositionRow>>, rows: seq<PositionRow>, n: nat)
    requires 0 < n <= |rows| && Grouped(g) && Flatten(g) == rows[..n - 1]
    ensures Grouped(AddRow(g, rows[n - 1]))
    ensures Flatten(AddRow(g, rows[n - 1])) == rows[..n]
    ensures var g' := AddRow(g, rows[n - 1]); |g'| > 0 && g'[|g'| - 1][0].julday == rows[n - 1].julday
  {
    AddRowKeeps(g, rows[n - 1]);
    assert rows[..n] == rows[..n - 1] + [rows[n - 1]];
  }

  /** A row of a day other than the last group's opens a new group. */
  lemma AddRowOpens(g: seq<seq<PositionRow>>, x: PositionRow)
    requires g != [] ==> |g[|g| - 1]| > 0 && g[|g| - 1][0].julday != x.julday
    ensures AddRow(g, x) == g + [[x]]
  {
  }

  /** A row of the last group's day is appended to that group. */
  lemma AddRowJoins(g: seq<seq<PositionRow>>, run: seq<PositionRow>, x: PositionRow)
    requires |run| > 0 && run[0].julday == x.julday
    ensures AddRow(g + [run], x) == g + [run + [x]]
  {
    var gb := g + [run];
    assert gb[..|gb| - 1] == g;
  }

  /** The groups of the first n rows, adding one row at a time. */
  function GroupPrefix(rows: seq<PositionRow>, n: nat): seq<seq<PositionRow>>
    requires n <= |rows|
  {
    if n == 0 then [] else AddRow(GroupPrefix(rows, n - 1), rows[n - 1])
  }

  /**
    `df.groupby('julday')` over rows whose days ascend: the maximal runs of
    rows sharing a day, in row order (see GroupRunsPartition).
  */
  function GroupRuns(rows: seq<PositionRow>): seq<seq<PositionRow>>
  {
    GroupPrefix(rows, |rows|)
  }

  /** Grouping a prefix depends only on the rows of that prefix. */
  lemma {:induction false} GroupPrefixFrame(rows: seq<PositionRow>, other: seq<PositionRow>, n: nat)
    requires n <= |rows| && n <= |other|
    requires forall k | 0 <= k < n :: rows[k] == other[k]
    ensures GroupPrefix(rows, n) == GroupPrefix(other, n)
  {
    if n > 0 {
      GroupPrefixFrame(rows, other, n - 1);
      assert rows[n - 1] == other[n - 1];
    }
  }

  /**
    The groups of a prefix partition it: together they give back its rows in
    order, each group is a non-empty run of one day, neighbouring groups have
    different days, and the last group carries the last row's day.
  */
  lemma {:induction false} GroupPrefixPartition(rows: seq<PositionRow>, n: nat)
    requires n <= |rows|
    ensures Flatten(GroupPrefix(rows, n)) == rows[..n]
    ensures Grouped(GroupPrefix(rows, n))
    ensures n > 0 ==> var g := GroupPrefix(rows, n);
              |g| > 0 && g[|g| - 1][0].julday == rows[n - 1].julday
  {
    if n > 0 {
      GroupPrefixPartition(rows, n - 1);
      AddRowExtends(GroupPrefix(rows, n - 1), rows, n);
    }
  }

  /** The partition property for the whole row sequence. */
  lemma GroupRunsPartition(rows: seq<PositionRow>)
    ensures Flatten(GroupRuns(rows)) == rows
    ensures Grouped(GroupRuns(rows))
    ensures rows != [] ==> var g := GroupRuns(rows);
              |g| > 0 && g[|g| - 1][0].julday == rows[|rows| - 1].julday
  {
    GroupPrefixPartition(rows, |rows|);
    assert rows[..|rows|] == rows;
  }

  /** The first row of a new day's run opens a group after the groups of rows. */
  lemma GroupPrefixRunFirst(rows: seq<PositionRow>, b: seq<PositionRow>)
    requires |b| > 0
    requires rows != [] ==> rows[|rows| - 1].julday != b[0].julday
    ensures GroupPrefix(rows + b, |rows| + 1) == GroupRuns(rows) + [b[..1]]
  {
    var s := rows + b;
    assert s[|rows|] == b[0];
    forall k | 0 <= k < |rows| ensures s[k] == rows[k] { }
    GroupPrefixFrame(s, rows, |rows|);
    GroupRunsPartition(rows);
    AddRowOpens(GroupRuns(rows), b[0]);
    assert b[..1] == [b[0]];
  }

  /** Each further row of that run joins the group it opened. */
  lemma GroupPrefixRunStep(rows: seq<PositionRow>, b: seq<PositionRow>, m: nat)
    requires 1 < m <= |b| && b[m - 1].julday == b[0].julday
    requires GroupPrefix(rows + b, |rows| + m - 1) == GroupRuns(rows) + [b[..m - 1]]
    ensures GroupPrefix(rows + b, |rows| + m) == GroupRuns(rows) + [b[..m]]
  {
    var s := rows + b;
    assert s[|rows| + m - 1] == b[m - 1];
    assert b[..m - 1][0] == b[0];
    AddRowJoins(GroupRuns(rows), b[..m - 1], b[m - 1]);
    assert b[..m - 1] + [b[m - 1]] == b[..m];
  }

  /**
    After rows whose last day differs from a one-day run b, the first m rows
    of b form one new group.
  */
  lemma {:induction false} GroupPrefixRun(rows: seq<PositionRow>, b: seq<PositionRow>, m: nat)
    requires |b| > 0 && SameDay(b) && 0 < m <= |b|
    requires rows != [] ==> rows[|rows| - 1].julday != b[0].julday
    ensures GroupPrefix(rows + b, |rows| + m) == GroupRuns(rows) + [b[..m]]
  {
    if m == 1 {
      GroupPrefixRunFirst(rows, b);
    } else {
      GroupPrefixRun(rows, b, m - 1);
      GroupPrefixRunStep(rows, b, m);
    }
  }

  /** Appending a run of one new day appends exactly that run as one group. */
  lemma GroupRunsAppendRun(rows: seq<PositionRow>, b: seq<PositionRow>)
    requires |b| > 0 && SameDay(b)
    requires rows != [] ==> rows[|rows| - 1].julday != b[0].julday
    ensures GroupRuns(rows + b) == GroupRuns(rows) + [b]
  {
    GroupPrefixRun(rows, b, |b|);
    assert b[..|b|] == b;
  }

  /** Groups `g` are, one per sample time, that time's block of rows. */
  predicate GroupsAreBlocks(g: seq<seq<PositionRow>>, times: seq<real>, planets: seq<PlanetId>,
                            lonAt: (real, PlanetId) -> Longitude)
  {
    |g| == |times| && forall t | 0 <= t < |times| :: g[t] == Block(times[t], planets, lonAt)
  }

  /**
    Grouping the sampled table by day gives back exactly one group per sample
    time, holding that time's rows in planet order.
  */
  lemma {:induction false} GroupRunsOfTable(times: seq<real>, planets: seq<PlanetId>,
                                            lonAt: (real, PlanetId) -> Longitude)
    requires |planets| > 0
    requires forall a, b | 0 <= a < b < |times| :: times[a] < times[b]
    ensures GroupsAreBlocks(GroupRuns(PositionTable(times, planets, lonAt)), times, planets, lonAt)
  {
    if |times| > 0 {
      var init := times[..|times| - 1];
      var head := PositionTable(init, planets, lonAt);
      var last := Block(times[|times| - 1], planets, lonAt);
      assert PositionTable(times, planets, lonAt) == head + last;
      GroupRunsOfTable(init, planets, lonAt);
      if head != [] {
      }
      GroupRunsAppendRun(head, last);
      var g := GroupRuns(head);
      forall t | 0 <= t < |times|
        ensures (g + [last])[t] == Block(times[t], planets, lonAt)
      {
        if t < |init| {
          assert (g + [last])[t] == g[t] == Block(init[t], planets, lonAt);
        }
      }
    }
  }
}
