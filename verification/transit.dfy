/**
  The transit reducer: group the engine's legs by option, aggregate each
  option, pick the option that minimises the chosen criterion, and summarise
  it (displayed total, walking figures, and the three runs of route geometry).
 */
module Transit {
  import opened Wrappers
  import opened Seqs
  import opened Legs
  import opened Durations

  /** The option ids of the table, ascending and without repeats: the group order of `groupby('option')`. */
  function OptionIds(legs: seq<Leg>): (ids: seq<int>)
    ensures StrictlyIncreasing(ids)
    ensures forall o :: o in ids ==> exists i :: 0 <= i < |legs| && legs[i].option == o
    ensures forall i :: 0 <= i < |legs| ==> legs[i].option in ids
  {
    if legs == [] then []
    else
      var init := legs[..|legs| - 1];
      var ids := OptionIds(init);
      assert forall i :: 0 <= i < |init| ==> init[i] == legs[i];
      Insert(ids, legs[|legs| - 1].option)
  }

  /** The rows of option `o`, in table order. */
  function Group(legs: seq<Leg>, o: int): (g: seq<Leg>)
    ensures forall l :: l in g <==> l in legs && l.option == o
  {
    if legs == [] then []
    else (if legs[0].option == o then [legs[0]] else []) + Group(legs[1..], o)
  }

  lemma GroupOfId(legs: seq<Leg>, o: int)
    requires o in OptionIds(legs)
    ensures |Group(legs, o)| > 0
  {
    var i :| 0 <= i < |legs| && legs[i].option == o;
    assert legs[i] in Group(legs, o);
  }

  /** One row of the aggregated table. */
  datatype OptionStats = OptionStats(option: int, totalTime: nat, waitTime: nat, numTransfers: int,
                                     walkingTime: nat, distance: nat)

  /**
    Aggregates of one option's rows: the sum of the per-row ride-plus-wait
    column, the wait sum, row count minus 3 as transfers (negative for fewer
    than three rows), first plus last ride time as walking time, distance sum.
   */
  function Aggregate(o: int, g: seq<Leg>): (s: OptionStats)
    requires |g| > 0
    ensures s.option == o
    ensures s.totalTime == Sum(g, TravelOf) + Sum(g, WaitOf)
    ensures s.waitTime == Sum(g, WaitOf) && s.totalTime >= s.waitTime
    ensures s.distance == Sum(g, DistanceOf)
    ensures s.numTransfers + 3 == |g|
    ensures s.walkingTime == g[0].travelTime + g[|g| - 1].travelTime
  {
    SumPointwise(g, TravelOf, WaitOf, LegTotalOf);
    OptionStats(o, Sum(g, LegTotalOf), Sum(g, WaitOf), |g| - 3,
                g[0].travelTime + g[|g| - 1].travelTime, Sum(g, DistanceOf))
  }

  function StatsOf(legs: seq<Leg>, o: int): OptionStats
    requires o in OptionIds(legs)
  {
    GroupOfId(legs, o);
    Aggregate(o, Group(legs, o))
  }

  datatype Criterion = TotalTime | Transfers | WaitTime | WalkingTime

  /** The dropdown value to the column it ranks by; an unknown value ranks by total time. */
  function CriterionOf(name: string): (c: Criterion)
    ensures c == Transfers <==> name == "transfers"
    ensures c == WaitTime <==> name == "wait_time"
    ensures c == WalkingTime <==> name == "walking_time"
  {
    if name == "total_time" then TotalTime
    else if name == "transfers" then Transfers
    else if name == "wait_time" then WaitTime
    else if name == "walking_time" then WalkingTime
    else TotalTime
  }

  function Measure(s: OptionStats, c: Criterion): int
  {
    match c
    case TotalTime => s.totalTime
    case Transfers => s.numTransfers
    case WaitTime => s.waitTime
    case WalkingTime => s.walkingTime
  }

  /** The column of criterion `c` in the aggregated table. */
  function Measures(legs: seq<Leg>, c: Criterion): (ms: seq<int>)
    ensures |ms| == |OptionIds(legs)|
    ensures forall i :: 0 <= i < |ms| ==> ms[i] == Measure(StatsOf(legs, OptionIds(legs)[i]), c)
  {
    var ids := OptionIds(legs);
    seq(|ids|, i requires 0 <= i < |ids| => Measure(StatsOf(legs, ids[i]), c))
  }

  /**
    The option `idxmin` picks from the column of criterion `c`: its value is
    the smallest among all options, and every option with a smaller id has a
    strictly larger value, so ties go to the first option in group order.
   */
  function SelectOption(legs: seq<Leg>, c: Criterion): (o: int)
    requires legs != []
    ensures o in OptionIds(legs)
    ensures forall j :: 0 <= j < |OptionIds(legs)| ==>
              && Measure(StatsOf(legs, o), c) <= Measure(StatsOf(legs, OptionIds(legs)[j]), c)
              && (OptionIds(legs)[j] < o ==> Measure(StatsOf(legs, o), c) < Measure(StatsOf(legs, OptionIds(legs)[j]), c))
  {
    var ids := OptionIds(legs);
    assert legs[0].option in ids;
    var ms := Measures(legs, c);
    var k := ArgMin(ms);
    FirstMinimumIsBest(ids, ms, k);
    ids[k]
  }

  /** At the first minimum `k` of `ms`, every entry is no smaller, and larger where its key is smaller. */
  lemma FirstMinimumIsBest(ids: seq<int>, ms: seq<int>, k: nat)
    requires StrictlyIncreasing(ids) && |ms| == |ids| && k < |ms|
    requires forall i :: 0 <= i < |ms| ==> ms[k] <= ms[i]
    requires forall i :: 0 <= i < k ==> ms[i] > ms[k]
    ensures forall j :: 0 <= j < |ms| ==> ms[k] <= ms[j] && (ids[j] < ids[k] ==> ms[k] < ms[j])
  {
    forall j | 0 <= j < |ms| && ids[j] < ids[k]
      ensures ms[k] < ms[j]
    {
      assert j < k;
    }
  }

  /** The route geometry in three runs: first leg, interior legs in order, last leg. */
  datatype RouteRuns = RouteRuns(firstWalk: seq<Coord>, ride: seq<Coord>, lastWalk: seq<Coord>)

  function SplitRoute(g: seq<Leg>): (r: RouteRuns)
    requires |g| > 0
    ensures r.firstWalk == g[0].coords && r.lastWalk == g[|g| - 1].coords
    ensures |g| <= 2 ==> r.ride == []
  {
    RouteRuns(g[0].coords, if |g| <= 2 then [] else ConcatCoords(g[1..|g| - 1]), g[|g| - 1].coords)
  }

  /**
    With at least two legs the three runs laid end to end are exactly the
    coordinates of all legs in order, and the middle run holds as many
    coordinates as the interior legs together.
   */
  lemma {:induction false} SplitRouteCoversAll(g: seq<Leg>)
    requires |g| >= 2
    ensures var r := SplitRoute(g);
      && r.firstWalk + r.ride + r.lastWalk == ConcatCoords(g)
      && |r.ride| == Sum(g[1..|g| - 1], CoordCountOf)
  {
    var n := |g|;
    assert g == [g[0]] + g[1..n - 1] + [g[n - 1]];
    ConcatCoordsAppend([g[0]] + g[1..n - 1], [g[n - 1]]);
    ConcatCoordsAppend([g[0]], g[1..n - 1]);
    assert ConcatCoords([g[0]]) == g[0].coords by {
      assert [g[0]][1..] == [];
    }
    assert ConcatCoords([g[n - 1]]) == g[n - 1].coords by {
      assert [g[n - 1]][1..] == [];
    }
    if n == 2 {
      assert g[1..n - 1] == [];
    }
  }

  /** What the transit branch shows for the selected option. */
  datatype TransitSummary = TransitSummary(
    option: int,
    totalSeconds: nat,      // the displayed travel time
    clock: Clock,
    walkingDistance: nat,   // metres; shown in miles
    walkingTime: nat,
    outOfVehicleTime: nat,
    distance: nat,          // computed but not shown
    route: RouteRuns)

  /**
    The summary of the selected option's rows `g`. The displayed total adds
    the wait sum to the ride-plus-wait sum, so waiting is counted twice.
   */
  function Summarize(o: int, g: seq<Leg>): (s: TransitSummary)
    requires |g| > 0
    ensures s.totalSeconds == Sum(g, TravelOf) + 2 * Sum(g, WaitOf)
    ensures ClockSeconds(s.clock) == s.totalSeconds && s.clock.minutes < 60 && s.clock.seconds < 60
    ensures s.walkingDistance == g[0].distance + g[|g| - 1].distance
    ensures s.walkingTime == g[0].travelTime + g[|g| - 1].travelTime
    ensures s.outOfVehicleTime == s.walkingTime + Sum(g, WaitOf)
    ensures s.route == SplitRoute(g)
  {
    SumPointwise(g, TravelOf, WaitOf, LegTotalOf);
    var total := Sum(g, LegTotalOf) + Sum(g, WaitOf);
    var walking := g[0].travelTime + g[|g| - 1].travelTime;
    TransitSummary(o, total, ToClock(total), g[0].distance + g[|g| - 1].distance, walking,
                   walking + Sum(g, WaitOf), Sum(g, DistanceOf), SplitRoute(g))
  }

  /**
    The whole transit branch: no rows is an error; otherwise the summary of
    the rows of the option `SelectOption` picks under the criterion named by
    `criterion`.
   */
  function ReduceTransit(legs: seq<Leg>, criterion: string): (r: Result<TransitSummary, Error>)
    ensures r.Failure? <==> legs == []
    ensures r.Success? ==>
              var o := r.value.option;
              && legs != []
              && o == SelectOption(legs, CriterionOf(criterion))
              && |Group(legs, o)| > 0
              && r.value == Summarize(o, Group(legs, o))
  {
    if legs == [] then Failure(NoItinerary)
    else
      var c := CriterionOf(criterion);
      var o := SelectOption(legs, c);
      GroupOfId(legs, o);
      Success(Summarize(o, Group(legs, o)))
  }

  /**
    For any option, the summary shows the option's aggregated total time plus
    its wait time once more, its walking time, and as out-of-vehicle time the
    walking time plus the wait time.
   */
  lemma SummaryOfOption(legs: seq<Leg>, o: int)
    requires o in OptionIds(legs)
    ensures |Group(legs, o)| > 0
    ensures var s, st := Summarize(o, Group(legs, o)), StatsOf(legs, o);
      && s.totalSeconds == st.totalTime + st.waitTime
      && s.walkingTime == st.walkingTime
      && s.outOfVehicleTime == st.walkingTime + st.waitTime
  {
    GroupOfId(legs, o);
  }
}

/**
  Two transit options where the faster one needs more transfers: the
  criterion decides which one is recommended.
 */
module TransitExample {
  import opened Wrappers
  import opened Seqs
  import opened Legs
  import opened Transit

  /** Every leg of `xs` belongs to option `p`. */
  predicate AllOf(xs: seq<Leg>, p: int)
  {
    forall i :: 0 <= i < |xs| ==> xs[i].option == p
  }

  lemma {:induction false} GroupAppend(xs: seq<Leg>, ys: seq<Leg>, o: int)
    ensures Group(xs + ys, o) == Group(xs, o) + Group(ys, o)
  {
    if xs == [] {
      assert xs + ys == ys;
    } else {
      assert (xs + ys)[1..] == xs[1..] + ys;
      GroupAppend(xs[1..], ys, o);
    }
  }

  lemma {:induction false} GroupUniform(xs: seq<Leg>, o: int, p: int)
    requires AllOf(xs, p)
    ensures Group(xs, o) == if o == p then xs else []
  {
    if xs != [] {
      GroupUniform(xs[1..], o, p);
    }
  }

  /** The legs of option 1 followed by those of option 2 have exactly the option ids 1 and 2. */
  lemma {:induction false} TwoBlockIds(a: seq<Leg>, b: seq<Leg>)
    requires a != [] && b != [] && AllOf(a, 1) && AllOf(b, 2)
    ensures OptionIds(a + b) == [1, 2]
  {
    var legs := a + b;
    var ids := OptionIds(legs);
    assert legs[0] == a[0] && legs[|a|] == b[0];
    forall x | x in ids ensures x == 1 || x == 2 {
      var k :| 0 <= k < |legs| && legs[k].option == x;
      if k < |a| { assert legs[k] == a[k]; } else { assert legs[k] == b[k - |a|]; }
    }
    var i :| 0 <= i < |ids| && ids[i] == 1;
    var j :| 0 <= j < |ids| && ids[j] == 2;
    assert |ids| >= 2 by {
      assert i != j;
    }
    assert forall k :: 0 <= k < |ids| ==> 1 <= ids[k] <= 2 by {
      forall k | 0 <= k < |ids| ensures 1 <= ids[k] <= 2 {
        assert ids[k] in ids;
      }
    }
    AtMostTwo(ids);
    assert ids[0] in ids && ids[1] in ids && ids[0] < ids[1];
  }

  /** An increasing list of values in [1, 2] has at most two entries. */
  lemma AtMostTwo(ids: seq<int>)
    requires StrictlyIncreasing(ids)
    requires forall k :: 0 <= k < |ids| ==> 1 <= ids[k] <= 2
    ensures |ids| <= 2
  {
    if ids != [] {
      IncreasingSpread(ids);
    }
  }

  /** The last entry of a strictly increasing list of integers exceeds the first by at least its length minus one. */
  lemma {:induction false} IncreasingSpread(ids: seq<int>)
    requires StrictlyIncreasing(ids) && ids != []
    ensures ids[|ids| - 1] - ids[0] >= |ids| - 1
  {
    var n := |ids|;
    if n > 1 {
      var init := ids[..n - 1];
      assert StrictlyIncreasing(init) by {
        forall i, j | 0 <= i < j < |init| ensures init[i] < init[j] {
          assert init[i] == ids[i] && init[j] == ids[j];
        }
      }
      IncreasingSpread(init);
      assert ids[n - 2] < ids[n - 1];
    }
  }

  /** Grouping the two blocks gives back each block. */
  lemma {:induction false} TwoBlockGroups(a: seq<Leg>, b: seq<Leg>)
    requires AllOf(a, 1) && AllOf(b, 2)
    ensures Group(a + b, 1) == a && Group(a + b, 2) == b
  {
    GroupAppend(a, b, 1);
    GroupAppend(a, b, 2);
    GroupUniform(a, 1, 1);
    GroupUniform(a, 2, 1);
    GroupUniform(b, 1, 2);
    GroupUniform(b, 2, 2);
  }

  /** With exactly the options 1 and 2, the option with the strictly smaller criterion value is selected. */
  lemma BetterOfTwo(legs: seq<Leg>, c: Criterion, x: int)
    requires legs != [] && OptionIds(legs) == [1, 2] && (x == 1 || x == 2)
    requires Measure(StatsOf(legs, x), c) < Measure(StatsOf(legs, 3 - x), c)
    ensures SelectOption(legs, c) == x
  {
    var o := SelectOption(legs, c);
    var ids := OptionIds(legs);
    assert ids[x - 1] == x;
    assert Measure(StatsOf(legs, o), c) <= Measure(StatsOf(legs, ids[x - 1]), c);
  }

  /** The two blocks' aggregated statistics are those of the blocks themselves. */
  lemma TwoBlockStats(a: seq<Leg>, b: seq<Leg>)
    requires a != [] && b != [] && AllOf(a, 1) && AllOf(b, 2)
    ensures OptionIds(a + b) == [1, 2]
    ensures StatsOf(a + b, 1) == Aggregate(1, a) && StatsOf(a + b, 2) == Aggregate(2, b)
  {
    TwoBlockIds(a, b);
    TwoBlockGroups(a, b);
  }

  /**
    Option 1 has a larger total time than option 2: ranking by total time
    recommends option 2.
   */
  lemma TotalTimeDecides(a: seq<Leg>, b: seq<Leg>)
    requires a != [] && b != [] && AllOf(a, 1) && AllOf(b, 2)
    requires Sum(a, TravelOf) + Sum(a, WaitOf) > Sum(b, TravelOf) + Sum(b, WaitOf)
    ensures var r := ReduceTransit(a + b, "total_time"); r.Success? && r.value.option == 2
  {
    TwoBlockStats(a, b);
    assert CriterionOf("total_time") == TotalTime;
    BetterOfTwo(a + b, TotalTime, 2);
  }

  /**
    Option 1 has fewer legs, hence fewer transfers, than option 2: ranking by
    transfers recommends option 1.
   */
  lemma TransfersDecide(a: seq<Leg>, b: seq<Leg>)
    requires a != [] && AllOf(a, 1) && AllOf(b, 2)
    requires |a| < |b|
    ensures var r := ReduceTransit(a + b, "transfers"); r.Success? && r.value.option == 1
  {
    TwoBlockStats(a, b);
    assert CriterionOf("transfers") == Transfers;
    BetterOfTwo(a + b, Transfers, 1);
  }
}
