/**
  The routing engine's answer: a table of itinerary legs. Each row belongs to
  one candidate option, carries its ride and wait durations in whole seconds,
  its distance in whole metres and the coordinates of its line geometry.
 */
module Legs {
  import opened Seqs

  /** A geometry vertex (longitude, latitude), treated as an opaque pair. */
  type Coord = (int, int)

  datatype Leg = Leg(option: int, travelTime: nat, waitTime: nat, distance: nat, coords: seq<Coord>)

  /** The reducer's one failure: the engine returned no rows. */
  datatype Error = NoItinerary

  function TravelOf(l: Leg): nat { l.travelTime }

  function WaitOf(l: Leg): nat { l.waitTime }

  function DistanceOf(l: Leg): nat { l.distance }

  /** The per-row `total_time` column: ride plus wait. */
  function LegTotalOf(l: Leg): nat { l.travelTime + l.waitTime }

  function CoordCountOf(l: Leg): nat { |l.coords| }

  /** Ride times of the rows, in row order. */
  function TravelTimes(legs: seq<Leg>): seq<int>
  {
    seq(|legs|, i requires 0 <= i < |legs| => legs[i].travelTime)
  }

  /** The coordinates of the legs, one leg after the other. */
  function ConcatCoords(legs: seq<Leg>): (cs: seq<Coord>)
    ensures |cs| == Sum(legs, CoordCountOf)
  {
    if legs == [] then [] else legs[0].coords + ConcatCoords(legs[1..])
  }

  lemma {:induction false} ConcatCoordsAppend(xs: seq<Leg>, ys: seq<Leg>)
    ensures ConcatCoords(xs + ys) == ConcatCoords(xs) + ConcatCoords(ys)
  {
    if xs == [] {
      assert xs + ys == ys;
    } else {
      assert (xs + ys)[1..] == xs[1..] + ys;
      ConcatCoordsAppend(xs[1..], ys);
    }
  }
}
