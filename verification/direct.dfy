/**
  The car, bicycle and walk branch (the fastest row, the distance of all rows)
  and the shared-ride branch built on the car answer plus two sampled delays.
 */
module Direct {
  import opened Wrappers
  import opened Seqs
  import opened Legs
  import opened Durations

  /** What the car, bicycle and walk branch shows. */
  datatype DirectSummary = DirectSummary(travelTime: nat, clock: Clock, distance: nat, route: seq<Coord>)

  /**
    The reported time is the smallest ride time of all rows; the reported
    distance is the sum over all rows, not just the fastest; the route is the
    geometry of the first row attaining the minimum. No rows is an error.
   */
  function ReduceDirect(legs: seq<Leg>): (r: Result<DirectSummary, Error>)
    ensures r.Failure? <==> legs == []
    ensures r.Success? ==>
              && (forall j :: 0 <= j < |legs| ==> r.value.travelTime <= legs[j].travelTime)
              && (exists k :: 0 <= k < |legs|
                    && legs[k].travelTime == r.value.travelTime
                    && r.value.route == legs[k].coords
                    && forall j :: 0 <= j < k ==> r.value.travelTime < legs[j].travelTime)
              && r.value.distance == Sum(legs, DistanceOf)
              && ClockSeconds(r.value.clock) == r.value.travelTime
              && r.value.clock.minutes < 60 && r.value.clock.seconds < 60
  {
    if legs == [] then Failure(NoItinerary)
    else
      var times := TravelTimes(legs);
      var k := ArgMin(times);
      assert forall j :: 0 <= j < |legs| ==> times[j] == legs[j].travelTime;
      var best := legs[k].travelTime;
      Success(DirectSummary(best, ToClock(best), Sum(legs, DistanceOf), legs[k].coords))
  }

  /** `max(lo, min(hi, x))`. */
  function Clamp(lo: real, hi: real, x: real): (r: real)
    requires lo <= hi
    ensures lo <= r <= hi
    ensures lo <= x <= hi ==> r == x
    ensures x < lo ==> r == lo
    ensures hi < x ==> r == hi
  {
    var m := if hi < x then hi else x;
    if lo > m then lo else m
  }

  /** What the shared-ride branch shows. */
  datatype SharedRideSummary = SharedRideSummary(
    baseSeconds: nat,          // fastest car row
    waitMinutes: real,         // clamped pickup wait
    extraMinutes: real,        // clamped additional ride time
    totalSeconds: real,
    clock: Clock,
    waitShown: (nat, nat),     // minutes, seconds
    extraShown: (nat, nat),
    baseShown: (nat, nat),
    route: seq<Coord>)

  /**
    The shared-ride estimate from the car rows and the two sampled delays
    (in minutes): the wait is clamped to [1, 15], the additional ride time to
    [1, 8], and both are added in seconds to the fastest car time. The route
    is the car route. No car rows is an error.
   */
  function ReduceSharedRide(carLegs: seq<Leg>, waitSample: real, extraSample: real)
    : (r: Result<SharedRideSummary, Error>)
    ensures r.Failure? <==> carLegs == []
    ensures r.Success? ==>
              var s := r.value;
              && ReduceDirect(carLegs).Success?
              && s.baseSeconds == ReduceDirect(carLegs).value.travelTime
              && s.route == ReduceDirect(carLegs).value.route
              && s.waitMinutes == Clamp(1.0, 15.0, waitSample)
              && s.extraMinutes == Clamp(1.0, 8.0, extraSample)
              && 1.0 <= s.waitMinutes <= 15.0 && 1.0 <= s.extraMinutes <= 8.0
              && s.totalSeconds == s.baseSeconds as real + 60.0 * s.waitMinutes + 60.0 * s.extraMinutes
              && s.clock == ToClock(s.totalSeconds.Floor)
              && 60 * s.baseShown.0 + s.baseShown.1 == s.baseSeconds && s.baseShown.1 < 60
              && s.waitShown == MinutesAndSeconds(s.waitMinutes)
              && s.extraShown == MinutesAndSeconds(s.extraMinutes)
              && 1 <= s.waitShown.0 <= 15 && s.waitShown.1 < 60
              && 1 <= s.extraShown.0 <= 8 && s.extraShown.1 < 60
  {
    match ReduceDirect(carLegs)
    case Failure(e) => Failure(e)
    case Success(car) =>
      var wait := Clamp(1.0, 15.0, waitSample);
      var extra := Clamp(1.0, 8.0, extraSample);
      var total := car.travelTime as real + wait * 60.0 + extra * 60.0;
      var base := car.travelTime;
      Success(SharedRideSummary(base, wait, extra, total, ShownClock(total),
                                MinutesAndSeconds(wait), MinutesAndSeconds(extra),
                                (base / 60, base % 60), car.route))
  }

  /** Whatever is sampled, the shared ride adds between 120 and 1380 seconds to the car time. */
  lemma SharedRideDelayBounds(carLegs: seq<Leg>, waitSample: real, extraSample: real)
    requires carLegs != []
    ensures var r := ReduceSharedRide(carLegs, waitSample, extraSample);
      && r.Success?
      && r.value.baseSeconds as real + 120.0 <= r.value.totalSeconds <= r.value.baseSeconds as real + 1380.0
  {
  }
}
