/**
  The step after the engine call: the rows the engine returned for a request
  (for a shared ride, the rows of the car query) become the report the page
  shows, by mode.
 */
module Reducer {
  import opened Wrappers
  import opened Legs
  import opened Modes
  import opened Callback
  import opened Transit
  import opened Direct

  datatype Report =
    | TransitReport(transit: TransitSummary)
    | DirectReport(direct: DirectSummary)
    | SharedRideReport(sharedRide: SharedRideSummary)

  /**
    Transit requests are reduced by the request's criterion, shared rides
    from the car rows and the two samples, every other mode by the fastest
    row. An empty answer is the error message, for every mode.
   */
  function Respond(req: TripRequest, legs: seq<Leg>, waitSample: real, extraSample: real)
    : (r: Result<Report, Error>)
    ensures r.Failure? <==> legs == []
    ensures r.Success? && req.mode == Transit ==>
              r.value.TransitReport? && Success(r.value.transit) == ReduceTransit(legs, req.criterion)
    ensures r.Success? && req.mode == SharedRide ==>
              r.value.SharedRideReport? && Success(r.value.sharedRide) == ReduceSharedRide(legs, waitSample, extraSample)
    ensures r.Success? && req.mode in {Car, Bicycle, Walk} ==>
              r.value.DirectReport? && Success(r.value.direct) == ReduceDirect(legs)
  {
    match req.mode
    case Transit =>
      (match ReduceTransit(legs, req.criterion)
       case Failure(e) => Failure(e)
       case Success(s) => Success(TransitReport(s)))
    case SharedRide =>
      (match ReduceSharedRide(legs, waitSample, extraSample)
       case Failure(e) => Failure(e)
       case Success(s) => Success(SharedRideReport(s)))
    case _ =>
      (match ReduceDirect(legs)
       case Failure(e) => Failure(e)
       case Success(s) => Success(DirectReport(s)))
  }
}
