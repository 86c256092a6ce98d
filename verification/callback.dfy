/**
  The decision part of the page's one callback: which event fired, what it
  does to the origin/destination pair picked on the map, and whether it turns
  into a routing request (with which mode and departure).
 */
module Callback {
  import opened Wrappers
  import opened Modes

  /** A clicked map position (latitude, longitude), treated as an opaque pair. */
  datatype Place = Place(lat: int, lon: int)

  /**
    The origin and destination inputs. The source holds them as text where
    both `None` and the empty string count as unset; both are `None` here.
   */
  datatype Selection = Selection(origin: Option<Place>, destination: Option<Place>)

  /** The component whose change fired the callback. */
  datatype Trigger =
    | NoTrigger                     // initial call: nothing fired
    | MapClick(place: Place)        // 'map-graph'
    | Calculate                     // 'calculate-button'
    | StartOver                     // 'start-over-button'
    | ModeButton(mode: Mode)        // 'mode-transit', 'mode-car', ...
    | CriterionChanged              // 'optimization-criteria'

  /**
    The departure controls: the radio value and the date, hour and minute
    fields, each "" when unset (the source's `None` and "" are both unset).
   */
  datatype DepartureForm = DepartureForm(radio: string, date: string, hour: string, minute: string)

  datatype Departure = Now | At(date: string, hour: string, minute: string)

  /** What the engine is asked for. */
  datatype TripRequest = TripRequest(origin: Place, destination: Place, mode: Mode, departure: Departure, criterion: string)

  /** What the callback answers with. */
  datatype Reply =
    | Prompt(selection: Selection)     // inputs echoed, "Enter valid coordinates ..." message
    | Reset                            // both inputs cleared, base map, empty message
    | Marked(selection: Selection)     // after a map click: new inputs and markers, message untouched
    | Route(selection: Selection, request: TripRequest)

  /** The mode of travel for an event: a mode button's own mode, the press-count rule on Calculate, transit otherwise. */
  function ResolveMode(t: Trigger, p: Presses): (m: Mode)
    ensures t.ModeButton? ==> m == t.mode
    ensures t.Calculate? ==> MostPressed(p, m) && forall o: Mode :: Rank(o) < Rank(m) ==> Count(p, o) < Count(p, m)
    ensures !t.ModeButton? && !t.Calculate? ==> m == Transit
  {
    match t
    case ModeButton(b) => b
    case Calculate => ModeForCalculate(p)
    case _ => Transit
  }

  /** A map click fills the origin, then the destination, then starts a new pair. */
  function OnMapClick(s: Selection, p: Place): (r: Selection)
    ensures s.origin.None? ==> r.origin == Some(p) && r.destination == s.destination
    ensures s.origin.Some? && s.destination.None? ==> r.origin == s.origin && r.destination == Some(p)
    ensures s.origin.Some? && s.destination.Some? ==> r.origin == Some(p) && r.destination.None?
  {
    if s.origin.None? then Selection(Some(p), s.destination)
    else if s.destination.None? then Selection(s.origin, Some(p))
    else Selection(Some(p), None)
  }

  /** A destination is only ever held together with an origin. */
  predicate Ordered(s: Selection)
  {
    s.destination.Some? ==> s.origin.Some?
  }

  /** A map click leaves the selection ordered, whatever it was before. */
  lemma MapClickOrders(s: Selection, p: Place)
    ensures Ordered(OnMapClick(s, p))
    ensures OnMapClick(s, p).origin.Some?
  {
  }

  /** The selection after the clicks `ps`, the last click last. */
  function AfterClicks(s: Selection, ps: seq<Place>): Selection
  {
    if ps == [] then s else OnMapClick(AfterClicks(s, ps[..|ps| - 1]), ps[|ps| - 1])
  }

  /**
    Starting from an empty selection, an odd number of clicks leaves the last
    click as origin and no destination; an even number leaves the last two
    clicks as origin and destination.
   */
  lemma {:induction false} ClicksFromEmpty(ps: seq<Place>)
    requires |ps| > 0
    ensures var s := AfterClicks(Selection(None, None), ps);
      if |ps| % 2 == 1 then s == Selection(Some(ps[|ps| - 1]), None)
      else s == Selection(Some(ps[|ps| - 2]), Some(ps[|ps| - 1]))
  {
    var n := |ps|;
    var init := ps[..n - 1];
    if n > 1 {
      ClicksFromEmpty(init);
      assert init[|init| - 1] == ps[n - 2];
      if n > 2 {
        assert init[|init| - 2] == ps[n - 3];
      }
    } else {
      assert init == [];
    }
  }

  /** Events that ask for a route once the inputs are ready. */
  predicate CalculationTrigger(t: Trigger)
  {
    t.Calculate? || t.ModeButton? || t.CriterionChanged?
  }

  /** The calculation guard: a calculating event, Calculate pressed at least once, both places set. */
  predicate ShouldCalculate(t: Trigger, calculateClicks: nat, s: Selection)
  {
    CalculationTrigger(t) && calculateClicks > 0 && s.origin.Some? && s.destination.Some?
  }

  /** The chosen time only for "future" with date, hour and minute all set; otherwise now. */
  function ResolveDeparture(f: DepartureForm): (d: Departure)
    ensures d.At? <==> f.radio == "future" && f.date != "" && f.hour != "" && f.minute != ""
    ensures d.At? ==> d.date == f.date && d.hour == f.hour && d.minute == f.minute
  {
    if f.radio == "future" && f.date != "" && f.hour != "" && f.minute != "" then At(f.date, f.hour, f.minute)
    else Now
  }

  /** One run of the callback, up to the call into the routing engine. */
  function Dispatch(t: Trigger, calculateClicks: nat, presses: Presses, criterion: string,
                    form: DepartureForm, s: Selection): (r: Reply)
    ensures t.StartOver? <==> r.Reset?
    ensures t.MapClick? <==> r.Marked?
    ensures t.MapClick? ==> r.selection == OnMapClick(s, t.place)
    ensures r.Route? <==> ShouldCalculate(t, calculateClicks, s)
    ensures r.Route? ==>
              && r.selection == s
              && Some(r.request.origin) == s.origin
              && Some(r.request.destination) == s.destination
              && r.request.mode == ResolveMode(t, presses)
              && r.request.departure == ResolveDeparture(form)
              && r.request.criterion == criterion
    ensures r.Prompt? ==> r.selection == s
  {
    match t
    case NoTrigger => Prompt(s)
    case StartOver => Reset
    case MapClick(p) => Marked(OnMapClick(s, p))
    case _ =>
      if ShouldCalculate(t, calculateClicks, s) then
        Route(s, TripRequest(s.origin.value, s.destination.value, ResolveMode(t, presses),
                             ResolveDeparture(form), criterion))
      else Prompt(s)
  }

  /** From empty inputs, two map clicks and then Calculate ask for a route from the first click to the second. */
  lemma TwoClicksThenCalculate(a: Place, b: Place, calculateClicks: nat, presses: Presses,
                               criterion: string, form: DepartureForm)
    requires calculateClicks > 0
    ensures var s := AfterClicks(Selection(None, None), [a, b]);
      var r := Dispatch(Calculate, calculateClicks, presses, criterion, form, s);
      r.Route? && r.request.origin == a && r.request.destination == b
      && r.request.mode == ModeForCalculate(presses)
  {
    ClicksFromEmpty([a, b]);
  }
}
