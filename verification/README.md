# Trip planner decision logic, modelled in Dafny

The trip planner is a single-page web UI. A user picks an origin and a
destination on a map, a travel mode (transit, car, bicycle, shared ride,
walk), a departure time and an optimisation criterion. The page asks an
external routing engine for detailed itineraries and shows a travel-time
summary and the route. Everything happens in one callback,
`update_inputs_and_calculate_travel_time` in `src/main/new_app.py`.

This project models the decision logic inside that callback as pure
functions over whole numbers and sequences, and proves what it does:

- `modes.dfy` (`Modes`): the mode buttons' press counts and the if/elif
  chain that picks a mode when Calculate is pressed.
- `callback.dfy` (`Callback`): which event fired and its effect. A map click
  fills the origin, then the destination, then starts a new pair. Start Over
  clears both. The guard decides when an event becomes a routing request.
  The departure choice is "the chosen time" or "now". `Dispatch` is one run
  of the callback up to the engine call.
- `legs.dfy` (`Legs`): the engine's answer, a table of legs. Each leg has an
  option id, ride and wait time in whole seconds, distance in whole metres,
  and geometry coordinates.
- `transit.dfy` (`Transit`): the transit reducer. It groups legs by option
  (ascending option id, as `groupby` orders groups) and aggregates each
  option. It selects the option with the smallest value of the criterion,
  the first one on ties, as `idxmin` does. It summarises that option and
  splits its geometry into first-walk, ride and last-walk runs. The module
  `TransitExample` in the same file works through a table of two options
  where the criterion changes the recommendation.
- `direct.dfy` (`Direct`): the car/bicycle/walk reduction (the fastest row,
  the distance of all rows) and the shared-ride estimate (the car answer
  plus two clamped delays).
- `durations.dfy` (`Durations`): the hours/minutes/seconds display. It also
  holds Python's floor division, modulo and `int()` on floating-point
  totals, proved equal to integer division of the whole seconds.
- `reducer.dfy` (`Reducer`): from a request and the engine's rows to the
  report for that mode.
- `seqs.dfy`, `wrappers.dfy`: sums, sorted key lists, first-index minimum,
  Option/Result.

Behaviour of the code worth noting:

- Shared ride adds between 120 and 1380 seconds to the car time. Both
  delays are clamped to at least one minute, so the added time is never
  below 120 seconds, not 60.
- For car, bicycle and walk, the distance sums every returned row, not only
  the winning option's rows.
- The transit total shown adds the wait sum to the sum of ride-plus-wait, so
  waiting counts twice (`Transit.Summarize`, `Transit.ReduceTransit`).
- A change of the optimisation criterion recalculates with transit,
  whatever the press counts are (`Callback.ResolveMode`).
- A missing destination is no error. The callback just shows its prompt
  again (`Callback.Dispatch`).

## Model

| member | source | states |
|---|---|---|
| `Modes.ModeForCalculate` | src/main/new_app.py:167-178 | On Calculate, the chosen mode's press count is at least every mode's count, and every mode earlier in the order car, bicycle, transit, shared ride, walk has a strictly smaller count |
| `Modes.ModeForCalculateUnique` | src/main/new_app.py:169-178 | The most-pressed mode that comes first in that order is the only one Calculate can pick |
| `Modes.NoPressesMeansCar` | src/main/new_app.py:169-170 | With all counts at their initial 0, Calculate picks the car |
| `Callback.ResolveMode` | src/main/new_app.py:156-178 | A mode button gives its own mode. Calculate gives the most-pressed mode with the earliest-in-order tie-break. Any other event leaves transit |
| `Callback.OnMapClick` | src/main/new_app.py:182-222 | No origin: the click becomes the origin and the destination is kept. Origin but no destination: the click becomes the destination and the origin is kept. Both set: the click is the new origin and the destination is cleared |
| `Callback.MapClickOrders` | src/main/new_app.py:187-222 | After any map click the origin is set, and a destination is never held without an origin |
| `Callback.ClicksFromEmpty` | src/main/new_app.py:182-222 | From empty inputs, an odd number of clicks leaves the last click as origin and no destination. An even number leaves the last two clicks as origin and destination |
| `Callback.ResolveDeparture` | src/main/new_app.py:233-236 | The chosen date, hour and minute are used if and only if the radio is "future" and all three are set; otherwise the departure is now |
| `Callback.Dispatch` | src/main/new_app.py:141-224 | Start Over resets and a map click moves the selection. A route is requested exactly when the event is Calculate, a mode button or a criterion change, Calculate was pressed before, and both places are set. The request carries the selected places, the resolved mode, the departure and the criterion. Otherwise the inputs are echoed unchanged |
| `Callback.TwoClicksThenCalculate` | src/main/new_app.py:182-224 | From empty inputs, two clicks and then Calculate request a route from the first click to the second, in the mode the press counts give |
| `Seqs.ArgMin` | src/main/new_app.py:358-367 | The index returned holds the minimum, and every earlier entry is strictly larger: the first minimum, as `idxmin` returns it |
| `Transit.OptionIds` | src/main/new_app.py:350-355 | The option ids are strictly ascending, and an id is listed exactly when some leg has it |
| `Transit.Group` | src/main/new_app.py:369 | A leg is in an option's group exactly when it is in the table and has that option id |
| `Transit.Aggregate` | src/main/new_app.py:342-355 | For one option: total time is the ride sum plus the wait sum, the wait time is the wait sum, and the distance is the distance sum. Transfers are the row count minus 3. Walking time is the first plus the last leg's ride time |
| `Transit.CriterionOf` | src/main/new_app.py:358-367 | "transfers", "wait_time" and "walking_time" rank by their own column, each if and only if named. Every other value ranks by total time |
| `Transit.SelectOption` | src/main/new_app.py:358-367 | The selected option is one of the table's options. Its criterion value is at most every option's value, and strictly below that of every option with a smaller id (ties go to the first option in group order, as `idxmin` does) |
| `Transit.SplitRoute` | src/main/new_app.py:387-393 | The first run is the first leg's coordinates and the last run is the last leg's coordinates. The middle run is empty when there are at most two legs |
| `Transit.SplitRouteCoversAll` | src/main/new_app.py:387-400 | With two or more legs, the three runs laid end to end are all the legs' coordinates in order. The middle run has as many coordinates as the interior legs together |
| `Legs.ConcatCoords` | src/main/new_app.py:393 | The concatenated coordinates number the sum of the legs' coordinate counts |
| `Transit.Summarize` | src/main/new_app.py:371-384 | Displayed seconds are the ride sum plus twice the wait sum, and the clock reads them back. Walking distance is the first plus the last leg's distance. Out-of-vehicle time is walking time plus the wait sum. The route is the three-run split |
| `Transit.ReduceTransit` | src/main/new_app.py:340-400 | Failure exactly when there are no rows. Otherwise the summary is `Summarize` of the rows of the option `SelectOption` picks under the named criterion, so the least criterion value, first on ties |
| `Transit.SummaryOfOption` | src/main/new_app.py:371-384 | For any option, the shown total is its aggregated total time plus its wait time once more. Its walking time is the aggregated one, and its out-of-vehicle time is that walking time plus its wait time |
| `TransitExample.TwoBlockIds` | src/main/new_app.py:350-355 | Legs of option 1 followed by legs of option 2 give exactly the options 1 and 2, in that order |
| `TransitExample.TwoBlockGroups` | src/main/new_app.py:369 | Selecting option 1's or option 2's rows from those two blocks gives back each block |
| `TransitExample.BetterOfTwo` | src/main/new_app.py:358-367 | With exactly two options, the one whose criterion value is strictly smaller is selected |
| `TransitExample.TotalTimeDecides` | src/main/new_app.py:358-359 | When option 1 takes longer in total than option 2, ranking by total time recommends option 2 |
| `TransitExample.TransfersDecide` | src/main/new_app.py:347-361 | When option 1 has fewer legs than option 2, ranking by transfers recommends option 1, whatever the times are |
| `Direct.ReduceDirect` | src/main/new_app.py:452-474 | No rows is an error. Otherwise the time is at most every row's ride time and the route belongs to the first row attaining it. The distance is the sum over all rows, and the clock reads the time back |
| `Direct.Clamp` | src/main/new_app.py:250-256 | The result lies in [lo, hi]: the value itself inside the range, the nearer bound outside |
| `Direct.ReduceSharedRide` | src/main/new_app.py:238-292 | No car rows is an error. Otherwise the base is the fastest car time and the route is the car route. The wait is the sample clamped to [1, 15] minutes and the extra time the sample clamped to [1, 8]. Total = base + 60·wait + 60·extra, shown as the clock of its whole seconds. Base is shown as minutes and seconds below 60; wait and extra are shown as `int(v)` minutes and `int((v - int(v)) * 60)` seconds |
| `Direct.SharedRideDelayBounds` | src/main/new_app.py:250-258 | For any samples, the shared-ride total lies between the car time plus 120 s and the car time plus 1380 s |
| `Durations.ToClock` | src/main/new_app.py:441-443 | Minutes and seconds are below 60, and 3600·hours + 60·minutes + seconds equals the total |
| `Durations.ToClockOfClockSeconds` | src/main/new_app.py:472-474 | Any reading with minutes and seconds below 60 is the one `ToClock` gives for its total: the decomposition is unique |
| `Durations.ShownClock` | src/main/new_app.py:259-261 | Python's `x // 3600`, `(x % 3600) // 60` and `int(x % 60)` on a non-negative float total equal the integer clock of its floor |
| `Durations.MinutesAndSeconds` | src/main/new_app.py:263-267 | `int(v)` minutes and `int((v - int(v)) * 60)` seconds: seconds below 60, and 60·minutes + seconds is 60·v rounded down |
| `Reducer.Respond` | src/main/new_app.py:238-515 | An empty answer is an error for every mode. Transit is reduced by the request's criterion, shared ride from the car rows and the samples, car/bicycle/walk by the fastest row |

## Left out

- Page layout, widget wiring, the map figure and its traces, and the button
  style dictionaries. The callback that shows or hides the departure-time
  controls is also out. These are rendering only.
- The routing engine (network construction and itinerary computation). Its
  rows are an input (`Leg` sequences). For a shared ride those rows are the
  car query's rows.
- The random draws for the shared-ride delays (normal with mean 8 and
  standard deviation 3, exponential with mean 2). The drawn values are
  inputs; only the clamp and the sum are modelled.
- Floating-point work: metres to miles and the two-decimal formatting.
  Parsing typed "lat, lon" text into floats is also out: a `Place` is an
  opaque pair of integers, and typed input is not told apart from clicks.
  So are the current clock and parsing the chosen date and time
  (`Departure.At` keeps the raw strings).
- Text inputs that are `None` and those that are empty are both "unset"
  (`None` here), as the callback's `not origin` tests treat them alike.
- The generic error handler. Only "the engine returned no rows" is modelled
  (`NoItinerary`). Malformed typed coordinates and engine failures are not.
- Durations are whole seconds and distances whole metres. Sub-second parts
  of the engine's time deltas are not modelled. The shared-ride figures are the
  exception: the source computes them in floating point, and here they are
  exact reals.
- Durations.MinutesAndSeconds: computed over exact reals, so double
  rounding is not captured. For the double nearest 1.7, `(v - int(v)) * 60`
  rounds to 42.0 in floating point and shows 42 seconds, while the exact
  value of that double gives 41. The same holds for the shared-ride total,
  clock and minute/second figures in `Direct.ReduceSharedRide`.
- Missing values (NaN/NaT) in the engine's columns, and a leg's `segment`
  being missing (the transfer count counts present segments), are not
  modelled.
- Transit.Group: its contract states membership only. That rows keep
  table order is in its definition, not in an ensures clause.
