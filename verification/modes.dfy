/**
  The five travel modes and the rule that picks one from the cumulative press
  counts of the mode buttons when Calculate is pressed.
 */
module Modes {

  datatype Mode = Transit | Car | Bicycle | SharedRide | Walk

  /** Cumulative `n_clicks` of each mode button; every button starts at 0. */
  datatype Presses = Presses(transit: nat, car: nat, bike: nat, sharedRide: nat, walk: nat)

  function Count(p: Presses, m: Mode): nat
  {
    match m
    case Transit => p.transit
    case Car => p.car
    case Bicycle => p.bike
    case SharedRide => p.sharedRide
    case Walk => p.walk
  }

  /** Position in the order the Calculate branch tries the modes: car, bicycle, transit, shared ride, walk. */
  function Rank(m: Mode): nat
  {
    match m
    case Car => 0
    case Bicycle => 1
    case Transit => 2
    case SharedRide => 3
    case Walk => 4
  }

  /** The press count of `m` is at least that of every mode. */
  predicate MostPressed(p: Presses, m: Mode)
  {
    forall o: Mode :: Count(p, o) <= Count(p, m)
  }

  /**
    The mode Calculate uses: the if/elif chain tries car, bicycle, transit,
    shared ride and walk in turn and takes the first whose count is at least
    every other count. The chain always takes one of them, so the default is
    never reached.
   */
  function ModeForCalculate(p: Presses): (m: Mode)
    ensures MostPressed(p, m)
    ensures forall o: Mode :: Rank(o) < Rank(m) ==> Count(p, o) < Count(p, m)
  {
    if p.car >= p.bike && p.car >= p.transit && p.car >= p.sharedRide && p.car >= p.walk then Car
    else if p.bike >= p.car && p.bike >= p.transit && p.bike >= p.sharedRide && p.bike >= p.walk then Bicycle
    else if p.transit >= p.car && p.transit >= p.bike && p.transit >= p.sharedRide && p.transit >= p.walk then Transit
    else if p.sharedRide >= p.car && p.sharedRide >= p.bike && p.sharedRide >= p.transit && p.sharedRide >= p.walk then SharedRide
    else if p.walk >= p.car && p.walk >= p.bike && p.walk >= p.transit && p.walk >= p.sharedRide then Walk
    else Transit
  }

  /** The most-pressed mode earliest in the order is the one chosen, and no other. */
  lemma ModeForCalculateUnique(p: Presses, m: Mode)
    requires MostPressed(p, m)
    requires forall o: Mode :: Rank(o) < Rank(m) ==> Count(p, o) < Count(p, m)
    ensures ModeForCalculate(p) == m
  {
    var c := ModeForCalculate(p);
    assert Count(p, c) == Count(p, m);
    assert Rank(c) == Rank(m);
  }

  /** With no presses at all, Calculate uses the car. */
  lemma NoPressesMeansCar()
    ensures ModeForCalculate(Presses(0, 0, 0, 0, 0)) == Car
  {
  }
}
