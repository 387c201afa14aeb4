/**
  The speed estimator of the `App` component as values: the component's
  three pieces of state, the events that change them, one transition
  function per event, and the rule that chooses what is displayed.

  Handlers are modelled as reading the CURRENT state, as the text of
  `updateSpeed` reads. Under React's `useEffect(..., [])` the handler that
  is actually subscribed is the one captured on the first render, whose
  `lastPosition` is always undefined; module StaleClosure models that.
 */
module SpeedState {

  datatype Option<+T> = None | Some(value: T)

  /** A position fix: the `coords` of a `GPS` value, in decimal degrees. */
  datatype Position = Position(latitude: real, longitude: real)

  /**
    What the component needs from outside: the configured `updateInterval`
    in milliseconds (from a config module that is not part of this model)
    and the great-circle distance in metres between two fixes (the
    Haversine formula, kept abstract).
   */
  datatype Config = Config(updateInterval: real, distance: (Position, Position) -> real)

  /** The interval must be positive for the speed formula to be defined. */
  predicate ValidConfig(cfg: Config) {
    cfg.updateInterval > 0.0
  }

  /**
    An ASSUMPTION about the abstract distance: it is never negative.
    The Haversine formula promises this; it is not proved here.
   */
  ghost predicate NonNegativeDistance(cfg: Config) {
    forall p, q :: cfg.distance(p, q) >= 0.0
  }

  /**
    An ASSUMPTION about the abstract distance: a fix is at distance 0
    from itself, as the Haversine formula gives; it is not proved here.
   */
  ghost predicate ZeroSelfDistance(cfg: Config) {
    forall p :: cfg.distance(p, p) == 0.0
  }

  /** Where the mounted component is in its lifecycle. */
  datatype Phase =
    | Rendered     // first render done, the effect has not run yet
    | Unsupported  // the effect found no geolocation and returned early
    | Scheduled    // the effect installed the periodic tick

  /**
    The component's state: `error`, `speed`, `lastPosition`, plus what the
    effect set up — its phase and how many position watches the ticks have
    opened so far (they are never cleared, so the count only grows).
   */
  datatype State = State(
    error: Option<string>,
    speed: Option<real>,
    lastPosition: Option<Position>,
    phase: Phase,
    watches: nat)

  /** What the browser can deliver to the component. */
  datatype Event =
    | Fix(position: Position)  // a watch delivered a position
    | SensorError              // a watch reported a failure or a timeout
    | Tick                     // the interval fired

  const UnsupportedMessage: string := "Geolocation is not supported by this browser."
  const SensorErrorMessage: string := "Unable to retrieve location."

  /** Milliseconds per hour, the constant that turns the interval into hours. */
  const MsPerHour: real := 3600000.0

  /** The state right after the first render: every `useState` is undefined. */
  function Initial(): (s: State)
    ensures s.error == None && s.speed == None && s.lastPosition == None
    ensures s.phase == Rendered && s.watches == 0
  {
    State(None, None, None, Rendered, 0)
  }

  /**
    The speed in km/h for a distance in metres covered in one interval:
    kilometres divided by hours. It equals distance * 3600 / interval and
    is non-negative whenever the distance is.
   */
  function SpeedKmph(distance: real, updateInterval: real): (r: real)
    requires updateInterval > 0.0
    ensures r == distance * 3600.0 / updateInterval
    ensures distance >= 0.0 ==> r >= 0.0
    ensures r == 0.0 <==> distance == 0.0
  {
    var hours := updateInterval / MsPerHour;
    assert hours > 0.0;
    var r := distance / 1000.0 / hours;
    assert r * hours == distance / 1000.0;
    assert r * updateInterval == r * hours * MsPerHour;
    r
  }

  /**
    The effect that runs once after the first render: without geolocation
    it sets the unsupported message and returns before installing the
    interval; otherwise the interval is installed and nothing else changes.
   */
  function Mount(s: State, supported: bool): (t: State)
  {
    if !supported then
      s.(error := Some(UnsupportedMessage), phase := Unsupported)
    else
      s.(phase := Scheduled)
  }

  /**
    `updateSpeed` for a fix, with the previous fix it compares against
    passed as `baseline`: when there is one, the speed is recomputed and
    the error cleared; in every case the fix becomes `lastPosition`.
   */
  function FixStep(cfg: Config, s: State, baseline: Option<Position>, p: Position): (t: State)
    requires ValidConfig(cfg)
  {
    var s' := if baseline.Some? then
                s.(speed := Some(SpeedKmph(cfg.distance(baseline.value, p), cfg.updateInterval)),
                   error := None)
              else s;
    s'.(lastPosition := Some(p))
  }

  /** The error callback of a watch: a fixed message, nothing else changes. */
  function SensorErrorStep(s: State): (t: State)
  {
    s.(error := Some(SensorErrorMessage))
  }

  /** The interval body: clear the error, then open one more watch. */
  function TickStep(s: State): (t: State)
  {
    s.(error := None, watches := s.watches + 1)
  }

  /** One event, handled as the code text reads (current `lastPosition`). */
  function Step(cfg: Config, s: State, e: Event): (t: State)
    requires ValidConfig(cfg)
  {
    match e
    case Fix(p) => FixStep(cfg, s, s.lastPosition, p)
    case SensorError => SensorErrorStep(s)
    case Tick => TickStep(s)
  }

  /** Events applied one at a time, in the order they are delivered. */
  function Run(cfg: Config, s: State, events: seq<Event>): (t: State)
    requires ValidConfig(cfg)
    decreases |events|
  {
    if events == [] then s else Run(cfg, Step(cfg, s, events[0]), events[1..])
  }

  /**
    Whether the browser can deliver `e` in state `s`: ticks only once the
    interval is installed, fixes and errors only through a watch a tick
    has opened.
   */
  predicate Enabled(s: State, e: Event) {
    match e
    case Tick => s.phase == Scheduled
    case Fix(_) => s.watches > 0
    case SensorError => s.watches > 0
  }

  /** A sequence of events the browser can deliver, one after the other. */
  predicate Feasible(cfg: Config, s: State, events: seq<Event>)
    requires ValidConfig(cfg)
    decreases |events|
  {
    events == [] || (Enabled(s, events[0]) && Feasible(cfg, Step(cfg, s, events[0]), events[1..]))
  }

  /** A whole mounted session: the first render, the effect, then the events. */
  function Session(cfg: Config, supported: bool, events: seq<Event>): (t: State)
    requires ValidConfig(cfg)
  {
    Run(cfg, Mount(Initial(), supported), events)
  }

  /** What the heading shows, before `toFixed(2)` formatting. */
  datatype Shown = ShowError(message: string) | ShowSpeed(kmph: real) | ShowPlaceholder

  /** JavaScript truthiness of `error`: null, undefined and "" are falsy. */
  predicate ErrorTruthy(error: Option<string>) {
    error.Some? && error.value != ""
  }

  /** JavaScript truthiness of `speed`: undefined and 0 are falsy. */
  predicate SpeedTruthy(speed: Option<real>) {
    speed.Some? && speed.value != 0.0
  }

  /**
    The heading's nested conditional: a truthy error wins, then a truthy
    (defined, non-zero) speed, and otherwise the placeholder "...".
   */
  function Display(error: Option<string>, speed: Option<real>): (d: Shown)
    ensures d.ShowError? <==> error.Some? && error.value != ""
    ensures d.ShowError? ==> d.message == error.value
    ensures d.ShowSpeed? <==> (error == None || error.value == "") && speed.Some? && speed.value != 0.0
    ensures d.ShowSpeed? ==> d.kmph == speed.value
    ensures d == ShowPlaceholder <==>
              (error == None || error.value == "") && (speed == None || speed.value == 0.0)
  {
    if ErrorTruthy(error) then ShowError(error.value)
    else if SpeedTruthy(speed) then ShowSpeed(speed.value)
    else ShowPlaceholder
  }

  /** What a state displays. */
  function Shows(s: State): Shown {
    Display(s.error, s.speed)
  }
}
