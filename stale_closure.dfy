/**
  The handler React actually subscribes. The mount effect has an empty
  dependency list, so it runs once, with the `updateSpeed` of the first
  render; that closure's `lastPosition` is the first render's value,
  undefined, for the whole session. Every fix therefore takes the
  no-baseline branch: `setLastPosition` still runs, but the speed is never
  computed and the heading can never show one.
 */
module StaleClosure {
  import opened SpeedState

  /** One event, with fixes judged against the captured baseline. */
  function StaleStep(cfg: Config, captured: Option<Position>, s: State, e: Event): (t: State)
    requires ValidConfig(cfg)
  {
    match e
    case Fix(p) => FixStep(cfg, s, captured, p)
    case _ => Step(cfg, s, e)
  }

  function StaleRun(cfg: Config, captured: Option<Position>, s: State, events: seq<Event>): (t: State)
    requires ValidConfig(cfg)
    decreases |events|
  {
    if events == [] then s
    else StaleRun(cfg, captured, StaleStep(cfg, captured, s, events[0]), events[1..])
  }

  /** A session as it runs: the closure holds the first render's `lastPosition`. */
  function StaleSession(cfg: Config, supported: bool, events: seq<Event>): (t: State)
    requires ValidConfig(cfg)
  {
    StaleRun(cfg, Initial().lastPosition, Mount(Initial(), supported), events)
  }

  /** With no captured baseline, no sequence of events changes the speed. */
  lemma {:induction false} StaleRunKeepsSpeed(cfg: Config, s: State, events: seq<Event>)
    requires ValidConfig(cfg)
    ensures StaleRun(cfg, None, s, events).speed == s.speed
    decreases |events|
  {
    if events != [] {
      StaleRunKeepsSpeed(cfg, StaleStep(cfg, None, s, events[0]), events[1..]);
    }
  }

  /** As it runs, the component never shows a speed, whatever the sensor delivers. */
  lemma StaleSessionNeverShowsSpeed(cfg: Config, supported: bool, events: seq<Event>)
    requires ValidConfig(cfg)
    ensures StaleSession(cfg, supported, events).speed == None
    ensures !Shows(StaleSession(cfg, supported, events)).ShowSpeed?
  {
    StaleRunKeepsSpeed(cfg, Mount(Initial(), supported), events);
  }

  /**
    The discrepancy on a concrete session: a tick and two fixes that are
    apart. Read as written, the heading shows the speed; as it runs, "...".
   */
  lemma StaleClosureHidesSpeed(cfg: Config, p: Position, q: Position)
    requires ValidConfig(cfg) && cfg.distance(p, q) != 0.0
    ensures Feasible(cfg, Mount(Initial(), true), [Tick, Fix(p), Fix(q)])
    ensures Shows(Session(cfg, true, [Tick, Fix(p), Fix(q)]))
              == ShowSpeed(SpeedKmph(cfg.distance(p, q), cfg.updateInterval))
    ensures Shows(StaleSession(cfg, true, [Tick, Fix(p), Fix(q)])) == ShowPlaceholder
  {
    var events := [Tick, Fix(p), Fix(q)];
    assert events[1..] == [Fix(p), Fix(q)] && events[1..][1..] == [Fix(q)] && [Fix(q)][1..] == [];
    var s0 := Mount(Initial(), true);
    var s1 := Step(cfg, s0, Tick);
    var s2 := Step(cfg, s1, Fix(p));
    var s3 := Step(cfg, s2, Fix(q));
    assert Run(cfg, s2, [Fix(q)]) == s3;
    assert Run(cfg, s1, [Fix(p), Fix(q)]) == s3;
    assert Session(cfg, true, events) == s3;
    assert Feasible(cfg, s2, [Fix(q)]);
    assert Feasible(cfg, s1, [Fix(p), Fix(q)]);
    var r3 := StaleStep(cfg, None, StaleStep(cfg, None, s1, Fix(p)), Fix(q));
    assert r3.error == None && r3.speed == None;
    assert StaleRun(cfg, None, StaleStep(cfg, None, s1, Fix(p)), [Fix(q)]) == r3;
    assert StaleRun(cfg, None, s1, [Fix(p), Fix(q)]) == r3;
    assert StaleSession(cfg, true, events) == r3;
    StaleSessionNeverShowsSpeed(cfg, true, events);
  }
}
