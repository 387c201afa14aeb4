/**
  What the estimator's rules promise, stated about the transition
  functions of SpeedState: one lemma per event, and invariants over any
  sequence of events.
 */
module SpeedProperties {
  import opened SpeedState

  // ---------------------------------------------------------------------
  // One event at a time

  /** A first fix emits no speed and clears no error; it only becomes the baseline. */
  lemma FirstFixOnlyStoresBaseline(cfg: Config, s: State, p: Position)
    requires ValidConfig(cfg) && s.lastPosition == None
    ensures Step(cfg, s, Fix(p)) == s.(lastPosition := Some(p))
  {
  }

  /**
    A fix with a baseline sets the speed to kilometres per hour over one
    interval, clears the error and keeps the phase and the watches.
   */
  lemma FixWithBaselineSetsSpeed(cfg: Config, s: State, p: Position)
    requires ValidConfig(cfg) && s.lastPosition.Some?
    ensures var t := Step(cfg, s, Fix(p));
            && t.speed == Some(cfg.distance(s.lastPosition.value, p) * 3600.0 / cfg.updateInterval)
            && t.error == None
            && t.lastPosition == Some(p)
            && t.phase == s.phase && t.watches == s.watches
  {
  }

  /** A sensor error sets the fixed message and keeps speed and baseline. */
  lemma SensorErrorKeepsTracking(cfg: Config, s: State)
    requires ValidConfig(cfg)
    ensures Step(cfg, s, SensorError) == s.(error := Some(SensorErrorMessage))
  {
  }

  /** A tick clears the error, opens one more watch and keeps speed and baseline. */
  lemma TickClearsError(cfg: Config, s: State)
    requires ValidConfig(cfg)
    ensures Step(cfg, s, Tick) == s.(error := None, watches := s.watches + 1)
  {
  }

  /**
    Standing still for one interval computes a speed of 0, which shows as
    "...", under the assumption that a fix is at distance 0 from itself.
   */
  lemma StandingStillShowsPlaceholder(cfg: Config, s: State, p: Position)
    requires ValidConfig(cfg) && ZeroSelfDistance(cfg) && s.lastPosition == Some(p)
    ensures Step(cfg, s, Fix(p)).speed == Some(0.0)
    ensures Shows(Step(cfg, s, Fix(p))) == ShowPlaceholder
  {
  }

  /** A fix that moved away from the baseline shows its speed on the heading. */
  lemma MovingFixShowsSpeed(cfg: Config, s: State, p: Position)
    requires ValidConfig(cfg) && s.lastPosition.Some?
    requires cfg.distance(s.lastPosition.value, p) != 0.0
    ensures Shows(Step(cfg, s, Fix(p)))
              == ShowSpeed(SpeedKmph(cfg.distance(s.lastPosition.value, p), cfg.updateInterval))
  {
  }

  /** The formula's scale: 1000 m in a 1000 ms interval is 3600 km/h. */
  lemma OneKilometrePerSecond()
    ensures SpeedKmph(1000.0, 1000.0) == 3600.0
  {
  }

  // ---------------------------------------------------------------------
  // Sequences of events

  /** Running two sequences one after the other is running their concatenation. */
  lemma {:induction false} RunAppend(cfg: Config, s: State, a: seq<Event>, b: seq<Event>)
    requires ValidConfig(cfg)
    ensures Run(cfg, s, a + b) == Run(cfg, Run(cfg, s, a), b)
    decreases |a|
  {
    if a != [] {
      assert (a + b)[0] == a[0];
      assert (a + b)[1..] == a[1..] + b;
      RunAppend(cfg, Step(cfg, s, a[0]), a[1..], b);
    } else {
      assert a + b == b;
    }
  }

  /** After any history, a fix leaves that fix as the baseline. */
  lemma LastPositionIsLatestFix(cfg: Config, s: State, events: seq<Event>, p: Position)
    requires ValidConfig(cfg)
    ensures Run(cfg, s, events + [Fix(p)]).lastPosition == Some(p)
  {
    RunAppend(cfg, s, events, [Fix(p)]);
  }

  /** Every stored speed is non-negative (a stated property of every state). */
  predicate SpeedNonNegative(s: State) {
    s.speed.Some? ==> s.speed.value >= 0.0
  }

  /**
    If the distance is never negative and the interval is positive, no
    sequence of events makes a non-negative speed negative.
   */
  lemma {:induction false} SpeedStaysNonNegative(cfg: Config, s: State, events: seq<Event>)
    requires ValidConfig(cfg) && NonNegativeDistance(cfg) && SpeedNonNegative(s)
    ensures SpeedNonNegative(Run(cfg, s, events))
    decreases |events|
  {
    if events != [] {
      var t := Step(cfg, s, events[0]);
      if events[0].Fix? && s.lastPosition.Some? {
        assert cfg.distance(s.lastPosition.value, events[0].position) >= 0.0;
      }
      SpeedStaysNonNegative(cfg, t, events[1..]);
    }
  }

  /** Every speed of a session is non-negative. */
  lemma SessionSpeedNonNegative(cfg: Config, supported: bool, events: seq<Event>)
    requires ValidConfig(cfg) && NonNegativeDistance(cfg)
    ensures SpeedNonNegative(Session(cfg, supported, events))
  {
    SpeedStaysNonNegative(cfg, Mount(Initial(), supported), events);
  }

  /**
    Sensor errors and ticks never change the speed or the baseline: a
    failure suppresses the display but does not reset tracking.
   */
  lemma {:induction false} NonFixEventsKeepTracking(cfg: Config, s: State, events: seq<Event>)
    requires ValidConfig(cfg)
    requires forall i :: 0 <= i < |events| ==> !events[i].Fix?
    ensures Run(cfg, s, events).speed == s.speed
    ensures Run(cfg, s, events).lastPosition == s.lastPosition
    decreases |events|
  {
    if events != [] {
      assert !events[0].Fix?;
      NonFixEventsKeepTracking(cfg, Step(cfg, s, events[0]), events[1..]);
    }
  }

  /**
    After errors and ticks, the next fix resumes from the retained
    baseline: it computes a speed against the fix seen before the errors
    and clears the error.
   */
  lemma FixAfterErrorsUsesRetainedBaseline(cfg: Config, s: State, events: seq<Event>, p: Position)
    requires ValidConfig(cfg) && s.lastPosition.Some?
    requires forall i :: 0 <= i < |events| ==> !events[i].Fix?
    ensures var t := Run(cfg, s, events + [Fix(p)]);
            && t.speed == Some(SpeedKmph(cfg.distance(s.lastPosition.value, p), cfg.updateInterval))
            && t.error == None
  {
    RunAppend(cfg, s, events, [Fix(p)]);
    NonFixEventsKeepTracking(cfg, s, events);
  }

  /** The number of fixes in a sequence of events. */
  function FixCount(events: seq<Event>): (n: nat)
    decreases |events|
  {
    if events == [] then 0
    else (if events[0].Fix? then 1 else 0) + FixCount(events[1..])
  }

  /**
    From a state with no speed, a speed exists only after two fixes, or
    after one if a baseline was already there.
   */
  lemma {:induction false} SpeedNeedsTwoFixes(cfg: Config, s: State, events: seq<Event>)
    requires ValidConfig(cfg) && s.speed == None
    ensures Run(cfg, s, events).speed.Some? ==>
              FixCount(events) + (if s.lastPosition.Some? then 1 else 0) >= 2
    decreases |events|
  {
    if events != [] {
      var t := Step(cfg, s, events[0]);
      if t.speed == None {
        SpeedNeedsTwoFixes(cfg, t, events[1..]);
      }
    }
  }

  /** In a session, a speed is shown only once at least two fixes have arrived. */
  lemma SessionSpeedNeedsTwoFixes(cfg: Config, supported: bool, events: seq<Event>)
    requires ValidConfig(cfg)
    ensures Session(cfg, supported, events).speed.Some? ==> FixCount(events) >= 2
  {
    SpeedNeedsTwoFixes(cfg, Mount(Initial(), supported), events);
  }

  // ---------------------------------------------------------------------
  // The lifecycle

  /**
    Without geolocation the effect installs nothing: no event can follow,
    and the unsupported message stays on screen for the whole session.
   */
  lemma UnsupportedIsTerminal(cfg: Config, events: seq<Event>)
    requires ValidConfig(cfg) && Feasible(cfg, Mount(Initial(), false), events)
    ensures events == []
    ensures Shows(Session(cfg, false, events)) == ShowError(UnsupportedMessage)
  {
  }

  /** With geolocation, the first event of a session is always a tick. */
  lemma SupportedSessionStartsWithTick(cfg: Config, events: seq<Event>)
    requires ValidConfig(cfg) && Feasible(cfg, Mount(Initial(), true), events) && events != []
    ensures events[0] == Tick
  {
  }

  /** The only error a supported session can hold: none or the sensor message. */
  predicate SensorErrorsOnly(s: State) {
    s.phase == Scheduled && (s.error == None || s.error == Some(SensorErrorMessage))
  }

  lemma {:induction false} SensorErrorsOnlyPreserved(cfg: Config, s: State, events: seq<Event>)
    requires ValidConfig(cfg) && SensorErrorsOnly(s)
    ensures SensorErrorsOnly(Run(cfg, s, events))
    decreases |events|
  {
    if events != [] {
      SensorErrorsOnlyPreserved(cfg, Step(cfg, s, events[0]), events[1..]);
    }
  }

  /** A supported session never shows the unsupported message. */
  lemma SupportedSessionNeverUnsupported(cfg: Config, events: seq<Event>)
    requires ValidConfig(cfg)
    ensures Session(cfg, true, events).error != Some(UnsupportedMessage)
    ensures Session(cfg, true, events).phase == Scheduled
  {
    SensorErrorsOnlyPreserved(cfg, Mount(Initial(), true), events);
  }
}
