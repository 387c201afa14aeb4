/**
  The `App` component as an object: its three state variables are fields
  that the handlers overwrite one after the other, as the `setError`,
  `setSpeed` and `setLastPosition` calls do. Each handler is proved to
  move the fields exactly as the matching transition of SpeedState does.
 */
module AppComponent {
  import opened SpeedState

  class App {
    /** The configured interval in milliseconds. */
    const updateInterval: real
    /** The great-circle distance in metres, kept abstract. */
    const distance: (Position, Position) -> real

    var error: Option<string>
    var speed: Option<real>
    var lastPosition: Option<Position>
    /** What the mount effect did. */
    var phase: Phase
    /** How many position watches the ticks have opened. */
    var watches: nat

    ghost predicate Valid()
      reads this
    {
      updateInterval > 0.0
    }

    /** The configuration the handlers run with. */
    ghost function Cfg(): (cfg: Config)
      reads this
      requires Valid()
      ensures ValidConfig(cfg)
    {
      Config(updateInterval, distance)
    }

    /** The fields as a SpeedState value. */
    ghost function Snapshot(): State
      reads this
    {
      State(error, speed, lastPosition, phase, watches)
    }

    /** The first render: every state variable is undefined. */
    constructor (updateInterval: real, distance: (Position, Position) -> real)
      requires updateInterval > 0.0
      ensures Valid()
      ensures this.updateInterval == updateInterval && this.distance == distance
      ensures Snapshot() == Initial()
    {
      this.updateInterval := updateInterval;
      this.distance := distance;
      error, speed, lastPosition := None, None, None;
      phase, watches := Rendered, 0;
    }

    /**
      The mount effect, run once: without geolocation it sets the
      unsupported message and installs no interval.
     */
    method Mount(supported: bool)
      requires Valid() && phase == Rendered
      modifies this
      ensures Valid()
      ensures Snapshot() == SpeedState.Mount(old(Snapshot()), supported)
      ensures !supported ==> error == Some(UnsupportedMessage) && phase == Unsupported
      ensures supported ==> error == old(error) && phase == Scheduled
      ensures speed == old(speed) && lastPosition == old(lastPosition) && watches == old(watches)
    {
      if !supported {
        error := Some(UnsupportedMessage);
        phase := Unsupported;
        return;
      }
      phase := Scheduled;
    }

    /**
      `updateSpeed`. It reads the current `lastPosition`, as its text
      does; the stale value React actually gives it is modelled in
      module StaleClosure.
     */
    method OnFix(position: Position)
      requires Valid() && watches > 0
      modifies this
      ensures Valid()
      ensures Snapshot() == Step(Cfg(), old(Snapshot()), Fix(position))
      ensures lastPosition == Some(position)
      ensures old(lastPosition).Some? ==>
                && speed == Some(distance(old(lastPosition).value, position) * 3600.0 / updateInterval)
                && error == None
      ensures old(lastPosition).None? ==> speed == old(speed) && error == old(error)
      ensures phase == old(phase) && watches == old(watches)
    {
      if lastPosition.Some? {
        var d := distance(lastPosition.value, position);
        var speedKmph := d / 1000.0 / (updateInterval / MsPerHour);
        assert speedKmph == SpeedKmph(d, updateInterval);
        speed := Some(speedKmph);
        error := None;
      }
      lastPosition := Some(position);
    }

    /** The error callback of a watch. */
    method OnSensorError()
      requires Valid() && watches > 0
      modifies this
      ensures Valid()
      ensures Snapshot() == Step(Cfg(), old(Snapshot()), SensorError)
      ensures error == Some(SensorErrorMessage)
      ensures speed == old(speed) && lastPosition == old(lastPosition)
      ensures phase == old(phase) && watches == old(watches)
    {
      error := Some(SensorErrorMessage);
    }

    /** The interval body: clear the error, then open one more watch. */
    method OnTick()
      requires Valid() && phase == Scheduled
      modifies this
      ensures Valid()
      ensures Snapshot() == Step(Cfg(), old(Snapshot()), Tick)
      ensures error == None && watches == old(watches) + 1
      ensures speed == old(speed) && lastPosition == old(lastPosition) && phase == old(phase)
    {
      error := None;
      watches := watches + 1;
    }
  }

  /**
    A session in which a sensor error falls between two fixes: the second
    fix still measures against the first, clears the error, and the
    heading shows that speed unless it is 0.
   */
  method ErrorBetweenFixes(updateInterval: real, distance: (Position, Position) -> real,
                           p: Position, q: Position) returns (shown: Shown)
    requires updateInterval > 0.0
    ensures shown == Display(None, Some(distance(p, q) * 3600.0 / updateInterval))
    ensures distance(p, q) != 0.0 ==> shown.ShowSpeed?
  {
    var app := new App(updateInterval, distance);
    app.Mount(true);
    app.OnTick();
    app.OnFix(p);
    app.OnSensorError();
    assert app.error == Some(SensorErrorMessage);
    app.OnTick();
    app.OnFix(q);
    shown := Display(app.error, app.speed);
    assert distance(p, q) != 0.0 ==> distance(p, q) * 3600.0 / updateInterval != 0.0;
  }
}
