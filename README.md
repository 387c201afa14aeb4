# Speed estimator of the `speed` web app

As the text of its fix handler reads, the app turns position fixes from
the browser's geolocation sensor into a ground speed in km/h. It shows
either that speed or an error message in one heading. As the app runs
under React, it never shows a speed (see Findings). All of its logic sits
in the `App` component:

- three state variables: `error`, `speed` and `lastPosition`;
- `updateSpeed`, the handler for a new position fix;
- the error callback of a position watch;
- the periodic tick, which clears the error and opens one more watch;
- the mount effect, which either reports that geolocation is unsupported
  or installs the tick;
- the heading's three-way choice between the error, the speed and "...".

The model has four modules.

- `SpeedState` (speed_state.dfy) states the component's state as a
  value. It has one transition function per event, `Run` over any
  sequence of events, the lifecycle (`Mount`, `Feasible`, `Session`) and
  the display rule `Display`.
- `SpeedProperties` (speed_properties.dfy) proves what these rules
  promise, one event at a time and over whole event sequences.
- `AppComponent` (app_component.dfy) is the component as a class. The
  state variables are fields, and each handler is a method that updates
  them. Each method is proved to move the fields exactly as the matching
  transition of `SpeedState` does.
- `StaleClosure` (stale_closure.dfy) models the handler that React
  actually subscribes (see Findings).

The great-circle distance is a parameter: a total function from two
positions to metres, carried in `Config` together with `updateInterval`.
The value of `updateInterval` comes from a config module that is not part
of this model, so every member that uses the interval requires it to be
positive. Distance
non-negativity, which the Haversine formula gives, is an explicit
assumption (`SpeedState.NonNegativeDistance`), and so is a zero distance
from a fix to itself (`SpeedState.ZeroSelfDistance`). Only the lemmas
that need them require them.

JavaScript truthiness is modelled exactly for the values the state can
hold:
- an error is shown when it is defined and not `""`;
- a speed is shown when it is defined and not `0`.
So a computed speed of exactly 0 km/h shows "...".

When a sensor error arrives, the code keeps `lastPosition`. The next fix
therefore measures against the fix from before the failure and does not
start over. The model follows the code here.

## Model

| member | source | states |
|---|---|---|
| SpeedState.Initial | src/App.tsx:7-9 | before the effect runs, error, speed and lastPosition are all undefined, no interval is installed and no watch is open |
| SpeedState.SpeedKmph | src/App.tsx:38 | metres per interval converted to km/h equals distance * 3600 / updateInterval; it is non-negative for a non-negative distance and zero exactly when the distance is zero |
| SpeedState.Display | src/App.tsx:67 | the heading shows the error exactly when it is truthy; otherwise the speed exactly when it is defined and non-zero; otherwise "..." |
| SpeedState.Mount | src/App.tsx:45-49 | no ensures of its own; specified by SpeedProperties.UnsupportedIsTerminal and SpeedProperties.SupportedSessionNeverUnsupported, and AppComponent.App.Mount is proved equal to it |
| SpeedState.FixStep | src/App.tsx:29-43 | no ensures of its own; specified by SpeedProperties.FirstFixOnlyStoresBaseline, SpeedProperties.FixWithBaselineSetsSpeed and SpeedProperties.LastPositionIsLatestFix |
| SpeedState.SensorErrorStep | src/App.tsx:54 | no ensures of its own; specified by SpeedProperties.SensorErrorKeepsTracking |
| SpeedState.TickStep | src/App.tsx:50-51 | no ensures of its own; specified by SpeedProperties.TickClearsError |
| SpeedState.Step | src/App.tsx:29-54 | no ensures of its own; it sends a fix, a sensor error or a tick to its handler; specified by the four per-event lemmas of SpeedProperties |
| SpeedState.Run | src/App.tsx:50-61 | no ensures of its own; specified by SpeedProperties.RunAppend and the sequence invariants (SpeedStaysNonNegative, NonFixEventsKeepTracking, SpeedNeedsTwoFixes, SensorErrorsOnlyPreserved) |
| SpeedState.Enabled | src/App.tsx:46-61 | no ensures of its own; only an installed interval ticks and only an opened watch delivers; specified by SpeedProperties.SupportedSessionStartsWithTick and SpeedProperties.UnsupportedIsTerminal |
| SpeedState.Feasible | src/App.tsx:46-61 | no ensures of its own; the event sequences the browser can deliver; specified by SpeedProperties.SupportedSessionStartsWithTick and SpeedProperties.UnsupportedIsTerminal |
| SpeedState.Session | src/App.tsx:45-62 | no ensures of its own; specified by SpeedProperties.SessionSpeedNonNegative, SpeedProperties.SessionSpeedNeedsTwoFixes, SpeedProperties.UnsupportedIsTerminal and SpeedProperties.SupportedSessionNeverUnsupported |
| SpeedState.Shows | src/App.tsx:67 | no ensures of its own; the heading of a state, specified by the ensures of SpeedState.Display |
| StaleClosure.StaleStep | src/App.tsx:29-53 | no ensures of its own; the subscribed handler, judging every fix against the captured lastPosition; specified by StaleClosure.StaleRunKeepsSpeed |
| StaleClosure.StaleRun | src/App.tsx:50-61 | no ensures of its own; events applied with the captured handler; specified by StaleClosure.StaleRunKeepsSpeed |
| StaleClosure.StaleSession | src/App.tsx:45-62 | no ensures of its own; a session as it runs under React; specified by StaleClosure.StaleSessionNeverShowsSpeed and StaleClosure.StaleClosureHidesSpeed |
| SpeedProperties.FirstFixOnlyStoresBaseline | src/App.tsx:31-42 | a fix with no previous fix only stores the fix: speed, error and everything else stay unchanged |
| SpeedProperties.FixWithBaselineSetsSpeed | src/App.tsx:31-42 | a fix with a previous fix sets speed to distance(last, new) * 3600 / updateInterval, clears the error and stores the new fix |
| SpeedProperties.SensorErrorKeepsTracking | src/App.tsx:54 | a sensor error sets "Unable to retrieve location." and changes nothing else, so speed and lastPosition are kept |
| SpeedProperties.TickClearsError | src/App.tsx:50-52 | a tick clears the error and opens one more watch; speed and lastPosition are unchanged |
| SpeedProperties.StandingStillShowsPlaceholder | src/App.tsx:38-39 | a fix at the same place as the previous one computes speed 0, under the assumption that the distance from a point to itself is 0; the heading shows that speed as "..." |
| SpeedProperties.MovingFixShowsSpeed | src/App.tsx:31-40 | a fix that is a non-zero distance from the previous one shows its speed on the heading |
| SpeedProperties.OneKilometrePerSecond | src/App.tsx:38 | 1000 m in a 1000 ms interval is 3600 km/h |
| SpeedProperties.RunAppend | src/App.tsx:50-61 | events are handled one at a time in delivery order: running a + b is running a and then b |
| SpeedProperties.LastPositionIsLatestFix | src/App.tsx:42 | after any history, a fix leaves exactly that fix as lastPosition |
| SpeedProperties.SpeedStaysNonNegative | src/App.tsx:38 | if distances are never negative and the interval is positive, no event sequence makes a non-negative speed negative |
| SpeedProperties.SessionSpeedNonNegative | src/App.tsx:38 | under the same conditions, every speed a session stores is non-negative |
| SpeedProperties.NonFixEventsKeepTracking | src/App.tsx:50-54 | any run of sensor errors and ticks leaves speed and lastPosition unchanged |
| SpeedProperties.FixAfterErrorsUsesRetainedBaseline | src/App.tsx:31-54 | after sensor errors and ticks, the next fix computes its speed against the fix before them and clears the error |
| SpeedProperties.SpeedNeedsTwoFixes | src/App.tsx:31-39 | from a state with no speed, a speed appears only after two fixes, or after one if a previous fix was already stored |
| SpeedProperties.SessionSpeedNeedsTwoFixes | src/App.tsx:31-39 | a session holds a speed only after at least two fixes |
| SpeedProperties.UnsupportedIsTerminal | src/App.tsx:46-49 | without geolocation no tick, fix or sensor error can follow, and the heading shows "Geolocation is not supported by this browser." for the whole session |
| SpeedProperties.SupportedSessionStartsWithTick | src/App.tsx:50-61 | with geolocation, fixes and errors come only through watches that ticks open, so the first event is a tick |
| SpeedProperties.SensorErrorsOnlyPreserved | src/App.tsx:50-54 | once the interval is installed, the error is always either undefined or the sensor message |
| SpeedProperties.SupportedSessionNeverUnsupported | src/App.tsx:45-61 | a supported session never holds the unsupported message and stays in the installed-interval phase |
| AppComponent.App.constructor | src/App.tsx:7-9 | the new component holds the given interval and distance, and its fields are the initial state |
| AppComponent.App.Mount | src/App.tsx:45-49 | without geolocation it sets the unsupported message and installs no interval; with geolocation it installs the interval; nothing else changes |
| AppComponent.App.OnFix | src/App.tsx:29-43 | with a previous fix, speed becomes distance * 3600 / updateInterval and the error is cleared; without one, speed and error are kept; the fix is always stored |
| AppComponent.App.OnSensorError | src/App.tsx:54 | error becomes "Unable to retrieve location."; speed, lastPosition and the watches are kept |
| AppComponent.App.OnTick | src/App.tsx:50-52 | error is cleared and one more watch is open; speed and lastPosition are kept |
| AppComponent.ErrorBetweenFixes | src/App.tsx:29-54 | in a mounted session with tick, fix, sensor error, tick, fix, the heading shows distance * 3600 / updateInterval of the two fixes, and it is a speed whenever they are apart |
| StaleClosure.StaleRunKeepsSpeed | src/App.tsx:29-31 | a handler whose captured lastPosition is undefined never changes the speed, whatever the events |
| StaleClosure.StaleSessionNeverShowsSpeed | src/App.tsx:45-62 | with the handler captured by the mount effect, a session never holds or shows a speed |
| StaleClosure.StaleClosureHidesSpeed | src/App.tsx:29-62 | for a tick and two fixes that are apart, the handler as written shows the speed, while the handler captured by the mount effect shows "..." |

## Left out

- The Haversine trigonometry (src/App.tsx:11-27) is not modelled. Its
  floating-point `sin`, `cos`, `atan2` and `sqrt` are replaced by an
  arbitrary distance function. Non-negativity is assumed where it is
  used, and the symmetry and zero-distance properties of the formula are
  not proved.
- The model computes with exact reals, not IEEE doubles. It has no
  rounding, NaN or Infinity, so a NaN speed (falsy in JavaScript) is not
  modelled.
- `toFixed(2)` formatting is not modelled. The heading is the value
  `Shown`, which is `ShowError`, `ShowSpeed` or `ShowPlaceholder`.
- The config module that supplies `updateInterval` is not part of this
  model. Its value is a parameter that must be positive.
- Timers and watches are not modelled as I/O. The world is any sequence
  of Fix, SensorError or Tick events, applied one at a time, and
  `Feasible` restricts it to what can be delivered.
- The real timing of ticks is left out, and so are the watch options
  (`enableHighAccuracy`, `maximumAge: 1000`, `timeout: 5000`).
- Watches are never cancelled, so several may deliver the same sensor
  reading. The model only counts them, and a duplicated delivery is just
  another event in the sequence.
- React's batching of `setState` calls is not modelled. The handlers
  update the fields one after another.
- The stale closure is left out of the main model. `SpeedState` and
  `AppComponent` read the current `lastPosition`, as the handler's text
  does. The effect of the stale closure is modelled separately in
  `StaleClosure`.
- `console.log` (src/App.tsx:30) and the JSX layout and styling
  (src/App.tsx:64-70) have no effect on the state and are left out.

## Findings

| source | as written | input that shows it | evidently intended | confidence | as-written member | corrected member |
|---|---|---|---|---|---|---|
| src/App.tsx:29-62 | the effect with an empty dependency list subscribes the first render's `updateSpeed`, whose `lastPosition` is undefined forever, so no fix ever has a baseline | a session with a tick, then a fix at p, then a fix at q, where distance(p, q) > 0: the heading stays "..." | each fix is measured against the fix before it, so the second fix shows distance * 3600 / updateInterval | high, not executed | StaleClosure.StaleClosureHidesSpeed (on StaleClosure.StaleStep; all sessions: StaleClosure.StaleSessionNeverShowsSpeed) | SpeedState.Step, with SpeedProperties.MovingFixShowsSpeed and SpeedProperties.FixAfterErrorsUsesRetainedBaseline |
