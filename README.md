# Satellite interlink sampling, modelled in Dafny

This project models the computation at the heart of the satellite
interlink web application: given two satellites and a time range, find the
instants at which the two can talk to each other. The application walks a
time grid from the start instant to the end instant inclusive, advancing by
a fixed step (300 seconds from the HTTP handler). At each instant it asks
both satellites for their position. It keeps an instant when the Earth
does not block the link and the two are at most 1000 km apart. For each
kept instant it emits one record: the instant, both positions, the
distance and a `can_communicate` flag that is always set.

The Earth-obstruction test is a heuristic on altitude and distance. A link
counts as blocked only when one satellite is below 100 km and the two are
more than 2000 km apart. A pair that passes the 1000 km range test can
therefore never be blocked, so whether an instant is kept depends on the
distance alone. The model proves this.

Files:

- `satellite.dfy` (module `Satellite`): the position record, the function
  types for a position source and a distance, and the constants (1000 km
  range, 100 km altitude, 2000 km separation, 300 s default step).
- `obstruction.dfy` (module `Obstruction`): `check_earth_obstruction` and
  the loop's acceptance test.
- `time_grid.dfy` (module `TimeGrid`): the instants the loop visits, and
  their closed form.
- `interlink.dfy` (module `Interlink`): the record type, the specification
  of the result (`Windows`, the grid filtered by `Qualifying`), the loop
  itself as the method `CalculateInterlinkWindows`, and the lemmas about
  the result.

The orbit propagator (`Satellite.get_position`, built on `ephem`) and the
distance formula (`calculate_distance`, a haversine over floats) are
foreign numeric code. They become parameters: `pos1, pos2: int -> Position`
and `dist: (Position, Position) -> real`. Nothing is assumed about them
beyond being deterministic total functions, so every result holds for any
propagator and any distance formula. Times are whole seconds.

Despite the function's name, the code does not merge consecutive kept
samples into windows. It also:

- computes no per-window minimum, maximum or duration;
- has no closest-approach line-of-sight test against the Earth's radius;
- does not reject `start > end` (the result is just empty);
- has no ceiling on the number of samples;
- uses a fixed 1000 km range, not a parameter.

## Model

| member | source | states |
|---|---|---|
| Obstruction.CheckEarthObstruction | app.py:41-58 | the link is blocked exactly when one satellite is below 100 km and the distance exceeds 2000 km; so it is never blocked when both are at 100 km or higher, nor when the distance is at most 2000 km |
| Obstruction.CanLink | app.py:50-76 | the loop's test "not obstructed and within 1000 km" holds exactly when the distance is at most 1000 km: the obstruction branch never rejects an in-range pair |
| TimeGrid.Grid | app.py:63-85 | the visited instants: none when start > end; otherwise (end - start) / step + 1 of them, the i-th being start + i * step, all between start and end inclusive and strictly ascending |
| TimeGrid.GridContains | app.py:63-85 | every point start + k * step that is not after end is visited, so end itself is visited when it falls on the grid |
| TimeGrid.GridMembership | app.py:63-85 | an instant is visited exactly when it is start + k * step for some k >= 0 and is not after end |
| Interlink.Qualifying | app.py:65-85 | filtering the visited instants never yields more records than instants visited |
| Interlink.CalculateInterlinkWindows | app.py:60-87 | the loop returns exactly `Windows`, the result's definition (the grid filtered by `Qualifying`), and its step defaults to 300 seconds; every record has can_communicate set, distance at most 1000, the two satellites' positions at its timestamp and the distance between them; every timestamp is a grid point between start and end; timestamps strictly ascend |
| Interlink.SweepStep | app.py:65-85 | one iteration keeps the sample at the current instant exactly when the link is open then, and the rest of the result is that of the sweep one step later |
| Interlink.QualifyingMember | app.py:66-83 | a record is in the result exactly when it is the sample taken at a visited instant at which the link is unobstructed and within range |
| Interlink.QualifyingAscending | app.py:63-85 | when the visited instants strictly ascend, so do the timestamps of the kept records |
| Interlink.QualifyingComplete | app.py:65-83 | a visited instant has a record exactly when the link is open at it, and that record is the sample taken at it |
| Interlink.WindowsSound | app.py:60-87 | every record of the result is the communicable, in-range sample at its own timestamp, on the grid and within [start, end]; the timestamps strictly ascend, so none repeats |
| Interlink.WindowsLength | app.py:62-85 | start > end gives an empty result; otherwise the result has at most (end - start) / step + 1 records |
| Interlink.WindowsComplete | app.py:65-83 | a grid point not after end has a record if and only if it is unobstructed and within range, if and only if its distance is at most 1000 km; the record is then the sample at that point |
| Interlink.ObstructionNeverExcludes | app.py:50-76 | filtering by "unobstructed and within range" gives the same list as `WithinRange`, an independent reference filter on distance alone |

The loop `while current_date <= end_date` terminates because `end - current`
decreases by `step` on every iteration. This is the loop's `decreases`
clause in `CalculateInterlinkWindows`.

## Left out

- The Flask routes `index`, `calculate_interlink` and `validate_tle`
  (app.py:89-158): HTTP and JSON handling, ISO date parsing, the initial
  positions reported next to the result, and turning exceptions into
  `{success: False}`. They are transport, not computation.
- `Satellite` and `ephem.readtle` / `compute` (app.py:12-27): a foreign
  orbit propagator that also mutates its own object. Only its result is
  modelled, as the position functions `pos1` and `pos2`.
- The haversine body of `calculate_distance` (app.py:29-39): floating-point
  trigonometry. It is the parameter `dist`. The 111-km-per-degree check in
  test_app.py is a printed heuristic, not a property of the code.
- Floating point in general: positions and distances are exact reals, so
  NaN comparisons, rounding and a domain error in `asin` are not modelled.
- Timestamps are whole seconds. Python's `datetime` has microsecond
  resolution and raises `OverflowError` past its year range; neither is
  modelled, nor is the `isoformat()` string in each record.
- CalculateInterlinkWindows: requires `step > 0` unless `start > end`.
  With `start <= end` and a step of zero or less the Python function never
  returns a result. A zero step repeats the same instant forever (appending
  a record each time the link is open, until memory runs out). A negative
  step walks backwards until `datetime` raises `OverflowError` or the
  propagator fails. The only caller passes the default of 300 seconds,
  which the method's `step` parameter also defaults to. A fractional step
  is not modelled.
- test_app.py: a print-only smoke test with no assertions. Its comment
  expecting two satellites at 400 km to be obstructed does not match the
  code, which never blocks a link when both altitudes are at least 100 km.
- `app.run` and the other module-level setup: start-up only.
