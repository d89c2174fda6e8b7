/**
 * The interlink sweep: sample both satellites on the time grid and keep one
 * record per instant at which they can communicate. Qualifying instants are
 * not merged into intervals; the result is the filtered list of samples.
 */
module Interlink {
  import opened Satellite
  import opened Obstruction
  import opened TimeGrid

  /** One kept sample: the instant, both positions, their separation and
      the communication flag (always set on a kept sample). */
  datatype LinkRecord = LinkRecord(
    timestamp: int,
    sat1Pos: Position,
    sat2Pos: Position,
    distance: real,
    canCommunicate: bool)

  /** The record the sweep emits for instant `t`. */
  function SampleAt(pos1: PositionAt, pos2: PositionAt, dist: DistanceFn, t: int): LinkRecord
  {
    LinkRecord(t, pos1(t), pos2(t), dist(pos1(t), pos2(t)), true)
  }

  /** The link at instant `t` passes the sweep's filter. */
  predicate LinkOpenAt(pos1: PositionAt, pos2: PositionAt, dist: DistanceFn, t: int)
  {
    CanLink(pos1(t), pos2(t), dist)
  }

  /** A record describes the two satellites at its own timestamp. */
  predicate DescribesSatellitesAt(pos1: PositionAt, pos2: PositionAt, dist: DistanceFn, rec: LinkRecord)
  {
    && rec.sat1Pos == pos1(rec.timestamp)
    && rec.sat2Pos == pos2(rec.timestamp)
    && rec.distance == dist(rec.sat1Pos, rec.sat2Pos)
  }

  /** Some record in `rs` carries timestamp `t`. */
  predicate KeptAt(rs: seq<LinkRecord>, t: int)
  {
    exists i :: 0 <= i < |rs| && rs[i].timestamp == t
  }

  predicate TimestampsAscending(rs: seq<LinkRecord>)
  {
    forall i, j :: 0 <= i < j < |rs| ==> rs[i].timestamp < rs[j].timestamp
  }

  /** The records kept when the instants `ts` are visited in order. */
  function Qualifying(pos1: PositionAt, pos2: PositionAt, dist: DistanceFn, ts: seq<int>): (rs: seq<LinkRecord>)
    ensures |rs| <= |ts|
  {
    if ts == [] then []
    else
      var keep := if LinkOpenAt(pos1, pos2, dist, ts[0]) then [SampleAt(pos1, pos2, dist, ts[0])] else [];
      keep + Qualifying(pos1, pos2, dist, ts[1..])
  }

  /** What `calculate_interlink_windows` returns for a sweep. */
  function Windows(pos1: PositionAt, pos2: PositionAt, dist: DistanceFn, start: int, end: int, step: int): seq<LinkRecord>
    requires step > 0 || start > end
  {
    Qualifying(pos1, pos2, dist, Grid(start, end, step))
  }

  /** The sampling loop; the step defaults to five minutes, as in the source. */
  method CalculateInterlinkWindows(pos1: PositionAt, pos2: PositionAt, dist: DistanceFn,
                                   start: int, end: int, step: int := DefaultTimeStep)
    returns (windows: seq<LinkRecord>)
    requires step > 0 || start > end
    ensures windows == Windows(pos1, pos2, dist, start, end, step)
    ensures forall i :: 0 <= i < |windows| ==>
              && windows[i].canCommunicate
              && windows[i].distance <= MaxRangeKm
              && DescribesSatellitesAt(pos1, pos2, dist, windows[i])
              && start <= windows[i].timestamp <= end
              && exists k: nat :: GridPoint(start, step, k) == windows[i].timestamp
    ensures TimestampsAscending(windows)
  {
    ghost var all := Windows(pos1, pos2, dist, start, end, step);
    windows := [];
    var current := start;
    while current <= end
      invariant windows + Qualifying(pos1, pos2, dist, Grid(current, end, step)) == all
      decreases end - current
    {
      var p1 := pos1(current);
      var p2 := pos2(current);
      SweepStep(pos1, pos2, dist, current, end, step, windows);
      if !CheckEarthObstruction(p1, p2, dist) {
        var distance := dist(p1, p2);
        if distance <= MaxRangeKm {
          windows := windows + [LinkRecord(current, p1, p2, distance, true)];
        }
      }
      current := current + step;
    }
    WindowsSound(pos1, pos2, dist, start, end, step);
  }

  /** One turn of the sampling loop: the first grid instant is kept or
      dropped, and the sweep continues one step later. */
  lemma SweepStep(pos1: PositionAt, pos2: PositionAt, dist: DistanceFn, current: int, end: int, step: int,
                  before: seq<LinkRecord>)
    requires step > 0 && current <= end
    ensures before + Qualifying(pos1, pos2, dist, Grid(current, end, step))
            == (if LinkOpenAt(pos1, pos2, dist, current)
                then before + [SampleAt(pos1, pos2, dist, current)] else before)
               + Qualifying(pos1, pos2, dist, Grid(current + step, end, step))
  {
    var rest := Grid(current + step, end, step);
    assert Grid(current, end, step) == [current] + rest;
    assert ([current] + rest)[1..] == rest;
    var keep := if LinkOpenAt(pos1, pos2, dist, current) then [SampleAt(pos1, pos2, dist, current)] else [];
    var later := Qualifying(pos1, pos2, dist, rest);
    assert Qualifying(pos1, pos2, dist, Grid(current, end, step)) == keep + later;
    assert before + (keep + later) == (before + keep) + later;
  }

  /** A record is kept exactly when it is the sample taken at a visited
      instant at which the link was unobstructed and within range. */
  lemma {:induction false} QualifyingMember(pos1: PositionAt, pos2: PositionAt, dist: DistanceFn, ts: seq<int>, r: LinkRecord)
    ensures r in Qualifying(pos1, pos2, dist, ts) <==>
              && r.timestamp in ts
              && LinkOpenAt(pos1, pos2, dist, r.timestamp)
              && r == SampleAt(pos1, pos2, dist, r.timestamp)
  {
    if ts != [] {
      QualifyingMember(pos1, pos2, dist, ts[1..], r);
      assert ts == [ts[0]] + ts[1..];
      var keep := if LinkOpenAt(pos1, pos2, dist, ts[0]) then [SampleAt(pos1, pos2, dist, ts[0])] else [];
      assert Qualifying(pos1, pos2, dist, ts) == keep + Qualifying(pos1, pos2, dist, ts[1..]);
    }
  }

  /** Kept records follow the order of the visited instants. */
  lemma {:induction false} QualifyingAscending(pos1: PositionAt, pos2: PositionAt, dist: DistanceFn, ts: seq<int>)
    requires StrictlyAscending(ts)
    ensures TimestampsAscending(Qualifying(pos1, pos2, dist, ts))
  {
    if ts != [] {
      var tail := ts[1..];
      QualifyingAscending(pos1, pos2, dist, tail);
      var rest := Qualifying(pos1, pos2, dist, tail);
      forall i | 0 <= i < |rest| ensures ts[0] < rest[i].timestamp {
        QualifyingMember(pos1, pos2, dist, tail, rest[i]);
        var j :| 0 <= j < |tail| && tail[j] == rest[i].timestamp;
        assert tail[j] == ts[j + 1];
      }
    }
  }

  /** An instant that is visited is kept exactly when the link is open then,
      and the record kept for it is the sample taken at it. */
  lemma QualifyingComplete(pos1: PositionAt, pos2: PositionAt, dist: DistanceFn, ts: seq<int>, t: int)
    requires t in ts
    ensures KeptAt(Qualifying(pos1, pos2, dist, ts), t) <==> LinkOpenAt(pos1, pos2, dist, t)
    ensures LinkOpenAt(pos1, pos2, dist, t) ==>
              SampleAt(pos1, pos2, dist, t) in Qualifying(pos1, pos2, dist, ts)
  {
    var rs := Qualifying(pos1, pos2, dist, ts);
    var sample := SampleAt(pos1, pos2, dist, t);
    QualifyingMember(pos1, pos2, dist, ts, sample);
    if KeptAt(rs, t) {
      var i :| 0 <= i < |rs| && rs[i].timestamp == t;
      QualifyingMember(pos1, pos2, dist, ts, rs[i]);
    }
    if LinkOpenAt(pos1, pos2, dist, t) {
      var i :| 0 <= i < |rs| && rs[i] == sample;
      assert rs[i].timestamp == t;
    }
  }

  /** Every kept record is the in-range, communicable sample taken at its
      own timestamp; that timestamp is `start + k * step` for some `k >= 0`
      and is not after `end` (the grid includes `end` when it falls on it);
      and the timestamps are strictly ascending, hence free of duplicates. */
  lemma WindowsSound(pos1: PositionAt, pos2: PositionAt, dist: DistanceFn, start: int, end: int, step: int)
    requires step > 0 || start > end
    ensures forall i :: 0 <= i < |Windows(pos1, pos2, dist, start, end, step)| ==>
              var r := Windows(pos1, pos2, dist, start, end, step)[i];
              && r.canCommunicate
              && r.distance <= MaxRangeKm
              && DescribesSatellitesAt(pos1, pos2, dist, r)
              && start <= r.timestamp <= end
              && exists k: nat :: GridPoint(start, step, k) == r.timestamp
    ensures TimestampsAscending(Windows(pos1, pos2, dist, start, end, step))
  {
    var g := Grid(start, end, step);
    var rs := Windows(pos1, pos2, dist, start, end, step);
    QualifyingAscending(pos1, pos2, dist, g);
    forall i | 0 <= i < |rs|
      ensures rs[i].canCommunicate && rs[i].distance <= MaxRangeKm
      ensures DescribesSatellitesAt(pos1, pos2, dist, rs[i])
      ensures start <= rs[i].timestamp <= end
      ensures exists k: nat :: GridPoint(start, step, k) == rs[i].timestamp
    {
      var t := rs[i].timestamp;
      QualifyingMember(pos1, pos2, dist, g, rs[i]);
      assert CanLink(pos1(t), pos2(t), dist);
      var j :| 0 <= j < |g| && g[j] == t;
      assert GridPoint(start, step, j) == t;
    }
  }

  /** An empty range yields nothing; otherwise at most one record per grid
      point. */
  lemma WindowsLength(pos1: PositionAt, pos2: PositionAt, dist: DistanceFn, start: int, end: int, step: int)
    requires step > 0 || start > end
    ensures start > end ==> Windows(pos1, pos2, dist, start, end, step) == []
    ensures start <= end ==> |Windows(pos1, pos2, dist, start, end, step)| <= (end - start) / step + 1
  {
  }

  /** A grid point not after `end` is in the result exactly when the link
      is unobstructed and within range at it, and then as the sample taken
      at it. Because the obstruction test never fires within range, this is
      the same as being within range. */
  lemma WindowsComplete(pos1: PositionAt, pos2: PositionAt, dist: DistanceFn, start: int, end: int, step: int, t: int)
    requires step > 0
    requires t <= end && exists k: nat :: GridPoint(start, step, k) == t
    ensures KeptAt(Windows(pos1, pos2, dist, start, end, step), t)
            <==> !CheckEarthObstruction(pos1(t), pos2(t), dist) && dist(pos1(t), pos2(t)) <= MaxRangeKm
    ensures KeptAt(Windows(pos1, pos2, dist, start, end, step), t)
            <==> dist(pos1(t), pos2(t)) <= MaxRangeKm
    ensures dist(pos1(t), pos2(t)) <= MaxRangeKm ==>
              SampleAt(pos1, pos2, dist, t) in Windows(pos1, pos2, dist, start, end, step)
  {
    var k: nat :| GridPoint(start, step, k) == t;
    GridContains(start, end, step, k);
    QualifyingComplete(pos1, pos2, dist, Grid(start, end, step), t);
    assert LinkOpenAt(pos1, pos2, dist, t) <==> dist(pos1(t), pos2(t)) <= MaxRangeKm;
  }

  /** Reference filter that looks at the distance only. */
  function WithinRange(pos1: PositionAt, pos2: PositionAt, dist: DistanceFn, ts: seq<int>): seq<LinkRecord>
  {
    if ts == [] then []
    else
      var keep := if dist(pos1(ts[0]), pos2(ts[0])) <= MaxRangeKm then [SampleAt(pos1, pos2, dist, ts[0])] else [];
      keep + WithinRange(pos1, pos2, dist, ts[1..])
  }

  /** The obstruction branch never removes a sample: filtering by distance
      alone gives the same list. */
  lemma {:induction false} ObstructionNeverExcludes(pos1: PositionAt, pos2: PositionAt, dist: DistanceFn, ts: seq<int>)
    ensures Qualifying(pos1, pos2, dist, ts) == WithinRange(pos1, pos2, dist, ts)
  {
    if ts != [] {
      ObstructionNeverExcludes(pos1, pos2, dist, ts[1..]);
    }
  }
}
