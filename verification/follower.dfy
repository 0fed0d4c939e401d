/**
 The follower's reconciliation loop, one iteration at a time: from the
 previously observed status and the smoothed drift, the freshly fetched
 status, the clock offset, the clock readings and the local player position,
 decide which player commands to issue and what to remember for the next
 iteration.
 */
module Follower {
  import opened RustInt
  import opened Status
  import opened Offset

  /** Drift beyond this many milliseconds (in magnitude) forces a seek. */
  const Threshold: int := 20

  /** The player calls the loop can make, in the order it makes them. */
  datatype Command =
    | Load(track: string, playing: bool, positionMs: U32)
    | SeekAt(positionMs: U32, at: int)
    | Play
    | Pause

  /** What the loop carries between iterations. */
  datatype FollowerState = FollowerState(prev: SyncStatus, drift: int)

  /** The loop's state before its first iteration. */
  const Start: FollowerState := FollowerState(Initial, 0)

  /**
   The local clock as read during one iteration. Each `now_ms()` call is its
   own reading: `atInfer` for the remote position, `atProject` for projecting
   the local position, and `atCommand` for the instant passed to `seek_at`
   (at most one of the two `seek_at` calls runs in an iteration).
   */
  datatype Clock = Clock(atInfer: int, atProject: int, atCommand: int)

  /** The player's position and the local instant it was measured at. */
  datatype Position = Position(ms: U32, measuredAt: int)

  /** One iteration's result: the state to carry on and the commands issued. */
  datatype Step = Step(next: FollowerState, cmds: seq<Command>)

  /**
   The master's current position, inferred in the master's clock domain and
   cast to u32: congruent to `now - startTime + offset` modulo 2^32, and equal
   to it whenever it fits.
   */
  function RemotePosition(now: int, startTime: int, offset: int): (r: U32)
    ensures (now - startTime + offset - r) % U32_MODULUS == 0
    ensures 0 <= now - startTime + offset < U32_MODULUS ==> r == now - startTime + offset
  {
    AsU32(now - startTime + offset)
  }

  /** The local position projected to `now`, cast to u32. */
  function LocalPosition(p: Position, now: int): (r: U32)
    ensures (p.ms + now - p.measuredAt - r) % U32_MODULUS == 0
    ensures 0 <= p.ms + now - p.measuredAt < U32_MODULUS ==> r == p.ms + now - p.measuredAt
  {
    AsU32(p.ms + now - p.measuredAt)
  }

  /** Exponential smoothing: half the old drift plus half the new error, each halved toward zero. */
  function Smooth(drift: int, diff: int): int
  {
    Div(drift, 2) + Div(diff, 2)
  }

  /** The seek target `max(0, remote as i64) as u32`. */
  function SeekTarget(remote: U32): U32
  {
    AsU32(if 0 < remote then remote else 0)
  }

  /** The track-change branch: a different, non-empty track. */
  predicate TrackChanged(prev: SyncStatus, status: SyncStatus)
  {
    status.track != prev.track && status.track != ""
  }

  /**
   One iteration of the loop. The state to carry on always holds the fetched
   status; the drift only changes in the playing-to-playing branch, and there
   it ends up within the threshold.
   */
  function Tick(f: FollowerState, status: SyncStatus, offset: int, clock: Clock, local: Position): (s: Step)
    ensures s.next.prev == status
    ensures s.next.drift == f.drift || Abs(s.next.drift) <= Threshold
    ensures |s.cmds| <= 2
  {
    var remote := RemotePosition(clock.atInfer, status.startTime, offset);
    if TrackChanged(f.prev, status) then
      Step(FollowerState(status, f.drift), [Load(status.track, status.playing, remote)])
    else
      match (f.prev.playing, status.playing)
      case (false, true) =>
        Step(FollowerState(status, f.drift), [SeekAt(remote, clock.atCommand), Play])
      case (true, false) =>
        Step(FollowerState(status, f.drift), [Pause])
      case (true, true) =>
        var diff := LocalPosition(local, clock.atProject) - remote;
        var drift := Smooth(f.drift, diff);
        if Abs(drift) > Threshold then
          Step(FollowerState(status, 0), [SeekAt(SeekTarget(remote), clock.atCommand)])
        else
          Step(FollowerState(status, drift), [])
      case (false, false) =>
        Step(FollowerState(status, f.drift), [])
  }

  // ---------------------------------------------------------------------------
  // Which commands a tick issues

  predicate HasLoad(cmds: seq<Command>)
  {
    exists i :: 0 <= i < |cmds| && cmds[i].Load?
  }

  predicate HasSeek(cmds: seq<Command>)
  {
    exists i :: 0 <= i < |cmds| && cmds[i].SeekAt?
  }

  /** The drift the playing-to-playing branch computes before the threshold test. */
  function SmoothedDrift(f: FollowerState, status: SyncStatus, offset: int, clock: Clock, local: Position): int
  {
    var remote := RemotePosition(clock.atInfer, status.startTime, offset);
    Smooth(f.drift, LocalPosition(local, clock.atProject) - remote)
  }

  /**
   A load is issued exactly when the track changed to a non-empty one, and
   then it is the only command of the tick, carrying the fetched play flag and
   the inferred position.
   */
  lemma LoadIff(f: FollowerState, status: SyncStatus, offset: int, clock: Clock, local: Position)
    ensures var s := Tick(f, status, offset, clock, local);
      HasLoad(s.cmds) <==> TrackChanged(f.prev, status)
    ensures var s := Tick(f, status, offset, clock, local);
      TrackChanged(f.prev, status) ==>
        s.cmds == [Load(status.track, status.playing, RemotePosition(clock.atInfer, status.startTime, offset))]
  {
    var s := Tick(f, status, offset, clock, local);
    if TrackChanged(f.prev, status) {
      assert s.cmds[0].Load?;
    } else if HasLoad(s.cmds) {
      var i :| 0 <= i < |s.cmds| && s.cmds[i].Load?;
    }
  }

  /** An empty fetched track never loads, whatever was loaded before; the play-state table decides. */
  lemma EmptyTrackNeverLoads(f: FollowerState, status: SyncStatus, offset: int, clock: Clock, local: Position)
    requires status.track == ""
    ensures !HasLoad(Tick(f, status, offset, clock, local).cmds)
    ensures Tick(f, status, offset, clock, local) == Tick(f.(prev := f.prev.(track := "")), status, offset, clock, local)
  {
    LoadIff(f, status, offset, clock, local);
  }

  /**
   With the track unchanged, each play-state transition issues exactly its
   row of the table and nothing else.
   */
  lemma PlayStateTable(f: FollowerState, status: SyncStatus, offset: int, clock: Clock, local: Position)
    requires !TrackChanged(f.prev, status)
    ensures var s := Tick(f, status, offset, clock, local);
      var remote := RemotePosition(clock.atInfer, status.startTime, offset);
      && (!f.prev.playing && status.playing ==> s.cmds == [SeekAt(remote, clock.atCommand), Play])
      && (f.prev.playing && !status.playing ==> s.cmds == [Pause])
      && (!f.prev.playing && !status.playing ==> s.cmds == [])
      && (f.prev.playing && status.playing ==>
            s.cmds == [] || s.cmds == [SeekAt(remote, clock.atCommand)])
  {
    SeekTargetIsRemote(RemotePosition(clock.atInfer, status.startTime, offset));
  }

  /** `Play` is issued exactly on a stopped-to-playing transition of an unchanged track. */
  lemma PlayIff(f: FollowerState, status: SyncStatus, offset: int, clock: Clock, local: Position)
    ensures Play in Tick(f, status, offset, clock, local).cmds <==>
      !TrackChanged(f.prev, status) && !f.prev.playing && status.playing
  {
  }

  /** `Pause` is issued exactly on a playing-to-stopped transition of an unchanged track. */
  lemma PauseIff(f: FollowerState, status: SyncStatus, offset: int, clock: Clock, local: Position)
    ensures Pause in Tick(f, status, offset, clock, local).cmds <==>
      !TrackChanged(f.prev, status) && f.prev.playing && !status.playing
  {
  }

  /**
   A seek is issued exactly when the track is unchanged and either playback
   starts, or playback continues and the smoothed drift exceeds the threshold.
   */
  lemma SeekIff(f: FollowerState, status: SyncStatus, offset: int, clock: Clock, local: Position)
    ensures HasSeek(Tick(f, status, offset, clock, local).cmds) <==>
      && !TrackChanged(f.prev, status)
      && status.playing
      && (!f.prev.playing || Abs(SmoothedDrift(f, status, offset, clock, local)) > Threshold)
  {
    var s := Tick(f, status, offset, clock, local);
    if HasSeek(s.cmds) {
      var i :| 0 <= i < |s.cmds| && s.cmds[i].SeekAt?;
    }
    if !TrackChanged(f.prev, status) && status.playing {
      if !f.prev.playing {
        assert s.cmds[0].SeekAt?;
      } else if Abs(SmoothedDrift(f, status, offset, clock, local)) > Threshold {
        assert s.cmds[0].SeekAt?;
      }
    }
  }

  // ---------------------------------------------------------------------------
  // Drift correction

  /**
   In the playing-to-playing branch the stored drift is the smoothed drift
   when that is within the threshold, and is reset to 0 when a seek corrects
   it; either way it ends within the threshold.
   */
  lemma DriftCorrection(f: FollowerState, status: SyncStatus, offset: int, clock: Clock, local: Position)
    requires !TrackChanged(f.prev, status) && f.prev.playing && status.playing
    ensures var s := Tick(f, status, offset, clock, local);
      var d := SmoothedDrift(f, status, offset, clock, local);
      && Abs(s.next.drift) <= Threshold
      && (Abs(d) > Threshold ==> s.next.drift == 0 && |s.cmds| == 1 && s.cmds[0].SeekAt?)
      && (Abs(d) <= Threshold ==> s.next.drift == d && s.cmds == [])
  {
  }

  /** Only the playing-to-playing branch touches the drift; loads, starts, pauses and idle ticks keep it. */
  lemma DriftUnchangedOutsideSteadyPlay(f: FollowerState, status: SyncStatus, offset: int, clock: Clock, local: Position)
    requires TrackChanged(f.prev, status) || !f.prev.playing || !status.playing
    ensures Tick(f, status, offset, clock, local).next == FollowerState(status, f.drift)
  {
  }

  /** The drift is recomputed from the position error: half the old drift plus half the error, each rounded toward zero. */
  lemma SmoothHalves(drift: int, diff: int)
    ensures Abs(Smooth(drift, diff) - (drift + diff) / 2) <= 1
    ensures Smooth(drift, diff) == Smooth(diff, drift)
    ensures Smooth(-drift, -diff) == -Smooth(drift, diff)
  {
    HalfBounds(drift);
    HalfBounds(diff);
  }

  /** A steady error within the threshold never forces a seek once the drift is within it too. */
  lemma SmallErrorKeepsQuiet(drift: int, diff: int)
    requires Abs(drift) <= Threshold && Abs(diff) <= Threshold
    ensures Abs(Smooth(drift, diff)) <= Threshold
  {
    HalfBounds(drift);
    HalfBounds(diff);
  }

  /** An error of 62 ms or more is corrected in the very tick it is seen, from any drift within the threshold. */
  lemma LargeErrorForcesSeek(drift: int, diff: int)
    requires Abs(drift) <= Threshold && Abs(diff) >= 62
    ensures Abs(Smooth(drift, diff)) > Threshold
  {
    HalfBounds(drift);
    HalfBounds(diff);
  }

  /**
   The clamp in the seek target never changes anything: the remote position
   is already a u32, so a negative inferred position is not clamped to 0 but
   has wrapped before it reaches the clamp.
   */
  lemma SeekTargetIsRemote(remote: U32)
    ensures SeekTarget(remote) == remote
  {
  }

  /**
   When the inferred position is negative (the track has not started yet in
   the master's clock domain), the follower's seek target is near the top of
   the u32 range rather than 0.
   */
  lemma NegativeInferenceSeeksFar(now: int, startTime: int, offset: int)
    requires -U32_MODULUS <= now - startTime + offset < 0
    ensures SeekTarget(RemotePosition(now, startTime, offset)) == now - startTime + offset + U32_MODULUS
  {
    AsU32WrapsNegative(now - startTime + offset);
  }

  // ---------------------------------------------------------------------------
  // Iterating the loop over a finite sequence of inputs

  /**
   The inputs one iteration consumes: the fetched status, the `timeval` the
   NTP exchange filled in, the clock readings and the local player position.
   */
  datatype Input = Input(status: SyncStatus, ntp: TimeVal, clock: Clock, local: Position)

  /**
   Runs the loop over `ins` in order, converting each iteration's `timeval`
   to the millisecond offset and concatenating the commands. The drift
   never leaves the threshold once inside it, and after a non-empty run the
   remembered status is the last one fetched.
   */
  function Run(f: FollowerState, ins: seq<Input>): (r: Step)
    ensures Abs(f.drift) <= Threshold ==> Abs(r.next.drift) <= Threshold
    ensures |ins| > 0 ==> r.next.prev == ins[|ins| - 1].status
    ensures |ins| == 0 ==> r == Step(f, [])
    ensures |r.cmds| <= 2 * |ins|
    decreases |ins|
  {
    if |ins| == 0 then Step(f, [])
    else
      var s := Tick(f, ins[0].status, OffsetMs(ins[0].ntp), ins[0].clock, ins[0].local);
      var rest := Run(s.next, ins[1..]);
      Step(rest.next, s.cmds + rest.cmds)
  }

  /** From the loop's start, the drift is within the threshold after any number of iterations. */
  lemma DriftBoundedFromStart(ins: seq<Input>)
    ensures Abs(Run(Start, ins).next.drift) <= Threshold
  {
  }

  /** A run whose fetched statuses never name a track issues no load, whatever else they say. */
  lemma {:induction false} NoTrackNoLoad(f: FollowerState, ins: seq<Input>)
    requires forall i :: 0 <= i < |ins| ==> ins[i].status.track == ""
    ensures !HasLoad(Run(f, ins).cmds)
    decreases |ins|
  {
    if |ins| > 0 {
      var s := Tick(f, ins[0].status, OffsetMs(ins[0].ntp), ins[0].clock, ins[0].local);
      EmptyTrackNeverLoads(f, ins[0].status, OffsetMs(ins[0].ntp), ins[0].clock, ins[0].local);
      NoTrackNoLoad(s.next, ins[1..]);
      HasLoadConcat(s.cmds, Run(s.next, ins[1..]).cmds);
    }
  }

  /** A concatenation holds a load exactly when one of its parts does. */
  lemma HasLoadConcat(a: seq<Command>, b: seq<Command>)
    ensures HasLoad(a + b) <==> HasLoad(a) || HasLoad(b)
  {
    if HasLoad(a + b) {
      var i :| 0 <= i < |a + b| && (a + b)[i].Load?;
      if i < |a| {
        assert a[i].Load?;
      } else {
        assert b[i - |a|].Load?;
      }
    }
    if HasLoad(a) {
      var i :| 0 <= i < |a| && a[i].Load?;
      assert (a + b)[i].Load?;
    }
    if HasLoad(b) {
      var i :| 0 <= i < |b| && b[i].Load?;
      assert (a + b)[|a| + i].Load?;
    }
  }

  /**
   Feeding the same status twice in a row: the second tick never loads,
   starts or pauses; it can at most correct drift.
   */
  lemma RepeatedStatusOnlyCorrects(f: FollowerState, status: SyncStatus, in1: Input, in2: Input)
    requires in1.status == status && in2.status == status
    ensures var cmds := Run(Tick(f, status, OffsetMs(in1.ntp), in1.clock, in1.local).next, [in2]).cmds;
      forall i :: 0 <= i < |cmds| ==> cmds[i].SeekAt?
  {
    var g := Tick(f, status, OffsetMs(in1.ntp), in1.clock, in1.local).next;
    assert g.prev == status;
    assert !TrackChanged(g.prev, status);
    assert Run(g, [in2]).cmds == Tick(g, status, OffsetMs(in2.ntp), in2.clock, in2.local).cmds + Run(Tick(g, status, OffsetMs(in2.ntp), in2.clock, in2.local).next, []).cmds;
  }
}
