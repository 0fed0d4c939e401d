/**
 The master and the follower together: what a follower infers from a status
 the master published, and worked single-tick scenarios.
 */
module Scenarios {
  import opened RustInt
  import opened Status
  import opened Follower
  import opened Offset

  /**
   Publication and inference are inverse: a follower whose clock, shifted by
   the offset, reads `elapsed` milliseconds after the master measured its
   position infers that position plus `elapsed`, provided it fits a u32.
   */
  lemma PublishThenInfer(st: PlayerState, now: int, offset: int, elapsed: int)
    requires now + offset == st.measuredAt + elapsed
    requires 0 <= st.positionMs + elapsed < U32_MODULUS
    ensures RemotePosition(now, Publish(st).startTime, offset) == st.positionMs + elapsed
  {
    assert now - Publish(st).startTime + offset == st.positionMs + elapsed;
  }

  /** With no offset and the follower reading the master's measuring instant, the inferred position is the master's. */
  lemma PublishThenInferSameInstant(st: PlayerState)
    ensures RemotePosition(st.measuredAt, Publish(st).startTime, 0) == st.positionMs
  {
    PublishThenInfer(st, st.measuredAt, 0, 0);
  }

  /**
   A follower that has never seen a track, given the status of a master
   playing track `t`, loads `t` in the playing state at the master's position.
   */
  lemma FreshFollowerLoadsMasterTrack(st: PlayerState, offset: int, clock: Clock, local: Position, elapsed: int)
    requires st.track.Some? && st.status == StatusPlay
    requires clock.atInfer + offset == st.measuredAt + elapsed
    requires 0 <= st.positionMs + elapsed < U32_MODULUS
    ensures Tick(Start, Publish(st), offset, clock, local).cmds ==
      [Load(st.track.value, true, st.positionMs + elapsed)]
  {
    PublishThenInfer(st, clock.atInfer, offset, elapsed);
  }

  /** A stopped follower of "ab12" sees the master playing since 1000 at its time 2500: seek to 1500, then play. */
  lemma StoppedFollowerStarts(local: Position)
    ensures Tick(FollowerState(SyncStatus(false, "ab12", 1000), 0),
                 SyncStatus(true, "ab12", 1000), 0, Clock(2500, 2500, 2500), local).cmds ==
      [SeekAt(1500, 2500), Play]
  {
  }

  /**
   The same status for a follower already playing whose local position
   projects to 1550: the error is 50, the smoothed drift 25 exceeds 20, so a
   seek to 1500 is issued and the drift is reset.
   */
  lemma PlayingFollowerFiftyAhead()
    ensures Tick(FollowerState(SyncStatus(true, "ab12", 1000), 0),
                 SyncStatus(true, "ab12", 1000), 0, Clock(2500, 2500, 2500), Position(1550, 2500)) ==
      Step(FollowerState(SyncStatus(true, "ab12", 1000), 0), [SeekAt(1500, 2500)])
  {
  }

  /**
   A steady 40 ms lead: the first tick smooths to 20 and stays silent, the
   second smooths to 30 and seeks, resetting the drift.
   */
  lemma SteadyLeadSeeksOnSecondTick()
    ensures
      var status := SyncStatus(true, "ab12", 1000);
      var f := FollowerState(status, 0);
      var in1 := Input(status, TimeVal(0, 0), Clock(2500, 2500, 2500), Position(1540, 2500));
      var in2 := Input(status, TimeVal(0, 0), Clock(3000, 3000, 3000), Position(2040, 3000));
      && Run(f, [in1]) == Step(FollowerState(status, 20), [])
      && Run(f, [in1, in2]) == Step(FollowerState(status, 0), [SeekAt(2000, 3000)])
  {
    var status := SyncStatus(true, "ab12", 1000);
    var f := FollowerState(status, 0);
    var in1 := Input(status, TimeVal(0, 0), Clock(2500, 2500, 2500), Position(1540, 2500));
    var in2 := Input(status, TimeVal(0, 0), Clock(3000, 3000, 3000), Position(2040, 3000));
    assert [in1, in2][1..] == [in2];
    assert OffsetMs(in1.ntp) == 0 && OffsetMs(in2.ntp) == 0;
    assert Tick(f, status, 0, in1.clock, in1.local) == Step(FollowerState(status, 20), []);
  }

  /** Repeated smoothing of the same error: 50 gives 25, then 37; a negative error halves toward zero. */
  lemma SmoothingSteps()
    ensures Smooth(0, 50) == 25
    ensures Smooth(Smooth(0, 50), 50) == 37
    ensures Smooth(0, -5) == -2
  {
  }
}
