/**
 The playback status that the master publishes and the follower consumes
 (`SyncStatus`), and its derivation from the master player's state.
 */
module Status {
  import opened RustInt

  /**
   The published status: whether the master is playing, the hex id of its
   track ("" when it has none), and the master-clock instant in milliseconds
   at which the track would have started, so that `now - startTime` is the
   elapsed playback position.
   */
  datatype SyncStatus = SyncStatus(playing: bool, track: string, startTime: int)

  /** The state the follower starts from: stopped, no track, start time 0. */
  const Initial: SyncStatus := SyncStatus(false, "", 0)

  /** The player's play status as reported by the player library. */
  datatype PlayStatus = StatusStop | StatusPlay | StatusPause | StatusLoading

  /**
   A track id in the player's base16 rendering. The rendering itself belongs
   to the player library; all the model needs is that it is never empty.
   */
  type TrackId = s: string | s != [] witness "0"

  /**
   One atomic read of the master player's state: status, current track (if
   any), position in milliseconds and the local instant the position was
   measured at.
   */
  datatype PlayerState = PlayerState(
    status: PlayStatus,
    track: Option<TrackId>,
    positionMs: U32,
    measuredAt: int)

  datatype Option<T> = None | Some(value: T)

  /**
   The status served to a follower for one request. `playing` holds exactly
   when the player is in the play status, the track is empty exactly when the
   player has none, and the start time is back-computed so that the elapsed
   time since it, at the measuring instant, is the reported position.
   */
  function Publish(st: PlayerState): (r: SyncStatus)
    ensures r.playing <==> st.status == StatusPlay
    ensures r.track == "" <==> st.track.None?
    ensures st.track.Some? ==> r.track == st.track.value
    ensures st.measuredAt - r.startTime == st.positionMs
  {
    SyncStatus(
      st.status == StatusPlay,
      match st.track
      case Some(t) => t
      case None => "",
      st.measuredAt - st.positionMs)
  }

  /**
   While the master plays, position and measuring instant advance together,
   so every request publishes the same start time.
   */
  lemma AdvancingPlaybackKeepsStart(a: PlayerState, b: PlayerState, elapsed: int)
    requires b.measuredAt == a.measuredAt + elapsed
    requires b.positionMs == a.positionMs + elapsed
    ensures Publish(b).startTime == Publish(a).startTime
  {
  }
}
