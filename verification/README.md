# spotsync synchronisation core, modelled in Dafny

spotsync keeps several Spotify players in step. One process is the
**master**: it serves its playback status (`SyncStatus`: playing flag, track
id, and the back-computed start time of the track in the master's clock).
Every other process is a **follower**. Every 500 ms a follower measures its
clock offset to the master and fetches that status. It infers the master's
current position, then drives its own player with load, seek, play and pause
commands. A smoothed drift estimate with a 20 ms threshold keeps it from
seeking on every jitter.

This project models that decision logic as pure functions over immutable data:

- `RustInt` (`rust_int.dfy`): the Rust integer semantics the loop relies on.
  `as u32` reduces modulo 2^32, `/` on signed integers truncates toward zero,
  and `abs` is written out.
- `Status` (`status.dfy`): `SyncStatus`, and the master's derivation of it
  from one atomic read of its player's state (`Publish`).
- `Offset` (`offset.dfy`): the conversion of the NTP `timeval` into the
  millisecond offset, exactly as written. The microsecond field is added
  without scaling, so each microsecond counts as one millisecond.
  `OffsetMsMatchesMillisecondsIff` proves that this agrees with the offset
  in whole milliseconds only when the microsecond field is zero.
- `Follower` (`follower.dfy`): one loop iteration, `Tick`. It takes the
  previous status and drift, the fetched status, the offset in milliseconds,
  the clock readings, and the local player position. It returns the next
  state and the ordered list of player commands. `Run` iterates `Tick` over
  a finite sequence of inputs. Each input carries the NTP `timeval`, which
  `Run` converts with `Offset.OffsetMs` before the tick.
- `Scenarios` (`scenarios.dfy`): master and follower together. Publication
  followed by inference gives back the master's position, whenever that
  position fits a u32. There are also worked single-tick
  scenarios.

Each of the four `now_ms()` calls in the loop is its own clock reading in
`Follower.Clock`:

- `atInfer` is the reading at line 74.
- `atProject` is the reading at line 91.
- `atCommand` is the reading at line 82 or line 101. Only one of those two
  runs in any tick.

Three behaviours of the code are modelled as written and proved as such:

- A negative inferred position (track not yet started in the master's clock
  domain) is not clamped. The `as u32` at line 74 wraps it first, so the
  `max(0, …)` at line 99 never changes anything (`SeekTargetIsRemote`). For
  an inferred position of at least -2^32 the seek target is that position
  plus 2^32, so a follower only slightly before the track start seeks near
  2^32 ms (`NegativeInferenceSeeksFar`).
- An error of 50 ms seen from a drift of 0 smooths to 25. That exceeds the
  20 ms threshold, so the code seeks and resets the drift in that very tick
  (`PlayingFollowerFiftyAhead`). The threshold test is strict (`> 20`), so
  a smoothed drift of exactly 20 is tolerated (`SteadyLeadSeeksOnSecondTick`).
- A failed status fetch panics in the code (`unwrap` at lines 121, 124 and
  126). It does not skip the tick. See "Left out".

## Model

| member | source | states |
|---|---|---|
| RustInt.AsU32 | src/main.rs:74 | `x as u32` is the unique value in [0, 2^32) congruent to `x` modulo 2^32, and is `x` itself when `x` fits |
| RustInt.AsU32IdentityIff | src/main.rs:99 | the cast to u32 leaves a value unchanged if and only if it already lies in [0, 2^32) |
| RustInt.AsU32WrapsNegative | src/main.rs:74 | a negative value above -2^32 casts to itself plus 2^32 |
| RustInt.Div | src/main.rs:94 | Rust's `/` by a positive divisor rounds toward zero: the remainder has the dividend's sign and is smaller than the divisor |
| RustInt.DivTruncatesTowardZero | src/main.rs:94 | `-5 / 2` is -2 in Rust, where Euclidean division gives -3 |
| RustInt.HalfBounds | src/main.rs:94 | halving with `/ 2` loses at most one half in magnitude and commutes with negation |
| Status.Publish | src/main.rs:133-136 | the published status is playing iff the player status is Play; its track is empty iff the player has no track, otherwise it is the player's track; measuring instant minus start time equals the reported position |
| Status.AdvancingPlaybackKeepsStart | src/main.rs:136 | while position and measuring instant advance together, every request publishes the same start time |
| Offset.OffsetMs | src/main.rs:65-69 | the offset is seconds times 1000 plus the microsecond field unscaled; its last three decimal digits are those of the microsecond field |
| Offset.OffsetMsMatchesMillisecondsIff | src/main.rs:68 | for a normalised timeval, the computed offset equals the true offset in whole milliseconds if and only if the microsecond field is zero |
| Offset.HalfSecondOffset | src/main.rs:68 | a half-second offset reads as 500000 ms rather than 500 ms |
| Follower.RemotePosition | src/main.rs:74 | the inferred remote position is congruent to `now - start_time + offset` modulo 2^32 and equals it whenever it fits a u32 |
| Follower.LocalPosition | src/main.rs:91 | the projected local position is congruent to `local_pos + now - measured_at` modulo 2^32 and equals it whenever it fits |
| Follower.Tick | src/main.rs:73-110 | every tick stores the fetched status; the drift is either kept or ends within the 20 ms threshold; at most two commands are issued |
| Follower.LoadIff | src/main.rs:76-78 | a load is issued iff the fetched track differs from the previous one and is non-empty, and then it is the only command, with the fetched play flag and the inferred position |
| Follower.EmptyTrackNeverLoads | src/main.rs:76-80 | an empty fetched track never loads, and the tick's outcome does not depend on the previous track |
| Follower.PlayStateTable | src/main.rs:80-107 | with the track unchanged: stopped to playing issues seek to the remote position then play; playing to stopped issues pause; stopped to stopped issues nothing; playing to playing issues nothing or one seek to the remote position |
| Follower.PlayIff | src/main.rs:81-84 | play is issued iff the track is unchanged and playback goes from stopped to playing |
| Follower.PauseIff | src/main.rs:85-87 | pause is issued iff the track is unchanged and playback goes from playing to stopped |
| Follower.SeekIff | src/main.rs:81-103 | a seek is issued iff the track is unchanged, the master plays, and either the follower was stopped or the smoothed drift exceeds 20 |
| Follower.DriftCorrection | src/main.rs:88-103 | in the playing-to-playing branch the drift ends within 20; above the threshold exactly one seek is issued and the drift becomes 0, otherwise no command and the smoothed drift is kept |
| Follower.DriftUnchangedOutsideSteadyPlay | src/main.rs:76-110 | load, play, pause and idle ticks leave the drift unchanged and store the fetched status |
| Follower.SmoothHalves | src/main.rs:94 | the smoothed drift is within 1 of the mean of old drift and new error, symmetric in them and odd under negation |
| Follower.SmallErrorKeepsQuiet | src/main.rs:93-98 | with drift and error both within 20, the smoothed drift stays within 20, so no seek |
| Follower.LargeErrorForcesSeek | src/main.rs:93-103 | from a drift within 20, an error of 62 ms or more pushes the smoothed drift past 20, so the same tick seeks |
| Follower.SeekTargetIsRemote | src/main.rs:99 | the clamped seek target equals the remote position |
| Follower.NegativeInferenceSeeksFar | src/main.rs:74-101 | an inferred position in [-2^32, 0) makes the seek target wrap to that position plus 2^32 instead of 0 |
| Follower.Run | src/main.rs:62-113 | iterating ticks, each with its `timeval` converted to the offset as at line 68, keeps the drift within 20 once it is within it; the remembered status is the last one fetched; at most two commands per tick |
| Follower.DriftBoundedFromStart | src/main.rs:54-61 | starting from the initial state (stopped, no track, drift 0) the drift stays within 20 after any number of ticks |
| Follower.NoTrackNoLoad | src/main.rs:76 | a run in which every fetched status has an empty track issues no load |
| Follower.RepeatedStatusOnlyCorrects | src/main.rs:76-110 | a status fetched twice in a row makes the second tick issue nothing but seeks |
| Scenarios.PublishThenInfer | src/main.rs:74 | a follower inferring from a published status, `elapsed` ms after the master's measuring instant in the master's clock, gets the master's position plus `elapsed`, provided that sum lies in [0, 2^32) |
| Scenarios.PublishThenInferSameInstant | src/main.rs:136 | with offset 0 and the follower's clock at the master's measuring instant, the inferred position is the master's position |
| Scenarios.FreshFollowerLoadsMasterTrack | src/main.rs:76-78 | a follower in its initial state, given a playing master's status, issues exactly one load of the master's track, playing, at the master's position |
| Scenarios.StoppedFollowerStarts | src/main.rs:81-84 | status (playing, "ab12", 1000) at follower time 2500 with offset 0 makes a stopped follower seek to 1500 at 2500 and then play |
| Scenarios.PlayingFollowerFiftyAhead | src/main.rs:88-103 | a playing follower 50 ms ahead smooths to 25, which exceeds 20, so it seeks to 1500 and resets the drift |
| Scenarios.SteadyLeadSeeksOnSecondTick | src/main.rs:88-110 | a steady 40 ms lead stays silent at drift 20 on the first tick and seeks on the second |
| Scenarios.SmoothingSteps | src/main.rs:94 | smoothing an error of 50 twice from 0 gives 25 then 37; an error of -5 from 0 gives -2 |

## Left out

- NTP exchange (`msntp_get_offset`, `msntp_start_server`, `msntp_serve` in libmsntp/src/lib.rs, built by libmsntp/build.rs): foreign C code whose sources are not part of this model. The `timeval` it fills in is an input of `Follower.Run`, converted by `Offset.OffsetMs`.
- Fetching the status (`get_sync_status`, lines 116-127): HTTP and JSON decoding. The decoded status is a tick input. A failed request or decode panics in the code and ends the loop thread; there is no error path to model.
- HTTP server and JSON encoding (lines 129-141): I/O. Only the status construction is modelled (`Status.Publish`).
- The `Mutex` around the master's player, the threads, the 500 ms sleep and the infinite loops (lines 112, 130-132, 143-151, 184-194): concurrency and process lifetime. One iteration is `Follower.Tick`, and finitely many in order are `Follower.Run`.
- Logging: the `debug!` calls at lines 63, 71, 77 and 97 and the `println!` at line 138 only write diagnostics and change no state, so they are not modelled.
- `main` (lines 153-195): argument parsing, session, credential and logging set-up.
- The player library: `SpotifyId::from_base16`/`to_base16`, `now_ms`, `Player::state`, and the player commands. Track ids are opaque strings. Player calls are emitted `Follower.Command` values. Clock readings and the local position are inputs.
- Follower.RemotePosition: i64 overflow of `now - start_time + offset` is not modelled. Such an overflow panics in a debug build. In a release build it wraps, which leaves the low 32 bits, and so the result, unchanged.
- Follower.LocalPosition: i64 overflow of `local_pos + now - measured_at` is not modelled, for the same reason.
- Status.Publish: i64 overflow of `position_measured_at - position_ms` is not modelled. Timestamps in milliseconds are far from the i64 bounds.
- Offset.OffsetMs: i64 overflow of `tv_sec * 1000` is not modelled, for the same reason.
- RustInt.Div: only positive divisors are modelled, because the loop divides only by 2.
