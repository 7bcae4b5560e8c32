/** The tunable constants the modelled code depends on (crates/shared/src/config.rs). */
module Config {
  const FRAME_SIZE: nat := 960
  const SAMPLE_RATE: nat := 48000
  const RING_BUF_FRAMES: nat := 8
  const PLAYBACK_SAFETY_CAP: nat := FRAME_SIZE * 15
  const PLAYBACK_FADE_MS: nat := 5

  const PLAYOUT_OUTPUT_LOW_WATER: nat := 2 * FRAME_SIZE
  const PLAYOUT_TARGET_MIN_FRAMES: nat := 2
  const PLAYOUT_TARGET_MAX_FRAMES: nat := 10
  const PLAYOUT_HOLD_FRAMES: nat := 3
  const PLAYOUT_ACCEL_WINDOW_FRAMES: nat := 50
  const PLAYOUT_ACCEL_MIN_OBSERVED: nat := 10
  const PLAYOUT_ACCEL_FORCE_EXCESS: nat := 3
  const JITTER_BUF_MAX: nat := 15
  const JITTER_RESYNC_AFTER: nat := 3
  const MAX_SENDER_STREAMS: nat := 16
  const SENDER_STREAM_TTL_NS: nat := 10_000_000_000

  const VAD_HANGOVER_FRAMES: nat := 10
  const VAD_PREROLL_FRAMES: nat := 5
  const STATS_WINDOW_PACKETS: nat := 150

  const MAX_FRAME_SIZE: nat := 65536
  const TCP_READ_BUF: nat := 8192
  const MAX_PENDING_BUF: nat := 2 * MAX_FRAME_SIZE

  const RATE_LIMIT_IP_CMD_PER_SEC: real := 30.0
  const RATE_LIMIT_IP_CMD_BURST: real := 60.0
  const IP_LIMITER_IDLE_TTL_SECS: real := 300.0

  /** Duration of one Opus frame: 20 ms in nanoseconds. */
  const FRAME_NS: nat := 20_000_000
}

/** An optional value. */
module Wrappers {
  datatype Option<+T> = None | Some(value: T)
  {
    function GetOr(default: T): T {
      match this
      case Some(v) => v
      case None => default
    }
  }
}
