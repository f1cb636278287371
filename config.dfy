/** The configuration constants of src/lib/config/index.ts that the core reads. */
module Config {

  // SYSTEM_CONSTANTS
  const DEFAULT_ENERGY: real := 1.0
  const DEFAULT_RESONANCE: real := 0.5

  // SYNC_CONFIG
  const SYNC_BATCH_SIZE: nat := 50
  const INSTANCE_TIMEOUT: int := 30000
  const MAX_QUEUE_SIZE: nat := 1000

  // METRICS_CONFIG
  const UPDATE_INTERVAL: int := 5000
  const HISTORY_DURATION: int := 86400000
  const METRICS_BATCH_SIZE: real := 100.0
  const HIGH_LOAD: real := 0.8
  const MEDIUM_LOAD: real := 0.5
  const WEIGHT_MEMORY: real := 0.3
  const WEIGHT_CONNECTIONS: real := 0.7
  const WEIGHT_RESONANCE: real := 0.4
  const WEIGHT_ENERGY: real := 0.6
  const CACHE_SIZE: nat := 1000

  /** Milliseconds in an hour, the unit of the access-pattern bins. */
  const HOUR_MS: int := 3600000
}
