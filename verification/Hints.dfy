/** The message that asks a pool for workers (internal/hint/hint.go). */
module Hints {

  /** Asks the pool listening on channel `pool` for up to `count` workers. */
  datatype Hint = Hint(source: string, pool: string, count: int)

  const SourceRedis := "redis"
  const SourceHTTP := "http"
}
