/** Bearer tokens, their lifetimes, and the token files as a reader of them sees them
    (internal/auth/token.go). Instants are nanoseconds since 1 January of year 1. */
module Tokens {

  const SECOND: int := 1_000_000_000
  const ACCESS_TTL: int := 3600 * SECOND
  const REFRESH_TTL: int := 30 * 24 * 3600 * SECOND

  /** Writing an instant as text drops everything below the second. */
  function Truncate(instant: int): int {
    instant - instant % SECOND
  }

  datatype Token = Token(value: string, expires: int) {
    predicate ValidAt(now: int) {
      now < expires
    }

    /** The token a reader gets back after this one was saved. */
    function Saved(): Token {
      Token(value, Truncate(expires))
    }
  }

  datatype Role = Access | Refresh

  function Ttl(role: Role): int {
    if role == Access then ACCESS_TTL else REFRESH_TTL
  }

  function Generate(role: Role, value: string, now: int): Token {
    Token(value, now + Ttl(role))
  }

  /** The daemon's in-memory tokens. */
  datatype Pair = Pair(access: Token, refresh: Token)

  /** A token file as LoadFromPath sees it: absent, present but not loadable, or loadable. */
  datatype File = Missing | Unreadable | Holds(token: Token) {
    predicate Carries(v: string) {
      Holds? && token.value == v
    }
  }

  /** The host's token directory: access.token, refresh.token and session.token. */
  datatype Disk = Disk(access: File, refresh: File, legacy: File)

  /** SaveToPath: a reported failure leaves the file as it was (module Publish). */
  function Save(file: File, t: Token, saved: bool): File {
    if saved then Holds(t.Saved()) else file
  }

  /** A token is a reading of itself or of its saved form. */
  predicate Mirrors(file: File, t: Token) {
    file == Holds(t) || file == Holds(t.Saved())
  }

  /** Outcome of the most recent save of each file. */
  datatype Saves = Saves(access: bool, refresh: bool, legacy: bool)

  /** authenticateAccess: the access check on one token pair. */
  predicate AcceptsAccess(mem: Pair, bearer: string, now: int) {
    bearer != "" && bearer == mem.access.value && mem.access.ValidAt(now)
  }

  /** The check at the head of handleTokenRefresh. */
  predicate AcceptsRefresh(mem: Pair, bearer: string, now: int) {
    bearer != "" && bearer == mem.refresh.value && mem.refresh.ValidAt(now)
  }
}
