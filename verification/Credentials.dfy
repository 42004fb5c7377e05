/** What the session and password flows share. */
module Credentials {
  import opened Identifiers

  datatype UserStatus = ACTIVE | SUSPENDED | DISABLED

  /** The service's clock and the database's clock at the time of a call. */
  datatype Clock = Clock(now: int, dbNow: int)

  /** A token about to be stored: its random selector and secret. The stored keyed hash is
      an injective image of the secret, so the secret stands for it. */
  datatype NewToken = NewToken(id: Uuid, secret: seq<int>)
}
