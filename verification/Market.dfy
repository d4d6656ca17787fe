/** Words the trading modules share. */
module Market {
  datatype Direction = CALL | PUT

  /** Why a position, or a slice of one, was sold. */
  datatype Reason =
    | PREMIUM_STOP | PREMIUM_TARGET | TRAIL_STOP | UNDERLYING_STOP | UNDERLYING_TARGET | TIME_STOP | SCALE_OUT
    | EOD_FLATTEN | SOCKET_LOSS | STAND_DOWN
    | HARD_FLATTEN_EOD | SESSION_END

  function MaxR(x: real, y: real): real {
    if x >= y then x else y
  }

  function MinR(x: real, y: real): real {
    if x <= y then x else y
  }
}
