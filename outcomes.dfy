/** Small value wrappers shared by the pairs-trading model. */
module Outcomes {

  /** An optional value: `None` stands for a missing (NaN) entry of a series. */
  datatype Option<+T> = None | Some(value: T)

  /** The error conditions the core raises instead of returning a value. */
  datatype Error =
    | EmptyUpperTriangle   // argmin over an empty upper triangle (fewer than two columns)
    | EmptyBacktest        // metrics asked of a backtest with no rows
    | EmptyWindow          // the live window holds no candle (no last spread to read)

  /** A value or the error that stopped its computation. */
  datatype Result<+T> = Ok(value: T) | Err(error: Error)
}
