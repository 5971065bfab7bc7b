/** The error taxonomy of the engine and the two wrapper types every
    fallible operation returns. */
module Errors {

  /** Every error the rules engine reports (spelling as in the game's own code). */
  datatype Error =
    | InvaildBid
    | FullTable
    | InvaildParty
    | InvaildPlayer
    | RankParseError
    | SuitParseError
    | InvaildTeam

  datatype Option<+T> = None | Some(value: T)

  datatype Result<+T> = Ok(value: T) | Err(error: Error)
}
