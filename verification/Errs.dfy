/** Named rejection codes, and the small result types the other modules share. */
module Errs {

  datatype Option<+T> = None | Some(value: T)

  /** The codes of internal/errs that the modelled code returns. */
  datatype Code =
    | BadRequest | NotFound | MethodNotAllowed | PayloadTooLarge | Unavailable | Internal
    | TypRejected | CallerRejected
    | MandateParseError | MandateRejectedSignature | MandateRejectedNotOwner | MandateRejectedAudience
    | MandateRejectedQuote | MandateRejectedScope | MandateRejectedAmount | MandateRejectedWindow
    | MandateRejectedConsumed | MandateRejectedExpired | MandateRejectedUnknownKey | DPoPRejectedKey | DPoPRejectedReplay | BookingRejectedOverlap
    | WindowClosed | SessionCutRevoked | SessionCutStale | SessionRejectedBooked | SessionRejectedToken
    | SessionRejectedCaller | CommandRejectedMandID | ClassRejected | ChainMismatch
    | AckMissing | AckParseError | RecordParseError
    | CommandParseError | CommandRejectedSignature | CommandRejectedNorad | CommandRejectedCounter
    | PolicyRefusedTier | PolicyRefusedCaller | PolicyRefusedUnverified | PolicyRefusedStation
    | PolicyRefusedClasses | PolicyRefusedAmount | PolicyRefusedDailyLimit | PolicyRefusedWindow
    | QuoteParseError | QuoteRejectedWindow | QuoteRejectedNorad
    | CardRejectedSignature | ReceiptRejectedSignature
    | PlanUnverified | PlanNoQuote | PlanBadPrice | PlanOverlap | PlanGoalMet | PlanExcluded | PlanUnknownHost

  /** A Go error: one that carries a code, or any other (a transport failure, a JSON error). */
  datatype Error = Named(code: Code) | Plain

  datatype Result<+T> = Ok(value: T) | Err(code: Code)
}
