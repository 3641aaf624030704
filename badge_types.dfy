/** The values the badge-event sink passes around: the events and reports the
    remote API returns, and the small wrappers used for nullable values and
    failed calls. */
module BadgeTypes {

  /** A Java reference that may be null. */
  datatype Option<+T> = None | Some(value: T)

  /** Why a call of fetchBadgeReport ended without a report. */
  datatype FetchError =
    | InvalidArgument   // the "exactly one of cursor or startTime" check failed
    | Transport         // the token POST or the report GET failed (IOException)

  /** A fetch either yields a report or fails with a FetchError. */
  datatype Result<+T> = Success(value: T) | Failure(error: FetchError)

  /** An instant, as milliseconds since the epoch. */
  type Instant = int

  /** One rider check-in. The loop never looks inside an event: it only hands
      it to the sink. The location (two doubles) is not part of this model. */
  datatype BadgeEvent = BadgeEvent(
    riderId: string,
    at: string,
    stopName: string,
    vehicleName: string,
    rideName: string)

  /** One response of the badgeReport endpoint: a batch of events, in the
      server's order, and the server's next cursor, which may be null. */
  datatype BadgeReport = BadgeReport(badgeEvents: seq<BadgeEvent>, cursor: Option<string>)
}
