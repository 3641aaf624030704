/** fetchBadgeReport: one call asks for a fresh access token and then for one
    badge report, either after a cursor or in a time window from a start
    instant. The HTTP exchange itself is an input: the server's answers to the
    token POST and to the report GET. */
module Fetcher {
  import opened BadgeTypes

  /** The two nullable parameters of fetchBadgeReport. */
  datatype FetchArgs = FetchArgs(cursor: Option<string>, startTime: Option<Instant>)

  /** The precondition checked first thing by fetchBadgeReport:
      exactly one of cursor and startTime is non-null. */
  predicate ExactlyOne(args: FetchArgs) {
    args.cursor.Some? != args.startTime.Some?
  }

  /** The kind of report request and its parameter. The end of a window is the
      clock reading at the moment of the call and is not part of this model. */
  datatype Request = ByCursor(cursor: string) | ByWindow(startTime: Instant)

  /** An outbound HTTP call. */
  datatype NetCall =
    | TokenPost                                     // POST /v1/accessToken
    | ReportGet(request: Request, bearer: string)   // GET /v1/badgeReport, "Authorization: Bearer <bearer>"

  /** What the server does with the two calls of one fetch: the access token it
      returns, or None when the POST fails; the parsed report, or None when the
      GET fails or its body cannot be read as a report. */
  datatype Exchange = Exchange(token: Option<string>, report: Option<BadgeReport>)

  /** The observable part of one fetch: the calls it made, in order, and what
      it returned. */
  datatype Fetched = Fetched(calls: seq<NetCall>, result: Result<BadgeReport>)

  /** The request a well-formed argument pair selects. */
  function RequestFor(args: FetchArgs): (r: Request)
    requires ExactlyOne(args)
    ensures r.ByCursor? <==> args.cursor.Some?
    ensures r.ByCursor? ==> args.cursor == Some(r.cursor)
    ensures r.ByWindow? ==> args.startTime == Some(r.startTime)
  {
    if args.cursor.Some? then ByCursor(args.cursor.value) else ByWindow(args.startTime.value)
  }

  /** Specification of one fetch. */
  function Fetch(args: FetchArgs, exchange: Exchange): (f: Fetched)
    // both or neither set: rejected, and before any network call
    ensures f.result == Failure(InvalidArgument) <==> !ExactlyOne(args)
    ensures !ExactlyOne(args) ==> f.calls == []
    // otherwise a token is always requested first, and at most one report
    ensures ExactlyOne(args) ==> 1 <= |f.calls| <= 2 && f.calls[0] == TokenPost
    // and once a token is obtained the report GET is always issued
    ensures ExactlyOne(args) && exchange.token.Some? ==> |f.calls| == 2
    // a report request carries the token obtained by this same fetch
    ensures |f.calls| == 2 ==>
      exchange.token.Some? && f.calls[1] == ReportGet(RequestFor(args), exchange.token.value)
    // success exactly when both calls succeed, returning the server's report
    ensures f.result.Success? <==> ExactlyOne(args) && exchange.token.Some? && exchange.report.Some?
    ensures f.result.Success? ==> |f.calls| == 2 && f.result.value == exchange.report.value
    ensures f.result == Failure(Transport) <==>
      ExactlyOne(args) && (exchange.token.None? || exchange.report.None?)
  {
    if !ExactlyOne(args) then
      Fetched([], Failure(InvalidArgument))
    else if exchange.token.None? then
      Fetched([TokenPost], Failure(Transport))
    else
      var calls := [TokenPost, ReportGet(RequestFor(args), exchange.token.value)];
      if exchange.report.None? then Fetched(calls, Failure(Transport))
      else Fetched(calls, Success(exchange.report.value))
  }

  /** fetchBadgeReport, statement by statement: check the arguments, get a
      token, choose the query from the argument that is set, issue the GET. */
  method FetchBadgeReport(args: FetchArgs, exchange: Exchange)
    returns (calls: seq<NetCall>, result: Result<BadgeReport>)
    ensures Fetched(calls, result) == Fetch(args, exchange)
  {
    calls := [];
    if args.cursor.Some? == args.startTime.Some? {
      result := Failure(InvalidArgument);
      return;
    }

    calls := calls + [TokenPost];
    if exchange.token.None? {
      result := Failure(Transport);
      return;
    }
    var accessToken := exchange.token.value;

    var request: Request;
    if args.cursor.Some? {
      request := ByCursor(args.cursor.value);
    } else {
      request := ByWindow(args.startTime.value);
    }

    calls := calls + [ReportGet(request, accessToken)];
    if exchange.report.None? {
      result := Failure(Transport);
    } else {
      result := Success(exchange.report.value);
    }
  }
}
