/** watchForAndSendAlerts: the polling loop. It starts in window mode from the
    instant it was started, fetches one report per pass, hands every event of
    the batch to the sink (swallowing sink failures), backs off after an empty
    batch and otherwise adopts the report's cursor and fetches again at once.

    The real loop never ends by itself. Here the server's behaviour on each
    pass is an input `Round`, so a run covers a finite sequence of passes and
    ends when the rounds run out, a fetch fails, or the backoff sleep is
    interrupted. */
module Watcher {
  import opened BadgeTypes
  import opened Fetcher

  /** The loop's two local variables: the cursor (null until a non-empty batch
      is received) and the start time, fixed when the loop begins. */
  datatype State = State(cursor: Option<string>, startTime: Instant)

  function Initial(now: Instant): State {
    State(None, now)
  }

  /** The arguments the loop passes to fetchBadgeReport in a given state. */
  function ArgsFor(s: State): (args: FetchArgs)
    ensures ExactlyOne(args)
    ensures s.cursor.Some? ==> args == FetchArgs(s.cursor, None)
    ensures s.cursor.None? ==> args == FetchArgs(None, Some(s.startTime))
  {
    if s.cursor.Some? then FetchArgs(s.cursor, None) else FetchArgs(None, Some(s.startTime))
  }

  /** What a pass does with a report once it has been delivered. */
  datatype StepResult = StepResult(next: State, backoff: bool)

  /** The backoff rule: an empty batch keeps the state and asks for a backoff;
      a non-empty batch adopts the report's cursor, even a null one, and asks
      for none. */
  function Step(s: State, report: BadgeReport): (r: StepResult)
    ensures r.backoff <==> report.badgeEvents == []
    ensures r.next.startTime == s.startTime
    ensures r.backoff ==> ArgsFor(r.next) == ArgsFor(s)
    ensures !r.backoff && report.cursor.Some? ==> ArgsFor(r.next) == FetchArgs(report.cursor, None)
    ensures !r.backoff && report.cursor.None? ==> ArgsFor(r.next) == FetchArgs(None, Some(s.startTime))
  {
    if report.badgeEvents == [] then StepResult(s, true)
    else StepResult(s.(cursor := report.cursor), false)
  }

  /** One call of sink.accept: the event handed over, and whether the sink
      threw (the failure is logged and the loop goes on). */
  datatype SinkCall = SinkCall(event: BadgeEvent, failed: bool)

  /** Delivery of a batch: every event exactly once, in the batch's order. */
  function Deliver(events: seq<BadgeEvent>, fails: BadgeEvent -> bool): (calls: seq<SinkCall>)
    ensures |calls| == |events|
    ensures forall k :: 0 <= k < |calls| ==> calls[k].event == events[k]
    ensures forall k :: 0 <= k < |calls| ==> calls[k].failed == fails(events[k])
  {
    seq(|events|, k requires 0 <= k < |events| => SinkCall(events[k], fails(events[k])))
  }

  /** The events handed to the sink by a sequence of sink calls. */
  function Events(calls: seq<SinkCall>): (events: seq<BadgeEvent>)
    ensures |events| == |calls|
    ensures forall k :: 0 <= k < |calls| ==> events[k] == calls[k].event
  {
    seq(|calls|, k requires 0 <= k < |calls| => calls[k].event)
  }

  /** The server's behaviour during one pass: its answers to the fetch, and
      whether the backoff sleep of this pass (if any) is interrupted. */
  datatype Round = Round(exchange: Exchange, interrupted: bool)

  /** Why a run ended. */
  datatype Stop =
    | Exhausted                      // no more rounds given: the loop would go on
    | FetchFailed(error: FetchError) // fetchBadgeReport threw
    | Interrupted                    // the backoff sleep was interrupted

  /** What one pass of the loop did, in order: the arguments of its
      fetchBadgeReport call, the network calls of that fetch, the sink calls
      for its batch, and whether the full backoff sleep followed. */
  datatype Iteration = Iteration(args: FetchArgs, calls: seq<NetCall>, deliveries: seq<SinkCall>, slept: bool)

  datatype Outcome = Continue(next: State) | Halt(stop: Stop)

  datatype Pass = Pass(iteration: Iteration, outcome: Outcome)

  /** The batch a round's exchange yields; a failed fetch yields none. */
  function BatchOf(round: Round): seq<BadgeEvent> {
    if round.exchange.token.Some? && round.exchange.report.Some? then
      round.exchange.report.value.badgeEvents
    else []
  }

  /** True when the fetch of this round succeeds with an empty batch. */
  predicate ServedEmpty(round: Round) {
    round.exchange.token.Some? && round.exchange.report.Some? && BatchOf(round) == []
  }

  /** One pass of the loop from state s. */
  function Turn(s: State, round: Round, fails: BadgeEvent -> bool): (p: Pass)
    ensures p.iteration.args == ArgsFor(s) && ExactlyOne(p.iteration.args)
    ensures p.iteration.calls == Fetch(ArgsFor(s), round.exchange).calls
    ensures p.iteration.deliveries == Deliver(BatchOf(round), fails)
    ensures p.iteration.slept <==> ServedEmpty(round) && !round.interrupted
    ensures p.outcome == Halt(FetchFailed(Transport)) <==>
      round.exchange.token.None? || round.exchange.report.None?
    ensures p.outcome == Halt(Interrupted) <==> ServedEmpty(round) && round.interrupted
    ensures p.outcome.Continue? <==>
      round.exchange.token.Some? && round.exchange.report.Some? && !(ServedEmpty(round) && round.interrupted)
    ensures p.outcome.Halt? ==> !p.iteration.slept && p.outcome.stop != FetchFailed(InvalidArgument)
    ensures p.outcome.Continue? ==> p.outcome.next.startTime == s.startTime
    ensures p.outcome.Continue? && BatchOf(round) == [] ==> p.outcome.next == s
    ensures p.outcome.Continue? && BatchOf(round) != [] ==>
      p.outcome.next.cursor == round.exchange.report.value.cursor
  {
    var args := ArgsFor(s);
    var f := Fetch(args, round.exchange);
    match f.result
    case Failure(e) =>
      Pass(Iteration(args, f.calls, [], false), Halt(FetchFailed(e)))
    case Success(report) =>
      var deliveries := Deliver(report.badgeEvents, fails);
      var step := Step(s, report);
      if step.backoff && round.interrupted then
        Pass(Iteration(args, f.calls, deliveries, false), Halt(Interrupted))
      else
        Pass(Iteration(args, f.calls, deliveries, step.backoff), Continue(step.next))
  }

  /** What a run did: one record per pass, and why it ended. */
  datatype RunResult = RunResult(iterations: seq<Iteration>, stop: Stop)

  function Prepend(its: seq<Iteration>, r: RunResult): RunResult {
    RunResult(its + r.iterations, r.stop)
  }

  /** Specification of the loop from state s over the given rounds. */
  function Run(s: State, rounds: seq<Round>, fails: BadgeEvent -> bool): (r: RunResult)
    decreases |rounds|
  {
    if rounds == [] then RunResult([], Exhausted)
    else
      var p := Turn(s, rounds[0], fails);
      match p.outcome
      case Halt(stop) => RunResult([p.iteration], stop)
      case Continue(next) => Prepend([p.iteration], Run(next, rounds[1..], fails))
  }

  /** A run over at least one round is its first pass followed, unless that
      pass halts, by the run from the state the pass leaves. */
  lemma RunFirst(s: State, rounds: seq<Round>, fails: BadgeEvent -> bool)
    requires rounds != []
    ensures Turn(s, rounds[0], fails).outcome.Halt? ==>
      Run(s, rounds, fails) == RunResult([Turn(s, rounds[0], fails).iteration], Turn(s, rounds[0], fails).outcome.stop)
    ensures Turn(s, rounds[0], fails).outcome.Continue? ==>
      Run(s, rounds, fails) == Prepend([Turn(s, rounds[0], fails).iteration], Run(Turn(s, rounds[0], fails).outcome.next, rounds[1..], fails))
  {
  }

  /** When the first pass continues, pass k + 1 of the run is pass k of the
      run from the state that pass leaves, and both runs stop the same way. */
  lemma RunCons(s: State, rounds: seq<Round>, fails: BadgeEvent -> bool)
    requires rounds != [] && Turn(s, rounds[0], fails).outcome.Continue?
    ensures var its := Run(s, rounds, fails).iterations;
      var rest := Run(Turn(s, rounds[0], fails).outcome.next, rounds[1..], fails).iterations;
      |its| == |rest| + 1 && its[0] == Turn(s, rounds[0], fails).iteration &&
      forall k :: 0 <= k < |rest| ==> its[k + 1] == rest[k]
    ensures Run(s, rounds, fails).stop == Run(Turn(s, rounds[0], fails).outcome.next, rounds[1..], fails).stop
  {
    var p := Turn(s, rounds[0], fails);
    var its := Run(s, rounds, fails).iterations;
    var rest := Run(p.outcome.next, rounds[1..], fails).iterations;
    RunFirst(s, rounds, fails);
    assert its == [p.iteration] + rest;
    forall k | 0 <= k < |rest| ensures its[k + 1] == rest[k] {
    }
  }

  /** Passes recorded in two steps are the passes of both, in order. */
  lemma PrependTwice(a: seq<Iteration>, b: seq<Iteration>, r: RunResult)
    ensures Prepend(a, Prepend(b, r)) == Prepend(a + b, r)
  {
  }

  /** Delivering one more event of a batch appends one sink call. */
  lemma DeliverSnoc(events: seq<BadgeEvent>, k: nat, fails: BadgeEvent -> bool)
    requires k < |events|
    ensures Deliver(events[..k + 1], fails) == Deliver(events[..k], fails) + [SinkCall(events[k], fails(events[k]))]
  {
  }

  /** watchForAndSendAlerts, with `now` the clock reading taken when it starts
      and `fails` telling on which events the sink throws. */
  method WatchForAndSendAlerts(now: Instant, rounds: seq<Round>, fails: BadgeEvent -> bool)
    returns (iterations: seq<Iteration>, stop: Stop)
    ensures RunResult(iterations, stop) == Run(Initial(now), rounds, fails)
  {
    var cursor: Option<string> := None;
    var startTime := now;
    iterations := [];
    var i := 0;
    assert rounds[i..] == rounds;
    while i < |rounds|
      invariant 0 <= i <= |rounds|
      invariant startTime == now
      invariant Run(Initial(now), rounds, fails) == Prepend(iterations, Run(State(cursor, startTime), rounds[i..], fails))
    {
      ghost var s := State(cursor, startTime);
      ghost var rest := rounds[i..];
      assert rest[0] == rounds[i] && rest[1..] == rounds[i + 1..];
      RunFirst(s, rest, fails);
      ghost var p := Turn(s, rounds[i], fails);

      var args: FetchArgs;
      if cursor.Some? {
        args := FetchArgs(cursor, None);
      } else {
        args := FetchArgs(None, Some(startTime));
      }
      var calls, result := FetchBadgeReport(args, rounds[i].exchange);
      if result.Failure? {
        var it := Iteration(args, calls, [], false);
        assert p == Pass(it, Halt(FetchFailed(result.error)));
        iterations := iterations + [it];
        stop := FetchFailed(result.error);
        return;
      }
      var report := result.value;

      // hand every event to the sink; a failing sink call is logged and skipped over
      var deliveries: seq<SinkCall> := [];
      for k := 0 to |report.badgeEvents|
        invariant deliveries == Deliver(report.badgeEvents[..k], fails)
      {
        var event := report.badgeEvents[k];
        var failed := fails(event);
        DeliverSnoc(report.badgeEvents, k, fails);
        deliveries := deliveries + [SinkCall(event, failed)];
      }
      assert report.badgeEvents[..|report.badgeEvents|] == report.badgeEvents;

      if report.badgeEvents == [] {
        // back off; an interrupted sleep ends the loop
        if rounds[i].interrupted {
          var it := Iteration(args, calls, deliveries, false);
          assert p == Pass(it, Halt(Interrupted));
          iterations := iterations + [it];
          stop := Interrupted;
          return;
        }
        var it := Iteration(args, calls, deliveries, true);
        assert p == Pass(it, Continue(s));
        PrependTwice(iterations, [it], Run(s, rounds[i + 1..], fails));
        iterations := iterations + [it];
      } else {
        // fetch again at once, from the report's cursor
        var it := Iteration(args, calls, deliveries, false);
        assert p == Pass(it, Continue(State(report.cursor, startTime)));
        PrependTwice(iterations, [it], Run(State(report.cursor, startTime), rounds[i + 1..], fails));
        iterations := iterations + [it];
        cursor := report.cursor;
      }
      i := i + 1;
    }
    stop := Exhausted;
  }
}
