/** What the polling loop guarantees, stated over every run: for every start
    state, every sequence of server behaviours and every pattern of sink
    failures. Iteration i of a run is the loop's i-th pass and consumes
    round i. */
module WatcherProperties {
  import opened BadgeTypes
  import opened Fetcher
  import opened Watcher

  /** The loop never trips the argument check of fetchBadgeReport: every pass
      passes exactly one of cursor and startTime, so every pass goes on to
      request a token, and no run ends with an invalid-argument error. */
  lemma {:induction false} NeverTripsArgumentCheck(s: State, rounds: seq<Round>, fails: BadgeEvent -> bool)
    ensures var r := Run(s, rounds, fails);
      r.stop != FetchFailed(InvalidArgument) &&
      forall i :: 0 <= i < |r.iterations| ==>
        ExactlyOne(r.iterations[i].args) && r.iterations[i].calls != [] && r.iterations[i].calls[0] == TokenPost
    decreases |rounds|
  {
    if rounds != [] {
      var p := Turn(s, rounds[0], fails);
      if p.outcome.Halt? {
        RunFirst(s, rounds, fails);
      } else {
        var its := Run(s, rounds, fails).iterations;
        var rest := Run(p.outcome.next, rounds[1..], fails).iterations;
        RunCons(s, rounds, fails);
        NeverTripsArgumentCheck(p.outcome.next, rounds[1..], fails);
        forall i | 1 <= i < |its|
          ensures ExactlyOne(its[i].args) && its[i].calls != [] && its[i].calls[0] == TokenPost
        {
          assert its[i] == rest[i - 1];
        }
      }
    }
  }

  /** Each pass consumes its own round, and every pass but the last continues:
      a run is never longer than its rounds, uses all of them when it ends by
      running out of rounds, and has at least one pass when it stops. */
  lemma {:induction false} RunShape(s: State, rounds: seq<Round>, fails: BadgeEvent -> bool)
    ensures var r := Run(s, rounds, fails);
      |r.iterations| <= |rounds| &&
      (r.stop == Exhausted ==> |r.iterations| == |rounds|) &&
      (r.stop != Exhausted ==> |r.iterations| >= 1)
    decreases |rounds|
  {
    if rounds != [] {
      var p := Turn(s, rounds[0], fails);
      if p.outcome.Halt? {
        RunFirst(s, rounds, fails);
      } else {
        RunCons(s, rounds, fails);
        RunShape(p.outcome.next, rounds[1..], fails);
      }
    }
  }

  /** A run that stops does so at its last pass, which is the pass of some
      state over the round of the same index. */
  lemma {:induction false} LastTurn(s: State, rounds: seq<Round>, fails: BadgeEvent -> bool) returns (t: State)
    requires Run(s, rounds, fails).stop != Exhausted
    ensures var r := Run(s, rounds, fails);
      1 <= |r.iterations| <= |rounds| &&
      Turn(t, rounds[|r.iterations| - 1], fails) == Pass(r.iterations[|r.iterations| - 1], Halt(r.stop))
    decreases |rounds|
  {
    var p := Turn(s, rounds[0], fails);
    if p.outcome.Halt? {
      RunFirst(s, rounds, fails);
      t := s;
    } else {
      var r := Run(s, rounds, fails);
      var rest := Run(p.outcome.next, rounds[1..], fails);
      RunCons(s, rounds, fails);
      t := LastTurn(p.outcome.next, rounds[1..], fails);
      var n := |rest.iterations|;
      assert rounds[n] == rounds[1..][n - 1];
      assert r.iterations[n] == rest.iterations[n - 1];
    }
  }

  /** A run ends on a transport error only at a pass whose token or report
      call failed, which delivered nothing and did not sleep; it ends on an
      interrupt only at a pass that received an empty batch and whose sleep
      was interrupted. */
  lemma HowRunsEnd(s: State, rounds: seq<Round>, fails: BadgeEvent -> bool)
    ensures var r := Run(s, rounds, fails);
      r.stop.FetchFailed? ==>
        1 <= |r.iterations| <= |rounds| && r.stop.error == Transport &&
        var last := rounds[|r.iterations| - 1];
        (last.exchange.token.None? || last.exchange.report.None?) &&
        r.iterations[|r.iterations| - 1].deliveries == [] && !r.iterations[|r.iterations| - 1].slept
    ensures var r := Run(s, rounds, fails);
      r.stop == Interrupted ==>
        1 <= |r.iterations| <= |rounds| &&
        ServedEmpty(rounds[|r.iterations| - 1]) && rounds[|r.iterations| - 1].interrupted &&
        !r.iterations[|r.iterations| - 1].slept
  {
    if Run(s, rounds, fails).stop != Exhausted {
      var t := LastTurn(s, rounds, fails);
    }
  }

  /** Conversely, a pass whose token or report call fails is the last pass
      of its run, and the run stops on a transport error; a pass that
      receives an empty batch and whose sleep is interrupted is the last pass,
      and the run stops on the interrupt. */
  lemma {:induction false} HaltingPassEndsRun(s: State, rounds: seq<Round>, fails: BadgeEvent -> bool)
    ensures var r := Run(s, rounds, fails);
      |r.iterations| <= |rounds| &&
      forall i :: 0 <= i < |r.iterations| && (rounds[i].exchange.token.None? || rounds[i].exchange.report.None?) ==>
        i == |r.iterations| - 1 && r.stop == FetchFailed(Transport)
    ensures var r := Run(s, rounds, fails);
      |r.iterations| <= |rounds| &&
      forall i :: 0 <= i < |r.iterations| && ServedEmpty(rounds[i]) && rounds[i].interrupted ==>
        i == |r.iterations| - 1 && r.stop == Interrupted
    decreases |rounds|
  {
    if rounds != [] {
      var p := Turn(s, rounds[0], fails);
      if p.outcome.Halt? {
        RunFirst(s, rounds, fails);
      } else {
        var its := Run(s, rounds, fails).iterations;
        var rest := Run(p.outcome.next, rounds[1..], fails).iterations;
        RunCons(s, rounds, fails);
        HaltingPassEndsRun(p.outcome.next, rounds[1..], fails);
        forall i | 1 <= i < |its|
          ensures rounds[i].exchange.token.None? || rounds[i].exchange.report.None? ==>
            i == |its| - 1 && Run(s, rounds, fails).stop == FetchFailed(Transport)
          ensures ServedEmpty(rounds[i]) && rounds[i].interrupted ==>
            i == |its| - 1 && Run(s, rounds, fails).stop == Interrupted
        {
          assert rounds[i] == rounds[1..][i - 1];
        }
      }
    }
  }

  /** A run that has stopped on a failed fetch or an interrupted sleep is
      final: whatever the server would do afterwards, no further fetch and no
      further delivery happens. */
  lemma {:induction false} StopIsFinal(s: State, rounds: seq<Round>, more: seq<Round>, fails: BadgeEvent -> bool)
    requires Run(s, rounds, fails).stop != Exhausted
    ensures Run(s, rounds + more, fails) == Run(s, rounds, fails)
    decreases |rounds|
  {
    assert rounds != [];
    var longer := rounds + more;
    assert longer[0] == rounds[0];
    var p := Turn(s, rounds[0], fails);
    RunFirst(s, rounds, fails);
    RunFirst(s, longer, fails);
    if p.outcome.Continue? {
      assert longer[1..] == rounds[1..] + more;
      StopIsFinal(p.outcome.next, rounds[1..], more, fails);
      calc {
        Run(s, longer, fails);
        Prepend([p.iteration], Run(p.outcome.next, rounds[1..] + more, fails));
        Prepend([p.iteration], Run(p.outcome.next, rounds[1..], fails));
        Run(s, rounds, fails);
      }
    }
  }

  /** Every pass hands the sink every event of its batch exactly once, in the
      batch's order, whether or not the sink throws on some of them. */
  lemma {:induction false} BatchesDeliveredInOrder(s: State, rounds: seq<Round>, fails: BadgeEvent -> bool)
    ensures var r := Run(s, rounds, fails);
      |r.iterations| <= |rounds| &&
      forall i :: 0 <= i < |r.iterations| ==> r.iterations[i].deliveries == Deliver(BatchOf(rounds[i]), fails)
    decreases |rounds|
  {
    if rounds != [] {
      var p := Turn(s, rounds[0], fails);
      if p.outcome.Halt? {
        RunFirst(s, rounds, fails);
      } else {
        var its := Run(s, rounds, fails).iterations;
        var rest := Run(p.outcome.next, rounds[1..], fails).iterations;
        RunCons(s, rounds, fails);
        BatchesDeliveredInOrder(p.outcome.next, rounds[1..], fails);
        forall i | 1 <= i < |its|
          ensures its[i].deliveries == Deliver(BatchOf(rounds[i]), fails)
        {
          assert its[i] == rest[i - 1] && rounds[i] == rounds[1..][i - 1];
        }
      }
    }
  }

  /** The events a sequence of passes hands to the sink, in order. */
  function AllDelivered(its: seq<Iteration>): seq<BadgeEvent> {
    if its == [] then [] else Events(its[0].deliveries) + AllDelivered(its[1..])
  }

  /** The batches of a sequence of rounds, concatenated in fetch order. */
  function Batches(rounds: seq<Round>): seq<BadgeEvent> {
    if rounds == [] then [] else BatchOf(rounds[0]) + Batches(rounds[1..])
  }

  /** The sink is handed exactly the batch, whatever it throws. */
  lemma EventsOfDeliver(events: seq<BadgeEvent>, fails: BadgeEvent -> bool)
    ensures Events(Deliver(events, fails)) == events
  {
  }

  /** Batches are processed strictly one after the other: over a whole run,
      the sink sees the concatenation of the batches of the rounds it
      consumed, in fetch order. */
  lemma {:induction false} SinkSeesConcatenatedBatches(s: State, rounds: seq<Round>, fails: BadgeEvent -> bool)
    ensures var r := Run(s, rounds, fails);
      |r.iterations| <= |rounds| && AllDelivered(r.iterations) == Batches(rounds[..|r.iterations|])
    decreases |rounds|
  {
    if rounds != [] {
      RunFirst(s, rounds, fails);
      var p := Turn(s, rounds[0], fails);
      var its := Run(s, rounds, fails).iterations;
      EventsOfDeliver(BatchOf(rounds[0]), fails);
      assert its[0] == p.iteration;
      if p.outcome.Halt? {
        assert its[1..] == [];
        assert rounds[..1][1..] == [];
      } else {
        var rest := Run(p.outcome.next, rounds[1..], fails).iterations;
        SinkSeesConcatenatedBatches(p.outcome.next, rounds[1..], fails);
        assert its[1..] == rest;
        assert rounds[..|its|][0] == rounds[0];
        assert rounds[..|its|][1..] == rounds[1..][..|rest|];
      }
    }
  }

  /** The first pass of a run fetches with the arguments its state selects. */
  lemma FirstArgs(s: State, rounds: seq<Round>, fails: BadgeEvent -> bool)
    ensures |Run(s, rounds, fails).iterations| > 0 ==> Run(s, rounds, fails).iterations[0].args == ArgsFor(s)
  {
    if rounds != [] {
      RunFirst(s, rounds, fails);
    }
  }

  /** After an empty batch the loop sleeps (unless the sleep is interrupted,
      which ends the run), keeps its state, and issues the next fetch with
      exactly the same arguments: the same cursor, or the same start time. */
  lemma {:induction false} EmptyBatchBacksOffAndRepeats(s: State, rounds: seq<Round>, fails: BadgeEvent -> bool)
    ensures var r := Run(s, rounds, fails);
      |r.iterations| <= |rounds| &&
      forall i :: 0 <= i < |r.iterations| && ServedEmpty(rounds[i]) ==>
        r.iterations[i].slept == !rounds[i].interrupted &&
        (i + 1 < |r.iterations| ==> r.iterations[i + 1].args == r.iterations[i].args)
    decreases |rounds|
  {
    if rounds != [] {
      var p := Turn(s, rounds[0], fails);
      if p.outcome.Halt? {
        RunFirst(s, rounds, fails);
      } else {
        var its := Run(s, rounds, fails).iterations;
        var rest := Run(p.outcome.next, rounds[1..], fails).iterations;
        RunCons(s, rounds, fails);
        FirstArgs(p.outcome.next, rounds[1..], fails);
        EmptyBatchBacksOffAndRepeats(p.outcome.next, rounds[1..], fails);
        forall i | 0 <= i < |its| && ServedEmpty(rounds[i])
          ensures its[i].slept == !rounds[i].interrupted
          ensures i + 1 < |its| ==> its[i + 1].args == its[i].args
        {
          if i + 1 < |its| {
            assert its[i + 1] == rest[i];
          }
          if i > 0 {
            assert its[i] == rest[i - 1] && rounds[i] == rounds[1..][i - 1];
          }
        }
      }
    }
  }

  /** After a non-empty batch there is no backoff, and the next fetch uses the
      report's cursor: in cursor mode with exactly that cursor when it is
      non-null, and back in window mode from the original start time when the
      server sent a null cursor. */
  lemma {:induction false} NonEmptyBatchAdvancesCursor(s: State, rounds: seq<Round>, fails: BadgeEvent -> bool)
    ensures var r := Run(s, rounds, fails);
      |r.iterations| <= |rounds| &&
      forall i :: 0 <= i < |r.iterations| && BatchOf(rounds[i]) != [] ==>
        !r.iterations[i].slept &&
        (i + 1 < |r.iterations| ==>
          var cursor := rounds[i].exchange.report.value.cursor;
          r.iterations[i + 1].args ==
            if cursor.Some? then FetchArgs(cursor, None) else FetchArgs(None, Some(s.startTime)))
    decreases |rounds|
  {
    if rounds != [] {
      var p := Turn(s, rounds[0], fails);
      if p.outcome.Halt? {
        RunFirst(s, rounds, fails);
      } else {
        var its := Run(s, rounds, fails).iterations;
        var rest := Run(p.outcome.next, rounds[1..], fails).iterations;
        RunCons(s, rounds, fails);
        FirstArgs(p.outcome.next, rounds[1..], fails);
        NonEmptyBatchAdvancesCursor(p.outcome.next, rounds[1..], fails);
        forall i | 0 <= i < |its| && BatchOf(rounds[i]) != []
          ensures !its[i].slept
          ensures i + 1 < |its| ==>
            var cursor := rounds[i].exchange.report.value.cursor;
            its[i + 1].args == if cursor.Some? then FetchArgs(cursor, None) else FetchArgs(None, Some(s.startTime))
        {
          if i + 1 < |its| {
            assert its[i + 1] == rest[i];
          }
          if i > 0 {
            assert its[i] == rest[i - 1] && rounds[i] == rounds[1..][i - 1];
          }
        }
      }
    }
  }

  /** The start time is fixed once: every window-mode fetch of a run asks for
      the window from the start time the run began with. */
  lemma {:induction false} StartTimeNeverChanges(s: State, rounds: seq<Round>, fails: BadgeEvent -> bool)
    ensures var r := Run(s, rounds, fails);
      forall i :: 0 <= i < |r.iterations| && r.iterations[i].args.startTime.Some? ==>
        r.iterations[i].args == FetchArgs(None, Some(s.startTime))
    decreases |rounds|
  {
    if rounds != [] {
      var p := Turn(s, rounds[0], fails);
      if p.outcome.Halt? {
        RunFirst(s, rounds, fails);
      } else {
        var its := Run(s, rounds, fails).iterations;
        var rest := Run(p.outcome.next, rounds[1..], fails).iterations;
        RunCons(s, rounds, fails);
        StartTimeNeverChanges(p.outcome.next, rounds[1..], fails);
        forall i | 1 <= i < |its| && its[i].args.startTime.Some?
          ensures its[i].args == FetchArgs(None, Some(s.startTime))
        {
          assert its[i] == rest[i - 1];
        }
      }
    }
  }

  /** The first fetch of the loop is a window fetch from the instant the loop
      started. */
  lemma FirstFetchIsWindowed(now: Instant, rounds: seq<Round>, fails: BadgeEvent -> bool)
    requires rounds != []
    ensures var r := Run(Initial(now), rounds, fails);
      |r.iterations| >= 1 && r.iterations[0].args == FetchArgs(None, Some(now))
  {
  }

  /** The server attaches a non-null cursor to every non-empty report. */
  predicate CursorsWithEvents(rounds: seq<Round>) {
    forall i :: 0 <= i < |rounds| && BatchOf(rounds[i]) != [] ==>
      rounds[i].exchange.report.value.cursor.Some?
  }

  /** The condition carries over to the rounds after the first. */
  lemma CursorsWithEventsTail(rounds: seq<Round>)
    requires rounds != [] && CursorsWithEvents(rounds)
    ensures CursorsWithEvents(rounds[1..])
  {
    forall i | 0 <= i < |rounds[1..]| && BatchOf(rounds[1..][i]) != []
      ensures rounds[1..][i].exchange.report.value.cursor.Some?
    {
      assert rounds[1..][i] == rounds[i + 1];
    }
  }

  /** Provided the server attaches a cursor to every non-empty report, the
      loop never falls back to window mode: once pass i has received a
      non-empty batch or fetched in cursor mode, every later pass fetches in
      cursor mode. */
  lemma {:induction false} CursorModeIsPermanent(s: State, rounds: seq<Round>, fails: BadgeEvent -> bool, i: nat)
    requires CursorsWithEvents(rounds)
    requires i < |Run(s, rounds, fails).iterations| && i < |rounds|
    requires BatchOf(rounds[i]) != [] || Run(s, rounds, fails).iterations[i].args.cursor.Some?
    ensures forall j :: i < j < |Run(s, rounds, fails).iterations| ==>
      Run(s, rounds, fails).iterations[j].args.cursor.Some?
    decreases i
  {
    if i == 0 {
      FirstArgs(s, rounds, fails);
      CursorKeptAfterFirstPass(s, rounds, fails);
    } else {
      var p := Turn(s, rounds[0], fails);
      var next := p.outcome.next;
      var its := Run(s, rounds, fails).iterations;
      var rest := Run(next, rounds[1..], fails).iterations;
      RunCons(s, rounds, fails);
      CursorsWithEventsTail(rounds);
      // the same pass, one pass into the run from the next state
      assert rounds[i] == rounds[1..][i - 1];
      assert its[i] == rest[i - 1];
      CursorModeIsPermanent(next, rounds[1..], fails, i - 1);
      forall j | i < j < |its| ensures its[j].args.cursor.Some? {
        assert its[j] == rest[j - 1];
      }
    }
  }

  /** A cursor held or received by the first pass is kept by all later ones. */
  lemma CursorKeptAfterFirstPass(s: State, rounds: seq<Round>, fails: BadgeEvent -> bool)
    requires CursorsWithEvents(rounds) && rounds != []
    requires BatchOf(rounds[0]) != [] || s.cursor.Some?
    ensures forall j :: 0 < j < |Run(s, rounds, fails).iterations| ==>
      Run(s, rounds, fails).iterations[j].args.cursor.Some?
  {
    var p := Turn(s, rounds[0], fails);
    if p.outcome.Halt? {
      RunFirst(s, rounds, fails);
    } else {
      var next := p.outcome.next;
      var its := Run(s, rounds, fails).iterations;
      var rest := Run(next, rounds[1..], fails).iterations;
      RunCons(s, rounds, fails);
      CursorsWithEventsTail(rounds);
      assert BatchOf(rounds[0]) != [] ==> rounds[0].exchange.report.value.cursor.Some?;
      assert next.cursor.Some?;
      StaysInCursorMode(next, rounds[1..], fails);
      forall j | 0 < j < |its| ensures its[j].args.cursor.Some? {
        assert its[j] == rest[j - 1];
      }
    }
  }

  /** From a state that holds a cursor, with cursors on every non-empty
      report, every pass fetches in cursor mode. */
  lemma {:induction false} StaysInCursorMode(s: State, rounds: seq<Round>, fails: BadgeEvent -> bool)
    requires s.cursor.Some?
    requires CursorsWithEvents(rounds)
    ensures var r := Run(s, rounds, fails);
      forall j :: 0 <= j < |r.iterations| ==> r.iterations[j].args.cursor.Some?
    decreases |rounds|
  {
    if rounds != [] {
      var p := Turn(s, rounds[0], fails);
      if p.outcome.Halt? {
        RunFirst(s, rounds, fails);
      } else {
        var its := Run(s, rounds, fails).iterations;
        var rest := Run(p.outcome.next, rounds[1..], fails).iterations;
        RunCons(s, rounds, fails);
        CursorsWithEventsTail(rounds);
        StaysInCursorMode(p.outcome.next, rounds[1..], fails);
        forall j | 1 <= j < |its| ensures its[j].args.cursor.Some? {
          assert its[j] == rest[j - 1];
        }
      }
    }
  }

  /** Within one pass, what the sink throws changes only the failure flags of
      the sink calls. */
  lemma TurnIgnoresSink(s: State, round: Round, f1: BadgeEvent -> bool, f2: BadgeEvent -> bool)
    ensures var p1, p2 := Turn(s, round, f1), Turn(s, round, f2);
      p1.outcome == p2.outcome &&
      p1.iteration.args == p2.iteration.args && p1.iteration.calls == p2.iteration.calls &&
      p1.iteration.slept == p2.iteration.slept &&
      Events(p1.iteration.deliveries) == Events(p2.iteration.deliveries)
  {
    EventsOfDeliver(BatchOf(round), f1);
    EventsOfDeliver(BatchOf(round), f2);
  }

  /** Sink failures are isolated: two runs over the same rounds whose sinks
      fail on different events make the same fetches, hand the sink the same
      events, back off at the same passes and end the same way; they differ
      only in which deliveries were logged as failed. */
  lemma {:induction false} SinkFailuresAreIsolated(s: State, rounds: seq<Round>, f1: BadgeEvent -> bool, f2: BadgeEvent -> bool)
    ensures var r1, r2 := Run(s, rounds, f1), Run(s, rounds, f2);
      r1.stop == r2.stop && |r1.iterations| == |r2.iterations| &&
      forall i :: 0 <= i < |r1.iterations| ==>
        r1.iterations[i].args == r2.iterations[i].args &&
        r1.iterations[i].calls == r2.iterations[i].calls &&
        r1.iterations[i].slept == r2.iterations[i].slept &&
        Events(r1.iterations[i].deliveries) == Events(r2.iterations[i].deliveries)
    decreases |rounds|
  {
    if rounds != [] {
      TurnIgnoresSink(s, rounds[0], f1, f2);
      var p1 := Turn(s, rounds[0], f1);
      if p1.outcome.Halt? {
        RunFirst(s, rounds, f1);
        RunFirst(s, rounds, f2);
      } else {
        var its1, its2 := Run(s, rounds, f1).iterations, Run(s, rounds, f2).iterations;
        var rest1, rest2 := Run(p1.outcome.next, rounds[1..], f1).iterations, Run(p1.outcome.next, rounds[1..], f2).iterations;
        RunCons(s, rounds, f1);
        RunCons(s, rounds, f2);
        SinkFailuresAreIsolated(p1.outcome.next, rounds[1..], f1, f2);
        forall i | 1 <= i < |its1|
          ensures its1[i].args == its2[i].args && its1[i].calls == its2[i].calls
          ensures its1[i].slept == its2[i].slept
          ensures Events(its1[i].deliveries) == Events(its2[i].deliveries)
        {
          assert its1[i] == rest1[i - 1] && its2[i] == rest2[i - 1];
        }
      }
    }
  }
}
