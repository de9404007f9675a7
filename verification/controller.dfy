/**
 The reconcile cycle and the loop that repeats it until the first failing cycle
 or until cancellation.
 */
module Controller {
  import opened Errors
  import opened Data
  import opened Solver
  import opened DealReconciler
  import opened OfferReconciler

  /**
   One reconcile cycle: agree to deals, then, only if that succeeded, converge the
   resource offers. The first error ends the cycle and is its result.
   */
  function Solve(cfg: ControllerConfig, now: int, replies: Replies): (r: Run)
    ensures |r.calls| >= 1 && r.calls[0] == GetDeals(DealsQuery(cfg.address, "DealNegotiating"))
    ensures NoLedgerCalls(r.calls)
    ensures |r.logs| >= 1 && r.logs[0].level == DebugLevel
    ensures replies.deals.Err? ==> |r.calls| == 1 && r.outcome == Fail(replies.deals.error)
    ensures replies.deals.Ok? ==>
              |r.calls| >= 2 && r.calls[1] == GetResourceOffers(OffersQuery(cfg.address, true))
    ensures replies.deals.Ok? && replies.offers.Err? ==>
              |r.calls| == 2 && r.outcome == Fail(replies.offers.error)
    ensures replies.deals.Ok? && replies.offers.Ok? ==>
              var plan := OffersToAdd(cfg, now, replies.offers.value);
              && |r.calls| <= |plan| + 2
              && (forall j :: 2 <= j < |r.calls| ==> r.calls[j] == AddResourceOffer(plan[j - 2]))
              && (r.outcome.Pass? ==> |r.calls| == |plan| + 2)
              && (r.outcome.Fail? ==>
                    && |r.calls| >= 3
                    && r.outcome == AddReply(replies.adds, |r.calls| - 3)
                    && forall i :: 0 <= i < |r.calls| - 3 ==> AddReply(replies.adds, i).Pass?)
    ensures r.outcome.Pass? <==>
              && replies.deals.Ok?
              && replies.offers.Ok?
              && forall i :: 0 <= i < |OffersToAdd(cfg, now, replies.offers.value)| ==>
                   AddReply(replies.adds, i).Pass?
  {
    var solving := LogLine(DebugLevel, "solving", NoSubject);
    var agreed := AgreeToDeals(cfg, replies.deals);
    if agreed.outcome.Fail? then
      Run(agreed.calls, [solving] + agreed.logs, agreed.outcome)
    else
      var offered := EnsureResourceOffers(cfg, now, replies.offers, replies.adds);
      Run(agreed.calls + offered.calls, [solving] + agreed.logs + offered.logs, offered.outcome)
  }

  /** The clock reading and the solver's replies for one cycle of the loop. */
  datatype Tick = Tick(now: int, replies: Replies)

  /**
   The cycles the loop ran, the error it sent on its error channel, if any, and the
   loop's own log lines.
   */
  datatype LoopResult = LoopResult(cycles: seq<Run>, emitted: Option<Error>, logs: seq<LogLine>)

  /** The line the loop logs before it emits a cycle's error. */
  function SolvingFailed(e: Error): LogLine
  {
    LogLine(ErrorLevel, "error solving", ErrorSubject(e))
  }

  /**
   The reconcile loop, for a cycle function `cycle`, over the ticks it starts before
   it sees cancellation: it runs them in order, stops after the first failing cycle
   and emits that cycle's error; a loop that reaches cancellation emits nothing.
   */
  function RunLoop(cycle: Tick -> Run, ticks: seq<Tick>): (r: LoopResult)
    ensures |r.cycles| <= |ticks|
    ensures forall k :: 0 <= k < |r.cycles| ==> r.cycles[k] == cycle(ticks[k])
    ensures r.emitted.None? <==> forall k :: 0 <= k < |ticks| ==> cycle(ticks[k]).outcome.Pass?
    ensures r.emitted.None? ==> |r.cycles| == |ticks|
    ensures r.emitted.Some? ==>
              && |r.cycles| > 0
              && r.cycles[|r.cycles| - 1].outcome == Fail(r.emitted.value)
              && forall k :: 0 <= k < |r.cycles| - 1 ==> r.cycles[k].outcome.Pass?
    ensures r.emitted.None? ==> r.logs == []
    ensures r.emitted.Some? ==> r.logs == [SolvingFailed(r.emitted.value)]
    decreases |ticks|
  {
    if ticks == [] then LoopResult([], None, [])
    else
      var run := cycle(ticks[0]);
      match run.outcome
      case Fail(e) => LoopResult([run], Some(e), [SolvingFailed(e)])
      case Pass =>
        var rest := RunLoop(cycle, ticks[1..]);
        LoopResult([run] + rest.cycles, rest.emitted, rest.logs)
  }

  /** The controller's loop: every cycle is `Solve` with that tick's clock and replies. */
  function ReconcileLoop(cfg: ControllerConfig, ticks: seq<Tick>): (r: LoopResult)
    ensures |r.cycles| <= |ticks|
    ensures forall k :: 0 <= k < |r.cycles| ==>
              r.cycles[k] == Solve(cfg, ticks[k].now, ticks[k].replies)
    ensures r.emitted.None? <==>
              forall k :: 0 <= k < |ticks| ==> Solve(cfg, ticks[k].now, ticks[k].replies).outcome.Pass?
    ensures r.emitted.None? ==> |r.cycles| == |ticks|
    ensures r.emitted.Some? ==>
              && |r.cycles| > 0
              && r.cycles[|r.cycles| - 1].outcome == Fail(r.emitted.value)
              && (forall k :: 0 <= k < |r.cycles| - 1 ==> r.cycles[k].outcome.Pass?)
              && r.logs == [SolvingFailed(r.emitted.value)]
    ensures r.emitted.None? ==> r.logs == []
  {
    RunLoop((t: Tick) => Solve(cfg, t.now, t.replies), ticks)
  }

  /**
   Once a cycle's planned offers are all recorded by the solver, the next cycle whose
   deal query succeeds makes only its two queries and succeeds.
   */
  lemma SteadyAfterCompleteSubmission(
    cfg: ControllerConfig, now: int, later: int,
    active: seq<ResourceOfferContainer>, added: seq<ResourceOfferContainer>, next: Replies)
    requires RecordsPrefix(added, OffersToAdd(cfg, now, active))
    requires |added| == |OffersToAdd(cfg, now, active)|
    requires next.deals.Ok? && next.offers == Ok(active + added)
    ensures Solve(cfg, later, next).calls
         == [GetDeals(NegotiatingDealsQuery(cfg)), GetResourceOffers(ActiveOffersQuery(cfg))]
    ensures Solve(cfg, later, next).outcome == Pass
  {
    ConvergesAfterFullSubmission(cfg, now, later, active, added);
  }
}
