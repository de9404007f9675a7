/**
 The filter applied to every solver push event. It logs the event and classifies
 deal-added events; it never calls the solver or the ledger.
 */
module EventFilter {
  import opened Errors
  import opened Solver

  /** What the handler did with an event, beyond logging it. */
  datatype Reaction =
      /** A deal-added event without its deal: logged as an error and dropped. */
    | RejectedNilDeal
      /** A deal-added event for some other provider: dropped. */
    | IgnoredForeignDeal
      /** Every other event, including deals for this provider: observed only. */
    | Observed

  datatype Handled = Handled(logs: seq<LogLine>, reaction: Reaction)

  /** The handler registered with the solver, for the provider at address `self`. */
  function HandleSolverEvent(self: string, ev: SolverEvent): (r: Handled)
    ensures |r.logs| >= 1 && r.logs[0].subject == EventSubject(ev)
    ensures r.reaction == RejectedNilDeal <==> ev.eventType == DealAdded && ev.deal.None?
    ensures r.reaction == IgnoredForeignDeal <==>
              ev.eventType == DealAdded && ev.deal.Some? && ev.deal.value.resourceProvider != self
    ensures r.reaction == Observed <==>
              ev.eventType != DealAdded || (ev.deal.Some? && ev.deal.value.resourceProvider == self)
    ensures (exists j :: 0 <= j < |r.logs| && r.logs[j].level == ErrorLevel) <==> r.reaction == RejectedNilDeal
  {
    var seen := LogLine(InfoLevel, "solver event", EventSubject(ev));
    if ev.eventType == DealAdded then
      match ev.deal
      case None =>
        var failure := LogLine(ErrorLevel, "solver event", ErrorSubject(Error("RP received nil deal")));
        assert [seen, failure][1] == failure;
        Handled([seen, failure], RejectedNilDeal)
      case Some(deal) =>
        if deal.resourceProvider != self then Handled([seen], IgnoredForeignDeal)
        else Handled([seen], Observed)
    else Handled([seen], Observed)
  }
}
