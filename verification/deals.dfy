/**
 The deal-agreement front end: list the deals awaiting this provider's agreement.
 The ledger agreement itself is not performed; each deal is only logged.
 */
module DealReconciler {
  import opened Errors
  import opened Data
  import opened Solver

  /** The lifecycle state of a deal awaiting the provider's agreement. */
  const DealNegotiating: string := "DealNegotiating"

  /** The query for the deals this provider still has to agree to. */
  function NegotiatingDealsQuery(cfg: ControllerConfig): DealsQuery
  {
    DealsQuery(cfg.address, DealNegotiating)
  }

  function AgreeLogs(deals: seq<DealContainer>): seq<LogLine>
  {
    seq(|deals|, j requires 0 <= j < |deals| => LogLine(InfoLevel, "agree to deal", DealSubject(deals[j])))
  }

  /**
   One run of the deal reconciler, given the solver's reply to its one query.
   A failed query is returned as is; otherwise the run succeeds, empty list or not.
   */
  function AgreeToDeals(cfg: ControllerConfig, dealsReply: Result<seq<DealContainer>>): (r: Run)
    ensures r.calls == [GetDeals(DealsQuery(cfg.address, "DealNegotiating"))]
    ensures NoLedgerCalls(r.calls)
    ensures r.outcome.Fail? <==> dealsReply.Err?
    ensures dealsReply.Err? ==> r.outcome.error == dealsReply.error && r.logs == []
    ensures dealsReply.Ok? ==>
              && |r.logs| == |dealsReply.value|
              && forall j :: 0 <= j < |r.logs| ==> r.logs[j].subject == DealSubject(dealsReply.value[j])
  {
    var query := GetDeals(NegotiatingDealsQuery(cfg));
    match dealsReply
    case Err(e) => Run([query], [], Fail(e))
    case Ok(deals) =>
      if |deals| <= 0 then Run([query], [], Pass)
      else Run([query], AgreeLogs(deals), Pass)
  }
}
