/**
 The controller's view of its collaborators: the queries it sends, the calls it
 makes, what it logs, and the replies the solver gives it during one cycle.
 */
module Solver {
  import opened Errors
  import opened Data

  datatype DealsQuery = DealsQuery(resourceProvider: string, state: string)

  datatype OffersQuery = OffersQuery(resourceProvider: string, active: bool)

  /** Every external call the controller could make from a reconcile cycle. */
  datatype Call =
    | GetDeals(dealsQuery: DealsQuery)
    | GetResourceOffers(offersQuery: OffersQuery)
    | AddResourceOffer(offer: ResourceOffer)
      /** The ledger's agreement transaction for a deal. */
    | LedgerAgree(dealId: string)

  datatype Level = DebugLevel | InfoLevel | ErrorLevel

  /** What a log line carries besides its title. */
  datatype Subject =
    | NoSubject
    | DealSubject(deal: DealContainer)
    | OfferSubject(offer: ResourceOffer)
    | EventSubject(event: SolverEvent)
    | ErrorSubject(err: Error)

  datatype LogLine = LogLine(level: Level, title: string, subject: Subject)

  /** The effect of one reconciler: calls in the order issued, log lines, and the returned error. */
  datatype Run = Run(calls: seq<Call>, logs: seq<LogLine>, outcome: Outcome)

  /**
   The solver's answers during one cycle: to the deals query, to the active-offers
   query, and to the successive add-offer calls.
   */
  datatype Replies = Replies(
    deals: Result<seq<DealContainer>>,
    offers: Result<seq<ResourceOfferContainer>>,
    adds: seq<Outcome>)

  /** The reply to the add-offer call numbered `k` in a cycle; calls past the end of `adds` succeed. */
  function AddReply(adds: seq<Outcome>, k: nat): Outcome
  {
    if k < |adds| then adds[k] else Pass
  }

  datatype EventType = DealAdded | OtherEvent(name: string)

  /** A push notification from the solver; `deal` is nil for some events. */
  datatype SolverEvent = SolverEvent(eventType: EventType, deal: Option<DealContainer>)

  predicate NoLedgerCalls(calls: seq<Call>)
  {
    forall j :: 0 <= j < |calls| ==> !calls[j].LedgerAgree?
  }
}
