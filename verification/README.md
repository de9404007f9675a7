# Resource-provider reconciliation controller, in Dafny

This project models the reconciliation controller of a resource provider in the
Lilypad compute marketplace (`pkg/resourceprovider/controller.go`). The controller
keeps the provider's advertised capacity ("resource offers") in step with the
solver, the remote matching service. It also watches the deals that wait for the
provider's agreement. Each reconcile cycle does two things:

* **Deal agreement.** It asks the solver for this provider's deals in state
  `DealNegotiating`. Today it only logs each deal, because the ledger agreement
  transaction is commented out in the source.
* **Offer convergence.** It asks the solver for this provider's active offers. It
  keys them by catalogue `index` and builds one new offer for each catalogue
  position that no active offer covers. It submits these offers in catalogue order
  and stops at the first failing submission.

A cycle stops at its first error. The loop stops after the first failing cycle. A
separate handler filters the events the solver pushes to the provider.

The solver and the ledger are not code in this model. A `Replies` value stands for
them: it holds the answer to the deals query, the answer to the active-offers query,
and the reply to each add-offer call in turn (calls past the end of that list
succeed). Each reconciler is a pure function. It returns a `Run`: the external calls
it makes in order, its log lines, and the error it returns (`Pass` stands for nil).
The call type has a `LedgerAgree` constructor, so "no ledger action" is a property
the model proves, not one it assumes.

Modules:

| file | module | contents |
|---|---|---|
| `errors.dfy` | `Errors` | `Error`, `Outcome` (nil or an error), `Result`, `Option` |
| `data.dfy` | `Data` | offers, offer containers, deals, offer options, the controller's own address |
| `solver.dfy` | `Solver` | queries, calls, log lines, solver events, per-cycle replies |
| `ascending.dfy` | `Ascending` | strictly increasing index sequences; such a sequence is fixed by its elements |
| `offers.dfy` | `OfferReconciler` | `getResourceOffer`, `ensureResourceOffers` and its two loops, submission, convergence lemmas |
| `deals.dfy` | `DealReconciler` | `agreeToDeals` |
| `events.dfy` | `EventFilter` | the solver-event callback in `subscribeToSolver` |
| `controller.dfy` | `Controller` | `solve` and the reconcile loop in `Start` |

The source for `pkg/data` (machine specs, pricing, timeouts) is not part of this
model. The controller only copies those records, so the model gives them a few
placeholder fields and compares them for equality.

## Model

| member | source | states |
|---|---|---|
| `OfferReconciler.GetResourceOffer` | pkg/resourceprovider/controller.go:207-222 | The new offer has the given catalogue index and spec. For a real catalogue slot, it is also stamped with the given time, names the provider's own address, copies modules, mode, default pricing, default timeouts and trusted parties from the options, and starts with empty per-module pricing and timeout maps. |
| `OfferReconciler.ExistingOffers` | pkg/resourceprovider/controller.go:234-241 | The keys of the map are exactly the indices in the active-offers snapshot. Each key maps to a container from the snapshot that carries that index. |
| `OfferReconciler.IndexActiveOffers` | pkg/resourceprovider/controller.go:238-241 | The first loop, which writes each container under its index, builds exactly the keyed snapshot. |
| `OfferReconciler.MissingBelow` | pkg/resourceprovider/controller.go:246-255 | Walking the catalogue up to `k` yields exactly the uncovered indices in `[0, k)`, each once, in strictly ascending order. |
| `OfferReconciler.CollectOffersToAdd` | pkg/resourceprovider/controller.go:243-255 | The second loop builds one offer for each catalogue index missing from the keyed snapshot, in catalogue order. |
| `OfferReconciler.OffersToAdd` | pkg/resourceprovider/controller.go:238-255 | The planned offers cover exactly the catalogue indices in `[0, len(specs))` that have no active offer. Their indices strictly increase, so none repeats. Each offer is built from the options for its own slot. |
| `OfferReconciler.PlanResourceOffers` | pkg/resourceprovider/controller.go:238-255 | Running both loops in sequence gives exactly the planned offers. |
| `OfferReconciler.SubmitFrom` | pkg/resourceprovider/controller.go:257-264 | Offers are submitted as a prefix of the plan, in plan order. The run succeeds iff every add call succeeds, and then every offer is submitted. Otherwise the last attempted call is the first failing one, all earlier calls succeeded, and that call's error is returned. |
| `OfferReconciler.EnsureResourceOffers` | pkg/resourceprovider/controller.go:224-266 | The first call is the active-offers query for the own address. If the query fails, that is the only call and its error is returned. Otherwise the remaining calls add plan offers in plan order. The run succeeds iff every needed add call succeeds, and then every planned offer was added. On failure, submission stopped at the first failing add: every earlier add succeeded and the error returned is the failing add call's. No ledger call is made. |
| `OfferReconciler.FullyCoveredAddsNothing` | pkg/resourceprovider/controller.go:246-266 | When every catalogue index is covered, the plan is empty and the cycle makes only the query and returns nil. |
| `OfferReconciler.PlanDependsOnlyOnCoveredSlots` | pkg/resourceprovider/controller.go:238-255 | Two snapshots that cover the same catalogue indices give the same plan, whatever their order, duplicates or solver ids. |
| `OfferReconciler.ForeignOffersIgnored` | pkg/resourceprovider/controller.go:238-255 | Active offers whose index lies outside the catalogue do not change the plan. |
| `OfferReconciler.MissingAfterRecording` | pkg/resourceprovider/controller.go:246-255 | Marking the first `k` missing indices as covered leaves exactly the remaining missing indices. |
| `OfferReconciler.ResumesAfterPartialSubmission` | pkg/resourceprovider/controller.go:224-264 | After the solver records the first `n` planned offers, the next cycle plans exactly the rest of the plan, at its own clock reading. |
| `OfferReconciler.NextCyclePlansUncommitted` | pkg/resourceprovider/controller.go:257-264 | Whatever the add replies, once the solver records the offers a cycle committed, the next cycle plans exactly the uncommitted ones. Nothing is rolled back and nothing is planned twice. |
| `OfferReconciler.ConvergesAfterFullSubmission` | pkg/resourceprovider/controller.go:224-266 | Once every planned offer is recorded, the next cycle plans nothing. |
| `OfferReconciler.UniqueIndicesPreserved` | pkg/resourceprovider/controller.go:234-255 | If the snapshot had at most one active offer per index, it still has after the offers of a cycle are recorded, whether the cycle completed or stopped early. |
| `DealReconciler.AgreeToDeals` | pkg/resourceprovider/controller.go:166-189 | The only call is the deals query for the own address and state `DealNegotiating`. No ledger call is made. The run fails iff the query fails, with the query's error and no log lines. Otherwise it succeeds for an empty or non-empty list and logs each returned deal once, in order. |
| `EventFilter.HandleSolverEvent` | pkg/resourceprovider/controller.go:62-77 | Every event is logged first. A deal-added event without a deal is rejected with an error log. A deal-added event for another provider is ignored. Every other event, including a deal for this provider, is only observed. An error is logged iff the deal is missing. |
| `Controller.Solve` | pkg/resourceprovider/controller.go:141-152 | The cycle's first call is the deals query. If that fails, the cycle ends with its error and nothing else is called. Otherwise the active-offers query follows and, after it, the add calls in plan order. The cycle returns nil iff both queries and every needed add call succeed, and then every planned offer was added. When an add fails, every earlier add succeeded, nothing follows it, and its error is the cycle's. No ledger call is made. |
| `Controller.RunLoop` | pkg/resourceprovider/controller.go:111-125 | For any cycle function, over the ticks started before cancellation: the cycles that run are a prefix of the ticks, in order. Nothing is emitted iff every cycle succeeds, and then every tick runs and nothing is logged. Otherwise the loop stops right after the first failing cycle, logs one `error solving` error line with that cycle's error, emits that error, and every earlier cycle succeeded. |
| `Controller.ReconcileLoop` | pkg/resourceprovider/controller.go:111-125 | The controller's loop: each cycle that runs is `solve` with that tick's clock and replies. An error is emitted iff some cycle fails. Then the loop stopped at the first failing cycle: every earlier cycle succeeded, and the emitted error, logged once as `error solving`, is the last cycle's. When nothing is emitted, every tick before cancellation ran its cycle and the loop logged nothing. |
| `Controller.SteadyAfterCompleteSubmission` | pkg/resourceprovider/controller.go:141-152 | After the solver records every offer a cycle planned, the next cycle whose deal query succeeds makes only its two queries and returns nil. |

## Left out

- Start setup steps (controller.go:88-110): subscription registration and starting the solver client and the ledger event channels are client plumbing. The unbuffered error-channel sends on those paths are not modelled.
- The reconcile loop's timing and channels (controller.go:111-125): the one-second sleep, the `select` and the goroutine are not modelled. `RunLoop` takes the cycles started before cancellation as a finite list, so the model cannot tell cancellation during a sleep from cancellation after it.
- `NewResourceProviderController` (controller.go:24-49): it resolves the solver URL through the ledger and builds an HTTP client, which is foreign I/O.
- `subscribeToWeb3` (controller.go:81-86): its handler only logs the ledger's deal-state-change event.
- `OfferReconciler.GetResourceOffer`: the creation stamp is a parameter `now`, shared by every offer of a cycle. The source reads the wall clock once per built offer, so its offers may carry different milliseconds.
- The ledger agreement transaction (controller.go:185) is commented out in the source, so the model performs no agreement and gives it no submission or idempotency semantics. The comment at controller.go:181 states the intent to agree to each negotiating deal. The code does not carry it out, and the model follows the code, which only logs each deal.
- Logging (`pkg/system/log.go`): a log call is modelled as a `LogLine` record of level, title and subject. Output formatting, the `LOG_LEVEL` environment variable and level filtering are left out. The level of the solver package's event log line is not visible and is modelled as info.
- The contents of `pkg/data` records (machine spec, pricing, timeouts, trusted parties) are placeholders. The controller only copies them.
- The solver's own behaviour (how it answers queries, how it assigns ids) is a parameter. The convergence lemmas state their assumption about what the solver records, for example `RecordsPrefix`.
