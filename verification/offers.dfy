/**
 Resource-offer convergence: compare the configured catalogue with the solver's
 snapshot of this provider's active offers, build one offer per uncovered catalogue
 index in catalogue order, and submit them one by one until the first failure.
 */
module OfferReconciler {
  import opened Errors
  import opened Data
  import opened Solver
  import opened Ascending

  /** The query for this provider's active offers. */
  function ActiveOffersQuery(cfg: ControllerConfig): OffersQuery
  {
    OffersQuery(cfg.address, true)
  }

  /** `o` is the offer the controller builds, at time `now`, for catalogue slot `o.index`. */
  ghost predicate BuiltFromConfig(cfg: ControllerConfig, now: int, o: ResourceOffer)
  {
    && 0 <= o.index < |cfg.offers.specs|
    && o.spec == cfg.offers.specs[o.index]
    && o.createdAt == now
    && o.resourceProvider == cfg.address
    && o.modules == cfg.offers.modules
    && o.mode == cfg.offers.mode
    && o.defaultPricing == cfg.offers.defaultPricing
    && o.defaultTimeouts == cfg.offers.defaultTimeouts
    && o.trustedParties == cfg.offers.trustedParties
    && o.modulePricing == map[]
    && o.moduleTimeouts == map[]
  }

  /**
   A new offer for catalogue position `index` with machine spec `spec`, stamped `now`
   (milliseconds since the epoch).
   */
  function GetResourceOffer(cfg: ControllerConfig, now: int, index: int, spec: MachineSpec): (o: ResourceOffer)
    ensures o.index == index && o.spec == spec
    ensures 0 <= index < |cfg.offers.specs| && spec == cfg.offers.specs[index] ==> BuiltFromConfig(cfg, now, o)
  {
    ResourceOffer(
      now,
      cfg.address,
      index,
      spec,
      cfg.offers.modules,
      cfg.offers.mode,
      cfg.offers.defaultPricing,
      cfg.offers.defaultTimeouts,
      map[],
      map[],
      cfg.offers.trustedParties)
  }

  /**
   The active offers keyed by catalogue index; a later container with the same index
   replaces an earlier one.
   */
  function ExistingOffers(active: seq<ResourceOfferContainer>): (m: map<int, ResourceOfferContainer>)
    ensures forall i :: i in m <==> i in ContainerIndices(active)
    ensures forall i :: i in m ==> m[i] in active && m[i].resourceOffer.index == i
    decreases |active|
  {
    if active == [] then map[]
    else
      var last := active[|active| - 1];
      var rest := active[..|active| - 1];
      assert ContainerIndices(active) == ContainerIndices(rest) + [last.resourceOffer.index];
      ExistingOffers(rest)[last.resourceOffer.index := last]
  }

  /** The catalogue indices below `k` that are not covered, in ascending order. */
  function MissingBelow(k: nat, covered: set<int>): (r: seq<int>)
    ensures forall i :: i in r <==> 0 <= i < k && i !in covered
    ensures forall j :: 0 <= j < |r| ==> 0 <= r[j] < k
    ensures StrictlyIncreasing(r)
    decreases k
  {
    if k == 0 then []
    else
      var prefix := MissingBelow(k - 1, covered);
      prefix + (if k - 1 in covered then [] else [k - 1])
  }

  /** The catalogue indices with no active offer. */
  function MissingIndices(cfg: ControllerConfig, active: seq<ResourceOfferContainer>): seq<int>
  {
    MissingBelow(|cfg.offers.specs|, ExistingOffers(active).Keys)
  }

  /** One offer per catalogue index in `indices`, in the same order. */
  function OffersFor(cfg: ControllerConfig, now: int, indices: seq<int>): seq<ResourceOffer>
    requires forall j :: 0 <= j < |indices| ==> 0 <= indices[j] < |cfg.offers.specs|
  {
    seq(|indices|, j requires 0 <= j < |indices| =>
      GetResourceOffer(cfg, now, indices[j], cfg.offers.specs[indices[j]]))
  }

  lemma OffersForAppend(cfg: ControllerConfig, now: int, indices: seq<int>, extra: seq<int>)
    requires forall j :: 0 <= j < |indices| ==> 0 <= indices[j] < |cfg.offers.specs|
    requires forall j :: 0 <= j < |extra| ==> 0 <= extra[j] < |cfg.offers.specs|
    ensures OffersFor(cfg, now, indices + extra) == OffersFor(cfg, now, indices) + OffersFor(cfg, now, extra)
  {
  }

  /**
   The offers one cycle adds: exactly the uncovered catalogue indices, each once,
   in ascending order, each built from the configuration.
   */
  function OffersToAdd(cfg: ControllerConfig, now: int, active: seq<ResourceOfferContainer>): (r: seq<ResourceOffer>)
    ensures forall i :: i in OfferIndices(r) <==> 0 <= i < |cfg.offers.specs| && i !in ContainerIndices(active)
    ensures StrictlyIncreasing(OfferIndices(r))
    ensures forall j :: 0 <= j < |r| ==> BuiltFromConfig(cfg, now, r[j])
  {
    var missing := MissingIndices(cfg, active);
    var r := OffersFor(cfg, now, missing);
    assert OfferIndices(r) == missing;
    r
  }

  lemma PlanFromExisting(cfg: ControllerConfig, now: int, active: seq<ResourceOfferContainer>)
    ensures OffersToAdd(cfg, now, active)
         == OffersFor(cfg, now, MissingBelow(|cfg.offers.specs|, ExistingOffers(active).Keys))
  {
  }

  /** The first loop of the controller: key the active offers by catalogue index. */
  method IndexActiveOffers(active: seq<ResourceOfferContainer>) returns (existing: map<int, ResourceOfferContainer>)
    ensures existing == ExistingOffers(active)
  {
    existing := map[];
    var k := 0;
    while k < |active|
      invariant k <= |active|
      invariant existing == ExistingOffers(active[..k])
    {
      assert active[..k + 1][..k] == active[..k];
      existing := existing[active[k].resourceOffer.index := active[k]];
      k := k + 1;
    }
    assert active[..k] == active;
  }

  /**
   The offers the walk over the first `k` catalogue entries has collected, for the
   keyed snapshot whose index set is `keys`.
   */
  function CollectedBelow(cfg: ControllerConfig, now: int, k: nat, keys: set<int>): seq<ResourceOffer>
    requires k <= |cfg.offers.specs|
  {
    if k == 0 then []
    else
      CollectedBelow(cfg, now, k - 1, keys)
      + (if k - 1 in keys then [] else [GetResourceOffer(cfg, now, k - 1, cfg.offers.specs[k - 1])])
  }

  /** The walk collects one offer per missing index, in the order the indices are missing. */
  lemma {:induction false} CollectedBelowIsOffersForMissing(cfg: ControllerConfig, now: int, k: nat, keys: set<int>)
    requires k <= |cfg.offers.specs|
    ensures CollectedBelow(cfg, now, k, keys) == OffersFor(cfg, now, MissingBelow(k, keys))
  {
    if k > 0 {
      CollectedBelowIsOffersForMissing(cfg, now, k - 1, keys);
      var prefix := MissingBelow(k - 1, keys);
      if k - 1 in keys {
        assert MissingBelow(k, keys) == prefix;
      } else {
        var step := [k - 1];
        assert MissingBelow(k, keys) == prefix + step;
        OffersForAppend(cfg, now, prefix, step);
        assert OffersFor(cfg, now, step) == [GetResourceOffer(cfg, now, k - 1, cfg.offers.specs[k - 1])];
      }
    }
  }

  /**
   The second loop of the controller: walk the catalogue and build an offer for
   every index the keyed snapshot `existing` lacks.
   */
  method CollectOffersToAdd(cfg: ControllerConfig, now: int, existing: map<int, ResourceOfferContainer>)
    returns (toAdd: seq<ResourceOffer>)
    ensures toAdd == OffersFor(cfg, now, MissingBelow(|cfg.offers.specs|, existing.Keys))
  {
    var specs := cfg.offers.specs;
    toAdd := [];
    var index := 0;
    while index < |specs|
      invariant index <= |specs|
      invariant toAdd == CollectedBelow(cfg, now, index, existing.Keys)
    {
      if index !in existing {
        toAdd := toAdd + [GetResourceOffer(cfg, now, index, specs[index])];
      }
      index := index + 1;
    }
    CollectedBelowIsOffersForMissing(cfg, now, index, existing.Keys);
  }

  /** Both loops together compute the plan. */
  method PlanResourceOffers(cfg: ControllerConfig, now: int, active: seq<ResourceOfferContainer>)
    returns (toAdd: seq<ResourceOffer>)
    ensures toAdd == OffersToAdd(cfg, now, active)
  {
    var existing := IndexActiveOffers(active);
    toAdd := CollectOffersToAdd(cfg, now, existing);
    PlanFromExisting(cfg, now, active);
  }

  /** The offers actually sent to the solver in one cycle, and the error that ended it. */
  datatype Submission = Submission(attempted: seq<ResourceOffer>, outcome: Outcome)

  /**
   Submit `offers[k..]` in order, the call numbered `i` getting reply `AddReply(adds, i)`;
   the first failing call ends the submission and its error is returned.
   */
  function SubmitFrom(offers: seq<ResourceOffer>, adds: seq<Outcome>, k: nat): (r: Submission)
    requires k <= |offers|
    ensures k + |r.attempted| <= |offers| && r.attempted == offers[k..k + |r.attempted|]
    ensures r.outcome.Pass? <==> forall i :: k <= i < |offers| ==> AddReply(adds, i).Pass?
    ensures r.outcome.Pass? ==> k + |r.attempted| == |offers|
    ensures r.outcome.Fail? ==>
              && |r.attempted| > 0
              && AddReply(adds, k + |r.attempted| - 1) == r.outcome
              && forall i :: k <= i < k + |r.attempted| - 1 ==> AddReply(adds, i).Pass?
    decreases |offers| - k
  {
    if k == |offers| then Submission([], Pass)
    else
      match AddReply(adds, k)
      case Fail(e) => Submission([offers[k]], Fail(e))
      case Pass =>
        var rest := SubmitFrom(offers, adds, k + 1);
        Submission([offers[k]] + rest.attempted, rest.outcome)
  }

  /** One add-offer call, logged before it is made, for each attempted offer. */
  function AddCalls(offers: seq<ResourceOffer>): seq<Call>
  {
    seq(|offers|, j requires 0 <= j < |offers| => AddResourceOffer(offers[j]))
  }

  function AddLogs(offers: seq<ResourceOffer>): seq<LogLine>
  {
    seq(|offers|, j requires 0 <= j < |offers| => LogLine(InfoLevel, "add resource offer", OfferSubject(offers[j])))
  }

  /**
   The calls of a run that made `query` and then submitted `plan` until the first
   failing add, with the run's outcome.
   */
  function SubmitPlan(query: Call, plan: seq<ResourceOffer>, adds: seq<Outcome>): (r: Run)
    ensures |r.calls| >= 1 && r.calls[0] == query
    ensures |r.calls| <= |plan| + 1
    ensures forall j :: 1 <= j < |r.calls| ==> r.calls[j] == AddResourceOffer(plan[j - 1])
    ensures r.outcome.Pass? <==> forall i :: 0 <= i < |plan| ==> AddReply(adds, i).Pass?
    ensures r.outcome.Pass? ==> |r.calls| == |plan| + 1
    ensures r.outcome.Fail? ==>
              && |r.calls| >= 2
              && r.outcome == AddReply(adds, |r.calls| - 2)
              && forall i :: 0 <= i < |r.calls| - 2 ==> AddReply(adds, i).Pass?
  {
    var sent := SubmitFrom(plan, adds, 0);
    Run([query] + AddCalls(sent.attempted), AddLogs(sent.attempted), sent.outcome)
  }

  /**
   One run of the offer reconciler: query the active offers, then submit the
   missing ones until the first failure.
   */
  function EnsureResourceOffers(
    cfg: ControllerConfig, now: int,
    offersReply: Result<seq<ResourceOfferContainer>>, adds: seq<Outcome>): (r: Run)
    ensures |r.calls| >= 1 && r.calls[0] == GetResourceOffers(ActiveOffersQuery(cfg))
    ensures NoLedgerCalls(r.calls)
    ensures offersReply.Err? ==> |r.calls| == 1 && r.outcome == Fail(offersReply.error)
    ensures offersReply.Ok? ==>
              var plan := OffersToAdd(cfg, now, offersReply.value);
              && |r.calls| <= |plan| + 1
              && (forall j :: 1 <= j < |r.calls| ==> r.calls[j] == AddResourceOffer(plan[j - 1]))
              && (r.outcome.Pass? <==> forall i :: 0 <= i < |plan| ==> AddReply(adds, i).Pass?)
              && (r.outcome.Pass? ==> |r.calls| == |plan| + 1)
              && (r.outcome.Fail? ==>
                    && |r.calls| >= 2
                    && r.outcome == AddReply(adds, |r.calls| - 2)
                    && forall i :: 0 <= i < |r.calls| - 2 ==> AddReply(adds, i).Pass?)
  {
    var query := GetResourceOffers(ActiveOffersQuery(cfg));
    match offersReply
    case Err(e) => Run([query], [], Fail(e))
    case Ok(active) =>
      SubmitPlan(query, OffersToAdd(cfg, now, active), adds)
  }

  /** When every catalogue index is covered, a cycle only queries and succeeds. */
  lemma FullyCoveredAddsNothing(
    cfg: ControllerConfig, now: int, active: seq<ResourceOfferContainer>, adds: seq<Outcome>)
    requires forall i :: 0 <= i < |cfg.offers.specs| ==> i in ContainerIndices(active)
    ensures OffersToAdd(cfg, now, active) == []
    ensures EnsureResourceOffers(cfg, now, Ok(active), adds)
         == Run([GetResourceOffers(ActiveOffersQuery(cfg))], [], Pass)
  {
    NothingMissingBelow(|cfg.offers.specs|, ExistingOffers(active).Keys);
    PlanFromExisting(cfg, now, active);
    EmptyPlanOnlyQueries(cfg, now, active, adds);
  }

  lemma {:induction false} NothingMissingBelow(k: nat, covered: set<int>)
    requires forall i :: 0 <= i < k ==> i in covered
    ensures MissingBelow(k, covered) == []
  {
    if k > 0 {
      NothingMissingBelow(k - 1, covered);
    }
  }

  lemma EmptyPlanOnlyQueries(
    cfg: ControllerConfig, now: int, active: seq<ResourceOfferContainer>, adds: seq<Outcome>)
    requires OffersToAdd(cfg, now, active) == []
    ensures EnsureResourceOffers(cfg, now, Ok(active), adds)
         == Run([GetResourceOffers(ActiveOffersQuery(cfg))], [], Pass)
  {
    assert [GetResourceOffers(ActiveOffersQuery(cfg))] + AddCalls([]) == [GetResourceOffers(ActiveOffersQuery(cfg))];
  }

  /** The plan depends only on which catalogue indices the snapshot covers. */
  lemma {:induction false} PlanDependsOnlyOnCoveredSlots(
    cfg: ControllerConfig, now: int, a: seq<ResourceOfferContainer>, b: seq<ResourceOfferContainer>)
    requires forall i :: 0 <= i < |cfg.offers.specs| ==> (i in ContainerIndices(a) <==> i in ContainerIndices(b))
    ensures OffersToAdd(cfg, now, a) == OffersToAdd(cfg, now, b)
  {
    var ma := MissingIndices(cfg, a);
    var mb := MissingIndices(cfg, b);
    IncreasingWithSameElementsEqual(ma, mb);
  }

  lemma ContainerIndicesAppend(a: seq<ResourceOfferContainer>, b: seq<ResourceOfferContainer>)
    ensures ContainerIndices(a + b) == ContainerIndices(a) + ContainerIndices(b)
  {
  }

  /** Active offers whose index lies outside the catalogue have no effect on the plan. */
  lemma ForeignOffersIgnored(
    cfg: ControllerConfig, now: int, active: seq<ResourceOfferContainer>, extra: seq<ResourceOfferContainer>)
    requires forall j :: 0 <= j < |extra| ==>
               !(0 <= extra[j].resourceOffer.index < |cfg.offers.specs|)
    ensures OffersToAdd(cfg, now, active + extra) == OffersToAdd(cfg, now, active)
  {
    ContainerIndicesAppend(active, extra);
    PlanDependsOnlyOnCoveredSlots(cfg, now, active + extra, active);
  }

  /**
   The offers of a cycle as the solver records them: the first `|added|` planned
   offers, each under some solver-assigned identifier.
   */
  ghost predicate RecordsPrefix(added: seq<ResourceOfferContainer>, plan: seq<ResourceOffer>)
  {
    && |added| <= |plan|
    && forall j :: 0 <= j < |added| ==> added[j].resourceOffer.index == plan[j].index
  }

  /** Dropping the first `k` elements of a strictly increasing sequence leaves the elements not among them. */
  lemma SuffixElements(m: seq<int>, k: nat, x: int)
    requires StrictlyIncreasing(m) && k <= |m|
    ensures x in m[k..] <==> x in m && x !in m[..k]
  {
    assert forall j :: 0 <= j < k ==> m[j] in m[..k];
    if x in m[k..] {
      var i :| k <= i < |m| && m[i] == x;
      assert x == m[i];
      forall j | 0 <= j < k
        ensures m[j] != x
      {
        assert m[j] < m[i];
      }
    }
    if x in m && x !in m[..k] {
      var i :| 0 <= i < |m| && m[i] == x;
      assert m[k..][i - k] == x;
    }
  }

  /** Recording the first `k` missing indices as covered leaves the rest missing. */
  lemma {:induction false} MissingAfterRecording(n: nat, covered: set<int>, k: nat)
    requires k <= |MissingBelow(n, covered)|
    ensures MissingBelow(n, covered + set x | x in MissingBelow(n, covered)[..k])
         == MissingBelow(n, covered)[k..]
  {
    var m := MissingBelow(n, covered);
    var m' := MissingBelow(n, covered + set x | x in m[..k]);
    forall x
      ensures x in m' <==> x in m[k..]
    {
      SuffixElements(m, k, x);
    }
    assert StrictlyIncreasing(m[k..]);
    IncreasingWithSameElementsEqual(m', m[k..]);
  }

  lemma PlanIndicesAreMissing(cfg: ControllerConfig, now: int, active: seq<ResourceOfferContainer>)
    ensures OfferIndices(OffersToAdd(cfg, now, active)) == MissingIndices(cfg, active)
  {
  }

  lemma OffersForSuffix(cfg: ControllerConfig, now: int, indices: seq<int>, k: nat)
    requires forall j :: 0 <= j < |indices| ==> 0 <= indices[j] < |cfg.offers.specs|
    requires k <= |indices|
    ensures OffersFor(cfg, now, indices[k..]) == OffersFor(cfg, now, indices)[k..]
  {
  }

  /**
   After a cycle that committed the first `|added|` planned offers and then failed,
   the next cycle plans exactly the rest, whatever its clock reads.
   */
  lemma {:induction false} ResumesAfterPartialSubmission(
    cfg: ControllerConfig, now: int, later: int,
    active: seq<ResourceOfferContainer>, added: seq<ResourceOfferContainer>)
    requires RecordsPrefix(added, OffersToAdd(cfg, now, active))
    ensures OffersToAdd(cfg, later, active + added) == OffersToAdd(cfg, later, active)[|added|..]
  {
    var k := |added|;
    var m := MissingIndices(cfg, active);
    PlanIndicesAreMissing(cfg, now, active);
    assert ContainerIndices(added) == m[..k];
    ContainerIndicesAppend(active, added);
    var before := ExistingOffers(active).Keys;
    var after := ExistingOffers(active + added).Keys;
    assert after == before + set x | x in m[..k];
    MissingAfterRecording(|cfg.offers.specs|, before, k);
    PlanFromExisting(cfg, later, active + added);
    PlanFromExisting(cfg, later, active);
    OffersForSuffix(cfg, later, m, k);
  }

  /** The offers of a submission the solver accepted: all attempted ones but a failing last call. */
  function Committed(sent: Submission): seq<ResourceOffer>
  {
    if sent.outcome.Pass? || sent.attempted == [] then sent.attempted
    else sent.attempted[..|sent.attempted| - 1]
  }

  /**
   Whatever the replies to the add-offer calls, once the solver records the offers a
   cycle committed, the next cycle plans exactly the ones left uncommitted; there is
   no rollback and no offer is planned twice.
   */
  lemma NextCyclePlansUncommitted(
    cfg: ControllerConfig, now: int, later: int, active: seq<ResourceOfferContainer>,
    adds: seq<Outcome>, added: seq<ResourceOfferContainer>)
    requires var committed := Committed(SubmitFrom(OffersToAdd(cfg, now, active), adds, 0));
             && |added| == |committed|
             && forall j :: 0 <= j < |added| ==> added[j].resourceOffer == committed[j]
    ensures OffersToAdd(cfg, later, active + added) == OffersToAdd(cfg, later, active)[|added|..]
  {
    var plan := OffersToAdd(cfg, now, active);
    var committed := Committed(SubmitFrom(plan, adds, 0));
    assert committed == plan[..|committed|];
    ResumesAfterPartialSubmission(cfg, now, later, active, added);
  }

  /** Once every planned offer is recorded, the next cycle has nothing to add. */
  lemma ConvergesAfterFullSubmission(
    cfg: ControllerConfig, now: int, later: int,
    active: seq<ResourceOfferContainer>, added: seq<ResourceOfferContainer>)
    requires RecordsPrefix(added, OffersToAdd(cfg, now, active))
    requires |added| == |OffersToAdd(cfg, now, active)|
    ensures OffersToAdd(cfg, later, active + added) == []
  {
    ResumesAfterPartialSubmission(cfg, now, later, active, added);
  }

  /**
   If the snapshot holds at most one active offer per index, it still does after
   the offers of a cycle are recorded, whether the cycle completed or stopped early.
   */
  lemma {:induction false} UniqueIndicesPreserved(
    cfg: ControllerConfig, now: int,
    active: seq<ResourceOfferContainer>, added: seq<ResourceOfferContainer>)
    requires Distinct(ContainerIndices(active))
    requires RecordsPrefix(added, OffersToAdd(cfg, now, active))
    ensures Distinct(ContainerIndices(active + added))
  {
    var k := |added|;
    var planned := OfferIndices(OffersToAdd(cfg, now, active));
    assert ContainerIndices(added) == planned[..k];
    ContainerIndicesAppend(active, added);
    forall x | x in planned[..k]
      ensures x !in ContainerIndices(active)
    {
      assert x in planned;
    }
    DistinctAppend(ContainerIndices(active), planned[..k]);
  }
}
