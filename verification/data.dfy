/**
 The records the controller reads and builds. Machine specs, pricing and timeouts
 are carried through unchanged, so only their shape matters here.
 */
module Data {

  /** One entry of the capacity catalogue. */
  datatype MachineSpec = MachineSpec(gpu: nat, cpu: nat, ram: nat)

  datatype DealPricing = DealPricing(
    instructionPrice: nat,
    paymentCollateral: nat,
    resultsCollateralMultiple: nat,
    mediationFee: nat)

  datatype DealTimeout = DealTimeout(timeout: nat, collateral: nat)

  datatype DealTimeouts = DealTimeouts(
    agree: DealTimeout,
    submitResults: DealTimeout,
    judgeResults: DealTimeout,
    mediate: DealTimeout)

  /** A capacity advertisement; `index` is its position in the catalogue and its identity key. */
  datatype ResourceOffer = ResourceOffer(
    createdAt: int,
    resourceProvider: string,
    index: int,
    spec: MachineSpec,
    modules: seq<string>,
    mode: string,
    defaultPricing: DealPricing,
    defaultTimeouts: DealTimeouts,
    modulePricing: map<string, DealPricing>,
    moduleTimeouts: map<string, DealTimeouts>,
    trustedParties: seq<string>)

  /** The solver's record of an offer, under an identifier the solver assigns. */
  datatype ResourceOfferContainer = ResourceOfferContainer(id: string, resourceOffer: ResourceOffer)

  /** The solver's record of a deal, as far as the controller reads it. */
  datatype DealContainer = DealContainer(id: string, resourceProvider: string, state: string)

  /** The `offers` section of the provider's options. */
  datatype OfferOptions = OfferOptions(
    specs: seq<MachineSpec>,
    modules: seq<string>,
    mode: string,
    defaultPricing: DealPricing,
    defaultTimeouts: DealTimeouts,
    trustedParties: seq<string>)

  /** What the controller knows about itself: its own ledger address and its offer options. */
  datatype ControllerConfig = ControllerConfig(address: string, offers: OfferOptions)

  /** The catalogue index of every container, in snapshot order. */
  function ContainerIndices(active: seq<ResourceOfferContainer>): seq<int>
  {
    seq(|active|, j requires 0 <= j < |active| => active[j].resourceOffer.index)
  }

  /** The catalogue index of every offer, in order. */
  function OfferIndices(offers: seq<ResourceOffer>): seq<int>
  {
    seq(|offers|, j requires 0 <= j < |offers| => offers[j].index)
  }
}
