/** What the other modules share. */
module Basics {

  datatype Option<T> = None | Some(value: T)

  /** Definitions that a proof looks into only where it asks to. */
  datatype Topic = OfTotals | OfLists | OfPromotions | OfPrices | OfCollectors

  /** Always true: naming it is what makes the verifier unfold the definitions of a topic. */
  ghost predicate Look(topic: Topic, yes: bool) {
    yes || !yes
  }
}
