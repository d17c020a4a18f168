/**
 * Option and Result, and the fatal conditions of `enum bugtype`
 * (advent.h:77-87).  In the program `bug()` aborts the process; in the model a
 * fatal condition is the `Failure` of a `Result`.
 */
module Failures {

  datatype Option<+T> = None | Some(value: T)

  datatype Result<+T, +E> = Success(value: T) | Failure(error: E)

  /** enum bugtype */
  datatype Bug =
    | SpecialTravel500GtLGt300ExceedsGotoList
    | VocabularyTypeNOver1000NotBetween0And3
    | IntransitiveActionVerbExceedsGotoList
    | TransitiveActionVerbExceedsGotoList
    | ConditionalTravelEntryWithNoAlteration
    | LocationHasNoTravelEntries
    | HintNumberExceedsGotoList
    | SpeechpartNotTransitiveOrIntransitiveOrUnknown
    | ActionReturnedPhaseCodeBeyondEndOfSwitch
}
