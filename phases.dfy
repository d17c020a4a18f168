/**
 * The phase codes of advent.h:99-113.  They are the C enum values 0..12 in
 * declaration order, an order the header warns not to perturb, and an action
 * returning a number past the end of the list is the fatal condition
 * ACTION_RETURNED_PHASE_CODE_BEYOND_END_OF_SWITCH.  The transitions between
 * phases live in code that is not part of this model.
 */
module Phases {
  import opened Failures

  /** enum phase_codes */
  datatype PhaseCode =
    | GoTerminate | GoMove | GoTop | GoClearObj | GoCheckHint | GoCheckFoo
    | GoDirection | GoLookup | GoWord2 | GoSpecials | GoUnknown | GoAction
    | GoDwarfWake

  /** The number of phase codes. */
  const PHASE_COUNT: int := 13

  /** The C enum value of a phase code: its position in the declaration. */
  function Ordinal(p: PhaseCode): (k: int)
    ensures 0 <= k < PHASE_COUNT
  {
    match p
    case GoTerminate => 0
    case GoMove => 1
    case GoTop => 2
    case GoClearObj => 3
    case GoCheckHint => 4
    case GoCheckFoo => 5
    case GoDirection => 6
    case GoLookup => 7
    case GoWord2 => 8
    case GoSpecials => 9
    case GoUnknown => 10
    case GoAction => 11
    case GoDwarfWake => 12
  }

  /** The phase code an action's return value names, or the bug for a value off the end. */
  function PhaseOf(code: int): (r: Result<PhaseCode, Bug>)
    ensures r.Success? <==> 0 <= code < PHASE_COUNT
    ensures r.Success? ==> Ordinal(r.value) == code
    ensures r.Failure? ==> r.error == ActionReturnedPhaseCodeBeyondEndOfSwitch
  {
    if code < 0 || code >= PHASE_COUNT then Failure(ActionReturnedPhaseCodeBeyondEndOfSwitch)
    else Success([GoTerminate, GoMove, GoTop, GoClearObj, GoCheckHint, GoCheckFoo,
                  GoDirection, GoLookup, GoWord2, GoSpecials, GoUnknown, GoAction,
                  GoDwarfWake][code])
  }

  /** Every phase code reads back from its own number, so no two share a number. */
  lemma PhaseOfOrdinal(p: PhaseCode)
    ensures PhaseOf(Ordinal(p)) == Success(p)
  {
  }

  /** Distinct phase codes have distinct numbers. */
  lemma OrdinalInjective(p: PhaseCode, q: PhaseCode)
    ensures Ordinal(p) == Ordinal(q) <==> p == q
  {
  }
}
