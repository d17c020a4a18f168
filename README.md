# open-adventure: the macro layer of advent.h

This project models the macro layer of `advent.h`, the header of open-adventure,
a C port of the Colossal Cave Adventure game. The macros are small integer
rules over the global game state `struct game_t`. There are four groups:

- **Vocabulary namespace tagging.** A raw vocabulary id is tagged by adding its
  namespace's offset: motion +0, object +1000, action +2000, special +3000.
  `PROMOTE_WORD` and `DEMOTE_WORD` move a tag by ±1000. Tags are read back by
  their thousands digit. A digit outside 0..3 is the fatal condition
  `VOCABULARY_TYPE_N_OVER_1000_NOT_BETWEEN_0_AND_3`.
- **Stashed property values.** `STASHED(obj)` is `-1 - game.prop[obj]`. It maps
  a property value into a negative range from which the value can be recovered.
- **Object location predicates.** `TOTING`, `AT` and `HERE` read
  `game.place`, `game.fixed` and `game.loc`, with `CARRIED = -1`.
- **Location and object classification.** These are `CNDBIT`, `FORCED`,
  `FOREST`, `OUTSID`, `INDEEP`, `LIQLOC`, `DARK`, `LIQUID` and `GSTONE`.
  `MOD` is modelled too.

The one global `game` becomes a value, `Game.GameState`, passed to every macro.
It holds `loc`, `place`, `fixed` and `prop`, with the object tables as
sequences indexed by object id. The names that come from the generated
`dungeon.h` have unknown values: `LAMP`, `BOTTLE`, `WATER`, `OIL`, `NO_OBJECT`,
the gemstones, `LAMP_DARK`, `WATER_BOTTLE`, `OIL_BOTTLE`, `LOC_MISTHALL`, the
`COND_*` bit numbers, `NOBJECTS`, `NLOCATIONS` and the `conditions[]` table.
They are fields of `Dungeon.Dungeon`. Its `Valid()` predicate states what the
macros rely on: the named objects are distinct, the named condition bits are
distinct, and the two bottle states differ.

`tstbit` is only declared in the header (advent.h:233). The doc comment of
`CNDBIT`, which calls `tstbit(conditions[L],N)`, says "bit 0 is units bit", and the model takes that as its definition: `Bits.TstBit(mask, n)` is
`(mask / 2^n) % 2 == 1`. This is an assumption about code that is not part of
this model. `Bits.MaskOf` is an independent reference encoding of a list of
flags as a word. `Bits.TstBitOfMask` proves that the bit test reads back
exactly those flags. `Locations.Attributes` records what a condition word
says: the six attributes the macros read (lit, oily, fluid, forced, forest,
above ground) and the flags of every other bit position.
`Locations.ConditionWordOf` proves that every non-negative condition word is
the word of the attributes it records. `Locations.ClassifyByAttributes` then
states, for every such location, that `CNDBIT` of the lit bit, `FORCED`,
`FOREST`, `OUTSID`, `INDEEP` and `LIQLOC` return what those attributes say,
whatever the other bits hold.

Modules: `Failures` (Option, Result, `enum bugtype`), `Bits`, `CArith`,
`Dungeon`, `Vocabulary`, `Game`, `Locations` and `Phases` (the phase codes).

`STASHED` encodes an object's property value (`game.prop`), not its location
(advent.h:36-39).

## Model

| member | source | states |
|---|---|---|
| `Bits.TstBit` | advent.h:44 | bit 0 is the units bit, and no bit at or above the length of a non-negative mask is set |
| `Bits.TstBitPow2` | advent.h:44 | the word 2^n has bit n set |
| `Bits.TstBitShift` | advent.h:44 | bit k+1 of a mask is bit k of the mask shifted right by one (units-bit-first numbering) |
| `Bits.TstBitOfMask` | advent.h:44 | the bit test reads back exactly the flags a word was built from; bits past the flags are clear |
| `Vocabulary.MotionWord` | advent.h:70 | a raw id in [0,1000) tags into [0,1000) |
| `Vocabulary.ObjectWord` | advent.h:71 | a raw id in [0,1000) tags into [1000,2000) |
| `Vocabulary.ActionWord` | advent.h:72 | a raw id in [0,1000) tags into [2000,3000) |
| `Vocabulary.SpecialWord` | advent.h:73 | a raw id in [0,1000) tags into [3000,4000) |
| `Vocabulary.PromoteWord` | advent.h:74 | a tag in [0,3000) goes to [1000,4000) and keeps its raw id (the tag modulo 1000) |
| `Vocabulary.DemoteWord` | advent.h:75 | `PROMOTE_WORD` undoes `DEMOTE_WORD` |
| `Vocabulary.Tag` | advent.h:70-73 | a word's tag lies in its namespace's thousand |
| `Vocabulary.Promoted` | advent.h:74 | promotion is defined for every namespace except special, and raises the namespace index by one |
| `Vocabulary.Classify` | advent.h:79 | a tag is read by its thousands digit and remainder under C's truncating `/` and `%`. It reads back as a word exactly when it is in (-1000,4000), and the word re-tags to the same value. Its raw id is in range exactly when the tag is non-negative; the tags -999..-1 read as motion words with a negative raw id. Any other tag is the vocabulary-type bug |
| `Vocabulary.PromoteDemoteInverse` | advent.h:74-75 | `DEMOTE_WORD(PROMOTE_WORD(n)) == n` and `PROMOTE_WORD(DEMOTE_WORD(n)) == n` for every n |
| `Vocabulary.TagInjective` | advent.h:70-73 | the four ranges are disjoint: two in-range words have the same tag iff they are the same word |
| `Vocabulary.ClassifyTag` | advent.h:70-73 | tagging an in-range raw id and reading it back returns the same namespace and raw id |
| `Vocabulary.PromoteTag` | advent.h:70-74 | `PROMOTE_WORD` carries a motion tag to an object tag, an object tag to an action tag, and an action tag to a special tag, with the same raw id |
| `Vocabulary.ClassifyPromote` | advent.h:74 | promoting any non-negative valid non-special tag reads back as the next namespace with the same raw id |
| `Vocabulary.PromoteSpecialFails` | advent.h:73-74 | promoting a special tag leaves the four namespaces |
| `Vocabulary.SentinelsDistinct` | advent.h:21-22 | `WORD_NOT_FOUND` differs from `WORD_EMPTY`. The digit check reads it as a motion word whose raw id, -1, is out of range. `WORD_EMPTY` (0) is the tag of motion id 0 and reads back as that word, so the two are told apart only if no motion word has raw id 0 |
| `Game.PlacementOf` | advent.h:23 | a place value reads as carried exactly when it is `CARRIED` (-1), and otherwise as that location |
| `Game.AnchorOf` | advent.h:32-34 | a fixed value reads as free iff 0, as immovable iff -1, and as a second location iff positive |
| `Game.Toting` | advent.h:56 | `TOTING(obj)` holds exactly when `place[obj]` reads as carried |
| `Game.At` | advent.h:57 | at a location id above 0, `AT(obj)` holds exactly when the object is placed there or its second side is there; the fixed sentinels never make it `AT` |
| `Game.Here` | advent.h:58 | a carried object is `HERE`; at a location id above 0, `HERE(obj)` holds exactly when the object is carried, placed at that location, or has its second side there |
| `Game.CarriedIsHereEverywhere` | advent.h:56-58 | a carried object is `HERE` at every location |
| `Game.TwoPlacedAtBothSides` | advent.h:57 | an object placed at a location and anchored at a second one is `AT` both of them and at no other location above 0 |
| `Game.NotHereElsewhere` | advent.h:57-58 | an object that is not carried and is on neither side of the player's location is not `HERE` |
| `Game.HereFrame` | advent.h:57-58 | `HERE(obj)` depends only on `loc` and that object's `place` and `fixed` |
| `Game.Stashed` | advent.h:36-39 | every non-negative property value stashes to a negative value, and the value is recovered as `-1 - s` |
| `Game.StashedInjective` | advent.h:39 | two property values stash to the same value iff they are equal |
| `Game.StashedFoundCollides` | advent.h:36-39 | stashing `STATE_FOUND` (0) yields -1, which is `STATE_NOTFOUND` |
| `Game.PropStateOf` | advent.h:27-39 | reading a property value under the corrected stash encoding: -1 is not-found, non-negative values are ordinary, values below -1 are stashed, and `-2 - s` recovers the value stashed as `s` |
| `Game.Stash` | advent.h:36-39 | the corrected stash encoding: every non-negative value goes below -1 and reads back as stashed with the same value |
| `Game.StashNeverCollides` | advent.h:36-39 | corrected stashed values are never `STATE_NOTFOUND` or an ordinary value, and are distinct for distinct values |
| `Game.StashedFoundReadsNotFound` | advent.h:36-39 | the as-written stash of `STATE_FOUND` reads back as not-found, and the corrected one reads back as stashed |
| `Game.Liquid` | advent.h:60 | `LIQUID()` is `WATER` iff the bottle's property is `WATER_BOTTLE`, `OIL` iff it is `OIL_BOTTLE`, and `NO_OBJECT` otherwise |
| `Game.GemstoneCount` | advent.h:65 | exactly four objects are gemstones (emerald, ruby, amber, sapphire); `NO_OBJECT`, the lamp, the bottle and the liquids are not |
| `Game.Gstone` | advent.h:65 | `GSTONE` holds of the emerald, the ruby, the amber and the sapphire; `Game.GemstoneCount` states what that set is |
| `Locations.CndBit` | advent.h:59 | bit 0 is the units bit of the location's condition word; no bit at or above the length of a non-negative word is set; the word 2^N has bit N set |
| `Locations.Forced` | advent.h:62 | `FORCED` holds for a location whose condition word has only the forced bit set, and not for an empty condition word |
| `Locations.Forest` | advent.h:66 | `FOREST` holds for a location whose condition word has only the forest bit set, and not for an empty condition word |
| `Locations.Outsid` | advent.h:67 | every forest location is outside; an outside location that is not forest has the above-ground bit |
| `Locations.Indeep` | advent.h:68 | a deep location is at or past the Hall of Mists and is not outside (neither forest nor above ground); no location before the Hall of Mists is deep |
| `Locations.Liqloc` | advent.h:61 | `LIQLOC` is `NO_OBJECT` iff the fluid bit is clear; `OIL` iff fluid and oily; `WATER` iff fluid and not oily |
| `Locations.Dark` | advent.h:63 | a lit location is never dark; nor is any location where the lamp is here and not dark; a location that is not dark is lit or has the lit lamp here |
| `Locations.CarriedLitLampSeesEverywhere` | advent.h:63 | carrying a lamp that is not dark makes every location not dark |
| `Locations.DarkFrame` | advent.h:63 | darkness depends only on the location (and its condition word) and on the lamp's `place`, `fixed` and `prop` |
| `Locations.ConditionWordBit` | advent.h:59 | every bit of the condition word built from given attributes is the flag the attributes give at that bit, for the six named bits and all others |
| `Locations.ConditionWordOf` | advent.h:59 | every non-negative condition word is the word of the attributes it records, so the next row covers every location with a non-negative condition word |
| `Locations.ClassifyByAttributes` | advent.h:59-68 | for a location whose condition word records given attributes, the lit bit, `FORCED`, `FOREST`, `OUTSID`, `INDEEP` and `LIQLOC` return what the attributes say |
| `CArith.TruncDiv` | advent.h:55 | C's `/`: the quotient's magnitude is the quotient of the magnitudes, and its sign follows the signs of the operands |
| `CArith.TruncDivProduct` | advent.h:55 | the divisor times the truncating quotient is the dividend less the remainder of the magnitudes, with the dividend's sign |
| `CArith.Mod` | advent.h:55 | `MOD(N,M)` is C's `%`: `N == M * (N / M) + MOD(N,M)` with truncating `/`; it is smaller than M in magnitude; it takes the dividend's sign; it agrees with Dafny's `%` for a non-negative dividend |
| `CArith.ModDiffersOnNegatives` | advent.h:55 | for every negative dividend whose C remainder is non-zero, C's `%` is negative while Euclidean `%` is not (-7 mod 3 is -1, not 2) |
| `Phases.Ordinal` | advent.h:99-113 | each phase code's value is its position in the enum, 0 to 12 |
| `Phases.PhaseOf` | advent.h:86 | an action's return value names a phase code exactly when it is in 0..12; any other value is the bug `ACTION_RETURNED_PHASE_CODE_BEYOND_END_OF_SWITCH` |
| `Phases.PhaseOfOrdinal` | advent.h:99-113 | every phase code reads back from its own value |
| `Phases.OrdinalInjective` | advent.h:99-113 | distinct phase codes have distinct values |

## Left out

- The functions that are only declared, since their bodies are not part of this model: `tokenize`, `packed_to_token`, `token_to_packed`, `wordeq`, `wordempty`, `wordclear`, `word_count`, the `get_*_vocab_id` lookups, `juggle`, `move`, `put`, `carry`, `drop`, `atdwrf`, `setbit`, `make_zzword`, `set_seed`, `get_next_lcg_value`, `randrange`, `score`, `terminate`, `savefile`, `suspend`, `resume`, `restore`, `initialise`, `action` and `state_change`.
- `tstbit` is modelled only through the doc comment of `CNDBIT`, as described above. Its C parameter is an `int`; a negative bit number is not modelled.
- `FORCED`: its doc comment (advent.h:46) says "COND=2", an equality test on the whole condition word. The macro (advent.h:62) tests only the forced bit, so a word with other bits set as well is also forced. The model follows the macro.
- `Phases.PhaseOf`: the dispatch switch that the bug `ACTION_RETURNED_PHASE_CODE_BEYOND_END_OF_SWITCH` (advent.h:86) refers to is not in the header. The model takes the end of that switch to be the end of `enum phase_codes`, so every value 0..12 reads as a phase code. Whether every code has a case in the switch is not known from advent.h.
- `PCT(N)`: it draws from `randrange`, which is not part of this model.
- `DESTROY(N)`: it calls `move`, which is not part of this model.
- `BUG(x)` and `bug()`: `bug()` aborts the process. The fatal conditions appear only as the `Failure` values of `Vocabulary.Classify` and `Phases.PhaseOf`.
- The phase-code state machine: only the enumeration is in the header, with no transitions. `Phases` declares the codes and their numbering and gives them no behaviour.
- I/O and settings: the speak family, `get_input`, `echo_input`, `yes`, `silent_yes`, `struct settings_t` (its `FILE *logfp`), `READ_MODE`, `WRITE_MODE` and `struct command_t`. None of these is read by the macros.
- The other fields of `struct game_t` (the PRNG state, clocks, counters, flags, dwarf tables, `abbrev`, `atloc`, `link`, `hinted`, `hintlc`, `zzword`). No macro reads them.
- 64-bit width of `long`: the macros are modelled on unbounded integers. The tags, stashed values and remainders involved stay far inside the range of a `long` for the object, location and vocabulary counts of the game.
- `Vocabulary.Classify`: the header has no code that reads a tag back. The model reads it as C would: the thousands digit and the remainder under truncating `/` and `%`, with the digit checked against the 0..3 range named by the bug condition at advent.h:79.
- The constants nothing in the model reads: `LINESIZE`, `TOKLEN`, `NDWARVES`, `PIRATE`, `INVLIMIT`, `INTRANSITIVE`, `GAMELIMIT`, `NOVICELIMIT`, `WARNTIME`, `FLASHTIME`, `PANICTIME`, `BATTERYLIFE` and `STATE_IN_CAVITY`. They are limits and state values used by code that is not part of this model.
- The enumerations `speaktype`, `termination` and `speechpart`: no macro reads them, and their values carry no meaning in the header.
- `Locations.ConditionWordOf`: a negative condition word is not covered. The model gives no reading of the attributes of a negative word.
- `Game.Gstone`: it carries no contract of its own; `Game.GemstoneCount` states its properties.

## Findings

| source | as written | input that shows it | evidently intended | confidence | as-written member | corrected member |
|---|---|---|---|---|---|---|
| advent.h:36-39 | `STASHED(obj)` is `-1 - game.prop[obj]`, which maps the property values 0, 1, 2, ... to -1, -2, -3, ... | `game.prop[obj] == STATE_FOUND` (0) stashes to -1, which is `STATE_NOTFOUND`. The comment says the stashed range avoids that value | stashed values lie strictly below -1; for example `-2 - p`, recovered as `-2 - s` | medium; not executed (the callers that stash are not part of this model, so whether they ever stash the value 0 is not known) | `Game.StashedFoundCollides`, `Game.StashedFoundReadsNotFound` | `Game.Stash`, `Game.StashNeverCollides` |
