/**
 * Location classification by condition bits (advent.h:59-68): CNDBIT, FORCED,
 * FOREST, OUTSID, INDEEP, LIQLOC and DARK.
 */
module Locations {
  import opened Dungeon
  import opened Game
  import Bits

  /**
   * CNDBIT(L,N): the condition word of location L has bit N set.  Bit 0 is
   * the units bit, no bit at or above the length of a non-negative word is
   * set, and the word 2^N has bit N set.
   */
  function CndBit(d: Dungeon, l: int, n: nat): (r: bool)
    requires 0 <= l < |d.conditions|
    ensures n == 0 ==> (r <==> d.conditions[l] % 2 == 1)
    ensures 0 <= d.conditions[l] < Bits.Pow2(n) ==> !r
    ensures d.conditions[l] == Bits.Pow2(n) ==> r
  {
    Bits.TstBitPow2(n);
    Bits.TstBit(d.conditions[l], n)
  }

  /**
   * FORCED(LOC): the location moves the player on without asking for input;
   * it holds for the condition word that has only the forced bit set, and
   * not for an empty condition word.
   */
  function Forced(d: Dungeon, l: int): (r: bool)
    requires 0 <= l < |d.conditions|
    ensures d.conditions[l] == Bits.Pow2(d.condForced) ==> r
    ensures d.conditions[l] == 0 ==> !r
  {
    CndBit(d, l, d.condForced)
  }

  /**
   * FOREST(LOC): the location is part of the forest; it holds for the
   * condition word that has only the forest bit set, and not for an empty one.
   */
  function Forest(d: Dungeon, l: int): (r: bool)
    requires 0 <= l < |d.conditions|
    ensures d.conditions[l] == Bits.Pow2(d.condForest) ==> r
    ensures d.conditions[l] == 0 ==> !r
  {
    CndBit(d, l, d.condForest)
  }

  /** OUTSID(LOC): the location is above ground; every forest location is. */
  function Outsid(d: Dungeon, l: int): (r: bool)
    requires 0 <= l < |d.conditions|
    ensures Forest(d, l) ==> r
    ensures r && !Forest(d, l) ==> CndBit(d, l, d.condAbove)
  {
    CndBit(d, l, d.condAbove) || Forest(d, l)
  }

  /** INDEEP(LOC): the location is in the deep cave, at or past the Hall of Mists. */
  function Indeep(d: Dungeon, l: int): (r: bool)
    requires 0 <= l < |d.conditions|
    ensures r ==> l >= d.locMisthall && !Outsid(d, l)
    ensures r ==> !Forest(d, l) && !CndBit(d, l, d.condAbove)
    ensures l < d.locMisthall ==> !r
  {
    l >= d.locMisthall && !Outsid(d, l)
  }

  /**
   * LIQLOC(LOC): the liquid at a location: none unless the location is fluid,
   * oil if it is also oily, water otherwise.
   */
  function Liqloc(d: Dungeon, l: int): (r: int)
    requires d.Valid() && 0 <= l < |d.conditions|
    ensures r == d.noObject <==> !CndBit(d, l, d.condFluid)
    ensures r == d.oil <==> CndBit(d, l, d.condFluid) && CndBit(d, l, d.condOily)
    ensures r == d.water <==> CndBit(d, l, d.condFluid) && !CndBit(d, l, d.condOily)
  {
    DistinctLiquids(d);
    if CndBit(d, l, d.condFluid) then
      if CndBit(d, l, d.condOily) then d.oil else d.water
    else d.noObject
  }

  /** The game state fits the dungeon and the player stands on a location of it. */
  predicate Placed(d: Dungeon, g: GameState)
  {
    d.Valid() && Fits(d, g) && d.IsLocation(g.loc)
  }

  /**
   * DARK(): the player's location is dark when it is not lit and the lamp is
   * either unlit or not here.
   */
  function Dark(d: Dungeon, g: GameState): (r: bool)
    requires Placed(d, g)
    ensures CndBit(d, g.loc, d.condLit) ==> !r
    ensures Here(g, d.lamp) && g.prop[d.lamp] != d.lampDark ==> !r
    ensures !r ==> CndBit(d, g.loc, d.condLit) || (Here(g, d.lamp) && g.prop[d.lamp] != d.lampDark)
  {
    !CndBit(d, g.loc, d.condLit) && (g.prop[d.lamp] == d.lampDark || !Here(g, d.lamp))
  }

  /** A lit lamp carried by the player keeps every location light. */
  lemma CarriedLitLampSeesEverywhere(d: Dungeon, g: GameState, l: int)
    requires Placed(d, g) && d.IsLocation(l)
    requires Toting(g, d.lamp) && g.prop[d.lamp] != d.lampDark
    ensures !Dark(d, g.(loc := l))
  {
  }

  /**
   * Whether it is dark depends on the location, its condition word and the
   * lamp's place, fixed and property fields, and on nothing else.
   */
  lemma DarkFrame(d: Dungeon, g: GameState, g': GameState)
    requires Placed(d, g) && Placed(d, g')
    requires g.loc == g'.loc
    requires g.place[d.lamp] == g'.place[d.lamp] && g.fixed[d.lamp] == g'.fixed[d.lamp]
    requires g.prop[d.lamp] == g'.prop[d.lamp]
    ensures Dark(d, g) == Dark(d, g')
  {
  }

  // ---------------------------------------------------------------------------
  // Reading the classifications off a location's attributes

  /**
   * The attributes of a location that its condition bits record: the six the
   * macros read, and the flags `rest` of every other bit position (a flag of
   * `rest` at a named position is ignored).
   */
  datatype Attributes = Attributes(lit: bool, oily: bool, fluid: bool,
                                   forced: bool, forest: bool, above: bool,
                                   rest: seq<bool>)

  /** One more than the highest condition bit the macros read. */
  function Width(d: Dungeon): (w: nat)
    ensures w > d.condLit && w > d.condOily && w > d.condFluid
    ensures w > d.condForced && w > d.condForest && w > d.condAbove
  {
    var m1 := if d.condLit > d.condOily then d.condLit else d.condOily;
    var m2 := if d.condFluid > d.condForced then d.condFluid else d.condForced;
    var m3 := if d.condForest > d.condAbove then d.condForest else d.condAbove;
    var m12 := if m1 > m2 then m1 else m2;
    (if m12 > m3 then m12 else m3) + 1
  }

  /** Bit position `i` is one the macros read. */
  predicate Named(d: Dungeon, i: nat)
  {
    i == d.condLit || i == d.condOily || i == d.condFluid
    || i == d.condForced || i == d.condForest || i == d.condAbove
  }

  /** Whether a bit position carries a set attribute. */
  predicate FlagAt(d: Dungeon, a: Attributes, i: nat)
  {
    if Named(d, i) then
      || (i == d.condLit && a.lit)
      || (i == d.condOily && a.oily)
      || (i == d.condFluid && a.fluid)
      || (i == d.condForced && a.forced)
      || (i == d.condForest && a.forest)
      || (i == d.condAbove && a.above)
    else i < |a.rest| && a.rest[i]
  }

  /** Number of bit positions a condition word for `a` spans. */
  function Span(d: Dungeon, a: Attributes): (n: nat)
    ensures n >= Width(d) && n >= |a.rest|
  {
    if Width(d) > |a.rest| then Width(d) else |a.rest|
  }

  /** The condition word that records exactly the given attributes. */
  function ConditionWord(d: Dungeon, a: Attributes): nat
  {
    Bits.MaskOf(seq(Span(d, a), (i: int) => i >= 0 && FlagAt(d, a, i)))
  }

  /** Every bit of a condition word built from attributes is the flag at that bit. */
  lemma ConditionWordBit(d: Dungeon, a: Attributes, l: int, n: nat)
    requires 0 <= l < |d.conditions| && d.conditions[l] == ConditionWord(d, a)
    ensures CndBit(d, l, n) == FlagAt(d, a, n)
  {
    var flags := seq(Span(d, a), (i: int) => i >= 0 && FlagAt(d, a, i));
    Bits.TstBitOfMask(flags, n);
  }

  /** The attributes a non-negative condition word records, bit by bit. */
  function AttributesOf(d: Dungeon, w: nat): (a: Attributes)
    ensures a.lit == Bits.TstBit(w, d.condLit) && a.above == Bits.TstBit(w, d.condAbove)
    ensures |a.rest| == w
  {
    Attributes(Bits.TstBit(w, d.condLit), Bits.TstBit(w, d.condOily),
               Bits.TstBit(w, d.condFluid), Bits.TstBit(w, d.condForced),
               Bits.TstBit(w, d.condForest), Bits.TstBit(w, d.condAbove),
               Bits.BitsBelow(w, w))
  }

  /**
   * Every non-negative condition word is the word of the attributes it
   * records, so ClassifyByAttributes covers every such location.
   */
  lemma ConditionWordOf(d: Dungeon, w: nat)
    ensures ConditionWord(d, AttributesOf(d, w)) == w
  {
    var a := AttributesOf(d, w);
    var n := Span(d, a);
    var flags := seq(n, (i: int) => i >= 0 && FlagAt(d, a, i));
    Bits.Pow2Exceeds(w);
    forall i | 0 <= i < n
      ensures flags[i] == Bits.BitsBelow(w, n)[i]
    {
      Bits.BitsBelowAt(w, n, i);
      if !Named(d, i) {
        if i < w {
          Bits.BitsBelowAt(w, w, i);
        } else {
          Bits.Pow2Monotone(w, i);
        }
      }
    }
    assert flags == Bits.BitsBelow(w, n);
    Bits.Pow2Monotone(w, n);
    Bits.MaskOfBitsBelow(w, n);
  }

  /**
   * For a location whose condition word records attributes `a`, every
   * classification macro reads back what `a` says.
   */
  lemma ClassifyByAttributes(d: Dungeon, a: Attributes, l: int)
    requires d.Valid() && 0 <= l < |d.conditions| && d.conditions[l] == ConditionWord(d, a)
    ensures CndBit(d, l, d.condLit) == a.lit
    ensures Forced(d, l) == a.forced
    ensures Forest(d, l) == a.forest
    ensures Outsid(d, l) == (a.above || a.forest)
    ensures Indeep(d, l) == (l >= d.locMisthall && !a.above && !a.forest)
    ensures Liqloc(d, l) == (if a.fluid then (if a.oily then d.oil else d.water) else d.noObject)
  {
    var bits := [d.condLit, d.condOily, d.condFluid, d.condForced, d.condForest, d.condAbove];
    assert bits[0] != bits[1] && bits[0] != bits[2] && bits[0] != bits[3]
        && bits[0] != bits[4] && bits[0] != bits[5];
    assert bits[1] != bits[2] && bits[1] != bits[3] && bits[1] != bits[4] && bits[1] != bits[5];
    assert bits[2] != bits[3] && bits[2] != bits[4] && bits[2] != bits[5];
    assert bits[3] != bits[4] && bits[3] != bits[5] && bits[4] != bits[5];
    ConditionWordBit(d, a, l, d.condLit);
    ConditionWordBit(d, a, l, d.condOily);
    ConditionWordBit(d, a, l, d.condFluid);
    ConditionWordBit(d, a, l, d.condForced);
    ConditionWordBit(d, a, l, d.condForest);
    ConditionWordBit(d, a, l, d.condAbove);
  }
}
