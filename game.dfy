/**
 * The game-state fields the macros of advent.h read (struct game_t,
 * advent.h:121-179), the sentinel constants they compare against, and the
 * object macros: STASHED, TOTING, AT, HERE, LIQUID and GSTONE.
 *
 * The program keeps one global `game`; here it is a value passed to every
 * macro.  Object tables are sequences indexed by object id.
 */
module Game {
  import opened Dungeon

  // Sentinels of advent.h:23-34.
  const CARRIED: int := -1
  const STATE_NOTFOUND: int := -1
  const STATE_FOUND: int := 0
  const IS_FIXED: int := -1
  const IS_FREE: int := 0

  /** The fields of struct game_t that the macros read. */
  datatype GameState = GameState(
    loc: int,             // game.loc: the player's location
    place: seq<int>,      // game.place[obj]: where the object is, or CARRIED
    fixed: seq<int>,      // game.fixed[obj]: IS_FIXED, IS_FREE or its second location
    prop: seq<int>        // game.prop[obj]: the object's property (state) value
  )

  /** The object tables are sized NOBJECTS + 1, as in struct game_t. */
  predicate Fits(d: Dungeon, g: GameState)
  {
    |g.place| == d.nobjects + 1 && |g.fixed| == d.nobjects + 1 && |g.prop| == d.nobjects + 1
  }

  // ---------------------------------------------------------------------------
  // Where an object is: TOTING, AT, HERE (advent.h:56-58)

  /** What the place field of an object says, with the CARRIED sentinel made explicit. */
  datatype Placement = Carried | InWorld(loc: int)

  function PlacementOf(p: int): (r: Placement)
    ensures r == Carried <==> p == CARRIED
    ensures r.InWorld? ==> r.loc == p
  {
    if p == CARRIED then Carried else InWorld(p)
  }

  /** What the fixed field of an object says (advent.h:32-34). */
  datatype Anchor = Free | Immovable | SecondPlace(loc: int) | Undefined(code: int)

  function AnchorOf(f: int): (r: Anchor)
    ensures r == Free <==> f == IS_FREE
    ensures r == Immovable <==> f == IS_FIXED
    ensures r.SecondPlace? <==> f > 0
    ensures r.SecondPlace? ==> r.loc == f
  {
    if f == IS_FREE then Free
    else if f == IS_FIXED then Immovable
    else if f > 0 then SecondPlace(f)
    else Undefined(f)
  }

  /** TOTING(OBJ): the object is being carried. */
  function Toting(g: GameState, obj: int): (r: bool)
    requires 0 <= obj < |g.place|
    ensures r <==> PlacementOf(g.place[obj]) == Carried
  {
    g.place[obj] == CARRIED
  }

  /**
   * AT(OBJ): the object is at the player's location, on either side if
   * two-placed.  At a real location (ids start at 1) the sentinels never make
   * an object AT: it is there when placed there or when its second side is.
   */
  function At(g: GameState, obj: int): (r: bool)
    requires 0 <= obj < |g.place| && obj < |g.fixed|
    ensures g.loc > 0 ==>
      (r <==> PlacementOf(g.place[obj]) == InWorld(g.loc) || AnchorOf(g.fixed[obj]) == SecondPlace(g.loc))
  {
    g.place[obj] == g.loc || g.fixed[obj] == g.loc
  }

  /**
   * HERE(OBJ): the object is at the player's location or is being carried.  A
   * carried object is HERE at every location; at a real location nothing but
   * being placed there or anchored there makes it HERE otherwise.
   */
  function Here(g: GameState, obj: int): (r: bool)
    requires 0 <= obj < |g.place| && obj < |g.fixed|
    ensures PlacementOf(g.place[obj]) == Carried ==> r
    ensures g.loc > 0 ==>
      (r <==>
         || PlacementOf(g.place[obj]) == Carried
         || PlacementOf(g.place[obj]) == InWorld(g.loc)
         || AnchorOf(g.fixed[obj]) == SecondPlace(g.loc))
  {
    At(g, obj) || Toting(g, obj)
  }

  /** A carried object is HERE wherever the player goes. */
  lemma CarriedIsHereEverywhere(g: GameState, obj: int, l: int)
    requires 0 <= obj < |g.place| && obj < |g.fixed|
    requires Toting(g, obj)
    ensures Here(g.(loc := l), obj)
  {
  }

  /**
   * An object placed at a location and anchored at a second one is AT both
   * of them and at no other real location.
   */
  lemma TwoPlacedAtBothSides(g: GameState, obj: int)
    requires 0 <= obj < |g.place| && obj < |g.fixed|
    requires g.place[obj] > 0 && AnchorOf(g.fixed[obj]).SecondPlace?
    ensures At(g.(loc := g.place[obj]), obj) && At(g.(loc := g.fixed[obj]), obj)
    ensures forall l :: l > 0 && l != g.place[obj] && l != g.fixed[obj] ==> !At(g.(loc := l), obj)
  {
  }

  /** An object neither carried nor on either side of the player's location is not HERE. */
  lemma NotHereElsewhere(g: GameState, obj: int)
    requires 0 <= obj < |g.place| && obj < |g.fixed|
    requires g.place[obj] != CARRIED && g.place[obj] != g.loc && g.fixed[obj] != g.loc
    ensures !Here(g, obj)
  {
  }

  /** Whether an object is HERE depends only on the location and that object's fields. */
  lemma HereFrame(g: GameState, g': GameState, obj: int)
    requires 0 <= obj < |g.place| && obj < |g.fixed|
    requires 0 <= obj < |g'.place| && obj < |g'.fixed|
    requires g.loc == g'.loc && g.place[obj] == g'.place[obj] && g.fixed[obj] == g'.fixed[obj]
    ensures Here(g, obj) == Here(g', obj)
  {
  }

  // ---------------------------------------------------------------------------
  // Stashed property values (advent.h:27-39)

  /** STASHED(obj): the object's property value mapped into the negative range, as written. */
  function Stashed(g: GameState, obj: int): (s: int)
    requires 0 <= obj < |g.prop|
    ensures g.prop[obj] >= 0 ==> s < 0
    ensures -1 - s == g.prop[obj]
  {
    -1 - g.prop[obj]
  }

  /** Distinct property values stash to distinct values. */
  lemma StashedInjective(g: GameState, h: GameState, obj: int)
    requires 0 <= obj < |g.prop| && obj < |h.prop|
    ensures Stashed(g, obj) == Stashed(h, obj) <==> g.prop[obj] == h.prop[obj]
  {
  }

  /**
   * As written, stashing the property value STATE_FOUND gives -1, the value
   * of STATE_NOTFOUND that the stashed range was meant to avoid.
   */
  lemma StashedFoundCollides(g: GameState, obj: int)
    requires 0 <= obj < |g.prop| && g.prop[obj] == STATE_FOUND
    ensures Stashed(g, obj) == STATE_NOTFOUND
  {
  }

  /** What a property value says: not yet found, an ordinary value, or a stashed value. */
  datatype PropState = NotFound | Value(v: int) | StashedValue(v: int)

  /**
   * Reads a property value under the corrected stash encoding: stashed values
   * lie below -1, and `-2 - s` recovers the value stashed as `s`.
   */
  function PropStateOf(p: int): (r: PropState)
    ensures r == NotFound <==> p == STATE_NOTFOUND
    ensures r.Value? <==> p >= 0
    ensures r.Value? ==> r.v == p
    ensures r.StashedValue? <==> p < STATE_NOTFOUND
    ensures r.StashedValue? ==> r.v >= 0 && r.v == -2 - p
  {
    if p == STATE_NOTFOUND then NotFound
    else if p >= 0 then Value(p)
    else StashedValue(-2 - p)
  }

  /** The stash encoding with the collision removed: values 0, 1, ... go to -2, -3, .... */
  function Stash(p: int): (s: int)
    requires p >= 0
    ensures s < STATE_NOTFOUND
    ensures PropStateOf(s) == StashedValue(p)
  {
    -2 - p
  }

  /** The corrected encoding never reads back as not-found or as an ordinary value. */
  lemma StashNeverCollides(p: int, q: int)
    requires p >= 0 && q >= 0
    ensures Stash(p) != STATE_NOTFOUND && Stash(p) != q
    ensures Stash(p) == Stash(q) <==> p == q
  {
  }

  /** The as-written encoding of STATE_FOUND reads back as not-found, not as stashed. */
  lemma StashedFoundReadsNotFound(g: GameState, obj: int)
    requires 0 <= obj < |g.prop| && g.prop[obj] == STATE_FOUND
    ensures PropStateOf(Stashed(g, obj)) == NotFound
    ensures PropStateOf(Stash(g.prop[obj])) == StashedValue(STATE_FOUND)
  {
  }

  // ---------------------------------------------------------------------------
  // LIQUID and GSTONE (advent.h:60, 65)

  /** LIQUID(): the object number of the liquid in the bottle, by the bottle's property. */
  function Liquid(d: Dungeon, g: GameState): (r: int)
    requires d.Valid() && Fits(d, g)
    ensures r == d.water <==> g.prop[d.bottle] == d.waterBottle
    ensures r == d.oil <==> g.prop[d.bottle] == d.oilBottle
    ensures r == d.noObject <==> g.prop[d.bottle] != d.waterBottle && g.prop[d.bottle] != d.oilBottle
  {
    DistinctLiquids(d);
    if g.prop[d.bottle] == d.waterBottle then d.water
    else if g.prop[d.bottle] == d.oilBottle then d.oil
    else d.noObject
  }

  /** WATER, OIL and NO_OBJECT are three distinct objects. */
  lemma DistinctLiquids(d: Dungeon)
    requires d.Valid()
    ensures d.water != d.oil && d.water != d.noObject && d.oil != d.noObject
  {
    var objs := [d.noObject, d.lamp, d.bottle, d.water, d.oil, d.emerald, d.ruby, d.amber, d.sapph];
    assert objs[3] != objs[4] && objs[0] != objs[3] && objs[0] != objs[4];
  }

  /** GSTONE(OBJ): the object is one of the four gemstones. */
  predicate Gstone(d: Dungeon, obj: int)
  {
    obj == d.emerald || obj == d.ruby || obj == d.amber || obj == d.sapph
  }

  /** The gemstones among the objects of the dungeon. */
  function Gemstones(d: Dungeon): set<int>
  {
    set obj | 0 <= obj <= d.nobjects && Gstone(d, obj)
  }

  /**
   * Exactly four objects are gemstones, and neither NO_OBJECT, the lamp, the
   * bottle nor a liquid is one.
   */
  lemma GemstoneCount(d: Dungeon)
    requires d.Valid()
    ensures Gemstones(d) == {d.emerald, d.ruby, d.amber, d.sapph}
    ensures |Gemstones(d)| == 4
    ensures !Gstone(d, d.noObject) && !Gstone(d, d.lamp) && !Gstone(d, d.bottle)
    ensures !Gstone(d, d.water) && !Gstone(d, d.oil)
  {
    var objs := [d.noObject, d.lamp, d.bottle, d.water, d.oil, d.emerald, d.ruby, d.amber, d.sapph];
    assert objs[0] != objs[5] && objs[0] != objs[6] && objs[0] != objs[7] && objs[0] != objs[8];
    assert objs[1] != objs[5] && objs[1] != objs[6] && objs[1] != objs[7] && objs[1] != objs[8];
    assert objs[2] != objs[5] && objs[2] != objs[6] && objs[2] != objs[7] && objs[2] != objs[8];
    assert objs[3] != objs[5] && objs[3] != objs[6] && objs[3] != objs[7] && objs[3] != objs[8];
    assert objs[4] != objs[5] && objs[4] != objs[6] && objs[4] != objs[7] && objs[4] != objs[8];
    assert objs[5] != objs[6] && objs[5] != objs[7] && objs[5] != objs[8];
    assert objs[6] != objs[7] && objs[6] != objs[8] && objs[7] != objs[8];
    var gems := {d.emerald, d.ruby, d.amber, d.sapph};
    assert Gemstones(d) == gems;
    assert |{d.emerald}| == 1;
    assert |{d.emerald, d.ruby}| == 2;
    assert |{d.emerald, d.ruby, d.amber}| == 3;
  }
}
