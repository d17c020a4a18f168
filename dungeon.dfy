/**
 * The names advent.h takes from dungeon.h, which is generated from the game's
 * data file and is not part of this model.  Their values are unknown here, so
 * they are the fields of one record, and `Valid()` states the only facts the
 * macros rely on: the objects, property values and condition bits named are
 * distinct, and every object and location id indexes the corresponding table.
 */
module Dungeon {

  datatype Dungeon = Dungeon(
    nobjects: nat,           // NOBJECTS: object ids run from 0 to NOBJECTS
    nlocations: nat,         // NLOCATIONS: location ids run from 0 to NLOCATIONS
    conditions: seq<int>,    // conditions[loc]: the condition word of a location
    noObject: int,           // NO_OBJECT
    lamp: int,               // LAMP
    bottle: int,             // BOTTLE
    water: int,              // WATER
    oil: int,                // OIL
    emerald: int,            // EMERALD
    ruby: int,               // RUBY
    amber: int,              // AMBER
    sapph: int,              // SAPPH
    lampDark: int,           // LAMP_DARK: property value of an unlit lamp
    waterBottle: int,        // WATER_BOTTLE: property value of a bottle of water
    oilBottle: int,          // OIL_BOTTLE: property value of a bottle of oil
    locMisthall: int,        // LOC_MISTHALL: first location of the deep cave
    condLit: nat,            // COND_LIT
    condOily: nat,           // COND_OILY
    condFluid: nat,          // COND_FLUID
    condForced: nat,         // COND_FORCED
    condForest: nat,         // COND_FOREST
    condAbove: nat           // COND_ABOVE
  )
  {
    /** An index into the object tables (sized NOBJECTS + 1). */
    predicate IsObject(obj: int)
    {
      0 <= obj <= nobjects
    }

    /** An index into the location tables (sized NLOCATIONS + 1). */
    predicate IsLocation(loc: int)
    {
      0 <= loc <= nlocations
    }

    /** The named objects are distinct object ids. */
    predicate ObjectsDistinct()
    {
      var objs := [noObject, lamp, bottle, water, oil, emerald, ruby, amber, sapph];
      forall i, j :: 0 <= i < j < |objs| ==> objs[i] != objs[j]
    }

    /** The named condition bits are distinct bit positions. */
    predicate CondBitsDistinct()
    {
      var bits := [condLit, condOily, condFluid, condForced, condForest, condAbove];
      forall i, j :: 0 <= i < j < |bits| ==> bits[i] != bits[j]
    }

    predicate Valid()
    {
      && |conditions| == nlocations + 1
      && IsObject(noObject) && IsObject(lamp) && IsObject(bottle)
      && IsObject(water) && IsObject(oil)
      && IsObject(emerald) && IsObject(ruby) && IsObject(amber) && IsObject(sapph)
      && IsLocation(locMisthall)
      && ObjectsDistinct()
      && CondBitsDistinct()
      && waterBottle != oilBottle
    }
  }
}
