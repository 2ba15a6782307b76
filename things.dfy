/**
 * Stand-ins for the host game's objects that the components read and change: a thing's definition,
 * its place-workers, and the thing itself.
 */
module Things {
  import opened Wrappers

  datatype IntVec3 = IntVec3(x: int, z: int)

  /** A place-worker; `name` is what its ToString gives (its type name). */
  datatype PlaceWorker = PlaceWorker(name: string)

  /** The parts of a ThingDef the components look at; `placeWorkers` may be null. */
  datatype ThingDef = ThingDef(defName: string, useHitPoints: bool, minifiable: bool, placeWorkers: Option<seq<PlaceWorker>>)

  datatype DestroyMode = KillFinalize | OtherDestroyMode(name: string)

  /** Where a thing ends up: still spawned, packed into a minified package placed near a cell, or destroyed. */
  datatype Fate = Spawned | Minified(placedNear: IntVec3) | Destroyed(mode: DestroyMode)

  class Thing {
    const def: ThingDef
    var position: IntVec3
    var hitPoints: int
    var maxHitPoints: int
    var fate: Fate

    constructor (def: ThingDef, position: IntVec3, hitPoints: int, maxHitPoints: int)
      ensures this.def == def && this.position == position && this.hitPoints == hitPoints
      ensures this.maxHitPoints == maxHitPoints && fate == Spawned
    {
      this.def := def;
      this.position := position;
      this.hitPoints, this.maxHitPoints := hitPoints, maxHitPoints;
      fate := Spawned;
    }
  }
}
