/**
 * CompSelfRepair: meant to repair its parent thing by one hit point per tick interval. The tick
 * works on a local copy of the hit points, so the parent is never repaired.
 */
module CompSelfRepair {
  import opened Things
  import Text

  const InspectLabel := "CompSelfRepair with TicksPerRepair "

  class CompPropertiesSelfRepair {
    var tickInterval: int
    var compClass: string

    constructor ()
      ensures tickInterval == 250 && compClass == "CompSelfRepair"
    {
      tickInterval := 250;
      compClass := "CompSelfRepair";
    }
  }

  class CompSelfRepair {
    const parent: Thing
    const props: CompPropertiesSelfRepair

    constructor (parent: Thing, props: CompPropertiesSelfRepair)
      ensures this.parent == parent && this.props == props
    {
      this.parent := parent;
      this.props := props;
    }

    /**
     * CompTick, with the host's IsCheapIntervalTick(tickInterval) as `intervalTick`. The method has
     * no modifies clause: nothing in the heap, the parent's hit points included, can change. It
     * returns the final value of the local `hp`.
     */
    method CompTick(intervalTick: bool) returns (hp: int)
      ensures hp == parent.hitPoints + 1 <==> intervalTick && parent.def.useHitPoints && parent.hitPoints < parent.maxHitPoints
      ensures hp == parent.hitPoints || hp == parent.hitPoints + 1
      ensures parent.hitPoints <= parent.maxHitPoints ==> hp <= parent.maxHitPoints
    {
      hp := parent.hitPoints;
      if intervalTick && parent.def.useHitPoints && hp < parent.maxHitPoints {
        hp := hp + 1;
      }
    }

    /** In dev mode the base string gains the tick interval line; otherwise it is returned as is. */
    method CompInspectStringExtra(baseString: string, devMode: bool) returns (ret: string)
      ensures |baseString| <= |ret| && ret[..|baseString|] == baseString
      ensures !devMode ==> ret == baseString
      ensures devMode ==> ret[|baseString|..] == InspectLabel + Text.IntToString(props.tickInterval)
    {
      ret := baseString;
      if devMode {
        ret := ret + (InspectLabel + Text.IntToString(props.tickInterval));
      }
    }
  }

  /** A repair tick leaves the parent's hit points as they were. */
  method TickLeavesHitPoints(comp: CompSelfRepair, intervalTick: bool)
    ensures comp.parent.hitPoints == old(comp.parent.hitPoints)
  {
    var _ := comp.CompTick(intervalTick);
  }
}
