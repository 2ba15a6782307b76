/**
 * CompValidator: every tick interval, asks the parent thing's place-workers whether the thing may
 * stand where it is, and minifies or destroys it on the first refusal. Its properties class turns
 * the comp off when no place-workers are configured.
 */
module CompValidator {
  import opened Wrappers
  import opened Things
  import Search
  import Text

  const NoPlaceWorkersMessage := "CompValidator used but no PlaceWorkers set!"
  const HeaderStart := "PlaceWorkers: (count = "
  const HeaderEnd := "):"

  /** The place-workers are null or empty. */
  predicate Misconfigured(def: ThingDef) {
    def.placeWorkers.None? || |def.placeWorkers.value| < 1
  }

  class CompPropertiesValidator {
    var tickInterval: int
    /** Auto-property with a private setter; its initial value is the default, false. */
    var shouldUse: bool
    var compClass: string

    constructor ()
      ensures tickInterval == 250 && !shouldUse && compClass == "CompValidator"
    {
      tickInterval := 250;
      shouldUse := false;
      compClass := "CompValidator";
    }

    /** ConfigErrors, enumerated to the end: one message and `shouldUse` off when misconfigured; nothing otherwise. */
    method ConfigErrors(parentDef: ThingDef) returns (errors: seq<string>)
      modifies this
      ensures Misconfigured(parentDef) ==> errors == [NoPlaceWorkersMessage] && !shouldUse
      ensures !Misconfigured(parentDef) ==> errors == [] && shouldUse == old(shouldUse)
      ensures shouldUse ==> old(shouldUse)
      ensures tickInterval == old(tickInterval) && compClass == old(compClass)
    {
      errors := [];
      if parentDef.placeWorkers.None? || |parentDef.placeWorkers.value| < 1 {
        shouldUse := false;
        errors := errors + [NoPlaceWorkersMessage];
      }
    }
  }

  /** What MinifyOrDestroy does to a thing at `position`. */
  function MinifyOrDestroyFate(def: ThingDef, position: IntVec3): (f: Fate)
    ensures f != Spawned
    ensures f.Minified? <==> def.minifiable
    ensures f.Minified? ==> f.placedNear == position
    ensures f.Destroyed? ==> f.mode == KillFinalize
  {
    if def.minifiable then Minified(position) else Destroyed(KillFinalize)
  }

  /** The inspect line of one place-worker. */
  function WorkerLine(pw: PlaceWorker): string {
    "\n\t" + pw.name
  }

  /** The place-worker lines of the inspect string, one per worker. */
  function WorkerLines(ws: seq<PlaceWorker>): string {
    if ws == [] then "" else WorkerLines(ws[..|ws| - 1]) + WorkerLine(ws[|ws| - 1])
  }

  function Min(a: int, b: int): int {
    if a < b then a else b
  }

  /** The count header: "PlaceWorkers: (count = N):". */
  function Header(count: nat): string {
    HeaderStart + Text.IntToString(count) + HeaderEnd
  }

  /** The inspect text: in dev mode, the count header and the first (at most) three workers. */
  function InspectText(baseString: string, devMode: bool, ws: seq<PlaceWorker>): string {
    if devMode then baseString + Header(|ws|) + WorkerLines(ws[..Min(3, |ws|)])
    else baseString
  }

  lemma {:induction false} WorkerLinesBreaks(ws: seq<PlaceWorker>)
    requires forall j :: 0 <= j < |ws| ==> Text.CountChar('\n', ws[j].name) == 0
    ensures Text.CountChar('\n', WorkerLines(ws)) == |ws|
  {
    if ws != [] {
      var init := ws[..|ws| - 1];
      WorkerLinesBreaks(init);
      WorkerLineBreak(ws[|ws| - 1]);
      Text.CountCharConcat('\n', WorkerLines(init), WorkerLine(ws[|ws| - 1]));
    }
  }

  /** Listing one more worker appends its line. */
  lemma WorkerLinesExtend(head: string, ws: seq<PlaceWorker>, i: nat)
    requires i < |ws|
    ensures head + WorkerLines(ws[..i + 1]) == head + WorkerLines(ws[..i]) + WorkerLine(ws[i])
  {
    assert ws[..i + 1][..i] == ws[..i];
  }

  /** A worker line starts with the only line break it holds. */
  lemma WorkerLineBreak(pw: PlaceWorker)
    requires Text.CountChar('\n', pw.name) == 0
    ensures Text.CountChar('\n', WorkerLine(pw)) == 1
  {
    Text.CountCharConcat('\n', "\n\t", pw.name);
    assert Text.CountChar('\n', "\n\t") == 1 by {
      assert "\n\t"[1..] == "\t";
      assert "\t"[1..] == "";
    }
  }

  /** The count header holds no line break. */
  lemma HeaderHasNoBreak(count: nat)
    ensures Text.CountChar('\n', Header(count)) == 0
  {
    var digits := Text.IntToString(count);
    var header := HeaderStart + digits + HeaderEnd;
    forall k | 0 <= k < |header|
      ensures header[k] != '\n'
    {
      if k < |HeaderStart| {
        assert header[k] == HeaderStart[k];
      } else if k < |HeaderStart| + |digits| {
        assert header[k] == digits[k - |HeaderStart|];
      } else {
        assert header[k] == HeaderEnd[k - |HeaderStart| - |digits|];
      }
    }
    Text.CountCharAbsent('\n', header);
  }

  /**
   * In dev mode the inspect string gains exactly min(3, count) lines (given worker names without line
   * breaks) after the base string; outside dev mode it is the base string.
   */
  lemma InspectLineCount(baseString: string, devMode: bool, ws: seq<PlaceWorker>)
    requires forall j :: 0 <= j < |ws| ==> Text.CountChar('\n', ws[j].name) == 0
    ensures !devMode ==> InspectText(baseString, devMode, ws) == baseString
    ensures devMode ==> Text.CountChar('\n', InspectText(baseString, devMode, ws))
                        == Text.CountChar('\n', baseString) + Min(3, |ws|)
    ensures InspectText(baseString, devMode, ws)[..|baseString|] == baseString
  {
    if devMode {
      var shown := ws[..Min(3, |ws|)];
      WorkerLinesBreaks(shown);
      HeaderHasNoBreak(|ws|);
      Text.CountCharAppend2('\n', baseString, Header(|ws|), WorkerLines(shown));
    }
  }

  class CompValidator {
    const parent: Thing
    const props: CompPropertiesValidator

    constructor (parent: Thing, props: CompPropertiesValidator)
      ensures this.parent == parent && this.props == props
    {
      this.parent := parent;
      this.props := props;
    }

    /** MinifyOrDestroy: exactly one of minify-and-place-near or destroy with KillFinalize. */
    method MinifyOrDestroy()
      requires parent.fate == Spawned
      modifies parent
      ensures parent.fate == MinifyOrDestroyFate(parent.def, old(parent.position))
      ensures parent.position == old(parent.position) && parent.hitPoints == old(parent.hitPoints)
      ensures parent.maxHitPoints == old(parent.maxHitPoints)
    {
      if parent.def.minifiable {
        parent.fate := Minified(parent.position);
      } else {
        parent.fate := Destroyed(KillFinalize);
      }
    }

    /**
     * CompTick: `intervalTick` is the host's IsCheapIntervalTick(tickInterval) and `allowsPlacing`
     * whether a worker accepts the parent where it stands. Returns how many workers were consulted.
     */
    method CompTick(intervalTick: bool, allowsPlacing: PlaceWorker -> bool) returns (consulted: nat)
      requires props.shouldUse && intervalTick ==> parent.def.placeWorkers.Some?
      requires props.shouldUse && intervalTick ==> parent.fate == Spawned
      modifies parent
      ensures !(props.shouldUse && intervalTick) ==> consulted == 0 && unchanged(parent)
      ensures props.shouldUse && intervalTick ==>
        var ws := parent.def.placeWorkers.value;
        var rejects := (pw: PlaceWorker) => !allowsPlacing(pw);
        && consulted == Search.Examined(ws, rejects)
        && (Search.FirstIndex(ws, rejects).Some? ==>
              parent.fate == MinifyOrDestroyFate(parent.def, old(parent.position)))
        && (Search.FirstIndex(ws, rejects).None? ==> unchanged(parent))
      ensures parent.position == old(parent.position) && parent.hitPoints == old(parent.hitPoints)
      ensures parent.maxHitPoints == old(parent.maxHitPoints)
    {
      consulted := 0;
      if props.shouldUse && intervalTick {
        var ws := parent.def.placeWorkers.value;
        ghost var rejects := (pw: PlaceWorker) => !allowsPlacing(pw);
        var i := 0;
        while i < |ws|
          invariant 0 <= i <= |ws|
          invariant consulted == i
          invariant forall j :: 0 <= j < i ==> allowsPlacing(ws[j])
          invariant unchanged(parent)
        {
          consulted := consulted + 1;
          if !allowsPlacing(ws[i]) {
            assert Search.FirstIndex(ws, rejects) == Some(i);
            MinifyOrDestroy();
            break;
          }
          i := i + 1;
        }
      }
    }

    /** CompInspectStringExtra, built with `+=` as the source does. */
    method CompInspectStringExtra(baseString: string, devMode: bool) returns (ret: string)
      requires devMode ==> parent.def.placeWorkers.Some?
      ensures devMode ==> ret == InspectText(baseString, true, parent.def.placeWorkers.value)
      ensures !devMode ==> ret == baseString
    {
      ret := baseString;
      if devMode {
        var ws := parent.def.placeWorkers.value;
        ret := ret + Header(|ws|);
        ghost var head := ret;
        var i := 0;
        while i < Min(3, |ws|)
          invariant 0 <= i <= Min(3, |ws|)
          invariant ret == head + WorkerLines(ws[..i])
        {
          WorkerLinesExtend(head, ws, i);
          ret := ret + ("\n\t" + ws[i].name);
          i := i + 1;
        }
      }
    }
  }

  /**
   * `shouldUse` starts false and ConfigErrors never sets it, so a validator whose properties went
   * through construction and ConfigErrors consults no place-worker and leaves its parent alone.
   */
  method ShouldUseNeverSet(parent: Thing, intervalTick: bool, allowsPlacing: PlaceWorker -> bool)
    returns (consulted: nat)
    modifies parent
    ensures consulted == 0 && unchanged(parent)
  {
    var props := new CompPropertiesValidator();
    var _ := props.ConfigErrors(parent.def);
    var comp := new CompValidator(parent, props);
    consulted := comp.CompTick(intervalTick, allowsPlacing);
  }
}
