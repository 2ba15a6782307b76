/**
 * The framework's settings (D9FModSettings). In the program these are static fields,
 * so there is exactly one store; here that store is one object of class `D9FModSettings`.
 */
module ModSettings {

  /** The direction the host's serializer runs in during ExposeData. */
  datatype ScribeMode = Loading | Saving

  /** The persisted keys, each with the default used when the key is missing on load. */
  const DebugKey := "debug"
  const CompFromStuffKey := "ApplyCompFromStuff"
  const OrbitalTradeHookKey := "ApplyOrbitalTradeHook"
  const DeconstructReturnFixKey := "ApplyDeconstructReturnFix"
  const ForceAllowPlaceOverFixKey := "ApplyForceAllowPlaceOverFix"
  const CarryMassFrameworkKey := "ApplyCarryMassFramework"
  const SuppressDebugWarningsKey := "ApplySuppressDebugWarnings"

  /** The value the serializer hands back for `key`: the saved one, or `default` when the key is missing. */
  function LookValue(saved: map<string, bool>, key: string, default: bool): (v: bool)
    ensures key in saved ==> v == saved[key]
    ensures key !in saved ==> v == default
  {
    if key in saved then saved[key] else default
  }

  class D9FModSettings {
    var DEBUG: bool
    var applyCFS: bool
    var applyOTH: bool
    var applyDRF: bool
    var applyFAF: bool
    var applyCMF: bool
    var applySDW: bool
    var printPatchedMethods: bool

    /** The field initialisers: debugging, the force-allow-place-over fix and method printing off, everything else on. */
    constructor ()
      ensures !DEBUG && !applyFAF && !printPatchedMethods
      ensures applyCFS && applyOTH && applyDRF && applyCMF && applySDW
    {
      DEBUG := false;
      applyCFS, applyOTH, applyDRF, applyFAF, applyCMF, applySDW := true, true, true, false, true, true;
      printPatchedMethods := false;
    }

    /** Outside debug mode the comp-from-stuff patch is always applied; in debug mode its flag decides. */
    function ApplyCompFromStuff(): (r: bool)
      reads this
      ensures !DEBUG ==> r
      ensures DEBUG ==> (r <==> applyCFS)
    {
      !DEBUG || applyCFS
    }

    function ApplyOrbitalTradeHook(): (r: bool)
      reads this
      ensures !DEBUG ==> r
      ensures DEBUG ==> (r <==> applyOTH)
    {
      !DEBUG || applyOTH
    }

    function ApplyDeconstructReturnFix(): (r: bool)
      reads this
      ensures !DEBUG ==> r
      ensures DEBUG ==> (r <==> applyDRF)
    {
      !DEBUG || applyDRF
    }

    /** The force-allow-place-over fix follows its own flag whatever DEBUG is. */
    function ApplyForceAllowPlaceOverFix(): (r: bool)
      reads this
      ensures r <==> applyFAF
    {
      applyFAF
    }

    function ApplyCarryMassFramework(): (r: bool)
      reads this
      ensures !DEBUG ==> r
      ensures DEBUG ==> (r <==> applyCMF)
    {
      !DEBUG || applyCMF
    }

    /** Patched methods are printed only in debug mode, and then only when asked for. */
    function PrintPatchedMethods(): (r: bool)
      reads this
      ensures r ==> DEBUG
      ensures r <==> DEBUG && printPatchedMethods
    {
      DEBUG && printPatchedMethods
    }

    function SuppressDebugWarnings(): (r: bool)
      reads this
      ensures r <==> applySDW
    {
      applySDW
    }

    /** What ExposeData writes when saving: one entry per persisted key; `printPatchedMethods` is not among them. */
    function Persisted(): (m: map<string, bool>)
      reads this
      ensures m.Keys == {DebugKey, CompFromStuffKey, OrbitalTradeHookKey, DeconstructReturnFixKey,
                         ForceAllowPlaceOverFixKey, CarryMassFrameworkKey, SuppressDebugWarningsKey}
      ensures "printPatchedMethods" !in m
      ensures m[DebugKey] == DEBUG && m[CompFromStuffKey] == applyCFS && m[OrbitalTradeHookKey] == applyOTH
      ensures m[DeconstructReturnFixKey] == applyDRF && m[ForceAllowPlaceOverFixKey] == applyFAF
      ensures m[CarryMassFrameworkKey] == applyCMF && m[SuppressDebugWarningsKey] == applySDW
    {
      map[DebugKey := DEBUG, CompFromStuffKey := applyCFS, OrbitalTradeHookKey := applyOTH,
          DeconstructReturnFixKey := applyDRF, ForceAllowPlaceOverFixKey := applyFAF,
          CarryMassFrameworkKey := applyCMF, SuppressDebugWarningsKey := applySDW]
    }

    /**
     * ExposeData: on load every persisted field takes its saved value, or its default when the key
     * is missing, and `printPatchedMethods` keeps its value; on save the persisted fields are written
     * and nothing changes.
     */
    method ExposeData(mode: ScribeMode, saved: map<string, bool>) returns (written: map<string, bool>)
      modifies this
      ensures mode == Saving ==> written == old(Persisted()) && unchanged(this)
      ensures mode == Loading ==> written == map[]
      ensures mode == Loading ==>
        && DEBUG == LookValue(saved, DebugKey, false)
        && applyCFS == LookValue(saved, CompFromStuffKey, true)
        && applyOTH == LookValue(saved, OrbitalTradeHookKey, true)
        && applyDRF == LookValue(saved, DeconstructReturnFixKey, true)
        && applyFAF == LookValue(saved, ForceAllowPlaceOverFixKey, false)
        && applyCMF == LookValue(saved, CarryMassFrameworkKey, true)
        && applySDW == LookValue(saved, SuppressDebugWarningsKey, true)
        && printPatchedMethods == old(printPatchedMethods)
    {
      if mode == Saving {
        written := Persisted();
      } else {
        written := map[];
        DEBUG := LookValue(saved, DebugKey, false);
        applyCFS := LookValue(saved, CompFromStuffKey, true);
        applyOTH := LookValue(saved, OrbitalTradeHookKey, true);
        applyDRF := LookValue(saved, DeconstructReturnFixKey, true);
        applyFAF := LookValue(saved, ForceAllowPlaceOverFixKey, false);
        applyCMF := LookValue(saved, CarryMassFrameworkKey, true);
        applySDW := LookValue(saved, SuppressDebugWarningsKey, true);
      }
    }
  }

  /** Saving one store and loading the result into another copies every persisted field across. */
  method SaveThenLoad(from: D9FModSettings, into: D9FModSettings)
    requires from != into
    modifies from, into
    ensures unchanged(from)
    ensures into.DEBUG == from.DEBUG && into.applyCFS == from.applyCFS && into.applyOTH == from.applyOTH
    ensures into.applyDRF == from.applyDRF && into.applyFAF == from.applyFAF
    ensures into.applyCMF == from.applyCMF && into.applySDW == from.applySDW
    ensures into.printPatchedMethods == old(into.printPatchedMethods)
  {
    var saved := from.ExposeData(Saving, map[]);
    var _ := into.ExposeData(Loading, saved);
  }

  /** Loading from an empty save gives every persisted field its default, the same values the constructor sets. */
  method LoadEmpty(into: D9FModSettings)
    modifies into
    ensures !into.DEBUG && !into.applyFAF
    ensures into.applyCFS && into.applyOTH && into.applyDRF && into.applyCMF && into.applySDW
    ensures into.printPatchedMethods == old(into.printPatchedMethods)
  {
    var _ := into.ExposeData(Loading, map[]);
  }
}
