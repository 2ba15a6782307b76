/**
 * PatchOperationFindPackage: applies its `match` child (field `matchOp`) operation when any of the listed package ids
 * is an active mod or an installed expansion, its `nomatch` child (`nomatchOp`) otherwise, and succeeds when the
 * chosen child is absent. Mod lookups and child operations belong to the host and are parameters here.
 */
module PatchOperationFindPackage {
  import opened Wrappers
  import Search

  /** A child patch operation; only the result the host's Apply gives for it is modelled. */
  datatype PatchOperation = PatchOperation(applyResult: bool)

  datatype FindPackage = FindPackage(packageIds: seq<string>, matchOp: Option<PatchOperation>, nomatchOp: Option<PatchOperation>)

  /** Which child operation one call applied. */
  datatype Applied = NoChild | MatchApplied | NomatchApplied

  /** ModLister.GetActiveModWithIdentifier(id) != null || ModLister.GetExpansionWithIdentifier(id) != null */
  predicate IsPresent(id: string, activeMod: string -> bool, expansion: string -> bool) {
    activeMod(id) || expansion(id)
  }

  /**
   * ApplyWorker. Besides the result it returns which child was applied and how many ids were looked
   * up, so that "at most one child" and "the search stops at the first hit" can be stated.
   */
  method ApplyWorker(op: FindPackage, activeMod: string -> bool, expansion: string -> bool)
    returns (result: bool, applied: Applied, lookedUp: nat)
    ensures var found := exists j :: 0 <= j < |op.packageIds| && IsPresent(op.packageIds[j], activeMod, expansion);
      && (found && op.matchOp.Some? ==> result == op.matchOp.value.applyResult && applied == MatchApplied)
      && (found && op.matchOp.None? ==> result && applied == NoChild)
      && (!found && op.nomatchOp.Some? ==> result == op.nomatchOp.value.applyResult && applied == NomatchApplied)
      && (!found && op.nomatchOp.None? ==> result && applied == NoChild)
    ensures lookedUp == Search.Examined(op.packageIds, id => IsPresent(id, activeMod, expansion))
  {
    var found := false;
    var i := 0;
    while i < |op.packageIds|
      invariant 0 <= i <= |op.packageIds|
      invariant !found
      invariant forall j :: 0 <= j < i ==> !IsPresent(op.packageIds[j], activeMod, expansion)
    {
      var id := op.packageIds[i];
      if activeMod(id) || expansion(id) {
        found := true;
        break;
      }
      i := i + 1;
    }
    lookedUp := if found then i + 1 else i;
    if found {
      if op.matchOp.Some? {
        return op.matchOp.value.applyResult, MatchApplied, lookedUp;
      }
    } else {
      if op.nomatchOp.Some? {
        return op.nomatchOp.value.applyResult, NomatchApplied, lookedUp;
      }
    }
    return true, NoChild, lookedUp;
  }

  /** An empty id list never finds anything, so only `nomatch` can be applied. */
  lemma EmptyListNeverMatches(activeMod: string -> bool, expansion: string -> bool)
    ensures Search.FirstIndex([], id => IsPresent(id, activeMod, expansion)).None?
  {
  }
}
