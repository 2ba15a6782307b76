/**
 * ForceAllowPlaceOverFix: two IL transpilers that make `BuildableDef.ForceAllowPlaceOver` effective in
 * `GenConstruct.CanPlaceBlueprintOver` and `GenConstruct.BlocksConstruction`.
 *
 * Both walk the method's instruction list once. In front of every instruction that is followed
 * (one place ahead, or two places ahead in BlocksConstruction) by `ldsfld ThingDefOf.SteamGeyser` they emit
 * the four-instruction block `ldarg.0; ldarg.1; callvirt ForceAllowPlaceOver; brtrue returnTrue`,
 * and they attach the fresh label `returnTrue` to the first `ldc.i4.1; ret` pair they meet.
 * The two walks differ only in how far ahead they look, which is the parameter `ahead` below.
 */
module ForceAllowPlaceOverFix {
  import opened Wrappers
  import ULog

  /** A label handed out by the IL generator; only its identity matters. */
  type Label = nat

  datatype OpCode = Ldsfld | LdcI4One | Ret | Ldarg0 | Ldarg1 | Callvirt | Brtrue | OtherOp(name: string)
  datatype Field = SteamGeyser | OtherField(name: string)
  datatype Method = ForceAllowPlaceOver | OtherMethod(name: string)
  datatype Operand =
    | NoOperand
    | FieldOperand(field: Field)
    | MethodOperand(callee: Method)
    | LabelOperand(target: Label)
    | OtherOperand(text: string)

  /** A CodeInstruction: opcode, operand, and the labels that mark it as a jump target. */
  datatype Instruction = Instruction(opcode: OpCode, operand: Operand, labels: seq<Label>)

  const CanPlaceMissingMessage := "FAF: Couldn't find any return true statements in CanPlaceBlueprintOver!"
  const BlocksMissingMessage := "FAF: Couldn't find any return true statements in BlocksConstruction!"

  predicate IsSteamGeyserLoad(ins: Instruction) {
    ins.opcode == Ldsfld && ins.operand == FieldOperand(SteamGeyser)
  }

  /** The inserted "if (newDef.ForceAllowPlaceOver(oldDef)) goto returnTrue". */
  function Block(returnTrue: Label): (b: seq<Instruction>)
    ensures |b| == 4
  {
    [Instruction(Ldarg0, NoOperand, []), Instruction(Ldarg1, NoOperand, []),
     Instruction(Callvirt, MethodOperand(ForceAllowPlaceOver), []), Instruction(Brtrue, LabelOperand(returnTrue), [])]
  }

  /** The loop bound `Count - ahead`, where a negative bound means the loop body never runs. */
  function ScanEnd(n: nat, ahead: nat): nat {
    if n >= ahead then n - ahead else 0
  }

  /** Labelling changes neither opcode nor operand. */
  predicate SameCode(a: Instruction, b: Instruction) {
    a.opcode == b.opcode && a.operand == b.operand
  }

  /** Step `i` emits the block: the instruction `ahead` places later loads SteamGeyser. */
  predicate SplicesBefore(s: seq<Instruction>, ahead: nat, i: nat)
    requires i < ScanEnd(|s|, ahead)
  {
    IsSteamGeyserLoad(s[i + ahead])
  }

  predicate IsReturnTrue(s: seq<Instruction>, i: nat)
    requires i + 1 < |s|
  {
    s[i].opcode == LdcI4One && s[i + 1].opcode == Ret
  }

  /** Step `i` may take the label: it is a `ldc.i4.1; ret` pair and the splice branch was not taken. */
  predicate Labels(s: seq<Instruction>, ahead: nat, i: nat)
    requires 1 <= ahead && i < ScanEnd(|s|, ahead)
  {
    !SplicesBefore(s, ahead, i) && IsReturnTrue(s, i)
  }

  /** The step, among the first `hi`, at which `foundFirstReturnTrue` becomes true, if any. */
  function FirstReturnTrue(s: seq<Instruction>, ahead: nat, hi: nat): (k: Option<nat>)
    requires 1 <= ahead && hi <= ScanEnd(|s|, ahead)
    ensures k.Some? ==> k.value < hi && Labels(s, ahead, k.value)
    ensures k.Some? ==> forall j :: 0 <= j < k.value ==> !Labels(s, ahead, j)
    ensures k.None? <==> forall j :: 0 <= j < hi ==> !Labels(s, ahead, j)
  {
    if hi == 0 then None
    else match FirstReturnTrue(s, ahead, hi - 1)
      case Some(k) => Some(k)
      case None => if Labels(s, ahead, hi - 1) then Some(hi - 1) else None
  }

  /** `labels.Add(returnTrue)` on the instruction at `k`, if there is one. */
  function AddLabel(s: seq<Instruction>, k: Option<nat>, returnTrue: Label): (r: seq<Instruction>)
    requires k.Some? ==> k.value < |s|
    ensures |r| == |s|
  {
    match k
    case None => s
    case Some(i) => s[i := s[i].(labels := s[i].labels + [returnTrue])]
  }

  /** Labelling touches only the labels of the instruction at `k`. */
  lemma AddLabelOnly(s: seq<Instruction>, k: Option<nat>, returnTrue: Label)
    requires k.Some? ==> k.value < |s|
    ensures forall j :: 0 <= j < |s| ==> SameCode(AddLabel(s, k, returnTrue)[j], s[j])
    ensures forall j :: 0 <= j < |s| && k != Some(j) ==> AddLabel(s, k, returnTrue)[j] == s[j]
    ensures k.Some? ==> AddLabel(s, k, returnTrue)[k.value].labels == s[k.value].labels + [returnTrue]
  {
  }

  /** What one step yields: the block when it splices, then the instruction itself. */
  function StepOutput(s: seq<Instruction>, ahead: nat, returnTrue: Label, i: nat): seq<Instruction>
    requires i < ScanEnd(|s|, ahead)
  {
    (if SplicesBefore(s, ahead, i) then Block(returnTrue) else []) + [s[i]]
  }

  /** The instructions yielded by the first `hi` steps. */
  function Spliced(s: seq<Instruction>, ahead: nat, returnTrue: Label, hi: nat): seq<Instruction>
    requires hi <= ScanEnd(|s|, ahead)
  {
    if hi == 0 then [] else Spliced(s, ahead, returnTrue, hi - 1) + StepOutput(s, ahead, returnTrue, hi - 1)
  }

  /** How many of the first `hi` steps splice in the block. */
  function Hits(s: seq<Instruction>, ahead: nat, hi: nat): nat
    requires hi <= ScanEnd(|s|, ahead)
  {
    if hi == 0 then 0 else Hits(s, ahead, hi - 1) + (if SplicesBefore(s, ahead, hi - 1) then 1 else 0)
  }

  /** The output position at which step `i` starts yielding. */
  function Start(s: seq<Instruction>, ahead: nat, i: nat): nat
    requires i <= ScanEnd(|s|, ahead)
  {
    i + 4 * Hits(s, ahead, i)
  }

  /** The instruction list after the walk: the first return-true pair carries `returnTrue`. */
  function LabelledList(s: seq<Instruction>, ahead: nat, returnTrue: Label): seq<Instruction>
    requires 1 <= ahead
  {
    AddLabel(s, FirstReturnTrue(s, ahead, ScanEnd(|s|, ahead)), returnTrue)
  }

  /** Everything the transpiler yields. */
  function Emitted(s: seq<Instruction>, ahead: nat, returnTrue: Label): seq<Instruction>
    requires 1 <= ahead
  {
    Spliced(LabelledList(s, ahead, returnTrue), ahead, returnTrue, ScanEnd(|s|, ahead))
  }

  // ---------------------------------------------------------------- lemmas about the walk

  /** Lists that agree on opcodes and operands splice in the same places. */
  lemma {:induction false} HitsSameCode(a: seq<Instruction>, b: seq<Instruction>, ahead: nat, hi: nat)
    requires |a| == |b| && hi <= ScanEnd(|a|, ahead)
    requires forall j :: 0 <= j < |a| ==> SameCode(a[j], b[j])
    ensures Hits(a, ahead, hi) == Hits(b, ahead, hi)
  {
    if hi > 0 {
      HitsSameCode(a, b, ahead, hi - 1);
    }
  }

  /** The yielded text up to step `hi` reads only the instructions before `hi` and the opcodes after. */
  lemma {:induction false} SplicedFrame(a: seq<Instruction>, b: seq<Instruction>, ahead: nat, returnTrue: Label, hi: nat)
    requires |a| == |b| && hi <= ScanEnd(|a|, ahead)
    requires forall j :: 0 <= j < hi ==> a[j] == b[j]
    requires forall j :: 0 <= j < |a| ==> SameCode(a[j], b[j])
    ensures Spliced(a, ahead, returnTrue, hi) == Spliced(b, ahead, returnTrue, hi)
  {
    if hi > 0 {
      SplicedFrame(a, b, ahead, returnTrue, hi - 1);
      assert StepOutput(a, ahead, returnTrue, hi - 1) == StepOutput(b, ahead, returnTrue, hi - 1);
    }
  }

  /** Output length: one instruction per step plus four per splice. */
  lemma {:induction false} SplicedLength(s: seq<Instruction>, ahead: nat, returnTrue: Label, hi: nat)
    requires hi <= ScanEnd(|s|, ahead)
    ensures |Spliced(s, ahead, returnTrue, hi)| == hi + 4 * Hits(s, ahead, hi)
  {
    if hi > 0 {
      SplicedLength(s, ahead, returnTrue, hi - 1);
    }
  }

  /** Step `i`'s output sits, unchanged, at positions Start(i) up to Start(i + 1). */
  lemma {:induction false} SplicedSegment(s: seq<Instruction>, ahead: nat, returnTrue: Label, hi: nat, i: nat)
    requires i < hi <= ScanEnd(|s|, ahead)
    ensures Start(s, ahead, i + 1) <= |Spliced(s, ahead, returnTrue, hi)|
    ensures Spliced(s, ahead, returnTrue, hi)[Start(s, ahead, i)..Start(s, ahead, i + 1)]
            == StepOutput(s, ahead, returnTrue, i)
  {
    var prev := Spliced(s, ahead, returnTrue, hi - 1);
    var step := StepOutput(s, ahead, returnTrue, hi - 1);
    SplicedLength(s, ahead, returnTrue, hi - 1);
    if i == hi - 1 {
      SliceOfSuffix(prev, step);
    } else {
      SplicedSegment(s, ahead, returnTrue, hi - 1, i);
      HitsMonotone(s, ahead, i + 1, hi - 1);
      SliceOfPrefix(prev, step, Start(s, ahead, i), Start(s, ahead, i + 1));
    }
  }

  lemma SliceOfPrefix(a: seq<Instruction>, b: seq<Instruction>, lo: nat, hi: nat)
    requires lo <= hi <= |a|
    ensures (a + b)[lo..hi] == a[lo..hi]
  {
  }

  lemma SliceOfSuffix(a: seq<Instruction>, b: seq<Instruction>)
    ensures (a + b)[|a|..|a| + |b|] == b
  {
  }

  lemma {:induction false} HitsMonotone(s: seq<Instruction>, ahead: nat, lo: nat, hi: nat)
    requires lo <= hi <= ScanEnd(|s|, ahead)
    ensures Hits(s, ahead, lo) <= Hits(s, ahead, hi)
  {
    if lo < hi {
      HitsMonotone(s, ahead, lo, hi - 1);
    }
  }

  // ---------------------------------------------------------------- what the transpilers promise

  /**
   * Length: every scanned instruction once, plus four per splice; the last `ahead` input
   * instructions are not yielded, and a list no longer than `ahead` yields nothing.
   */
  lemma EmittedLength(s: seq<Instruction>, ahead: nat, returnTrue: Label)
    requires 1 <= ahead
    ensures |Emitted(s, ahead, returnTrue)| == ScanEnd(|s|, ahead) + 4 * Hits(s, ahead, ScanEnd(|s|, ahead))
    ensures |s| <= ahead ==> Emitted(s, ahead, returnTrue) == []
  {
    var n := ScanEnd(|s|, ahead);
    var l := LabelledList(s, ahead, returnTrue);
    SplicedLength(l, ahead, returnTrue, n);
    HitsLabelled(s, ahead, returnTrue, n);
  }

  /** The labelled list splices where the original does. */
  lemma HitsLabelled(s: seq<Instruction>, ahead: nat, returnTrue: Label, hi: nat)
    requires 1 <= ahead && hi <= ScanEnd(|s|, ahead)
    ensures Hits(LabelledList(s, ahead, returnTrue), ahead, hi) == Hits(s, ahead, hi)
    ensures forall i :: 0 <= i < hi ==> SplicesBefore(LabelledList(s, ahead, returnTrue), ahead, i) == SplicesBefore(s, ahead, i)
  {
    AddLabelOnly(s, FirstReturnTrue(s, ahead, ScanEnd(|s|, ahead)), returnTrue);
    HitsSameCode(LabelledList(s, ahead, returnTrue), s, ahead, hi);
  }

  /**
   * Layout: for each scanned index `i`, in input order, the output holds the (possibly labelled)
   * instruction `i` at position Start(i + 1) - 1, immediately preceded by the four-instruction block
   * exactly when the instruction `ahead` places later loads SteamGeyser.
   */
  lemma EmittedLayout(s: seq<Instruction>, ahead: nat, returnTrue: Label, i: nat)
    requires 1 <= ahead && i < ScanEnd(|s|, ahead)
    ensures Start(s, ahead, i + 1) <= |Emitted(s, ahead, returnTrue)|
    ensures Start(s, ahead, i + 1) == Start(s, ahead, i) + (if SplicesBefore(s, ahead, i) then 5 else 1)
    ensures Emitted(s, ahead, returnTrue)[Start(s, ahead, i + 1) - 1] == LabelledList(s, ahead, returnTrue)[i]
    ensures SplicesBefore(s, ahead, i) ==>
      Emitted(s, ahead, returnTrue)[Start(s, ahead, i)..Start(s, ahead, i) + 4] == Block(returnTrue)
  {
    var n := ScanEnd(|s|, ahead);
    var l := LabelledList(s, ahead, returnTrue);
    var out := Spliced(l, ahead, returnTrue, n);
    SplicedSegment(l, ahead, returnTrue, n, i);
    HitsLabelled(s, ahead, returnTrue, i);
    HitsLabelled(s, ahead, returnTrue, i + 1);
    var lo, hi := Start(s, ahead, i), Start(s, ahead, i + 1);
    SegmentEnds(out, lo, hi, (if SplicesBefore(s, ahead, i) then Block(returnTrue) else []), l[i]);
  }

  /** A segment made of a prefix and one last element shows both at the expected positions. */
  lemma SegmentEnds(out: seq<Instruction>, lo: nat, hi: nat, front: seq<Instruction>, last: Instruction)
    requires lo <= hi <= |out| && out[lo..hi] == front + [last]
    ensures hi == lo + |front| + 1
    ensures out[hi - 1] == last
    ensures out[lo..lo + |front|] == front
  {
    assert out[lo..hi][|front|] == last;
    assert out[lo..lo + |front|] == out[lo..hi][..|front|];
  }

  /** Relative order: earlier scanned instructions are yielded strictly earlier. */
  lemma EmittedInOrder(s: seq<Instruction>, ahead: nat, i: nat, j: nat)
    requires 1 <= ahead && i < j <= ScanEnd(|s|, ahead)
    ensures Start(s, ahead, i + 1) <= Start(s, ahead, j)
  {
    HitsMonotone(s, ahead, i + 1, j);
  }

  /**
   * Labelling: with a fresh label, exactly the instruction at the first return-true step carries it
   * afterwards; no other instruction changes, and opcodes and operands never change.
   */
  lemma LabelledOnce(s: seq<Instruction>, ahead: nat, returnTrue: Label)
    requires 1 <= ahead
    requires forall j :: 0 <= j < |s| ==> returnTrue !in s[j].labels
    ensures |LabelledList(s, ahead, returnTrue)| == |s|
    ensures forall j :: 0 <= j < |s| ==>
      (returnTrue in LabelledList(s, ahead, returnTrue)[j].labels
       <==> FirstReturnTrue(s, ahead, ScanEnd(|s|, ahead)) == Some(j))
    ensures forall j :: 0 <= j < |s| && FirstReturnTrue(s, ahead, ScanEnd(|s|, ahead)) != Some(j) ==>
      LabelledList(s, ahead, returnTrue)[j] == s[j]
  {
    var k := FirstReturnTrue(s, ahead, ScanEnd(|s|, ahead));
    var l := LabelledList(s, ahead, returnTrue);
    forall j | 0 <= j < |s|
      ensures returnTrue in l[j].labels <==> k == Some(j)
    {
      if k == Some(j) {
        assert l[j].labels == s[j].labels + [returnTrue];
        assert l[j].labels[|s[j].labels|] == returnTrue;
      }
    }
  }

  /**
   * Looking one place ahead, a `ldc.i4.1; ret` pair can never be a splice point (a `ret` is not
   * a `ldsfld`), so CanPlaceBlueprintOver reports the error exactly when the list holds no such pair
   * before its last instruction.
   */
  lemma CanPlaceMissesOnlyWithoutPair(s: seq<Instruction>)
    ensures FirstReturnTrue(s, 1, ScanEnd(|s|, 1)).None? <==> forall i :: 0 <= i < |s| - 1 ==> !IsReturnTrue(s, i)
  {
    var n := ScanEnd(|s|, 1);
    forall i | 0 <= i < n
      ensures Labels(s, 1, i) <==> IsReturnTrue(s, i)
    {
    }
  }

  /**
   * Looking two places ahead, BlocksConstruction skips a pair whose second successor loads
   * SteamGeyser; the error is reported exactly when every pair in range is skipped or absent.
   */
  lemma BlocksMissesOnlyWithoutUsablePair(s: seq<Instruction>)
    ensures FirstReturnTrue(s, 2, ScanEnd(|s|, 2)).None? <==>
      forall i :: 0 <= i < |s| - 2 ==> !(IsReturnTrue(s, i) && !IsSteamGeyserLoad(s[i + 2]))
  {
    var n := ScanEnd(|s|, 2);
    forall i | 0 <= i < n
      ensures Labels(s, 2, i) <==> IsReturnTrue(s, i) && !IsSteamGeyserLoad(s[i + 2])
    {
    }
  }

  // ---------------------------------------------------------------- the transpilers

  /** One step of the walk on the instruction list: what `foundFirstReturnTrue` and the labels become. */
  lemma StepLabelled(s: seq<Instruction>, ahead: nat, returnTrue: Label, i: nat, before: seq<Instruction>)
    requires 1 <= ahead && i < ScanEnd(|s|, ahead)
    requires before == AddLabel(s, FirstReturnTrue(s, ahead, i), returnTrue)
    ensures |before| == |s|
    ensures SameCode(before[i + ahead], s[i + ahead]) && SameCode(before[i], s[i]) && SameCode(before[i + 1], s[i + 1])
    ensures FirstReturnTrue(s, ahead, i).None? ==> before[i] == s[i]
    ensures FirstReturnTrue(s, ahead, i + 1).Some? <==>
      FirstReturnTrue(s, ahead, i).Some? || (!IsSteamGeyserLoad(s[i + ahead]) && IsReturnTrue(s, i))
    ensures FirstReturnTrue(s, ahead, i).None? && !IsSteamGeyserLoad(s[i + ahead]) && IsReturnTrue(s, i) ==>
      AddLabel(s, FirstReturnTrue(s, ahead, i + 1), returnTrue) == before[i := before[i].(labels := before[i].labels + [returnTrue])]
    ensures !(FirstReturnTrue(s, ahead, i).None? && !IsSteamGeyserLoad(s[i + ahead]) && IsReturnTrue(s, i)) ==>
      AddLabel(s, FirstReturnTrue(s, ahead, i + 1), returnTrue) == before
  {
  }


  /**
   * The walk's state after its first `i` steps: the instruction list carries the label iff a pair has
   * been found, `found` says whether one has, and `out` is what has been yielded so far.
   */
  predicate Walked(s: seq<Instruction>, ahead: nat, returnTrue: Label, i: nat,
                   cur: seq<Instruction>, found: bool, out: seq<Instruction>)
    requires 1 <= ahead
  {
    && i <= ScanEnd(|s|, ahead)
    && cur == AddLabel(s, FirstReturnTrue(s, ahead, i), returnTrue)
    && (found <==> FirstReturnTrue(s, ahead, i).Some?)
    && out == Spliced(cur, ahead, returnTrue, i)
  }

  /** One step of the walk keeps Walked: the loop body's proof in one piece. */
  lemma WalkStep(s: seq<Instruction>, ahead: nat, returnTrue: Label, i: nat,
                 before: seq<Instruction>, found: bool, out: seq<Instruction>)
    requires 1 <= ahead && i < ScanEnd(|s|, ahead)
    requires Walked(s, ahead, returnTrue, i, before, found, out)
    ensures |before| == |s|
    ensures IsSteamGeyserLoad(before[i + ahead]) ==>
      Walked(s, ahead, returnTrue, i + 1, before, found, out + Block(returnTrue) + [before[i]])
    ensures !IsSteamGeyserLoad(before[i + ahead]) && !found && IsReturnTrue(before, i) ==>
      var after := before[i := before[i].(labels := before[i].labels + [returnTrue])];
      Walked(s, ahead, returnTrue, i + 1, after, true, out + [after[i]])
    ensures !IsSteamGeyserLoad(before[i + ahead]) && !(!found && IsReturnTrue(before, i)) ==>
      Walked(s, ahead, returnTrue, i + 1, before, found, out + [before[i]])
  {
    StepLabelled(s, ahead, returnTrue, i, before);
    var labelled := !IsSteamGeyserLoad(before[i + ahead]) && !found && IsReturnTrue(before, i);
    var after := if labelled then before[i := before[i].(labels := before[i].labels + [returnTrue])] else before;
    SplicedFrame(before, after, ahead, returnTrue, i);
    assert SplicesBefore(after, ahead, i) == IsSteamGeyserLoad(before[i + ahead]);
    if !IsSteamGeyserLoad(before[i + ahead]) {
      assert StepOutput(after, ahead, returnTrue, i) == [after[i]];
    }
  }

  /**
   * The common loop: walks `instrList` (whose instruction objects it labels in place) and returns
   * what the enumerator yields and the final value of `foundFirstReturnTrue`.
   */
  method Transpile(instrList: array<Instruction>, ahead: nat, returnTrue: Label)
    returns (emitted: seq<Instruction>, foundFirstReturnTrue: bool)
    requires 1 <= ahead
    modifies instrList
    ensures instrList[..] == LabelledList(old(instrList[..]), ahead, returnTrue)
    ensures emitted == Emitted(old(instrList[..]), ahead, returnTrue)
    ensures foundFirstReturnTrue <==> FirstReturnTrue(old(instrList[..]), ahead, ScanEnd(instrList.Length, ahead)).Some?
  {
    ghost var s := instrList[..];
    emitted := [];
    foundFirstReturnTrue := false;
    var i := 0;
    while i < instrList.Length - ahead
      invariant Walked(s, ahead, returnTrue, i, instrList[..], foundFirstReturnTrue, emitted)
    {
      ghost var before := instrList[..];
      WalkStep(s, ahead, returnTrue, i, before, foundFirstReturnTrue, emitted);
      if IsSteamGeyserLoad(instrList[i + ahead]) {
        emitted := emitted + Block(returnTrue);
      } else if !foundFirstReturnTrue && instrList[i].opcode == LdcI4One && instrList[i + 1].opcode == Ret {
        instrList[i] := instrList[i].(labels := instrList[i].labels + [returnTrue]);
        assert instrList[..] == before[i := before[i].(labels := before[i].labels + [returnTrue])];
        foundFirstReturnTrue := true;
      }
      emitted := emitted + [instrList[i]];
      i := i + 1;
    }
  }

  /** The CanPlaceBlueprintOver transpiler: looks one instruction ahead. */
  method CanPlaceBlueprintOverTranspiler(instrList: array<Instruction>, returnTrue: Label, modid: string)
    returns (emitted: seq<Instruction>, error: Option<ULog.LogEntry>)
    modifies instrList
    ensures instrList[..] == LabelledList(old(instrList[..]), 1, returnTrue)
    ensures emitted == Emitted(old(instrList[..]), 1, returnTrue)
    ensures error.Some? <==> FirstReturnTrue(old(instrList[..]), 1, ScanEnd(instrList.Length, 1)).None?
    ensures error.Some? ==> error.value == ULog.Error(modid, CanPlaceMissingMessage)
  {
    var found;
    emitted, found := Transpile(instrList, 1, returnTrue);
    error := if found then None else Some(ULog.Error(modid, CanPlaceMissingMessage));
  }

  /** The BlocksConstruction transpiler: looks two instructions ahead. */
  method BlocksConstrutionTranspiler(instrList: array<Instruction>, returnTrue: Label, modid: string)
    returns (emitted: seq<Instruction>, error: Option<ULog.LogEntry>)
    modifies instrList
    ensures instrList[..] == LabelledList(old(instrList[..]), 2, returnTrue)
    ensures emitted == Emitted(old(instrList[..]), 2, returnTrue)
    ensures error.Some? <==> FirstReturnTrue(old(instrList[..]), 2, ScanEnd(instrList.Length, 2)).None?
    ensures error.Some? ==> error.value == ULog.Error(modid, BlocksMissingMessage)
  {
    var found;
    emitted, found := Transpile(instrList, 2, returnTrue);
    error := if found then None else Some(ULog.Error(modid, BlocksMissingMessage));
  }
}
