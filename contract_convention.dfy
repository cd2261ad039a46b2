/**
 * The calling convention shared by the two halves of a function contract:
 * the macro crate generates a helper taking the function's inputs followed
 * by `result`, and the compiler builds a lambda that calls that helper. The
 * lemma here shows that the two agree position by position.
 */
module ContractConvention {
  import opened GotoProgram
  import opened Mir
  import opened FunctionSpec
  import opened RustSyntax
  import Sysroot

  /** The MIR slot that the helper's parameter k stands for: inputs live in slots 1 .. P, the return value in slot 0. */
  function HelperParamSlot(p: nat, k: nat): nat
  {
    if k < p then k + 1 else 0
  }

  /**
   * For a function with P inputs, the generated helper signature (the one
   * the `requires`/`ensures` expansion emits, by Sysroot.RequiresEnsuresShape)
   * has P + 1 parameters and the contract lambda passes P + 1 arguments. For k < P, helper
   * parameter k is the function's k-th input and call argument k is the copy
   * of MIR slot k + 1. The last helper parameter is `result`, and the last
   * call argument is the lambda's return-value binder, of the type of slot 0.
   * Every call argument refers to a lambda binder typed as the slot the
   * helper parameter at that position stands for.
   */
  lemma HelperMatchesLambda(inst: Instance, impl: Instance, sig: Signature, genName: string)
    requires ContractReady(inst) && |sig.inputs| == inst.mir.argCount
    ensures var helper := Sysroot.HelperSignature(sig, genName);
            var l := ContractLambda(inst, impl);
            var args := CallArguments(l);
            var p := inst.mir.argCount;
            && |helper.inputs| == |args| == |l.arguments| == p + 1
            && (forall k :: 0 <= k < p ==> helper.inputs[k] == sig.inputs[k] && args[k] == LoweredCopy(HelperParamSlot(p, k)))
            && helper.inputs[p] == Typed(PatIdent("result"), Sysroot.ResultType(sig))
            && args[p] == SymbolExpr(VarName(inst.name, p + 1), SlotType(inst, HelperParamSlot(p, p)))
            && (forall k :: 0 <= k < p + 1 ==>
                  RefersTo(inst, args[k], l.arguments[(k + 1) % (p + 1)])
                  && l.arguments[(k + 1) % (p + 1)].1 == SlotType(inst, HelperParamSlot(p, k)))
  {
    var helper := Sysroot.HelperSignature(sig, genName);
    var l := ContractLambda(inst, impl);
    var p := inst.mir.argCount;
    HelperSlotsRotate(p);
    ContractLambdaAligned(inst, impl);
    assert helper.inputs == sig.inputs + [Sysroot.ResultParam(sig)];
    forall k | 0 <= k < p + 1
      ensures RefersTo(inst, CallArguments(l)[k], l.arguments[(k + 1) % (p + 1)])
      ensures l.arguments[(k + 1) % (p + 1)].1 == SlotType(inst, HelperParamSlot(p, k))
    {
      assert l.arguments[HelperParamSlot(p, k)].1 == SlotType(inst, HelperParamSlot(p, k));
    }
  }

  /** The binder call argument k refers to is the binder typed as the slot helper parameter k stands for. */
  lemma HelperSlotsRotate(p: nat)
    ensures forall k :: 0 <= k < p + 1 ==> (k + 1) % (p + 1) == HelperParamSlot(p, k)
  {
    forall k | 0 <= k < p + 1
      ensures (k + 1) % (p + 1) == HelperParamSlot(p, k)
    {
      NextBinder(p, k);
    }
  }
}
