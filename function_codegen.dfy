/**
 * The lowering context: the symbol table and the single current-function
 * slot, with the entry points `declare_function`, `codegen_function` and
 * `attach_contract` and the steps they run. Each method is proved against the
 * functions of FunctionSpec.
 */
module FunctionCodegen {
  import opened Wrappers
  import opened Numerals
  import opened GotoProgram
  import opened Mir
  import opened FunctionSpec

  lemma MergeUpdate(a: SymbolTable, b: SymbolTable, k: SymName, v: Symbol)
    ensures (a + b)[k := v] == a + b[k := v]
  {
  }

  /** One step of the declarator: what visiting slot idx adds to the symbols and to the declarations. */
  lemma DeclStep(inst: Instance, idx: nat)
    requires idx < |inst.mir.localDecls|
    ensures VariableSymbols(inst, idx + 1)
         == if IsSpreadSlot(inst, idx) then VariableSymbols(inst, idx)
            else VariableSymbols(inst, idx)[VarName(inst.name, idx) := LocalSymbol(inst, idx)]
    ensures DeclStmts(inst, DeclaredSlots(inst, idx + 1))
         == DeclStmts(inst, DeclaredSlots(inst, idx))
            + (if !IsSpreadSlot(inst, idx) && NeedsDecl(inst, idx) then [DeclStmt(inst, idx)] else [])
  {
    if !IsSpreadSlot(inst, idx) && NeedsDecl(inst, idx) {
      DeclStmtsSnoc(inst, DeclaredSlots(inst, idx), idx);
    } else {
      assert DeclaredSlots(inst, idx + 1) == DeclaredSlots(inst, idx);
    }
  }

  /** Visiting slot idx extends the symbols and declarations of the first idx slots to those of the first idx + 1. */
  lemma DeclaredStep(inst: Instance, idx: nat, table0: SymbolTable, block0: seq<Stmt>)
    requires idx < |inst.mir.localDecls|
    ensures table0 + VariableSymbols(inst, idx + 1)
         == if IsSpreadSlot(inst, idx) then table0 + VariableSymbols(inst, idx)
            else (table0 + VariableSymbols(inst, idx))[VarName(inst.name, idx) := LocalSymbol(inst, idx)]
    ensures block0 + DeclStmts(inst, DeclaredSlots(inst, idx + 1))
         == block0 + DeclStmts(inst, DeclaredSlots(inst, idx))
            + (if !IsSpreadSlot(inst, idx) && NeedsDecl(inst, idx) then [DeclStmt(inst, idx)] else [])
  {
    DeclStep(inst, idx);
    if !IsSpreadSlot(inst, idx) {
      MergeUpdate(table0, VariableSymbols(inst, idx), VarName(inst.name, idx), LocalSymbol(inst, idx));
    }
    var before := DeclStmts(inst, DeclaredSlots(inst, idx));
    var added := if !IsSpreadSlot(inst, idx) && NeedsDecl(inst, idx) then [DeclStmt(inst, idx)] else [];
    assert block0 + (before + added) == block0 + before + added;
  }

  /** The function being lowered and the statements buffered for its body so far. */
  datatype CurrentFnCtx = CurrentFnCtx(instance: Instance, block: seq<Stmt>)

  class GotocCtx {
    var symbolTable: SymbolTable
    var currentFn: Option<CurrentFnCtx>

    constructor (table: SymbolTable)
      ensures symbolTable == table && currentFn == None
    {
      symbolTable := table;
      currentFn := None;
    }

    method SetCurrentFn(instance: Instance)
      modifies this
      ensures symbolTable == old(symbolTable)
      ensures currentFn == Some(CurrentFnCtx(instance, []))
    {
      currentFn := Some(CurrentFnCtx(instance, []));
    }

    method ResetCurrentFn()
      modifies this
      ensures symbolTable == old(symbolTable)
      ensures currentFn == None
    {
      currentFn := None;
    }

    method PushOntoBlock(s: Stmt)
      requires currentFn.Some?
      modifies this
      ensures symbolTable == old(symbolTable)
      ensures currentFn == Some(old(currentFn.value).(block := old(currentFn.value.block) + [s]))
    {
      currentFn := Some(currentFn.value.(block := currentFn.value.block + [s]));
    }

    /** Takes the buffered statements, leaving the buffer empty. */
    method ExtractBlock() returns (stmts: seq<Stmt>)
      requires currentFn.Some?
      modifies this
      ensures stmts == old(currentFn.value.block)
      ensures symbolTable == old(symbolTable)
      ensures currentFn == Some(old(currentFn.value).(block := []))
    {
      stmts := currentFn.value.block;
      currentFn := Some(currentFn.value.(block := []));
    }

    /** Stands for the block translator: it appends the translation of block `bb`. */
    method CodegenBlock(bb: nat)
      requires currentFn.Some?
      modifies this
      ensures symbolTable == old(symbolTable)
      ensures currentFn == Some(old(currentFn.value).(block := old(currentFn.value.block) + [TranslatedBlock(bb)]))
    {
      PushOntoBlock(TranslatedBlock(bb));
    }

    /** Inserts a plain variable symbol and appends its declaration. */
    method DeclareVariable(name: SymName, t: Type, value: Option<Expr>, loc: Location)
      requires currentFn.Some?
      modifies this
      ensures symbolTable == old(symbolTable)[name := Variable(name, t, loc)]
      ensures currentFn == Some(old(currentFn.value).(block := old(currentFn.value.block) + [Decl(SymbolExpr(name, t), value, loc)]))
    {
      symbolTable := symbolTable[name := Variable(name, t, loc)];
      PushOntoBlock(Decl(SymbolExpr(name, t), value, loc));
    }

    /** Visits slot idx: any slot but the spread slot gets its symbol, and slot 0 and the slots past the arguments their declaration. */
    method DeclareSlot(idx: nat)
      requires currentFn.Some? && idx < |currentFn.value.instance.mir.localDecls|
      modifies this
      ensures var inst := old(currentFn.value.instance);
              symbolTable == if IsSpreadSlot(inst, idx) then old(symbolTable)
                             else old(symbolTable)[VarName(inst.name, idx) := LocalSymbol(inst, idx)]
      ensures var inst := old(currentFn.value.instance);
              currentFn == Some(old(currentFn.value).(block := old(currentFn.value.block)
                + (if !IsSpreadSlot(inst, idx) && NeedsDecl(inst, idx) then [DeclStmt(inst, idx)] else [])))
    {
      var inst := currentFn.value.instance;
      if Some(idx) == inst.mir.spreadArg {
        // already declared by the prelude
        assert currentFn.value.block + [] == currentFn.value.block;
        return;
      }
      var ldata := inst.mir.localDecls[idx];
      var numArgs := ParamsSize(inst);
      var sym := Symbol(VarName(inst.name, idx), ldata.typ, NoValue, None, ldata.loc,
                        !ldata.isUserVariable, (idx > 0 && idx <= numArgs) && !ldata.isZst);
      var symE := SymbolExpr(sym.name, sym.typ);
      symbolTable := symbolTable[sym.name := sym];
      if idx < 1 || idx > inst.mir.argCount {
        PushOntoBlock(Decl(symE, ldata.defaultInit, ldata.loc));
      } else {
        assert currentFn.value.block + [] == currentFn.value.block;
      }
    }

    /** Inserts a symbol for every slot but the spread slot and declares slot 0 and the slots past the arguments. */
    method DeclareVariables()
      requires currentFn.Some?
      modifies this
      ensures symbolTable == old(symbolTable) + VariableSymbols(old(currentFn.value.instance), |old(currentFn.value.instance).mir.localDecls|)
      ensures currentFn == Some(old(currentFn.value).(block := old(currentFn.value.block) + Declarations(old(currentFn.value.instance))))
    {
      var inst := currentFn.value.instance;
      ghost var table0 := symbolTable;
      ghost var block0 := currentFn.value.block;
      assert block0 + DeclStmts(inst, DeclaredSlots(inst, 0)) == block0;
      for idx := 0 to |inst.mir.localDecls|
        invariant currentFn.Some? && currentFn.value.instance == inst
        invariant currentFn.value.block == block0 + DeclStmts(inst, DeclaredSlots(inst, idx))
        invariant symbolTable == table0 + VariableSymbols(inst, idx)
      {
        DeclaredStep(inst, idx, table0, block0);
        DeclareSlot(idx);
      }
      assert currentFn.value == CurrentFnCtx(inst, block0 + Declarations(inst));
    }

    /** Inserts one parameter symbol per tuple component, slot n + i for component i, and collects the tuple's fields. */
    method InsertSpreadSymbols(f: string, n: nat, args: seq<Component>, loc: Location) returns (fields: map<string, Expr>)
      modifies this
      ensures symbolTable == old(symbolTable) + SpreadSymbols(f, n, args, loc, |args|)
      ensures fields == TupleFields(f, n, args, |args|)
      ensures currentFn == old(currentFn)
    {
      ghost var table0 := symbolTable;
      fields := map[];
      for argI := 0 to |args|
        invariant currentFn == old(currentFn)
        invariant symbolTable == table0 + SpreadSymbols(f, n, args, loc, argI)
        invariant fields == TupleFields(f, n, args, argI)
      {
        var argT := args[argI];
        var sym := Symbol(SpreadName(f, argI + n), argT.typ, NoValue, None, loc, false, !argT.isZst);
        MergeUpdate(table0, SpreadSymbols(f, n, args, loc, argI), sym.name, sym);
        symbolTable := symbolTable[sym.name := sym];
        fields := fields[ToDigits(argI, 10) := SymbolExpr(sym.name, sym.typ)];
      }
    }

    /** Makes the spread tuple available to the body: one parameter symbol per component, and the rebuilt tuple local. */
    method CodegenSpreadArg(spreadArg: nat)
      requires currentFn.Some?
      requires currentFn.value.instance.mir.spreadArg == Some(spreadArg)
      requires PreludeDefined(currentFn.value.instance)
      modifies this
      ensures symbolTable == old(symbolTable) + PreludeSymbols(old(currentFn.value.instance))
      ensures currentFn == Some(old(currentFn.value).(block := old(currentFn.value.block) + PreludeStmts(old(currentFn.value.instance))))
    {
      var inst := currentFn.value.instance;
      var spreadData := inst.mir.localDecls[spreadArg];
      if spreadData.isZst {
        // a zero-sized tuple is ignored
        assert currentFn.value.block + PreludeStmts(inst) == currentFn.value.block;
        return;
      }
      var loc := spreadData.loc;
      // the signature before untupling, and the components of its trailing tuple
      var layout := SpreadLayout(inst.kind);
      var startingIdx := layout.value.0;
      var args := layout.value.1;
      var tupType := spreadData.typ;
      ghost var table0 := symbolTable;
      var fields := InsertSpreadSymbols(inst.name, startingIdx, args, loc);
      var value := StructExpr(tupType, fields, loc);
      MergeUpdate(table0, SpreadSymbols(inst.name, startingIdx, args, loc, |args|), VarName(inst.name, spreadArg), TupleSymbol(inst, spreadArg));
      assert [Decl(SymbolExpr(VarName(inst.name, spreadArg), tupType), Some(value), loc)] == PreludeStmts(inst);
      DeclareVariable(VarName(inst.name, spreadArg), tupType, Some(value), loc);
    }

    method CodegenFunctionPrelude()
      requires currentFn.Some? && PreludeDefined(currentFn.value.instance)
      modifies this
      ensures symbolTable == old(symbolTable) + PreludeSymbols(old(currentFn.value.instance))
      ensures currentFn == Some(old(currentFn.value).(block := old(currentFn.value.block) + PreludeStmts(old(currentFn.value.instance))))
    {
      var mir := currentFn.value.instance.mir;
      if mir.spreadArg.Some? {
        CodegenSpreadArg(mir.spreadArg.value);
      } else {
        assert PreludeSymbols(currentFn.value.instance) == map[];
        assert currentFn.value.block + PreludeStmts(currentFn.value.instance) == currentFn.value.block;
      }
    }

    /** The symbol table's `update_fn_declaration_with_definition`. */
    method UpdateFnDeclarationWithDefinition(name: SymName, body: Stmt)
      requires name in symbolTable
      modifies this
      ensures symbolTable == old(symbolTable)[name := old(symbolTable)[name].(value := StmtValue(body))]
      ensures currentFn == old(currentFn)
    {
      symbolTable := symbolTable[name := symbolTable[name].(value := StmtValue(body))];
    }

    /** Translates the blocks in the given order, appending one translation per block. */
    method CodegenBlocks(order: seq<nat>)
      requires currentFn.Some?
      modifies this
      ensures symbolTable == old(symbolTable)
      ensures currentFn == Some(old(currentFn.value).(block := old(currentFn.value.block) + TranslatedBlocks(order)))
    {
      ghost var ctx0 := currentFn.value;
      assert ctx0.block + TranslatedBlocks(order[..0]) == ctx0.block;
      for i := 0 to |order|
        invariant symbolTable == old(symbolTable)
        invariant currentFn == Some(ctx0.(block := ctx0.block + TranslatedBlocks(order[..i])))
      {
        assert order[..i + 1][..i] == order[..i];
        assert ctx0.block + TranslatedBlocks(order[..i + 1])
            == ctx0.block + TranslatedBlocks(order[..i]) + [TranslatedBlock(order[i])];
        CodegenBlock(order[i]);
      }
      assert order[..|order|] == order;
    }

    /** The prelude, the declarations and the blocks of the current function, in that order. */
    method CodegenFunctionBody()
      requires currentFn.Some? && currentFn.value.block == [] && PreludeDefined(currentFn.value.instance)
      modifies this
      ensures symbolTable == old(symbolTable) + PreludeSymbols(old(currentFn.value.instance))
                             + VariableSymbols(old(currentFn.value.instance), |old(currentFn.value.instance).mir.localDecls|)
      ensures currentFn == Some(CurrentFnCtx(old(currentFn.value.instance), FunctionBody(old(currentFn.value.instance)).stmts))
    {
      var inst := currentFn.value.instance;
      CodegenFunctionPrelude();
      assert currentFn.value.block == PreludeStmts(inst);
      DeclareVariables();
      CodegenBlocks(inst.mir.reversePostorder);
    }

    /** Lowers the body of a declared function, unless it is defined already. */
    method CodegenFunction(instance: Instance)
      requires CodegenReady(symbolTable, instance)
      modifies this
      ensures symbolTable == CodegenTable(old(symbolTable), instance)
      ensures currentFn == None
    {
      SetCurrentFn(instance);
      var name := FnKey(instance);
      var oldSym := symbolTable[name];
      if IsFunctionDefinition(oldSym) {
        // double codegen: only logged
      } else {
        assert IsFunction(oldSym);
        CodegenFunctionBody();
        var loc := instance.mir.span;
        var stmts := ExtractBlock();
        var body := Block(stmts, loc);
        assert body == FunctionBody(instance);
        FunctionKeyUntouched(instance);
        UpdateFnDeclarationWithDefinition(name, body);
      }
      ResetCurrentFn();
    }

    /** The lambda of one contract implementation of the current function. */
    method HandleContractExpr(impl: Instance) returns (lambda: Lambda)
      requires currentFn.Some? && ContractReady(currentFn.value.instance)
      ensures lambda == ContractLambda(currentFn.value.instance, impl)
    {
      var inst := currentFn.value.instance;
      var mir := inst.mir;
      assert mir.spreadArg.None?;
      var funcExpr := FunctionRef(impl.name);
      // the slots 1, 2, .. , taking one more than the argument count
      var mirArguments: seq<nat> := [];
      while |mirArguments| < mir.argCount + 1
        invariant |mirArguments| <= mir.argCount + 1
        invariant forall j :: 0 <= j < |mirArguments| ==> mirArguments[j] == j + 1
      {
        mirArguments := mirArguments + [|mirArguments| + 1];
      }
      var returnArg := mirArguments[|mirArguments| - 1];
      mirArguments := mirArguments[..|mirArguments| - 1];
      var arguments: seq<Expr> := [];
      for j := 0 to |mirArguments|
        invariant |arguments| == j
        invariant forall q :: 0 <= q < j ==> arguments[q] == LoweredCopy(mirArguments[q])
      {
        arguments := arguments + [LoweredCopy(mirArguments[j])];
      }
      var argumentTypes: seq<Type> := [mir.localDecls[0].typ];
      for j := 0 to |mirArguments|
        invariant |argumentTypes| == j + 1 && argumentTypes[0] == mir.localDecls[0].typ
        invariant forall q :: 0 <= q < j ==> argumentTypes[q + 1] == mir.localDecls[mirArguments[q]].typ
      {
        argumentTypes := argumentTypes + [mir.localDecls[mirArguments[j]].typ];
      }
      mirArguments := [returnArg] + mirArguments;
      arguments := arguments + [SymbolExpr(VarName(inst.name, returnArg), argumentTypes[0])];
      var binders: seq<(SymName, Type)> := [];
      for j := 0 to |mirArguments|
        invariant |binders| == j
        invariant forall q :: 0 <= q < j ==> binders[q] == (VarName(inst.name, mirArguments[q]), argumentTypes[q])
      {
        binders := binders + [(VarName(inst.name, mirArguments[j]), argumentTypes[j])];
      }
      lambda := Lambda(binders, Cast(Call(funcExpr, arguments), Bool));
      ghost var spec := ContractLambda(inst, impl);
      assert binders == spec.arguments;
      assert arguments == spec.body.operand.arguments;
    }

    /** The target contract of the current function: the requires lambdas, then the ensures lambdas. */
    method AsGotoContract(c: GFnContract<Instance>) returns (contract: FunctionContract)
      requires currentFn.Some? && (HasImpls(c) ==> ContractReady(currentFn.value.instance))
      ensures contract == GotoContract(currentFn.value.instance, c)
    {
      var inst := currentFn.value.instance;
      var requiresLambdas: seq<Lambda> := [];
      for i := 0 to |c.requiresImpls|
        invariant |requiresLambdas| == i
        invariant forall q :: 0 <= q < i ==> requiresLambdas[q] == ContractLambda(inst, c.requiresImpls[q])
      {
        var l := HandleContractExpr(c.requiresImpls[i]);
        requiresLambdas := requiresLambdas + [l];
      }
      var ensuresLambdas: seq<Lambda> := [];
      for i := 0 to |c.ensuresImpls|
        invariant |ensuresLambdas| == i
        invariant forall q :: 0 <= q < i ==> ensuresLambdas[q] == ContractLambda(inst, c.ensuresImpls[q])
      {
        var l := HandleContractExpr(c.ensuresImpls[i]);
        ensuresLambdas := ensuresLambdas + [l];
      }
      contract := FunctionContract(requiresLambdas, ensuresLambdas, []);
    }

    /** Translates a contract and merges it into the declared function's symbol. */
    method AttachContract(instance: Instance, contract: GFnContract<Instance>)
      requires FnKey(instance) in symbolTable
      requires HasImpls(contract) ==> ContractReady(instance)
      modifies this
      ensures symbolTable == AttachContractTable(old(symbolTable), instance, contract)
      ensures currentFn == None
    {
      SetCurrentFn(instance);
      var gotoContract := AsGotoContract(contract);
      var name := FnKey(instance);
      symbolTable := AttachInTable(symbolTable, name, gotoContract);
      ResetCurrentFn();
    }

    /** Makes sure the function has a symbol: a body-less function symbol of its code type when absent. */
    method DeclareFunction(instance: Instance)
      modifies this
      ensures symbolTable == DeclareTable(old(symbolTable), instance)
      ensures currentFn == None
    {
      SetCurrentFn(instance);
      var fname := FnKey(instance);
      if fname !in symbolTable {
        var mir := instance.mir;
        symbolTable := symbolTable[fname := Symbol(fname, Code(instance.codeParameters, instance.codeReturn), NoValue, None, mir.span, false, false)];
      }
      ResetCurrentFn();
    }
  }
}
