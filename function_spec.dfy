/**
 * What lowering one function produces, as functions of the instance: the
 * symbols and declarations of its locals, the spread-argument prelude, the
 * assembled body, the contract lambdas, and the symbol table after each entry
 * point. The imperative lowering in FunctionCodegen is proved against these,
 * and the lemmas here state what the lowering promises.
 */
module FunctionSpec {
  import opened Wrappers
  import opened Numerals
  import opened GotoProgram
  import opened Mir

  // ---------------------------------------------------------------------------
  // Variable declarator

  /** The number of inputs of the current function's normalized signature. */
  function ParamsSize(inst: Instance): nat
  {
    |inst.sigInputs|
  }

  predicate IsSpreadSlot(inst: Instance, idx: nat)
  {
    inst.mir.spreadArg == Some(idx)
  }

  /** The slots that get a declaration: the return place and every slot past the arguments. */
  predicate NeedsDecl(inst: Instance, idx: nat)
  {
    idx < 1 || idx > inst.mir.argCount
  }

  function LocalExpr(inst: Instance, idx: nat): Expr
    requires idx < |inst.mir.localDecls|
  {
    SymbolExpr(VarName(inst.name, idx), inst.mir.localDecls[idx].typ)
  }

  /** The symbol the declarator inserts for slot idx. */
  function LocalSymbol(inst: Instance, idx: nat): Symbol
    requires idx < |inst.mir.localDecls|
  {
    var l := inst.mir.localDecls[idx];
    Symbol(VarName(inst.name, idx), l.typ, NoValue, None, l.loc,
           !l.isUserVariable, (idx > 0 && idx <= ParamsSize(inst)) && !l.isZst)
  }

  function DeclStmt(inst: Instance, idx: nat): Stmt
    requires idx < |inst.mir.localDecls|
  {
    Decl(LocalExpr(inst, idx), inst.mir.localDecls[idx].defaultInit, inst.mir.localDecls[idx].loc)
  }

  /** The symbols inserted for the first k slots. */
  function VariableSymbols(inst: Instance, k: nat): SymbolTable
    requires k <= |inst.mir.localDecls|
    decreases k
  {
    if k == 0 then map[]
    else
      var m := VariableSymbols(inst, k - 1);
      if IsSpreadSlot(inst, k - 1) then m else m[VarName(inst.name, k - 1) := LocalSymbol(inst, k - 1)]
  }

  /** The slots among the first k that are declared, in the order they are visited. */
  function DeclaredSlots(inst: Instance, k: nat): (r: seq<nat>)
    requires k <= |inst.mir.localDecls|
    ensures forall j :: 0 <= j < |r| ==> r[j] < k
    decreases k
  {
    if k == 0 then []
    else DeclaredSlots(inst, k - 1) + (if !IsSpreadSlot(inst, k - 1) && NeedsDecl(inst, k - 1) then [k - 1] else [])
  }

  function DeclStmts(inst: Instance, slots: seq<nat>): seq<Stmt>
    requires forall j :: 0 <= j < |slots| ==> slots[j] < |inst.mir.localDecls|
    decreases |slots|
  {
    if slots == [] then [] else DeclStmts(inst, slots[..|slots| - 1]) + [DeclStmt(inst, slots[|slots| - 1])]
  }

  /** The declarations emitted for the whole local table. */
  function Declarations(inst: Instance): seq<Stmt>
  {
    DeclStmts(inst, DeclaredSlots(inst, |inst.mir.localDecls|))
  }

  /** Every slot other than the spread slot gets its symbol, with the parameter and hidden flags of the declarator. */
  lemma {:induction false} VariableSymbolAt(inst: Instance, k: nat, idx: nat)
    requires k <= |inst.mir.localDecls| && idx < k && !IsSpreadSlot(inst, idx)
    ensures VarName(inst.name, idx) in VariableSymbols(inst, k)
    ensures VariableSymbols(inst, k)[VarName(inst.name, idx)] == LocalSymbol(inst, idx)
    ensures VariableSymbols(inst, k)[VarName(inst.name, idx)].isParameter
            == (0 < idx <= ParamsSize(inst) && !inst.mir.localDecls[idx].isZst)
    ensures VariableSymbols(inst, k)[VarName(inst.name, idx)].isHidden == !inst.mir.localDecls[idx].isUserVariable
    ensures VariableSymbols(inst, k)[VarName(inst.name, idx)].typ == inst.mir.localDecls[idx].typ
    decreases k
  {
    if idx < k - 1 {
      VariableSymbolAt(inst, k - 1, idx);
    }
  }

  /** The declarator inserts nothing but variables of this function's slots, and never one for the spread slot. */
  lemma {:induction false} VariableSymbolKeys(inst: Instance, k: nat)
    requires k <= |inst.mir.localDecls|
    ensures forall n :: n in VariableSymbols(inst, k) ==>
              n.VarName? && n.owner == inst.name && n.slot < k && !IsSpreadSlot(inst, n.slot)
    decreases k
  {
    if k > 0 {
      VariableSymbolKeys(inst, k - 1);
    }
  }

  /** A slot is declared exactly when it is not the spread slot and is slot 0 or past the arguments; in ascending order. */
  lemma {:induction false} DeclaredSlotsExactly(inst: Instance, k: nat)
    requires k <= |inst.mir.localDecls|
    ensures forall i: nat :: i in DeclaredSlots(inst, k) <==> i < k && !IsSpreadSlot(inst, i) && NeedsDecl(inst, i)
    ensures forall a, b :: 0 <= a < b < |DeclaredSlots(inst, k)| ==> DeclaredSlots(inst, k)[a] < DeclaredSlots(inst, k)[b]
    decreases k
  {
    if k > 0 {
      DeclaredSlotsExactly(inst, k - 1);
    }
  }

  /** The j-th declaration statement declares the j-th declared slot. */
  lemma {:induction false} DeclStmtsAt(inst: Instance, slots: seq<nat>)
    requires forall j :: 0 <= j < |slots| ==> slots[j] < |inst.mir.localDecls|
    ensures |DeclStmts(inst, slots)| == |slots|
    ensures forall j :: 0 <= j < |slots| ==> DeclStmts(inst, slots)[j] == DeclStmt(inst, slots[j])
    decreases |slots|
  {
    if slots != [] {
      DeclStmtsAt(inst, slots[..|slots| - 1]);
    }
  }

  lemma DeclStmtsSnoc(inst: Instance, slots: seq<nat>, idx: nat)
    requires forall j :: 0 <= j < |slots| ==> slots[j] < |inst.mir.localDecls|
    requires idx < |inst.mir.localDecls|
    ensures DeclStmts(inst, slots + [idx]) == DeclStmts(inst, slots) + [DeclStmt(inst, idx)]
  {
    assert (slots + [idx])[..|slots|] == slots;
  }

  /**
   * The function `f(a: i32, b: i32) -> i32` with locals return, a, b and one
   * temporary: slots 0 and 3 are declared, slots 1 and 2 are the parameters.
   */
  lemma TwoArgumentExample(i32: Type, loc: Location)
    ensures var l := LocalDecl(i32, false, true, loc, None);
            var inst := Instance("f", Body([l, l, l, l.(isUserVariable := false)], 2, None, [0], loc),
                                 [NonTuple, NonTuple], FnDef([NonTuple, NonTuple]), [i32, i32], i32);
            && DeclaredSlots(inst, 4) == [0, 3]
            && |Declarations(inst)| == 2
            && [LocalSymbol(inst, 0).isParameter, LocalSymbol(inst, 1).isParameter,
                LocalSymbol(inst, 2).isParameter, LocalSymbol(inst, 3).isParameter] == [false, true, true, false]
            && LocalSymbol(inst, 3).isHidden && !LocalSymbol(inst, 1).isHidden
  {
    var l := LocalDecl(i32, false, true, loc, None);
    var inst := Instance("f", Body([l, l, l, l.(isUserVariable := false)], 2, None, [0], loc),
                         [NonTuple, NonTuple], FnDef([NonTuple, NonTuple]), [i32, i32], i32);
    assert DeclaredSlots(inst, 1) == [0];
    assert DeclaredSlots(inst, 2) == [0];
    assert DeclaredSlots(inst, 3) == [0];
    assert DeclaredSlots(inst, 4) == [0, 3];
    DeclStmtsAt(inst, [0, 3]);
  }

  // ---------------------------------------------------------------------------
  // Spread-argument prelude

  /** The fatal conditions of the prelude. */
  datatype Unreachable = SpreadArgOnClosure | NotAFunctionType | NoInputs | SpreadArgNotTuple

  /** The count of pre-untupling inputs and the components of the trailing tuple. */
  function TupleLayout(inputs: seq<SourceType>): Result<(nat, seq<Component>), Unreachable>
  {
    if |inputs| == 0 then Failure(NoInputs)
    else
      match inputs[|inputs| - 1]
      case NonTuple => Failure(SpreadArgNotTuple)
      case Tuple(cs) => Success((|inputs|, cs))
  }

  /** The spread layout read off the instance's type: only plain functions and function pointers have one. */
  function SpreadLayout(kind: FnTyKind): (r: Result<(nat, seq<Component>), Unreachable>)
    ensures kind.Closure? || kind.OtherKind? ==> r.Failure?
    ensures r.Success? ==> 1 <= r.value.0 == |kind.inputs|
  {
    match kind
    case FnPtr(inputs) => TupleLayout(inputs)
    case FnDef(inputs) => TupleLayout(inputs)
    case Closure => Failure(SpreadArgOnClosure)
    case OtherKind => Failure(NotAFunctionType)
  }

  /** The prelude fails exactly for closures, non-function types, and signatures that do not end in a tuple. */
  lemma SpreadLayoutFails(kind: FnTyKind)
    ensures SpreadLayout(kind).Failure? <==>
              || kind.Closure? || kind.OtherKind?
              || |kind.inputs| == 0
              || kind.inputs[|kind.inputs| - 1].NonTuple?
    ensures SpreadLayout(kind).Success? ==>
              SpreadLayout(kind).value == (|kind.inputs|, kind.inputs[|kind.inputs| - 1].components)
  {
  }

  /** The spread slot, when set, is a slot of the table, and a non-zero-sized one has a layout. */
  predicate PreludeDefined(inst: Instance)
  {
    match inst.mir.spreadArg
    case None => true
    case Some(s) =>
      s < |inst.mir.localDecls| && (inst.mir.localDecls[s].isZst || SpreadLayout(inst.kind).Success?)
  }

  function SpreadSymbol(f: string, n: nat, i: nat, c: Component, loc: Location): Symbol
  {
    Symbol(SpreadName(f, n + i), c.typ, NoValue, None, loc, false, !c.isZst)
  }

  function SpreadExpr(f: string, n: nat, i: nat, c: Component): Expr
  {
    SymbolExpr(SpreadName(f, n + i), c.typ)
  }

  /** The symbols inserted for the first k components, component i at slot n + i. */
  function SpreadSymbols(f: string, n: nat, cs: seq<Component>, loc: Location, k: nat): SymbolTable
    requires k <= |cs|
    decreases k
  {
    if k == 0 then map[]
    else SpreadSymbols(f, n, cs, loc, k - 1)[SpreadName(f, n + k - 1) := SpreadSymbol(f, n, k - 1, cs[k - 1], loc)]
  }

  /** The field map of the rebuilt tuple for the first k components, keyed by the component index in decimal. */
  function TupleFields(f: string, n: nat, cs: seq<Component>, k: nat): map<string, Expr>
    requires k <= |cs|
    decreases k
  {
    if k == 0 then map[]
    else TupleFields(f, n, cs, k - 1)[ToDigits(k - 1, 10) := SpreadExpr(f, n, k - 1, cs[k - 1])]
  }

  /** Component i has its symbol at slot n + i, with the component's type, visible, and a parameter iff not zero-sized. */
  lemma {:induction false} SpreadSymbolAt(f: string, n: nat, cs: seq<Component>, loc: Location, k: nat, i: nat)
    requires k <= |cs| && i < k
    ensures SpreadName(f, n + i) in SpreadSymbols(f, n, cs, loc, k)
    ensures SpreadSymbols(f, n, cs, loc, k)[SpreadName(f, n + i)] == SpreadSymbol(f, n, i, cs[i], loc)
    ensures var s := SpreadSymbols(f, n, cs, loc, k)[SpreadName(f, n + i)];
            s.typ == cs[i].typ && !s.isHidden && s.isParameter == !cs[i].isZst && s.loc == loc
    decreases k
  {
    if i < k - 1 {
      SpreadSymbolAt(f, n, cs, loc, k - 1, i);
    }
  }

  /** No other symbol is inserted: exactly the slots n .. n+k-1. */
  lemma {:induction false} SpreadSymbolKeys(f: string, n: nat, cs: seq<Component>, loc: Location, k: nat)
    requires k <= |cs|
    ensures forall m :: m in SpreadSymbols(f, n, cs, loc, k) ==> m.SpreadName? && m.owner == f && n <= m.slot < n + k
    decreases k
  {
    if k > 0 {
      SpreadSymbolKeys(f, n, cs, loc, k - 1);
    }
  }

  /**
   * Reading field `i` of the rebuilt tuple gives the symbol of slot n + i,
   * whatever order the target lays the fields out in; every key is the
   * decimal rendering of a component index.
   */
  lemma {:induction false} TupleFieldAt(f: string, n: nat, cs: seq<Component>, k: nat, i: nat)
    requires k <= |cs| && i < k
    ensures ToDigits(i, 10) in TupleFields(f, n, cs, k)
    ensures TupleFields(f, n, cs, k)[ToDigits(i, 10)] == SymbolExpr(SpreadName(f, n + i), cs[i].typ)
    decreases k
  {
    if i < k - 1 {
      ToDigitsInjective(i, k - 1, 10);
      TupleFieldAt(f, n, cs, k - 1, i);
    }
  }

  lemma {:induction false} TupleFieldKeys(f: string, n: nat, cs: seq<Component>, k: nat)
    requires k <= |cs|
    ensures forall key :: key in TupleFields(f, n, cs, k) ==>
              && ParseDigits(key, 10).Some? && ParseDigits(key, 10).value < k
              && key == ToDigits(ParseDigits(key, 10).value, 10)
    decreases k
  {
    if k > 0 {
      TupleFieldKeys(f, n, cs, k - 1);
      ParseToDigits(k - 1, 10);
    }
  }

  /** The fields map has exactly k entries. */
  lemma {:induction false} TupleFieldCount(f: string, n: nat, cs: seq<Component>, k: nat)
    requires k <= |cs|
    ensures |TupleFields(f, n, cs, k)| == k
    decreases k
  {
    if k > 0 {
      TupleFieldCount(f, n, cs, k - 1);
      TupleFieldKeys(f, n, cs, k - 1);
      ParseToDigits(k - 1, 10);
      assert ToDigits(k - 1, 10) !in TupleFields(f, n, cs, k - 1);
    }
  }

  /** The tuple local carrying the spread slot's name, type and location. */
  function TupleSymbol(inst: Instance, s: nat): Symbol
    requires s < |inst.mir.localDecls|
  {
    Variable(VarName(inst.name, s), inst.mir.localDecls[s].typ, inst.mir.localDecls[s].loc)
  }

  function TupleDecl(inst: Instance, s: nat, fields: map<string, Expr>): Stmt
    requires s < |inst.mir.localDecls|
  {
    var l := inst.mir.localDecls[s];
    Decl(SymbolExpr(VarName(inst.name, s), l.typ), Some(StructExpr(l.typ, fields, l.loc)), l.loc)
  }

  /** The symbols the prelude inserts. */
  function PreludeSymbols(inst: Instance): SymbolTable
    requires PreludeDefined(inst)
  {
    match inst.mir.spreadArg
    case None => map[]
    case Some(s) =>
      if inst.mir.localDecls[s].isZst then map[]
      else
        var (n, cs) := SpreadLayout(inst.kind).value;
        SpreadSymbols(inst.name, n, cs, inst.mir.localDecls[s].loc, |cs|)[VarName(inst.name, s) := TupleSymbol(inst, s)]
  }

  /** The statements the prelude emits. */
  function PreludeStmts(inst: Instance): seq<Stmt>
    requires PreludeDefined(inst)
  {
    match inst.mir.spreadArg
    case None => []
    case Some(s) =>
      if inst.mir.localDecls[s].isZst then []
      else
        var (n, cs) := SpreadLayout(inst.kind).value;
        [TupleDecl(inst, s, TupleFields(inst.name, n, cs, |cs|))]
  }

  /** Without a spread slot, or with a zero-sized one, the prelude inserts and emits nothing. */
  lemma PreludeEmptyUnlessSpread(inst: Instance)
    requires PreludeDefined(inst)
    requires inst.mir.spreadArg.None? || inst.mir.localDecls[inst.mir.spreadArg.value].isZst
    ensures PreludeSymbols(inst) == map[] && PreludeStmts(inst) == []
  {
  }

  /** The layout of a non-zero-sized spread slot. */
  predicate Spreading(inst: Instance)
  {
    PreludeDefined(inst) && inst.mir.spreadArg.Some? && !inst.mir.localDecls[inst.mir.spreadArg.value].isZst
  }

  /**
   * With a non-zero-sized spread slot s, the prelude emits one declaration of
   * the tuple local named after s, at the slot's location, initialised to a
   * struct of the slot's type with one field per component, field i reading
   * the symbol of slot n + i.
   */
  lemma PreludeDeclForSpread(inst: Instance, i: nat)
    requires Spreading(inst)
    requires i < |SpreadLayout(inst.kind).value.1|
    ensures var s := inst.mir.spreadArg.value;
            var (n, cs) := SpreadLayout(inst.kind).value;
            var l := inst.mir.localDecls[s];
            && |PreludeStmts(inst)| == 1
            && PreludeStmts(inst)[0].Decl?
            && PreludeStmts(inst)[0].lhs == SymbolExpr(VarName(inst.name, s), l.typ)
            && PreludeStmts(inst)[0].loc == l.loc
            && PreludeStmts(inst)[0].value.Some?
            && PreludeStmts(inst)[0].value.value.StructExpr?
            && PreludeStmts(inst)[0].value.value.typ == l.typ
            && |PreludeStmts(inst)[0].value.value.fields| == |cs|
            && ToDigits(i, 10) in PreludeStmts(inst)[0].value.value.fields
            && PreludeStmts(inst)[0].value.value.fields[ToDigits(i, 10)] == SymbolExpr(SpreadName(inst.name, n + i), cs[i].typ)
  {
    var (n, cs) := SpreadLayout(inst.kind).value;
    TupleFieldAt(inst.name, n, cs, |cs|, i);
    TupleFieldCount(inst.name, n, cs, |cs|);
  }

  /**
   * With a non-zero-sized spread slot s and K components after n inputs, the
   * prelude inserts the symbol of component i at slot n + i for each i below K,
   * and the tuple local under the name of s.
   */
  lemma PreludeSymbolsForSpread(inst: Instance, i: nat)
    requires Spreading(inst)
    requires i < |SpreadLayout(inst.kind).value.1|
    ensures var s := inst.mir.spreadArg.value;
            var (n, cs) := SpreadLayout(inst.kind).value;
            && SpreadName(inst.name, n + i) in PreludeSymbols(inst)
            && PreludeSymbols(inst)[SpreadName(inst.name, n + i)] == SpreadSymbol(inst.name, n, i, cs[i], inst.mir.localDecls[s].loc)
            && VarName(inst.name, s) in PreludeSymbols(inst)
            && PreludeSymbols(inst)[VarName(inst.name, s)] == TupleSymbol(inst, s)
  {
    var s := inst.mir.spreadArg.value;
    var (n, cs) := SpreadLayout(inst.kind).value;
    var loc := inst.mir.localDecls[s].loc;
    SpreadSymbolAt(inst.name, n, cs, loc, |cs|, i);
  }

  /** A prelude key is always the tuple local or the component of one of the slots n .. n+K-1. */
  lemma PreludeSymbolKeys(inst: Instance)
    requires PreludeDefined(inst)
    ensures forall m :: m in PreludeSymbols(inst) ==>
              || m == VarName(inst.name, inst.mir.spreadArg.value)
              || (&& m.SpreadName? && m.owner == inst.name && SpreadLayout(inst.kind).Success?
                  && SpreadLayout(inst.kind).value.0 <= m.slot < SpreadLayout(inst.kind).value.0 + |SpreadLayout(inst.kind).value.1|)
  {
    match inst.mir.spreadArg
    case None =>
    case Some(s) =>
      if !inst.mir.localDecls[s].isZst {
        var (n, cs) := SpreadLayout(inst.kind).value;
        SpreadSymbolKeys(inst.name, n, cs, inst.mir.localDecls[s].loc, |cs|);
      }
  }

  /**
   * Untupling `(u8, u64)` passed after a function-pointer argument: the tuple
   * is input 2, so its components are slots 2 and 3, and field "0" reads
   * slot 2 and field "1" slot 3.
   */
  lemma SpreadExample(u8: Type, u64: Type, tup: Type, loc: Location)
    ensures var cs := [Component(u8, false), Component(u64, false)];
            var inputs := [NonTuple, Tuple(cs)];
            && SpreadLayout(FnDef(inputs)) == Success((2, cs))
            && TupleFields("h", 2, cs, 2) == map["0" := SymbolExpr(SpreadName("h", 2), u8), "1" := SymbolExpr(SpreadName("h", 3), u64)]
            && SpreadSymbols("h", 2, cs, loc, 2)[SpreadName("h", 3)].typ == u64
  {
    assert ToDigits(0, 10) == "0";
    assert ToDigits(1, 10) == "1";
  }

  // ---------------------------------------------------------------------------
  // Body assembly and the function symbol's states

  function TranslatedBlocks(order: seq<nat>): (r: seq<Stmt>)
    ensures |r| == |order|
    ensures forall j :: 0 <= j < |order| ==> r[j] == TranslatedBlock(order[j])
    decreases |order|
  {
    if order == [] then [] else TranslatedBlocks(order[..|order| - 1]) + [TranslatedBlock(order[|order| - 1])]
  }

  /** The body: prelude, then declarations, then the blocks in reverse postorder, at the MIR body's span. */
  function FunctionBody(inst: Instance): Stmt
    requires PreludeDefined(inst)
  {
    Block(PreludeStmts(inst) + Declarations(inst) + TranslatedBlocks(inst.mir.reversePostorder), inst.mir.span)
  }

  function FnKey(inst: Instance): SymName
  {
    FunctionName(inst.name)
  }

  /** What `codegen_function` demands: a prior declaration, which unless already defined is a function whose prelude is defined. */
  predicate CodegenReady(t: SymbolTable, inst: Instance)
  {
    && FnKey(inst) in t
    && (!IsFunctionDefinition(t[FnKey(inst)]) ==> IsFunction(t[FnKey(inst)]) && PreludeDefined(inst))
  }

  /** The symbol table after `codegen_function`. */
  function CodegenTable(t: SymbolTable, inst: Instance): (r: SymbolTable)
    requires CodegenReady(t, inst)
    ensures t.Keys <= r.Keys && FnKey(inst) in r
  {
    var prior := t[FnKey(inst)];
    if IsFunctionDefinition(prior) then t
    else
      (t + PreludeSymbols(inst) + VariableSymbols(inst, |inst.mir.localDecls|))
        [FnKey(inst) := prior.(value := StmtValue(FunctionBody(inst)))]
  }

  /** The function symbol `declare_function` creates: the lowered code type, no body. */
  function FunctionSymbol(inst: Instance): (s: Symbol)
    ensures IsFunction(s) && !IsFunctionDefinition(s) && s.contract.None?
    ensures s.typ == Code(inst.codeParameters, inst.codeReturn)
  {
    Symbol(FnKey(inst), Code(inst.codeParameters, inst.codeReturn), NoValue, None, inst.mir.span, false, false)
  }

  /** The symbol table after `declare_function`. */
  function DeclareTable(t: SymbolTable, inst: Instance): (r: SymbolTable)
    ensures r.Keys == t.Keys + {FnKey(inst)}
    ensures forall n :: n in t ==> r[n] == t[n]
    ensures FnKey(inst) !in t ==> r[FnKey(inst)] == FunctionSymbol(inst)
  {
    if FnKey(inst) in t then t else t[FnKey(inst) := FunctionSymbol(inst)]
  }

  /** Declaring adds the function symbol when absent and otherwise changes nothing; so declaring twice is declaring once. */
  lemma DeclareIdempotent(t: SymbolTable, inst: Instance)
    ensures FnKey(inst) in DeclareTable(t, inst)
    ensures FnKey(inst) in t ==> DeclareTable(t, inst) == t
    ensures DeclareTable(DeclareTable(t, inst), inst) == DeclareTable(t, inst)
  {
  }

  /** Codegen never touches the function's own key except to attach the body. */
  lemma FunctionKeyUntouched(inst: Instance)
    requires PreludeDefined(inst)
    ensures FnKey(inst) !in PreludeSymbols(inst)
    ensures FnKey(inst) !in VariableSymbols(inst, |inst.mir.localDecls|)
  {
    PreludeSymbolKeys(inst);
    VariableSymbolKeys(inst, |inst.mir.localDecls|);
  }

  /**
   * Codegen of a declared but undefined function defines it with the assembled
   * body and keeps its type and contract; codegen of a defined one changes
   * nothing; so a second codegen is a no-op.
   */
  lemma CodegenDefines(t: SymbolTable, inst: Instance)
    requires CodegenReady(t, inst)
    ensures var t' := CodegenTable(t, inst);
            && FnKey(inst) in t'
            && IsFunctionDefinition(t'[FnKey(inst)])
            && t'[FnKey(inst)].typ == t[FnKey(inst)].typ
            && t'[FnKey(inst)].contract == t[FnKey(inst)].contract
            && (!IsFunctionDefinition(t[FnKey(inst)]) ==> t'[FnKey(inst)].value == StmtValue(FunctionBody(inst)))
            && CodegenReady(t', inst)
            && CodegenTable(t', inst) == t'
  {
  }

  /** Declaring and then generating a function whose prelude is defined always succeeds and defines it. */
  lemma DeclareThenCodegen(t: SymbolTable, inst: Instance)
    requires PreludeDefined(inst)
    requires FnKey(inst) in t ==> IsFunction(t[FnKey(inst)])
    ensures CodegenReady(DeclareTable(t, inst), inst)
    ensures IsFunctionDefinition(CodegenTable(DeclareTable(t, inst), inst)[FnKey(inst)])
  {
    CodegenDefines(DeclareTable(t, inst), inst);
  }

  // ---------------------------------------------------------------------------
  // Contract translation

  /** The contract implementations of one annotated function, in source order. */
  datatype GFnContract<C> = GFnContract(requiresImpls: seq<C>, ensuresImpls: seq<C>)

  predicate HasImpls<C>(c: GFnContract<C>)
  {
    |c.requiresImpls| + |c.ensuresImpls| > 0
  }

  /** What translating a contract implementation demands of the annotated function. */
  predicate ContractReady(inst: Instance)
  {
    inst.mir.spreadArg.None? && inst.mir.argCount < |inst.mir.localDecls|
  }

  function SlotType(inst: Instance, idx: nat): Type
    requires idx < |inst.mir.localDecls|
  {
    inst.mir.localDecls[idx].typ
  }

  /** The slots the return value's binder and the parameters' binders are named after: P+1, then 1 .. P. */
  function BinderSlot(p: nat, k: nat): nat
  {
    if k == 0 then p + 1 else k
  }

  /**
   * The lambda of one contract implementation: binders for the return value
   * and the P parameters, body a call of the implementation with the
   * parameters first and the return value last, cast to Bool.
   */
  function ContractLambda(inst: Instance, impl: Instance): (r: Lambda)
    requires inst.mir.argCount < |inst.mir.localDecls|
    ensures |r.arguments| == inst.mir.argCount + 1
  {
    var p := inst.mir.argCount;
    var binders := seq(p + 1, k requires 0 <= k < p + 1 =>
                         (VarName(inst.name, BinderSlot(p, k)), SlotType(inst, k)));
    var args := seq(p, k requires 0 <= k < p => LoweredCopy(k + 1)) + [SymbolExpr(VarName(inst.name, p + 1), SlotType(inst, 0))];
    Lambda(binders, Cast(Call(FunctionRef(impl.name), args), Bool))
  }

  function CallArguments(l: Lambda): seq<Expr>
  {
    if l.body.Cast? && l.body.operand.Call? then l.body.operand.arguments else []
  }

  /** The binder a call argument refers to: copies of slot s bind to the variable of slot s with its type. */
  predicate RefersTo(inst: Instance, arg: Expr, binder: (SymName, Type))
  {
    match arg
    case SymbolExpr(n, ty) => binder == (n, ty)
    case LoweredCopy(s) => s < |inst.mir.localDecls| && binder == (VarName(inst.name, s), SlotType(inst, s))
    case _ => false
  }

  /**
   * The two orders agree: the lambda has P+1 binders typed [slot 0, slot 1, ..,
   * slot P], its body calls the implementation cast to Bool, and call
   * argument k refers to binder (k + 1) mod (P + 1), so the last argument is the
   * return-value binder and the others are the parameters in order.
   */
  lemma ContractLambdaAligned(inst: Instance, impl: Instance)
    requires inst.mir.argCount < |inst.mir.localDecls|
    ensures var l := ContractLambda(inst, impl);
            var p := inst.mir.argCount;
            && |l.arguments| == p + 1
            && (forall k :: 0 <= k < p + 1 ==> l.arguments[k].1 == SlotType(inst, k))
            && l.body.Cast? && l.body.target == Bool && l.body.operand.Call?
            && l.body.operand.callee == FunctionRef(impl.name)
            && |CallArguments(l)| == p + 1
            && (forall k :: 0 <= k < p + 1 ==> RefersTo(inst, CallArguments(l)[k], l.arguments[(k + 1) % (p + 1)]))
  {
    var l := ContractLambda(inst, impl);
    var p := inst.mir.argCount;
    forall k | 0 <= k < p + 1
      ensures RefersTo(inst, CallArguments(l)[k], l.arguments[(k + 1) % (p + 1)])
    {
      NextBinder(p, k);
    }
  }

  /** The binder after binder k among p + 1 of them, wrapping round to binder 0. */
  lemma NextBinder(p: nat, k: nat)
    requires k <= p
    ensures (k + 1) % (p + 1) == if k < p then k + 1 else 0
  {
    if k == p {
      assert (k + 1) % (p + 1) == (p + 1) % (p + 1) == 0;
    }
  }

  /** The binder names are pairwise distinct, so no parameter shadows another. */
  lemma ContractLambdaBindersDistinct(inst: Instance, impl: Instance)
    requires inst.mir.argCount < |inst.mir.localDecls|
    ensures var l := ContractLambda(inst, impl);
            forall a, b :: 0 <= a < b < |l.arguments| ==> l.arguments[a].0 != l.arguments[b].0
  {
  }

  /** One lambda per `requires` implementation in order, then one per `ensures` implementation in order, no assigns. */
  function GotoContract(inst: Instance, c: GFnContract<Instance>): (r: FunctionContract)
    requires HasImpls(c) ==> ContractReady(inst)
    ensures |r.requiresLambdas| == |c.requiresImpls| && |r.ensuresLambdas| == |c.ensuresImpls|
    ensures forall i :: 0 <= i < |c.requiresImpls| ==> r.requiresLambdas[i] == ContractLambda(inst, c.requiresImpls[i])
    ensures forall i :: 0 <= i < |c.ensuresImpls| ==> r.ensuresLambdas[i] == ContractLambda(inst, c.ensuresImpls[i])
    ensures r.assigns == []
  {
    FunctionContract(
      seq(|c.requiresImpls|, i requires 0 <= i < |c.requiresImpls| => ContractLambda(inst, c.requiresImpls[i])),
      seq(|c.ensuresImpls|, i requires 0 <= i < |c.ensuresImpls| => ContractLambda(inst, c.ensuresImpls[i])),
      [])
  }

  /** The symbol table after `attach_contract`. */
  function AttachContractTable(t: SymbolTable, inst: Instance, c: GFnContract<Instance>): SymbolTable
    requires FnKey(inst) in t && (HasImpls(c) ==> ContractReady(inst))
  {
    AttachInTable(t, FnKey(inst), GotoContract(inst, c))
  }

  function ConcatG<C>(a: GFnContract<C>, b: GFnContract<C>): GFnContract<C>
  {
    GFnContract(a.requiresImpls + b.requiresImpls, a.ensuresImpls + b.ensuresImpls)
  }

  /** Translation distributes over concatenation of the implementation lists. */
  lemma GotoContractConcat(inst: Instance, a: GFnContract<Instance>, b: GFnContract<Instance>)
    requires HasImpls(a) || HasImpls(b) ==> ContractReady(inst)
    ensures GotoContract(inst, ConcatG(a, b)) == ConcatContracts(GotoContract(inst, a), GotoContract(inst, b))
  {
    var r := GotoContract(inst, ConcatG(a, b));
    var s := ConcatContracts(GotoContract(inst, a), GotoContract(inst, b));
    assert r.requiresLambdas == s.requiresLambdas;
    assert r.ensuresLambdas == s.ensuresLambdas;
  }

  /**
   * Attaching two contracts one after the other is attaching their
   * concatenation: lambdas accumulate in attachment order, none is replaced.
   */
  lemma AttachContractAccumulates(t: SymbolTable, inst: Instance, a: GFnContract<Instance>, b: GFnContract<Instance>)
    requires FnKey(inst) in t && (HasImpls(a) || HasImpls(b) ==> ContractReady(inst))
    ensures AttachContractTable(AttachContractTable(t, inst, a), inst, b) == AttachContractTable(t, inst, ConcatG(a, b))
  {
    GotoContractConcat(inst, a, b);
    AttachTwice(t[FnKey(inst)], GotoContract(inst, a), GotoContract(inst, b));
  }

  /** An entry the merged tables do not mention is overwritten by the final update. */
  lemma OverwriteBeneath(t: SymbolTable, p: SymbolTable, v: SymbolTable, k: SymName, x: Symbol, y: Symbol)
    requires k !in p && k !in v
    ensures (t[k := x] + p + v)[k := y] == (t + p + v)[k := y]
  {
  }

  /** A body and a contract are independent: attaching before or after codegen gives the same table. */
  lemma AttachCommutesWithCodegen(t: SymbolTable, inst: Instance, c: GFnContract<Instance>)
    requires CodegenReady(t, inst) && (HasImpls(c) ==> ContractReady(inst))
    ensures CodegenReady(AttachContractTable(t, inst, c), inst)
    ensures FnKey(inst) in CodegenTable(t, inst)
    ensures CodegenTable(AttachContractTable(t, inst, c), inst) == AttachContractTable(CodegenTable(t, inst), inst, c)
  {
    if !IsFunctionDefinition(t[FnKey(inst)]) {
      var k, s, c' := FnKey(inst), t[FnKey(inst)], GotoContract(inst, c);
      var P, V := PreludeSymbols(inst), VariableSymbols(inst, |inst.mir.localDecls|);
      var body := StmtValue(FunctionBody(inst));
      FunctionKeyUntouched(inst);
      assert AttachToSymbol(s, c').(value := body) == AttachToSymbol(s.(value := body), c');
      OverwriteBeneath(t, P, V, k, AttachToSymbol(s, c'), AttachToSymbol(s.(value := body), c'));
    }
  }
}
