/**
 * The target IR consumed by the model checker: types, expressions,
 * statements, symbols and function contracts, and the two symbol-table
 * updates the function lowering relies on (adding a body to a function
 * declaration, and merging a contract into a function symbol).
 */
module GotoProgram {
  import opened Wrappers

  /** A lowered source location (the result of `codegen_span`). */
  datatype Location = Location(span: nat)

  /** Target types: Bool for contract bodies, Code for functions, everything else lowered opaquely. */
  datatype Type =
    | Bool
    | Code(parameters: seq<Type>, returnType: Type)
    | Lowered(id: nat)

  /**
   * Symbol names. A function is named by its mangled name; the variable of a
   * local slot and the symbol of a spread-argument component are named after
   * their function and slot, in two separate name spaces (`var_<slot>` and
   * `spread_<slot>`).
   */
  datatype SymName =
    | FunctionName(mangled: string)
    | VarName(owner: string, slot: nat)
    | SpreadName(owner: string, slot: nat)

  datatype Expr =
    | SymbolExpr(name: SymName, typ: Type)
    | LoweredCopy(slot: nat)        // the lowering of `Operand::Copy(slot)` by the argument translator
    | FunctionRef(instance: string)  // the callable expression of a function instance
    | Call(callee: Expr, arguments: seq<Expr>)
    | Cast(operand: Expr, target: Type)
    | StructExpr(typ: Type, fields: map<string, Expr>, loc: Location)

  datatype Stmt =
    | Decl(lhs: Expr, value: Option<Expr>, loc: Location)
    | TranslatedBlock(bb: nat)      // the statements the block translator emits for basic block `bb`
    | Block(stmts: seq<Stmt>, loc: Location)

  datatype SymbolValue = NoValue | StmtValue(body: Stmt)

  /** A lambda: named, typed binders and a body. */
  datatype Lambda = Lambda(arguments: seq<(SymName, Type)>, body: Expr)

  datatype FunctionContract = FunctionContract(requiresLambdas: seq<Lambda>, ensuresLambdas: seq<Lambda>, assigns: seq<Expr>)

  datatype Symbol = Symbol(
    name: SymName,
    typ: Type,
    value: SymbolValue,
    contract: Option<FunctionContract>,
    loc: Location,
    isHidden: bool,
    isParameter: bool)

  type SymbolTable = map<SymName, Symbol>

  /** A variable symbol with the builder's default flags. */
  function Variable(name: SymName, typ: Type, loc: Location): Symbol
  {
    Symbol(name, typ, NoValue, None, loc, false, false)
  }

  predicate IsFunction(s: Symbol) { s.typ.Code? }

  predicate IsFunctionDefinition(s: Symbol) { IsFunction(s) && s.value.StmtValue? }

  /** Concatenation of two contracts, field by field. */
  function ConcatContracts(a: FunctionContract, b: FunctionContract): FunctionContract
  {
    FunctionContract(a.requiresLambdas + b.requiresLambdas, a.ensuresLambdas + b.ensuresLambdas, a.assigns + b.assigns)
  }

  /**
   * Attaching a contract to a symbol: a symbol without one takes it as is, a
   * symbol that has one gets the new lambdas appended to its lists.
   */
  function AttachToSymbol(s: Symbol, c: FunctionContract): (r: Symbol)
    ensures r.contract.Some?
    ensures r == s.(contract := r.contract)
    ensures s.contract.Some? ==> r.contract.value == ConcatContracts(s.contract.value, c)
    ensures s.contract.None? ==> r.contract.value == c
  {
    match s.contract
    case None => s.(contract := Some(c))
    case Some(prior) => s.(contract := Some(ConcatContracts(prior, c)))
  }

  /** The symbol table's `attach_contract`: the named symbol must exist. */
  function AttachInTable(t: SymbolTable, name: SymName, c: FunctionContract): (r: SymbolTable)
    requires name in t
    ensures r.Keys == t.Keys
    ensures forall n :: n in t && n != name ==> r[n] == t[n]
  {
    t[name := AttachToSymbol(t[name], c)]
  }

  /** The contract a symbol carries, the empty one when it has none. */
  function ContractOf(s: Symbol): FunctionContract
  {
    if s.contract.Some? then s.contract.value else FunctionContract([], [], [])
  }

  /** Attaching never drops what was there: every old list is a prefix of the new one. */
  lemma AttachKeepsPrior(s: Symbol, c: FunctionContract)
    ensures ContractOf(AttachToSymbol(s, c)) == ConcatContracts(ContractOf(s), c)
    ensures ContractOf(s).requiresLambdas <= ContractOf(AttachToSymbol(s, c)).requiresLambdas
    ensures ContractOf(s).ensuresLambdas <= ContractOf(AttachToSymbol(s, c)).ensuresLambdas
  {
    if s.contract.None? {
      assert ConcatContracts(FunctionContract([], [], []), c) == c;
    }
  }

  /** Attaching a then b is attaching their concatenation: merges accumulate in attachment order. */
  lemma AttachTwice(s: Symbol, a: FunctionContract, b: FunctionContract)
    ensures AttachToSymbol(AttachToSymbol(s, a), b) == AttachToSymbol(s, ConcatContracts(a, b))
  {
    if s.contract.Some? {
      var p := s.contract.value;
      assert ConcatContracts(ConcatContracts(p, a), b) == ConcatContracts(p, ConcatContracts(a, b));
    }
  }

  /** Two single-precondition attachments give a precondition list of length two, in order. */
  lemma TwoRequiresInOrder(s: Symbol, r1: Lambda, r2: Lambda)
    requires s.contract.None?
    ensures var r := AttachToSymbol(AttachToSymbol(s, FunctionContract([r1], [], [])), FunctionContract([r2], [], []));
      r.contract.value.requiresLambdas == [r1, r2] && r.contract.value.ensuresLambdas == []
  {
  }
}
