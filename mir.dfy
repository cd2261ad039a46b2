/**
 * The source IR one function is lowered from, with every answer of the
 * compiler's queries already filled in: the lowered type of each local, whether
 * its monomorphized type is zero-sized, whether it is a user variable, its
 * lowered span, and the initializer `codegen_default_initializer` gives its
 * variable, if any.
 */
module Mir {
  import opened Wrappers
  import opened GotoProgram

  datatype LocalDecl = LocalDecl(typ: Type, isZst: bool, isUserVariable: bool, loc: Location, defaultInit: Option<Expr>)

  /** A component of a tuple type: its lowered type and whether it is zero-sized. */
  datatype Component = Component(typ: Type, isZst: bool)

  /** An input type of a signature, as far as the spread-argument prelude looks at it. */
  datatype SourceType = Tuple(components: seq<Component>) | NonTuple

  /** The kind of an instance's type; function kinds carry their signature's inputs before untupling. */
  datatype FnTyKind =
    | FnPtr(inputs: seq<SourceType>)
    | FnDef(inputs: seq<SourceType>)
    | Closure
    | OtherKind

  /**
   * A MIR body: the local table (slot 0 the return place, slots 1..argCount the
   * arguments), the optional spread-argument slot, the basic blocks in reverse
   * postorder, and the body's span.
   */
  datatype Body = Body(
    localDecls: seq<LocalDecl>,
    argCount: nat,
    spreadArg: Option<nat>,
    reversePostorder: seq<nat>,
    span: Location)

  /**
   * A monomorphized function: its mangled name, its MIR, the inputs of its
   * normalized signature, the kind of its type, and the lowered code type
   * that `fn_typ` gives it.
   */
  datatype Instance = Instance(
    name: string,
    mir: Body,
    sigInputs: seq<SourceType>,
    kind: FnTyKind,
    codeParameters: seq<Type>,
    codeReturn: Type)
}
