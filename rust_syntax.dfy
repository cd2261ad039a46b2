/**
 * The slice of Rust syntax the attribute macros read and write: token trees
 * for attribute arguments and bodies, and a parsed function item with its
 * attributes, visibility, signature and block. Parsing and printing of real
 * token streams are not modelled; an item arrives already classified as a
 * function or as something else.
 */
module RustSyntax {
  datatype Delimiter = Parenthesis | Brace | Bracket | NoDelimiter

  datatype TokenTree =
    | Ident(name: string)
    | Punct(ch: char)
    | Literal(text: string)
    | Group(delimiter: Delimiter, stream: seq<TokenTree>)

  type TokenStream = seq<TokenTree>

  datatype Visibility = Inherited | Public | Restricted(path: TokenStream)

  datatype RustType =
    | TypePath(path: TokenStream)
    | TypeTuple(elems: seq<RustType>)
    | TypeVerbatim(tokens: TokenStream)

  datatype Pat = PatIdent(ident: string) | OtherPat(tokens: TokenStream)

  datatype FnArg = Receiver(tokens: TokenStream) | Typed(pat: Pat, ty: RustType)

  datatype ReturnType = DefaultReturn | ReturnsType(ty: RustType)

  /**
   * A function signature. `qualifiers` stands for `const`, `unsafe` and
   * `extern "abi"`, and `generics` for the generic parameters and the where
   * clause; the macros copy both without looking at them. `ident` is the
   * name as it displays, so a raw identifier keeps its `r#` prefix.
   */
  datatype Signature = Signature(
    isAsync: bool,
    qualifiers: TokenStream,
    ident: string,
    generics: TokenStream,
    inputs: seq<FnArg>,
    variadic: bool,
    output: ReturnType)

  /**
   * A function body: the statements as tokens, or the synchronous shim the
   * async proof rewrite builds, which defines the inner function and calls
   * `kani::block_on` on a call of `callee` with no arguments.
   */
  datatype Block =
    | Stmts(tokens: TokenStream)
    | BlockOnShim(innerSig: Signature, innerBody: Block, callee: string)

  /** The outer attributes the macros produce, and any other attribute the user wrote. */
  datatype Attribute =
    | Allow(lint: string)
    | KaniTool(name: string)
    | KaniToolArgs(name: string, args: TokenStream)
    | KaniToolValue(name: string, value: string)
    | UserAttribute(tokens: TokenStream)

  datatype ItemFn = ItemFn(attrs: seq<Attribute>, vis: Visibility, sig: Signature, block: Block)

  /** The item a macro is applied to. */
  datatype Item = FnItem(fn: ItemFn) | OtherItem(tokens: TokenStream)

  /** One piece of a macro's output, in emission order. */
  datatype Piece = OuterAttr(attr: Attribute) | ItemPiece(item: Item)

  /**
   * What a macro invocation turns into: the emitted pieces, the compile error
   * of an item that does not parse as a function, or a panic with its message.
   */
  datatype Expansion = Expanded(pieces: seq<Piece>) | ParseError | Panic(message: string)
}
