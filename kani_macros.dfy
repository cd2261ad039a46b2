/**
 * The attribute macros as the Kani sysroot build expands them: harness and
 * option attributes become `kanitool` attributes the compiler reads, and
 * each `requires`/`ensures` condition is lifted into a generated helper
 * function that the compiler later calls from the function's contract.
 */
module Sysroot {
  import opened Wrappers
  import opened Numerals
  import opened RustSyntax

  type U64 = x: nat | x < 0x1_0000_0000_0000_0000

  /** Six hexadecimal digits. */
  const SHORT_HASH_MODULUS: nat := 0x1_000_000

  /** The reduction of the 64-bit token-stream hash to the short hash used in helper names. */
  function ShortHash(longHash: U64): (h: U64)
    ensures h < SHORT_HASH_MODULUS
    ensures (longHash - h) % SHORT_HASH_MODULUS == 0
  {
    longHash % SHORT_HASH_MODULUS
  }

  lemma PowSixteen()
    ensures Pow(16, 6) == SHORT_HASH_MODULUS
  {
    assert Pow(16, 2) == 256;
    assert Pow(16, 4) == 65536 by { assert Pow(16, 3) == 4096; }
    assert Pow(16, 5) == 1048576;
  }

  /**
   * The short hash lies below 2^24, so its lower-case hex rendering has at
   * most six digits, and it differs from the long hash by a multiple of 2^24.
   */
  lemma ShortHashFits(longHash: U64)
    ensures ShortHash(longHash) < 0x1_000_000
    ensures 1 <= |ToDigits(ShortHash(longHash), 16)| <= 6
    ensures (longHash - ShortHash(longHash)) % SHORT_HASH_MODULUS == 0
  {
    PowSixteen();
    ToDigitsLength(ShortHash(longHash), 16, 6);
    ToDigitsChars(ShortHash(longHash), 16);
  }

  /** `<ident>_<purpose>_<hash in lower-case hex>`. */
  function IdentifierForGeneratedFunction(relatedFunction: ItemFn, purpose: string, hash: nat): (r: string)
    ensures |r| > |relatedFunction.sig.ident| + |purpose| + 2
    ensures r[..|relatedFunction.sig.ident|] == relatedFunction.sig.ident
  {
    ToDigitsChars(hash, 16);
    relatedFunction.sig.ident + "_" + purpose + "_" + ToDigits(hash, 16)
  }

  /** The name starts with the function's identifier and the purpose, and its hex suffix reads back as the hash. */
  lemma GeneratedNameCarriesHash(relatedFunction: ItemFn, purpose: string, hash: nat)
    ensures var n := IdentifierForGeneratedFunction(relatedFunction, purpose, hash);
            var k := |relatedFunction.sig.ident| + |purpose| + 2;
            && k < |n|
            && n[..k] == relatedFunction.sig.ident + "_" + purpose + "_"
            && ParseDigits(n[k..], 16) == Some(hash)
  {
    var n := IdentifierForGeneratedFunction(relatedFunction, purpose, hash);
    var k := |relatedFunction.sig.ident| + |purpose| + 2;
    ToDigitsChars(hash, 16);
    assert n[k..] == ToDigits(hash, 16);
    ParseToDigits(hash, 16);
  }

  /** For one function and one purpose, different hashes give different names. */
  lemma GeneratedNameInjective(relatedFunction: ItemFn, purpose: string, h1: nat, h2: nat)
    ensures IdentifierForGeneratedFunction(relatedFunction, purpose, h1) == IdentifierForGeneratedFunction(relatedFunction, purpose, h2)
            <==> h1 == h2
  {
    if IdentifierForGeneratedFunction(relatedFunction, purpose, h1) == IdentifierForGeneratedFunction(relatedFunction, purpose, h2) {
      GeneratedNameCarriesHash(relatedFunction, purpose, h1);
      GeneratedNameCarriesHash(relatedFunction, purpose, h2);
    }
  }

  /** A `requires` helper and an `ensures` helper of the same function never share a name, whatever the hashes. */
  lemma RequiresEnsuresNamesDiffer(relatedFunction: ItemFn, h1: nat, h2: nat)
    ensures IdentifierForGeneratedFunction(relatedFunction, "requires", h1) != IdentifierForGeneratedFunction(relatedFunction, "ensures", h2)
  {
    var i := |relatedFunction.sig.ident| + 1;
    ToDigitsChars(h1, 16);
    ToDigitsChars(h2, 16);
    assert IdentifierForGeneratedFunction(relatedFunction, "requires", h1)[i] == 'r';
    assert IdentifierForGeneratedFunction(relatedFunction, "ensures", h2)[i] == 'e';
  }

  /** The type of the helper's `result` parameter: the declared return type, or `()` when there is none. */
  function ResultType(sig: Signature): RustType
  {
    match sig.output
    case ReturnsType(t) => t
    case DefaultReturn => TypeTuple([])
  }

  function ResultParam(sig: Signature): FnArg
  {
    Typed(PatIdent("result"), ResultType(sig))
  }

  const BoolType: RustType := TypeVerbatim([Ident("bool")])

  /** The helper's signature: the original one renamed, with `result` appended to its inputs, returning `bool`. */
  function HelperSignature(sig: Signature, genName: string): Signature
  {
    sig.(inputs := sig.inputs + [ResultParam(sig)], output := ReturnsType(BoolType), ident := genName)
  }

  /** A raw identifier such as `r#match` displays with its `r#` prefix. */
  predicate IsRawIdent(ident: string)
  {
    |ident| >= 2 && ident[..2] == "r#"
  }

  /**
   * `Ident::new` accepts a plain identifier only. The generated name starts
   * with the function's displayed name, so it is refused exactly when that
   * name is raw: every other character added is a letter, digit or `_`.
   */
  predicate ValidGeneratedIdent(genName: string)
  {
    !IsRawIdent(genName)
  }

  lemma GeneratedNameRawIffIdentRaw(relatedFunction: ItemFn, purpose: string, hash: nat)
    ensures ValidGeneratedIdent(IdentifierForGeneratedFunction(relatedFunction, purpose, hash))
            <==> !IsRawIdent(relatedFunction.sig.ident)
  {
    var n := IdentifierForGeneratedFunction(relatedFunction, purpose, hash);
    var id := relatedFunction.sig.ident;
    if |id| >= 2 {
      assert n[..2] == id[..2];
    } else if |id| == 1 {
      assert n[1] == '_';
    } else {
      assert n[0] == '_';
    }
  }

  /**
   * `requires` and `ensures`: the helper holding the condition, then the
   * original function under two `allow` attributes and the `kanitool`
   * attribute naming the helper.
   */
  function HandleRequiresEnsures(name: string, attr: TokenStream, item: Item, longHash: U64): (r: Expansion)
    ensures r.ParseError? <==> item.OtherItem?
    ensures r.Expanded? ==> |r.pieces| == 5 && r.pieces[4] == ItemPiece(item)
  {
    match item
    case OtherItem(_) => ParseError
    case FnItem(f) =>
      var genName := IdentifierForGeneratedFunction(f, name, ShortHash(longHash));
      if !ValidGeneratedIdent(genName) then Panic(InvalidIdentMessage(genName))
      else if f.sig.variadic then Panic("Variadic signatures are not supported")
      else
        Expanded([ItemPiece(FnItem(ItemFn([], Inherited, HelperSignature(f.sig, genName), Stmts(attr)))),
                  OuterAttr(Allow("dead_code")),
                  OuterAttr(Allow("unused_variables")),
                  OuterAttr(KaniToolValue(name, genName)),
                  ItemPiece(item)])
  }

  function InvalidIdentMessage(genName: string): string
  {
    "`" + genName + "` is not a valid identifier"
  }

  function Requires(attr: TokenStream, item: Item, longHash: U64): Expansion
  {
    HandleRequiresEnsures("requires", attr, item, longHash)
  }

  function Ensures(attr: TokenStream, item: Item, longHash: U64): Expansion
  {
    HandleRequiresEnsures("ensures", attr, item, longHash)
  }

  /**
   * A non-function item is a compile error; a function with a raw name
   * panics when the helper's name is built, before the variadic check; a
   * variadic function panics; anything else expands.
   */
  lemma RequiresEnsuresOutcome(name: string, attr: TokenStream, item: Item, longHash: U64)
    ensures HandleRequiresEnsures(name, attr, item, longHash).ParseError? <==> item.OtherItem?
    ensures HandleRequiresEnsures(name, attr, item, longHash).Panic?
            <==> item.FnItem? && (IsRawIdent(item.fn.sig.ident) || item.fn.sig.variadic)
    ensures item.FnItem? && IsRawIdent(item.fn.sig.ident) ==>
              HandleRequiresEnsures(name, attr, item, longHash)
              == Panic(InvalidIdentMessage(IdentifierForGeneratedFunction(item.fn, name, ShortHash(longHash))))
    ensures item.FnItem? && !IsRawIdent(item.fn.sig.ident) && item.fn.sig.variadic ==>
              HandleRequiresEnsures(name, attr, item, longHash) == Panic("Variadic signatures are not supported")
  {
    if item.FnItem? {
      GeneratedNameRawIffIdentRaw(item.fn, name, ShortHash(longHash));
    }
  }

  /** `#[kani::requires(..)]` on `fn r#match()` panics instead of expanding. */
  lemma RawIdentifierExample(attr: TokenStream, longHash: U64)
    ensures var sig := Signature(false, [], "r#match", [], [], false, DefaultReturn);
            HandleRequiresEnsures("requires", attr, FnItem(ItemFn([], Inherited, sig, Stmts([]))), longHash).Panic?
  {
    var sig := Signature(false, [], "r#match", [], [], false, DefaultReturn);
    GeneratedNameRawIffIdentRaw(ItemFn([], Inherited, sig, Stmts([])), "requires", ShortHash(longHash));
  }

  /**
   * The expansion for a non-variadic function: a helper with no attributes
   * and inherited visibility whose inputs are the original inputs followed
   * by `result` of the return type (or `()`), which returns `bool`, keeps the
   * rest of the signature and has the condition as its body; then the two
   * `allow` attributes and `kanitool::<name> = "<helper>"`, whose helper name
   * carries the short hash; then the original function, unchanged.
   */
  lemma RequiresEnsuresShape(name: string, attr: TokenStream, f: ItemFn, longHash: U64)
    requires !f.sig.variadic && !IsRawIdent(f.sig.ident)
    ensures var r := HandleRequiresEnsures(name, attr, FnItem(f), longHash);
            var genName := IdentifierForGeneratedFunction(f, name, ShortHash(longHash));
            && r.Expanded? && |r.pieces| == 5
            && r.pieces[0].ItemPiece? && r.pieces[0].item.FnItem?
            && var helper := r.pieces[0].item.fn;
            && helper.attrs == [] && helper.vis == Inherited && helper.block == Stmts(attr)
            && helper.sig == HelperSignature(f.sig, genName)
            && helper.sig.ident == genName
            && |helper.sig.inputs| == |f.sig.inputs| + 1
            && helper.sig.inputs[..|f.sig.inputs|] == f.sig.inputs
            && helper.sig.inputs[|f.sig.inputs|] == Typed(PatIdent("result"), if f.sig.output.ReturnsType? then f.sig.output.ty else TypeTuple([]))
            && helper.sig.output == ReturnsType(TypeVerbatim([Ident("bool")]))
            && helper.sig.isAsync == f.sig.isAsync && helper.sig.qualifiers == f.sig.qualifiers
            && helper.sig.generics == f.sig.generics && !helper.sig.variadic
            && r.pieces[1..4] == [OuterAttr(Allow("dead_code")), OuterAttr(Allow("unused_variables")), OuterAttr(KaniToolValue(name, helper.sig.ident))]
            && r.pieces[4] == ItemPiece(FnItem(f))
            && ParseDigits(genName[|f.sig.ident| + |name| + 2..], 16) == Some(ShortHash(longHash))
  {
    var genName := IdentifierForGeneratedFunction(f, name, ShortHash(longHash));
    GeneratedNameRawIffIdentRaw(f, name, ShortHash(longHash));
    var helper := HandleRequiresEnsures(name, attr, FnItem(f), longHash).pieces[0].item.fn;
    assert helper.sig.inputs == f.sig.inputs + [ResultParam(f.sig)];
    GeneratedNameCarriesHash(f, name, ShortHash(longHash));
  }

  /** `#[kanitool::<name>(<args>)]` in front of the unchanged function. */
  function KaniAttribute(name: string, attr: TokenStream, item: Item): (r: Expansion)
    ensures !r.Panic?
    ensures r.Expanded? <==> item.FnItem?
    ensures r.Expanded? ==> |r.pieces| == 2 && r.pieces[1] == ItemPiece(item)
  {
    match item
    case OtherItem(_) => ParseError
    case FnItem(_) => Expanded([OuterAttr(KaniToolArgs(name, attr)), ItemPiece(item)])
  }

  function NoArgumentsMessage(name: string): string
  {
    "`#[kani::" + name + "]` does not take any arguments currently"
  }

  /** `#[kanitool::<name>]` in front of the unchanged function; arguments are refused before the item is parsed. */
  function KaniAttributeNoArgs(name: string, attr: TokenStream, item: Item): (r: Expansion)
    ensures r.Panic? <==> |attr| != 0
    ensures r.Expanded? ==> |r.pieces| == 2 && r.pieces[1] == ItemPiece(item)
  {
    if |attr| != 0 then Panic(NoArgumentsMessage(name))
    else
      match item
      case OtherItem(_) => ParseError
      case FnItem(_) => Expanded([OuterAttr(KaniTool(name)), ItemPiece(item)])
  }

  /**
   * The argument form never panics and passes the arguments through
   * verbatim; the no-argument form panics exactly on arguments, whatever the
   * item, and otherwise emits the bare tool attribute. Both keep the item.
   */
  lemma KaniAttributeForms(name: string, attr: TokenStream, item: Item)
    ensures KaniAttribute(name, attr, item).ParseError? <==> item.OtherItem?
    ensures item.FnItem? ==> KaniAttribute(name, attr, item) == Expanded([OuterAttr(KaniToolArgs(name, attr)), ItemPiece(item)])
    ensures KaniAttributeNoArgs(name, attr, item).Panic? <==> |attr| != 0
    ensures KaniAttributeNoArgs(name, attr, item).ParseError? <==> |attr| == 0 && item.OtherItem?
    ensures |attr| == 0 && item.FnItem? ==> KaniAttributeNoArgs(name, attr, item) == Expanded([OuterAttr(KaniTool(name)), ItemPiece(item)])
  {
  }

  const ProofAttributes: seq<Piece> := [OuterAttr(Allow("dead_code")), OuterAttr(KaniTool("proof"))]

  /**
   * `#[kani::proof]`: a synchronous harness is re-emitted as it is after
   * `allow(dead_code)` and `kanitool::proof`; an async harness without
   * inputs becomes a synchronous function of the same name whose body
   * defines the async original and runs it under `kani::block_on`.
   */
  function Proof(attr: TokenStream, item: Item): (r: Expansion)
    ensures r.ParseError? <==> item.OtherItem?
    ensures r.Expanded? ==> |r.pieces| == 3 && r.pieces[..2] == ProofAttributes
  {
    match item
    case OtherItem(_) => ParseError
    case FnItem(f) =>
      if |attr| != 0 then Panic("#[kani::proof] does not take any arguments currently")
      else if !f.sig.isAsync then Expanded(ProofAttributes + [ItemPiece(FnItem(ItemFn(f.attrs, f.vis, f.sig, f.block)))])
      else if |f.sig.inputs| != 0 then Panic("#[kani::proof] cannot be applied to async functions that take inputs for now")
      else Expanded(ProofAttributes + [ItemPiece(FnItem(ItemFn(f.attrs, f.vis, f.sig.(isAsync := false), BlockOnShim(f.sig, f.block, f.sig.ident))))])
  }

  /** Parsing comes first, then the argument check, then the async-inputs check. */
  lemma ProofOutcome(attr: TokenStream, item: Item)
    ensures Proof(attr, item).ParseError? <==> item.OtherItem?
    ensures Proof(attr, item).Panic? <==> item.FnItem? && (|attr| != 0 || (item.fn.sig.isAsync && |item.fn.sig.inputs| != 0))
    ensures item.FnItem? && |attr| != 0 ==> Proof(attr, item) == Panic("#[kani::proof] does not take any arguments currently")
  {
  }

  /** A synchronous harness comes out unchanged after the two proof attributes. */
  lemma ProofSync(f: ItemFn)
    requires !f.sig.isAsync
    ensures Proof([], FnItem(f)) == Expanded([OuterAttr(Allow("dead_code")), OuterAttr(KaniTool("proof")), ItemPiece(FnItem(f))])
  {
  }

  /**
   * An async harness without inputs keeps its attributes, visibility and
   * signature except for `async`; the new body defines the original function
   * and calls it by its own name, with no arguments, which its signature
   * accepts.
   */
  lemma ProofAsync(f: ItemFn)
    requires f.sig.isAsync && |f.sig.inputs| == 0
    ensures var r := Proof([], FnItem(f));
            && r.Expanded? && |r.pieces| == 3 && r.pieces[..2] == [OuterAttr(Allow("dead_code")), OuterAttr(KaniTool("proof"))]
            && r.pieces[2].ItemPiece? && r.pieces[2].item.FnItem?
            && var g := r.pieces[2].item.fn;
            && g.attrs == f.attrs && g.vis == f.vis
            && !g.sig.isAsync && g.sig == f.sig.(isAsync := false)
            && g.block.BlockOnShim?
            && g.block.innerSig == f.sig && g.block.innerBody == f.block
            && g.block.callee == g.block.innerSig.ident == g.sig.ident
            && |g.block.innerSig.inputs| == 0
  {
  }
}

/**
 * The attribute macros outside the sysroot build: they leave the item for
 * the ordinary compiler, so code written for Kani still builds.
 */
module Regular {
  import opened RustSyntax

  /** The item as given; the arguments are ignored. */
  function NoOp(attr: TokenStream, item: Item): (r: Expansion)
    ensures r.Expanded? && |r.pieces| >= 1 && r.pieces[|r.pieces| - 1] == ItemPiece(item)
  {
    Expanded([ItemPiece(item)])
  }

  /** `#[allow(dead_code)]` followed by the item as given. */
  function Proof(attr: TokenStream, item: Item): (r: Expansion)
    ensures r.Expanded? && |r.pieces| >= 1 && r.pieces[|r.pieces| - 1] == ItemPiece(item)
    ensures r.pieces[0] == OuterAttr(Allow("dead_code"))
  {
    Expanded([OuterAttr(Allow("dead_code"))] + [ItemPiece(item)])
  }

  /** Neither fails on any input, and both end with the item untouched; `proof` adds only the lint attribute. */
  lemma RegularKeepsItem(attr: TokenStream, item: Item)
    ensures NoOp(attr, item).Expanded? && NoOp(attr, item).pieces == [ItemPiece(item)]
    ensures Proof(attr, item).Expanded? && |Proof(attr, item).pieces| == 2
    ensures Proof(attr, item).pieces[0] == OuterAttr(Allow("dead_code")) && Proof(attr, item).pieces[1] == ItemPiece(item)
  {
  }
}

/** The public attribute macros and the build that selects their implementation. */
module KaniMacros {
  import opened RustSyntax
  import Sysroot
  import Regular

  datatype AttrMacro = Proof | ShouldPanic | Solver | Stub | Unstable | Unwind | Requires | Ensures

  /** Whether the crate is built as part of Kani's sysroot (the `kani_sysroot` configuration). */
  datatype Build = SysrootBuild | RegularBuild

  function MacroName(m: AttrMacro): string
  {
    match m
    case Proof => "proof"
    case ShouldPanic => "should_panic"
    case Solver => "solver"
    case Stub => "stub"
    case Unstable => "unstable"
    case Unwind => "unwind"
    case Requires => "requires"
    case Ensures => "ensures"
  }

  /** The macros that only tag the harness with a `kanitool` attribute. */
  predicate IsToolAttribute(m: AttrMacro)
  {
    m in {ShouldPanic, Solver, Stub, Unstable, Unwind}
  }

  /** `longHash` is the 64-bit hash of the item's tokens, used only by `requires` and `ensures`. */
  function Expand(build: Build, m: AttrMacro, attr: TokenStream, item: Item, longHash: Sysroot.U64): (r: Expansion)
    ensures build == RegularBuild ==> r.Expanded?
    ensures build == SysrootBuild && item.OtherItem? ==> !r.Expanded?
  {
    match build
    case RegularBuild =>
      if m == Proof then Regular.Proof(attr, item) else Regular.NoOp(attr, item)
    case SysrootBuild =>
      match m
      case Proof => Sysroot.Proof(attr, item)
      case ShouldPanic => Sysroot.KaniAttributeNoArgs("should_panic", attr, item)
      case Solver => Sysroot.KaniAttribute("solver", attr, item)
      case Stub => Sysroot.KaniAttribute("stub", attr, item)
      case Unstable => Sysroot.KaniAttribute("unstable", attr, item)
      case Unwind => Sysroot.KaniAttribute("unwind", attr, item)
      case Requires => Sysroot.Requires(attr, item, longHash)
      case Ensures => Sysroot.Ensures(attr, item, longHash)
  }

  /**
   * In the sysroot build a tool-attribute macro on a function emits exactly
   * one `kanitool` attribute, named after the macro, before the unchanged
   * function; only `should_panic` refuses arguments.
   */
  lemma ToolAttributeNamedAfterMacro(m: AttrMacro, attr: TokenStream, f: ItemFn, longHash: Sysroot.U64)
    requires IsToolAttribute(m)
    ensures var r := Expand(SysrootBuild, m, attr, FnItem(f), longHash);
            && (r.Panic? <==> m == ShouldPanic && |attr| != 0)
            && (r.Expanded? ==>
                  && |r.pieces| == 2 && r.pieces[1] == ItemPiece(FnItem(f))
                  && r.pieces[0].OuterAttr?
                  && (r.pieces[0].attr == KaniTool(MacroName(m)) || r.pieces[0].attr == KaniToolArgs(MacroName(m), attr)))
  {
    Sysroot.KaniAttributeForms(MacroName(m), attr, FnItem(f));
  }

  /**
   * Where the sysroot expansion succeeds, except for an async harness, it
   * ends with the item exactly as the regular build does: the sysroot build
   * only adds attributes and helpers around it.
   */
  lemma BuildsAgreeOnItem(m: AttrMacro, attr: TokenStream, item: Item, longHash: Sysroot.U64)
    requires !(m == Proof && item.FnItem? && item.fn.sig.isAsync)
    ensures var s := Expand(SysrootBuild, m, attr, item, longHash);
            var r := Expand(RegularBuild, m, attr, item, longHash);
            && r.Expanded? && |r.pieces| >= 1 && r.pieces[|r.pieces| - 1] == ItemPiece(item)
            && (s.Expanded? ==> |s.pieces| >= 1 && s.pieces[|s.pieces| - 1] == ItemPiece(item))
  {
    match item
    case OtherItem(_) =>
    case FnItem(f) =>
      if m == Requires || m == Ensures {
        if !f.sig.variadic && !Sysroot.IsRawIdent(f.sig.ident) {
          Sysroot.RequiresEnsuresShape(MacroName(m), attr, f, longHash);
        }
      } else if m == Proof {
        if |attr| == 0 {
          assert f == ItemFn(f.attrs, f.vis, f.sig, f.block);
        }
      }
  }

  /** The regular build accepts every input the sysroot build accepts, and more. */
  lemma RegularNeverFails(m: AttrMacro, attr: TokenStream, item: Item, longHash: Sysroot.U64)
    ensures Expand(RegularBuild, m, attr, item, longHash).Expanded?
    ensures Expand(RegularBuild, m, attr, item, longHash) == Expand(RegularBuild, m, [], item, 0)
  {
  }
}
