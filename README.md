# Kani: function lowering and contract attribute macros, in Dafny

This project models two parts of the Kani Rust verifier.

The first part is the lowering of one monomorphized Rust function from MIR into the CBMC goto program (`function.rs` in the compiler's goto-C backend). This part of the model covers:

- the symbol and declaration of every local slot;
- the spread-argument prelude that rebuilds an untupled "rust-call" tuple;
- assembly of the function body and the states of the function symbol (declared, defined, contracted);
- translation of a function contract into goto lambdas that call the contract's helper functions.

The lowering context is a class, `FunctionCodegen.GotocCtx`. Its fields are the symbol table, held as a map, and the single current-function slot, which holds the statement buffer. Each entry point (`DeclareFunction`, `CodegenFunction`, `AttachContract`) is a method. Each is proved to leave exactly the table computed by a specification function in `FunctionSpec`, as far as the symbols this file inserts go (type symbols registered by the type translator are not modelled; see "Left out"). The lemmas about those functions state what the lowering promises.

The second part is the attribute macros of `kani_macros` (`library/kani_macros/src/lib.rs`). The model covers both builds:

- the sysroot build, which rewrites `#[kani::proof]`, the option attributes, and `#[kani::requires]`/`#[kani::ensures]` into `kanitool` attributes plus generated helper functions (module `Sysroot`);
- the regular build, whose macros leave the item to the ordinary compiler (module `Regular`).

The macros work on an abstract syntax (`RustSyntax`): a parsed function item, its signature, and attribute token trees.

`ContractConvention.HelperMatchesLambda` connects the two halves. The helper generated by the macro takes the function's inputs and then `result`. The compiler's contract lambda calls the helper with MIR slots 1..P and then the return-value binder. The lemma proves that the two agree position by position.

Files:

- `wrappers.dfy`: `Option` and `Result`.
- `numerals.dfy`: decimal and lower-case hex rendering of naturals (Rust's `to_string()` and `{:x}`), with a parser proving that the rendering is injective.
- `goto_program.dfy`: goto types, expressions, statements, symbols, contracts and the symbol-table map. It also models the contract merge of the symbol table.
- `mir.dfy`: the local table and the instance being lowered. All rustc query results are precomputed fields.
- `function_spec.dfy`: specification functions and lemmas for the lowering.
- `function_codegen.dfy`: the lowering context class and its methods.
- `rust_syntax.dfy`: the item, signature and token syntax the macros read and write.
- `kani_macros.dfy`: modules `Sysroot`, `Regular` and `KaniMacros`. `KaniMacros` holds the public macros and the build selection.
- `contract_convention.dfy`: the agreement between helper parameters and lambda arguments.

Where the code and its comments disagree, the model follows the code:

- Slot 0, the return place, IS declared. The comment at `function.rs:60-61` says it needs no declaration, but the test at line 62 is `index < 1 || index > arg_count`.
- Codegen of a function that is already defined changes nothing: the code only logs it (`function.rs:76-77`).
- The spread components are named after slots `n + i`, where `n` is the number of inputs of the signature *before* untupling (`function.rs:194-199`). They are not named after the slots that follow the spread slot.
- The return-value binder of a contract lambda is the variable of slot P+1, the slot after the last argument (`function.rs:256-260`). It is not the return place's own variable. Its type is that of slot 0.
- `as_goto_contract` reads the current function set by its caller and does not save or restore it.

## Model

| member | source | states |
|---|---|---|
| FunctionSpec.VariableSymbolAt | kani-compiler/src/codegen_cprover_gotoc/codegen/function.rs:20-58 | Every slot except the spread slot gets its variable symbol, with the slot's type. `is_parameter` holds iff the slot index is in 1..=params_size (the normalized signature's input count) and the slot is not zero-sized. `is_hidden` holds iff the slot is not a user variable. |
| FunctionSpec.VariableSymbolKeys | kani-compiler/src/codegen_cprover_gotoc/codegen/function.rs:35-58 | The declarator inserts only variables of this function's slots, and never one for the spread slot. |
| FunctionSpec.DeclaredSlotsExactly | kani-compiler/src/codegen_cprover_gotoc/codegen/function.rs:35-65 | Slot i gets a declaration iff it is not the spread slot and is slot 0 or above arg_count. The declared slots come in strictly ascending order. |
| FunctionSpec.DeclStmtsAt | kani-compiler/src/codegen_cprover_gotoc/codegen/function.rs:57-65 | The j-th emitted declaration declares the j-th declared slot, with the initializer `codegen_default_initializer` gives it (possibly none), at the slot's location. |
| FunctionSpec.TwoArgumentExample | kani-compiler/src/codegen_cprover_gotoc/codegen/function.rs:27-67 | For `f(a, b)` with one temporary, slots 0 and 3 are declared. Exactly slots 1 and 2 are parameters. The temporary is hidden. |
| FunctionSpec.ParamsSize | kani-compiler/src/codegen_cprover_gotoc/codegen/function.rs:20-25 | The parameter count used for `is_parameter` is the input count of the normalized signature, not `arg_count`. |
| FunctionCodegen.DeclStep | kani-compiler/src/codegen_cprover_gotoc/codegen/function.rs:35-65 | Visiting one slot adds its symbol unless it is the spread slot. It adds its declaration exactly when that slot is declared. |
| FunctionCodegen.DeclaredStep | kani-compiler/src/codegen_cprover_gotoc/codegen/function.rs:35-65 | Visiting slot idx turns the table and buffer of the first idx slots into those of the first idx+1 slots, above any prior contents. |
| FunctionCodegen.GotocCtx.DeclareSlot | kani-compiler/src/codegen_cprover_gotoc/codegen/function.rs:35-65 | Visiting the spread slot changes nothing. Any other slot gets its variable symbol, and gets its declaration only when it is slot 0 or above arg_count. |
| FunctionCodegen.GotocCtx.DeclareVariables | kani-compiler/src/codegen_cprover_gotoc/codegen/function.rs:31-67 | The loop leaves the table extended by exactly the declarator's symbols. It leaves the buffer extended by exactly the declarations of the declared slots, in order. |
| FunctionCodegen.GotocCtx.DeclareVariable | kani-compiler/src/codegen_cprover_gotoc/codegen/function.rs:217-223 | Inserts a plain variable symbol and appends its declaration with the given initial value. |
| FunctionCodegen.GotocCtx.SetCurrentFn | kani-compiler/src/codegen_cprover_gotoc/codegen/function.rs:70 | Sets the current function with an empty buffer and leaves the table alone. |
| FunctionCodegen.GotocCtx.ResetCurrentFn | kani-compiler/src/codegen_cprover_gotoc/codegen/function.rs:92 | Clears the current function and leaves the table alone. |
| FunctionCodegen.GotocCtx.PushOntoBlock | kani-compiler/src/codegen_cprover_gotoc/codegen/function.rs:64 | Appends one statement to the current function's buffer. |
| FunctionCodegen.GotocCtx.ExtractBlock | kani-compiler/src/codegen_cprover_gotoc/codegen/function.rs:88 | Returns the buffered statements and leaves the buffer empty. |
| FunctionCodegen.GotocCtx.CodegenBlock | kani-compiler/src/codegen_cprover_gotoc/codegen/function.rs:85 | Appends the translation of one basic block. |
| FunctionCodegen.GotocCtx.UpdateFnDeclarationWithDefinition | kani-compiler/src/codegen_cprover_gotoc/codegen/function.rs:90 | Sets the body of the named symbol and changes no other symbol. |
| FunctionSpec.SpreadLayoutFails | kani-compiler/src/codegen_cprover_gotoc/codegen/function.rs:133-193 | The prelude fails exactly for closures and non-function types (the `unreachable!`s at lines 138 and 143), for a signature with no last input (the `unwrap` at line 189), and for a last input that is not a tuple (the `unreachable!` at line 192). Otherwise the layout is the input count and the last tuple's components. |
| FunctionSpec.PreludeEmptyUnlessSpread | kani-compiler/src/codegen_cprover_gotoc/codegen/function.rs:97-128 | Without a spread slot, or with a zero-sized one, the prelude inserts no symbol and emits no statement. |
| FunctionSpec.SpreadLayout | kani-compiler/src/codegen_cprover_gotoc/codegen/function.rs:133-193 | The signature and trailing tuple read before untupling. Closures and non-function types are unreachable. A layout that exists numbers its components from P, the pre-untupling input count (P>=1), so component 0 takes slot P. |
| FunctionSpec.SpreadSymbolAt | kani-compiler/src/codegen_cprover_gotoc/codegen/function.rs:194-208 | Component i gets a symbol at slot n+i. The symbol has the component's type and the spread location, is not hidden, and is a parameter iff the component is not zero-sized. |
| FunctionSpec.SpreadSymbolKeys | kani-compiler/src/codegen_cprover_gotoc/codegen/function.rs:194-208 | No other spread symbol is inserted: only slots n..n+K-1. |
| FunctionSpec.TupleFieldAt | kani-compiler/src/codegen_cprover_gotoc/codegen/function.rs:195-213 | Field `to_string(i)` of the rebuilt tuple reads the symbol of slot n+i. |
| FunctionSpec.TupleFieldKeys | kani-compiler/src/codegen_cprover_gotoc/codegen/function.rs:209-213 | Every field key parses as a component index below K and is exactly the decimal rendering of that index (so no key like "07"). |
| FunctionSpec.TupleFieldCount | kani-compiler/src/codegen_cprover_gotoc/codegen/function.rs:195-216 | The field map has exactly K entries: no two components share a key. |
| FunctionSpec.PreludeDeclForSpread | kani-compiler/src/codegen_cprover_gotoc/codegen/function.rs:212-223 | For a non-zero-sized spread slot, the prelude emits one declaration. It declares the spread slot's variable at the slot's location, initialised to a struct of the slot's type with K fields, where field i reads slot n+i. |
| FunctionSpec.PreludeSymbolsForSpread | kani-compiler/src/codegen_cprover_gotoc/codegen/function.rs:194-223 | The prelude inserts the symbol of each component at n+i, and the tuple local under the spread slot's name. |
| FunctionSpec.PreludeSymbolKeys | kani-compiler/src/codegen_cprover_gotoc/codegen/function.rs:194-223 | Every prelude symbol is either the tuple local or a spread component of this function at one of the slots n..n+K-1. |
| FunctionSpec.SpreadExample | kani-compiler/src/codegen_cprover_gotoc/codegen/function.rs:150-213 | Untupling `(u8, u64)` after one other input places the components at slots 2 and 3, keyed "0" and "1". |
| FunctionCodegen.GotocCtx.InsertSpreadSymbols | kani-compiler/src/codegen_cprover_gotoc/codegen/function.rs:194-213 | Inserts exactly the spread symbols of the components, slot n+i for component i, and returns exactly the tuple field map. The buffer is untouched. |
| FunctionCodegen.GotocCtx.CodegenSpreadArg | kani-compiler/src/codegen_cprover_gotoc/codegen/function.rs:121-224 | The loop and the final declaration leave exactly the prelude's symbols and statements. |
| FunctionCodegen.GotocCtx.CodegenFunctionPrelude | kani-compiler/src/codegen_cprover_gotoc/codegen/function.rs:97-102 | Runs the spread prelude only when a spread slot is set. |
| FunctionSpec.TranslatedBlocks | kani-compiler/src/codegen_cprover_gotoc/codegen/function.rs:85 | One translated block per entry of the reverse postorder, in that order. |
| FunctionCodegen.GotocCtx.CodegenBlocks | kani-compiler/src/codegen_cprover_gotoc/codegen/function.rs:85 | Appends one translated block per entry of the given order, in that order, and leaves the table alone. |
| FunctionCodegen.GotocCtx.CodegenFunctionBody | kani-compiler/src/codegen_cprover_gotoc/codegen/function.rs:80-85 | Starting from an empty buffer, leaves the buffer holding exactly prelude ++ declarations ++ blocks, and the table extended by exactly the prelude and declarator symbols. |
| FunctionSpec.FunctionKeyUntouched | kani-compiler/src/codegen_cprover_gotoc/codegen/function.rs:69-93 | Neither the prelude nor the declarator inserts under the function's own name, so only the body update touches it. |
| FunctionSpec.CodegenTable | kani-compiler/src/codegen_cprover_gotoc/codegen/function.rs:69-93 | The table after `codegen_function`. It keeps every prior key and holds the function. The body and definition facts are in `CodegenDefines`. |
| FunctionSpec.CodegenDefines | kani-compiler/src/codegen_cprover_gotoc/codegen/function.rs:69-93 | After codegen the function symbol is a definition with the same type and contract. Its body is prelude ++ declarations ++ blocks when it was undefined before. A second codegen changes nothing. |
| FunctionCodegen.GotocCtx.CodegenFunction | kani-compiler/src/codegen_cprover_gotoc/codegen/function.rs:69-93 | It requires the declared symbol, which unless already defined must be a function. It leaves exactly the table of the codegen specification and resets the current function. |
| FunctionSpec.FunctionSymbol | kani-compiler/src/codegen_cprover_gotoc/codegen/function.rs:315-324 | The declared symbol is a function of the lowered code type, without body or contract. |
| FunctionSpec.DeclareTable | kani-compiler/src/codegen_cprover_gotoc/codegen/function.rs:310-326 | The table after `declare_function` (the `ensure` call). It adds exactly the function's name and never replaces an existing symbol. |
| FunctionSpec.DeclareIdempotent | kani-compiler/src/codegen_cprover_gotoc/codegen/function.rs:310-326 | Declaring adds the symbol only when the name is absent, so declaring twice equals declaring once. |
| FunctionSpec.DeclareThenCodegen | kani-compiler/src/codegen_cprover_gotoc/codegen/function.rs:69-93 | When the function's name is absent from the table or already holds a function symbol, declaring and then generating a function with a defined prelude meets codegen's demands, and it defines the function. |
| FunctionCodegen.GotocCtx.DeclareFunction | kani-compiler/src/codegen_cprover_gotoc/codegen/function.rs:310-326 | Leaves exactly the declare specification's table and resets the current function. |
| FunctionSpec.ContractLambdaAligned | kani-compiler/src/codegen_cprover_gotoc/codegen/function.rs:250-283 | The lambda has P+1 binders typed slot 0, 1..P. Its body is the helper call cast to Bool. Call argument k refers to binder (k+1) mod (P+1): the parameters come first, then the return value. |
| FunctionSpec.ContractLambda | kani-compiler/src/codegen_cprover_gotoc/codegen/function.rs:252-283 | The lambda built for one contract implementation has P+1 binders. Its call and binder order are in `ContractLambdaAligned`. |
| FunctionSpec.ContractLambdaBindersDistinct | kani-compiler/src/codegen_cprover_gotoc/codegen/function.rs:256-280 | The binder names of a contract lambda are pairwise distinct. |
| FunctionCodegen.GotocCtx.HandleContractExpr | kani-compiler/src/codegen_cprover_gotoc/codegen/function.rs:252-283 | The imperative successors/pop/insert/push construction yields exactly the specified lambda. |
| FunctionSpec.GotoContract | kani-compiler/src/codegen_cprover_gotoc/codegen/function.rs:285-289 | One lambda per requires entry in order, then one per ensures entry in order, and an empty write set. |
| FunctionCodegen.GotocCtx.AsGotoContract | kani-compiler/src/codegen_cprover_gotoc/codegen/function.rs:250-290 | The two loops build exactly the specified contract. |
| FunctionSpec.GotoContractConcat | kani-compiler/src/codegen_cprover_gotoc/codegen/function.rs:285-289 | Translation distributes over concatenation of the implementation lists. |
| GotoProgram.AttachToSymbol | kani-compiler/src/codegen_cprover_gotoc/codegen/function.rs:292-306 | Merging a contract keeps every other field. It appends to a prior contract and installs the contract when there is none. |
| GotoProgram.AttachInTable | kani-compiler/src/codegen_cprover_gotoc/codegen/function.rs:292-306 | Attaching changes only the named symbol and keeps the key set. |
| GotoProgram.AttachKeepsPrior | kani-compiler/src/codegen_cprover_gotoc/codegen/function.rs:292-306 | Prior requires and ensures lambdas are a prefix of the merged contract's: nothing is overwritten. |
| GotoProgram.AttachTwice | kani-compiler/src/codegen_cprover_gotoc/codegen/function.rs:292-306 | Attaching a then b equals attaching their concatenation. |
| GotoProgram.TwoRequiresInOrder | kani-compiler/src/codegen_cprover_gotoc/codegen/function.rs:292-306 | Two single-requires contracts attached in turn give both lambdas in attachment order. |
| FunctionSpec.AttachContractAccumulates | kani-compiler/src/codegen_cprover_gotoc/codegen/function.rs:292-308 | Two `attach_contract` calls equal one call with the concatenated contract implementations. |
| FunctionSpec.AttachCommutesWithCodegen | kani-compiler/src/codegen_cprover_gotoc/codegen/function.rs:292-308 | Attaching a contract before or after codegen yields the same table. |
| FunctionCodegen.GotocCtx.AttachContract | kani-compiler/src/codegen_cprover_gotoc/codegen/function.rs:296-308 | Leaves exactly the attach specification's table, apart from type symbols the contract translation may register, and resets the current function. |
| Numerals.ParseToDigits | kani-compiler/src/codegen_cprover_gotoc/codegen/function.rs:212 | Reading back the decimal or hex rendering of n gives n. |
| Numerals.ToDigitsInjective | kani-compiler/src/codegen_cprover_gotoc/codegen/function.rs:212 | Two naturals render alike iff they are equal, so tuple field keys never collide. |
| Numerals.ToDigitsChars | library/kani_macros/src/lib.rs:340 | A rendering is non-empty, and each character is a digit of the base. |
| Numerals.ToDigitsLength | library/kani_macros/src/lib.rs:322-330 | A number below base^k renders in at most k digits. |
| Sysroot.ShortHashFits | library/kani_macros/src/lib.rs:322-330 | The short hash is below 2^24 and renders in one to six hex digits. It differs from the long hash by a multiple of 2^24. |
| Sysroot.ShortHash | library/kani_macros/src/lib.rs:322-330 | The short hash is below 0x1000000 and differs from the long hash by a multiple of it. |
| Sysroot.IdentifierForGeneratedFunction | library/kani_macros/src/lib.rs:335-342 | The generated name starts with the function's displayed name and is longer than `<ident>_<purpose>_`. `GeneratedNameCarriesHash` shows the hex suffix. |
| Sysroot.GeneratedNameCarriesHash | library/kani_macros/src/lib.rs:335-342 | The helper name is `<ident>_<purpose>_` followed by a suffix that parses back as the hash. |
| Sysroot.GeneratedNameInjective | library/kani_macros/src/lib.rs:335-342 | For one function and purpose, the names are equal iff the hashes are. |
| Sysroot.RequiresEnsuresNamesDiffer | library/kani_macros/src/lib.rs:335-350 | A requires helper and an ensures helper of the same function never share a name. |
| Sysroot.HandleRequiresEnsures | library/kani_macros/src/lib.rs:261-320 | `requires`/`ensures`: only a non-function is a parse error. An expansion has five pieces and ends with the item as given. |
| Sysroot.GeneratedNameRawIffIdentRaw | library/kani_macros/src/lib.rs:335-342 | The generated name is refused by `Ident::new` exactly when the function's displayed name is a raw identifier (`r#…`). |
| Sysroot.RequiresEnsuresOutcome | library/kani_macros/src/lib.rs:261-320 | A non-function item is a parse error. A function with a raw name panics when the helper name is built (line 274), before the variadic check. Otherwise a variadic function panics with "Variadic signatures are not supported". Anything else expands. |
| Sysroot.RawIdentifierExample | library/kani_macros/src/lib.rs:274 | A contract attribute on `fn r#match()` panics instead of expanding. |
| Sysroot.RequiresEnsuresShape | library/kani_macros/src/lib.rs:261-320 | For a function that is neither variadic nor raw-named, the helper signature is `HelperSignature` of the original. The helper has no attributes, inherits visibility, and takes the original inputs then `result`, typed by the return type or `()`. It returns `bool`, keeps the rest of the signature, and its body is the attribute tokens. Then come `allow(dead_code)`, `allow(unused_variables)` and `kanitool::<name> = "<helper>"`, and then the unchanged function. |
| Sysroot.KaniAttribute | library/kani_macros/src/lib.rs:154-164 | The argument form never panics. It expands exactly for a function, into the tool attribute and then the item as given. |
| Sysroot.KaniAttributeNoArgs | library/kani_macros/src/lib.rs:165-175 | The no-argument form panics exactly when given arguments. Otherwise it expands into the tool attribute and then the item as given. |
| Sysroot.KaniAttributeForms | library/kani_macros/src/lib.rs:154-176 | The argument form passes its arguments verbatim in `kanitool::<name>(args)`. The no-argument form panics exactly when given arguments, before parsing, and otherwise emits `kanitool::<name>`. Both emit the item unchanged. |
| Sysroot.Proof | library/kani_macros/src/lib.rs:179-234 | `proof`: only a non-function is a parse error. An expansion is `allow(dead_code)`, `kanitool::proof`, then the harness. |
| Sysroot.ProofOutcome | library/kani_macros/src/lib.rs:179-234 | Parsing comes first. Then non-empty arguments panic, and an async harness with inputs panics. |
| Sysroot.ProofSync | library/kani_macros/src/lib.rs:179-200 | A synchronous harness comes out unchanged after `allow(dead_code)` and `kanitool::proof`. |
| Sysroot.ProofAsync | library/kani_macros/src/lib.rs:201-234 | An async harness without inputs keeps its attributes, visibility and signature minus `async`. Its body defines the original function and calls `block_on` on it by its own name with no arguments. |
| Regular.NoOp | library/kani_macros/src/lib.rs:367-374 | Outside the sysroot the option and contract macros always expand and end with the item as given. |
| Regular.Proof | library/kani_macros/src/lib.rs:376-382 | Outside the sysroot `proof` always expands to `allow(dead_code)` and then the item as given. |
| Regular.RegularKeepsItem | library/kani_macros/src/lib.rs:367-390 | The no-op macros return the item. The regular `proof` returns `allow(dead_code)` and then the item. Neither fails. |
| KaniMacros.ToolAttributeNamedAfterMacro | library/kani_macros/src/lib.rs:352-356 | In the sysroot build a tool-attribute macro emits one `kanitool` attribute named after the macro, then the unchanged function. Only `should_panic` refuses arguments. |
| KaniMacros.Expand | library/kani_macros/src/lib.rs:17-117 | The public macros dispatch on the build. The regular build always expands. The sysroot build never expands a non-function item. |
| KaniMacros.BuildsAgreeOnItem | library/kani_macros/src/lib.rs:17-21 | Apart from async harnesses, both builds end their expansion with the item exactly as given. |
| KaniMacros.RegularNeverFails | library/kani_macros/src/lib.rs:363-390 | The regular build always expands, and ignores the arguments. |
| ContractConvention.HelperMatchesLambda | library/kani_macros/src/lib.rs:256-310 | The generated helper signature (the one `RequiresEnsuresShape` shows the expansion emits) has P+1 parameters that line up with the contract lambda's P+1 call arguments (function.rs:256-281). Parameter k<P is input k, passed as a copy of slot k+1. The last parameter is `result`, passed as the return binder typed as slot 0. |

## Left out

- Rustc queries (`monomorphize`, `normalize_erasing_late_bound_regions`, `fn_sig`, `is_zst`, `is_user_variable`, `codegen_span`) are foreign calls. Their answers are precomputed fields of the local table and of the instance.
- `codegen_ty` and `fn_typ` are methods of the lowering context in `typ.rs`, which is not part of this model. Their results, the goto types of the locals, of the spread tuple and of the function, are precomputed fields. They can also register type symbols (struct tags such as the spread tuple's, which `Expr::struct_expr` at `function.rs:215` looks up), and those symbols are not modelled. The "exactly" in the table contracts of `DeclareVariables`, `DeclareSlot`, `InsertSpreadSymbols`, `CodegenSpreadArg`, `CodegenFunctionBody`, `CodegenFunction`, `DeclareFunction` and `AttachContract` is about the symbols this file inserts: the program's table may also gain those type symbols.
- `codegen_var_name`, `codegen_var_base_name` and `codegen_spread_arg_name` live in `names.rs`, which is not part of this model. Names are the structured `SymName` values, injective by construction. Base names are not modelled.
- `set_current_fn`, `reset_current_fn`, `ensure` and the current-function buffer live in `goto_ctx.rs` and `current_fn.rs`, which are not part of this model. They are modelled as plain assignments to the class fields.
- `codegen_block` belongs to the block translator. It is modelled as appending one opaque statement per block, and any symbols it inserts are not modelled.
- `reverse_postorder` is a rustc traversal. The block order is a given sequence.
- `codegen_default_initializer` and `codegen_func_expr` are methods of the lowering context that belong to the expression translator. The initializer, an optional expression, is a precomputed field of each local, and a function reference is an opaque expression.
- `Expr::struct_expr` field layout, `cast_to` and the `Symbol` builders are CBMC-side builders. They are modelled as constructors of opaque expressions.
- FunctionCodegen.GotocCtx.HandleContractExpr: the call arguments are one `LoweredCopy` per argument slot. `codegen_funcall_args` with `skip_zst = true` may drop zero-sized arguments, and that filtering is not modelled.
- FunctionCodegen.GotocCtx.AsGotoContract and FunctionCodegen.GotocCtx.HandleContractExpr are modelled as read-only (no `modifies`), although the source's closure calls the `&mut self` methods `codegen_func_expr` (line 255), `codegen_funcall_args` (line 263) and `codegen_ty` (line 267), which may register type or function symbols in the table. Those insertions are not modelled.
- FunctionSpec.ContractLambdaAligned: its count of P+1 call arguments and its argument-to-binder alignment rest on the same one-copy-per-slot assumption. With a zero-sized parameter the program can pass fewer arguments.
- ContractConvention.HelperMatchesLambda: the position-by-position agreement rests on the same assumption. A zero-sized parameter dropped by `codegen_funcall_args` would shift the later arguments against the helper's parameters.
- The `unwrap` at `function.rs:72` and the `assert!`s at lines 79 and 254 are preconditions (`CodegenReady`, `ContractReady`). The `unreachable!`s of the spread prelude (lines 138, 143 and 192) and the `unwrap` of the last input (line 189) are the `Failure` results of `SpreadLayout`, excluded by `PreludeDefined`.
- Logging (`debug!`, `debug_span!`, `print_instance`) has no effect on state, so it is not modelled.
- Sysroot.InvalidIdentMessage: the panic text for a refused helper name comes from the proc-macro library. The model's wording is not claimed to match it; only that a panic happens, and where, is modelled.
- Identifier validity is checked only for the raw `r#` prefix. A displayed function name is otherwise a valid identifier, and the suffix the macro adds consists of letters, digits and `_`.
- `hash_of_token_stream` and `DefaultHasher` are an unspecified hash. The long hash is a 64-bit parameter. Only the reduction modulo 2^24 and the hex formatting are modelled.
- `syn` parsing and `quote!` printing are not modelled. An item arrives as a parsed function or as something else, and the output is a sequence of attribute and item pieces.
- The `derive` module (`derive_arbitrary`) is not part of this model.
- The runtime behaviour of `kani::block_on` is async execution and is not modelled. The shim records only which function it calls.
