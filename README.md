# awrwydr in Dafny

A model of the core of awrwydr, a small Lisp toolchain. It has four parts:

- a reader turns source text into `Cons` trees;
- a compiler turns each tree from prefix notation into a flat postfix word list;
- a stack machine runs such word lists with five opcodes;
- a dozen built-in functions work directly on the machine's stacks.

The model follows the program's own structure:

| file | module | models |
|---|---|---|
| `values.dfy` | `Values` | The Python objects the toolchain handles (`Value`), the exception kinds (`Error`), `Option`/`Result`, and small sequence and decimal helpers. |
| `cons.dfy` | `Cons` | The `Cons` cell: iteration, `reversed`, `len`, `append` and `__repr__`. Identity is a cell number, since `Cons` defines no `__eq__`. |
| `lex.dfy` | `Lex` | The reader as a class `Lexer` with a cursor, and methods `Advance`, `Expr`, `ReadList` and `Lex` with their loops. Each is proved against a pure reader over the text (`Scan`, `ReadExpr`, `ReadAll`), and lemmas state what that reader produces. |
| `parse.dfy` | `Parse` | The compiler. `Compile` and its companions state what `parse` and `quote` produce. The class `Parser` is the imperative compiler with its persistent `jumppatches` list. Lemmas cover quoting, built-in calls and `cond` jump offsets. |
| `vm.dfy` | `Vm` | The machine's state: class `VM` with its stacks, definitions, code and program counter. Also `pcval`, `size`, and the table of native functions. |
| `native.dfy` | `Native` | The built-ins `+ - * /`, `list`, `log`, `eq?`, `atom?`, `nil?`, `cons`, `car`, `cdr`. Each one is a specification function on the machine state plus a method on the `VM` proved to do exactly that. |
| `ops.dfy` | `Ops` | The opcode numbers, the handler table with Python list indexing, and the five handlers as specifications and methods. |
| `interpreter.dfy` | `Interpreter` | The dispatch loop `run`, as a function `Exec` built from one iteration `Step`, and a method `Run` proved against it. |

The machine's state is split across modules only because Dafny modules may
not import each other in a cycle. The native functions, the handlers and the
loop are module-level methods that take the `VM` object. A Python exception
becomes an `Error` value returned together with the state at the moment of
raising. Python pops before it raises, so a failing step still has effects.

The model follows what the code does, including where it departs from its
own comments:

- `cond` reads its clauses from its first argument, as in
  `(cond ((c1 e1) (c2 e2)))`. The comment at `src/parse.py:100` writes the
  form as `(cond (COND1 EXPR1) (COND2 EXPR2) ...)`, with each clause a
  separate argument. The loop at `src/parse.py:106` iterates over
  `expr.cdr.car`, which is only the first argument.
- `list` builds its list in stack order. The argument compiled last, which
  is the first in source order, ends up last in the list.
- The compiler's jump-patch list is never cleared. A later `cond` therefore
  re-patches the positions of an earlier one (`Parse.StalePatches`).
- The jump and disassembly opcodes (`JIF`, `JUMP`, `UP_DIS`, `DOWN_DIS`)
  appear in the compiler but are not defined in `src/ops.py`. Running the
  Python compiler on `cond` or `dis` would stop with a NameError. The model
  gives them symbolic words in the compiler, and the machine has no handler
  for them.

## Model

| member | source | states |
|---|---|---|
| Values.DecimalOfDigits | src/lex.py:84-91 | Reading back the decimal digits of a natural number gives the number, so an integer literal reads as its value. |
| Cons.Elements | src/cons.py:24-29 | Iteration starts with the first car, and every element is smaller than the cell. |
| Cons.ElementsAreSpineAndTail | src/cons.py:24-29 | Iteration yields the cars along the cdr chain, then a non-None tail as one more element. |
| Cons.ReversedElements | src/cons.py:31-32 | `reversed` yields the iteration order backwards, element by element. |
| Cons.LengthCountsCells | src/cons.py:47-51 | `len` counts the cells of the chain. A None tail adds nothing, a string tail adds its length, and any other tail raises TypeError. |
| Cons.LengthOfProperList | src/cons.py:47-51 | On a nil-terminated chain, `len` equals the number of elements iteration yields. |
| Cons.Length | src/cons.py:47-51 | `len` is defined exactly when the chain ends in None or a string, and is then at least 1. |
| Cons.Str | src/cons.py:6-21 | The text of a cell starts with `(` and ends with `)`. |
| Cons.ReprBody | src/cons.py:6-21 | The body starts with the first car's text, and is only that text when the cell's cdr is None. |
| Cons.Append | src/cons.py:36-44 | `append` keeps the head cell, with the same identity. |
| Cons.AppendEffect | src/cons.py:36-44 | `append` fills the first None car when the value is not None. Otherwise it adds a new cell after the last one and drops an improper tail. No other car changes, and cell identities are kept. |
| Cons.AppendToProperList | src/cons.py:36-44 | On a proper list with no None car, appending a non-None value adds exactly that element at the end and adds one to `len`. |
| Cons.ReprBodyIsJoin | src/cons.py:6-21 | The printed body is the cars' texts joined by single spaces, then ` . t` for an improper tail `t`. |
| Cons.Repr | src/cons.py:6-21 | The loop produces `str` of the cell: `(`, the cars' texts joined by spaces, the improper tail if any, `)`. |
| Lex.Keyword | src/lex.py:99-103 | A symbol run reads as `true`, `false` or None for the three reserved words, and as the symbol with its own text otherwise. |
| Lex.RunEnd | src/lex.py:88-98 | The scanned run ends at the first character outside the class, and every character before that belongs to it. |
| Lex.Lexer.constructor | src/lex.py:4-6 | A new reader has no code and its cursor at 0. |
| Lex.Lexer.IsAtEnd | src/lex.py:56-58 | At the end exactly when the cursor is at or past the end of the code. |
| Lex.Lexer.Curr | src/lex.py:52-54 | Returns the character under the cursor. |
| Lex.Scan | src/lex.py:60-107 | What `advance` reads from a position: the cursor never moves back, and it moves forward on every token except `%`, which is left under the cursor. IndexError is raised exactly when only whitespace remains. |
| Lex.ScanNumeralAt | src/lex.py:66-91 | After the whitespace that follows the cursor, the decimal digits of a number, followed by a non-digit or the end, read back as that integer, with the cursor just past them. |
| Lex.ScanNumeral | src/lex.py:84-91 | The same for a numeral at the very start of the text. |
| Lex.ScanSymbolAt | src/lex.py:66-103 | After the whitespace that follows the cursor, a symbol-start character and the longest run of letters and `+ - * / ?` after it read as `Keyword` of that run, with the cursor just past the run. |
| Lex.ScanSymbol | src/lex.py:94-103 | The same for a symbol run at the very start of the text. |
| Lex.ScanLetter | src/lex.py:94-103 | A single letter that nothing can continue reads as the one-letter symbol. |
| Lex.ScanParen | src/lex.py:66-81 | A `(` or `)` leaves the cursor one past the whitespace skipped, just after the parenthesis. |
| Lex.ScanUnknown | src/lex.py:105-107 | UnknownLexeme is raised exactly when the first character that is not whitespace is none of `%`, `(`, `)`, a digit or a symbol start. |
| Lex.Lexer.Advance | src/lex.py:60-107 | Returns the token `Scan` reads at the cursor and leaves the cursor where `Scan` says. |
| Lex.Lexer.SkipWhitespace | src/lex.py:66 | Moves the cursor to the first non-whitespace position. |
| Lex.Lexer.ReadRun | src/lex.py:88-98 | Consumes the maximal run of the character class and returns exactly those characters. |
| Lex.ReadExpr | src/lex.py:21-50 | Reading an expression never moves the cursor back, and a comment consumes at least its `%`. |
| Lex.ReadElements | src/lex.py:34-44 | The list loop never moves the cursor back. |
| Lex.ReadAll | src/lex.py:8-19 | The top-level loop never moves the cursor back. |
| Lex.FillAllInOrder | src/lex.py:35-39 | A list whose elements are all non-None holds exactly those elements as its cars, in source order. |
| Lex.ListShape | src/lex.py:36-44 | A list loop that succeeds keeps the head cell and its identity, stays nil-terminated, and has as cars what `append` leaves from all elements read. |
| Lex.ListCloses | src/lex.py:36-38 | A list loop that succeeds ends just after the `)` that closes it. |
| Lex.ListRead | src/lex.py:34-44 | A `(` reads a fresh `Cons(None, None)` with the next identity, nil-terminated, whose cars are what `append` leaves from the elements in source order. It ends at its `)`, and `()` is that single cell holding None. |
| Lex.UnterminatedAfterElement | src/lex.py:42 | Input that ends right after an element of a list raises the unterminated-list error. |
| Lex.ReadAllKeeps | src/lex.py:14-17 | `lex` succeeds only by reading to the end of the input. It keeps every expression read before, and none of its results is None. |
| Lex.LexBlank | src/lex.py:8-19 | Empty input gives no expressions. Non-empty input that is all whitespace raises IndexError. |
| Lex.LexNumeral | src/lex.py:84-91 | The decimal digits of a number, on their own, read as a single integer with that value. |
| Lex.LexStrayClose | src/lex.py:46-47 | A `)` before any `(` raises the unexpected-close error. |
| Lex.LexTwoElementList | src/lex.py:34-44 | `(a b)` reads as one list of two cells holding `a` then `b`: `a` fills the fresh cell and `b` goes into a new cell after it. |
| Lex.Lexer.Expr | src/lex.py:21-50 | Returns exactly what `ReadExpr` reads from the cursor, and leaves the cursor where `ReadExpr` ends. |
| Lex.Lexer.ReadList | src/lex.py:34-44 | The `(` branch returns exactly the list `ReadExpr` reads, or its error, with the cursor where it ends. |
| Lex.Lexer.ReadElement | src/lex.py:37-39 | One turn of the list loop: a `)` ends the list as `ReadElements` says; otherwise the cursor moves forward and what remains to read is unchanged. |
| Lex.Lexer.AddElement | src/lex.py:39-42 | Reads one element, appends it, and raises when the input ends right after it, as `ElementRead` says. |
| Lex.Lexer.Lex | src/lex.py:8-19 | Returns exactly the expressions `ReadAll` reads from the whole input, or its error. |
| Parse.AtomCode | src/parse.py:154-159 | A non-cell compiles to two words: FIND for a symbol, ATOM for anything else, then the value itself. |
| Parse.Clauses | src/parse.py:106 | Every object `for pair in x` visits is no larger than `x`. |
| Parse.Patch | src/parse.py:123-124 | Patching succeeds exactly when every recorded position lies inside the code. It keeps the length and every word not at a recorded position, and otherwise raises IndexError. |
| Parse.Compile | src/parse.py:66-159 | Compiling only ever appends to the parser's jump-patch list. |
| Parse.CompileQuote | src/parse.py:73-76 | The `quote` form only appends to the patch list. |
| Parse.CompileDefine | src/parse.py:82-89 | The `define` form only appends to the patch list. |
| Parse.CompileDis | src/parse.py:94-98 | The `dis` form only appends to the patch list. |
| Parse.CompileCond | src/parse.py:104-125 | The `cond` form only appends to the patch list. |
| Parse.CompileCall | src/parse.py:128-153 | A built-in call, or a call of an unknown function, only appends to the patch list. |
| Parse.SpecialFormsAreNotBuiltins | src/parse.py:44-56 | No special form's name is a key of the built-in table, so the special forms are tested first without hiding a built-in. |
| Parse.CondClauses | src/parse.py:105-121 | The clause loop only appends to the patch list. |
| Parse.CondClause | src/parse.py:106-121 | One clause only appends to the patch list. |
| Parse.ArgsCode | src/parse.py:143-145 | The argument loop only appends to the patch list. |
| Parse.QuoteCode | src/parse.py:161-173 | Quoting only appends to the patch list. |
| Parse.PatchJumps | src/parse.py:123-124 | The patch loop gives the code with every recorded position overwritten by its offset to the end. A position past the end raises IndexError. |
| Parse.Parser.constructor | src/parse.py:63 | A new parser has no pending patches. |
| Parse.Parser.Parse | src/parse.py:66-159 | `parse` returns the code `Compile` gives and leaves the patch list as `Compile` says. |
| Parse.Parser.ParseCond | src/parse.py:104-125 | The `cond` branch, with its clause loop and the final patch loop, agrees with `CompileCond`. |
| Parse.Parser.ParseClause | src/parse.py:106-121 | One clause: condition, JIF patched in place, expression, JUMP whose position joins the patch list. |
| Parse.Parser.ParseCall | src/parse.py:128-151 | The built-in call branch agrees with `CompileCall`. |
| Parse.Parser.Quote | src/parse.py:161-173 | `quote` agrees with `QuoteCode`. |
| Parse.QuoteWithoutUnquote | src/parse.py:161-173 | Quoting a tree without `unquote` never fails and never touches the patch list. A tree of c cells becomes 4c+2 words with one `cons` call per cell, and no symbol is looked up. |
| Parse.CompileWithoutCond | src/parse.py:66-159 | Code from a tree without `cond` has no jumps, does not depend on the patch list, and leaves it unchanged. |
| Parse.ArgsWithoutCond | src/parse.py:143-145 | The same for the argument loop. |
| Parse.CallWithoutCond | src/parse.py:128-153 | The same for a built-in call or an unknown function. |
| Parse.QuoteWithoutCond | src/parse.py:161-173 | The same for `quote`. |
| Parse.ArgsConcat | src/parse.py:143-145 | The argument loop concatenates each argument's code in order and stops at the first failure. |
| Parse.FormErrors | src/parse.py:73-153 | `quote` and `dis` with other than two parts, and `define` with other than three, raise the arity error, and an improper list there raises TypeError from `len()`. A head that is neither a special form nor a built-in raises the unknown-function error. In each case the patch list is left alone. |
| Parse.CallArity | src/parse.py:128-138 | A fixed-arity built-in call compiles only with exactly its arity in arguments, whatever the arguments hold. |
| Parse.CallShape | src/parse.py:128-151 | For calls with no `cond` inside, the code is START_ARGS for a variadic built-in, then the arguments' code in reverse source order, then CALL with the name. |
| Parse.DefineShape | src/parse.py:82-89 | For `(define NAME E)` with no `cond` in E: the code of E then DEFINE and the name when NAME is a symbol, and InvalidSymbol otherwise. The patch list is untouched. |
| Parse.DisShape | src/parse.py:94-98 | For `(dis E)` with no `cond` in E: UP_DIS, the code of E, then DOWN_DIS. The patch list is untouched. |
| Parse.ClauseCodeKeeps | src/parse.py:113-121 | One jump-free clause keeps every JIF landing and keeps the pending JUMP positions exactly the patch list. |
| Parse.CondClauseKeeps | src/parse.py:106-121 | The same for one clause free of `cond`. |
| Parse.CondClausesKeep | src/parse.py:105-121 | The same for the whole clause loop. |
| Parse.PatchLands | src/parse.py:123-124 | Patching code of that shape succeeds. Afterwards every JUMP lands on the end, and every JIF still lands just past its clause's JUMP. |
| Parse.CondOffsets | src/parse.py:104-125 | With no patches pending and no nested `cond`, each JUMP offset lands on the end of the code and each JIF offset lands just past its clause's JUMP operand. |
| Parse.CondClauseAnyPatches | src/parse.py:106-121 | A clause free of `cond` compiles to the same code whatever is pending, and adds its one JUMP position. |
| Parse.CondClausesAnyPatches | src/parse.py:105-121 | The same for the whole clause loop. |
| Parse.PatchTwice | src/parse.py:123-124 | Patching with `p + q` is patching with `q`, then with `p`. |
| Parse.StalePatches | src/parse.py:104-125 | After earlier `cond`s left positions pending, a `cond` compiles to the fresh code with every stale position overwritten, or IndexError when one lies past the end. Its own positions join the stale ones. |
| Vm.NativesCoverBuiltins | src/vm.py:15-28 | Every built-in the compiler knows has a native function. The machine has exactly one more, `log`. |
| Vm.CodeAt | src/vm.py:34-35 | A code word is read exactly when the position is inside the code. Otherwise IndexError. |
| Vm.VM.constructor | src/vm.py:9-32 | A new machine has empty stacks, no definitions, no code and the program counter at 0. |
| Vm.VM.Pcval | src/vm.py:34-35 | `pcval(k)` reads the word k past the program counter. |
| Vm.VM.Size | src/vm.py:37-38 | `size()` is the depth of the operand stack. |
| Native.IntArgs | src/native.py:15-21 | The marker is popped even when the pop loop raises, and neither the definitions nor the cell counter change. |
| Native.ArithSpec | src/native.py:14-45 | `add`, `sub` and `mul` never change the definitions or the cell counter. On success the top of the stack is an integer. |
| Native.DivSpec | src/native.py:47-56 | `div` never changes the definitions or the cell counter. On success the top is an integer (one operand) or a float. |
| Native.ListSpec | src/native.py:58-65 | `list` never changes the definitions and never lowers the cell counter. On success the top is None or a cell. |
| Native.PyEq | src/native.py:71-74 | Python `==` is reflexive, and a cell or None equals only itself. |
| Native.EqqSpec | src/native.py:71-74 | `eq?` succeeds exactly when two operands are on the stack. It then leaves one boolean in their place and changes nothing else. |
| Native.BuiltinsKeepDefinitions | src/native.py:14-99 | No built-in changes the definitions, whether it returns or raises. |
| Native.PopIntArgs | src/native.py:15-21 | The pop loop of the arithmetic built-ins leaves what `IntArgs` says: the marker popped, the integers above it popped top first, and the first non-integer or an empty stack raising. |
| Native.Arithmetic | src/native.py:14-45 | `add`, `sub` and `mul` leave exactly what `ArithSpec` says. |
| Native.Divide | src/native.py:47-56 | `div` leaves exactly what `DivSpec` says. |
| Native.PopValueArgs | src/native.py:59-63 | The pop loop of `list` leaves what `ValueArgs` says: the marker popped and the values above it popped top first. |
| Native.MakeList | src/native.py:58-65 | `list` leaves exactly what `ListSpec` says. |
| Native.Eq | src/native.py:71-74 | `eq?` pushes Python `==` of the top and the value below it. |
| Native.IsAtom | src/native.py:76-78 | `atom?` pushes whether the operand is an integer or a string. |
| Native.IsNil | src/native.py:80-82 | `nil?` pushes whether the operand equals None. |
| Native.MakeCons | src/native.py:84-87 | `cons` pushes a new cell whose car was second from the top and whose cdr was the top. |
| Native.Field | src/native.py:89-99 | `car`/`cdr` replace a cell by one of its fields and raise after the pop on anything else. |
| Native.Print | src/native.py:67-69 | `log` pops its operand. |
| Native.Call | src/vm.py:15-28 | Calling a native function does what that function's specification says. |
| Native.Ints | src/native.py:19 | The integers of a run of integer values, one for one. |
| Native.PopIntsRegion | src/native.py:15-21 | Popping down to depth m pops exactly the integers above m, top first. The first non-integer raises InvalidType. |
| Native.PopValuesRegion | src/native.py:59-63 | Popping down to depth m pops exactly the values above m, top first. |
| Native.ArithOnIntegers | src/native.py:14-45 | With only integers above the marker, the marker goes and the operands become their left fold taken top first. A single operand comes back unchanged. |
| Native.ArithRejects | src/native.py:14-45 | A non-integer operand raises InvalidType, and no operand at all raises TypeError from `reduce`. |
| Native.SubInSourceOrder | src/native.py:25-34 | Operands pushed 2, 3, 10 subtract as 10 - 3 - 2 = 5. |
| Native.BuildListSpine | src/native.py:58-65 | The fold builds cells whose cars are the items in reverse, followed by the cars of the accumulator. |
| Native.BuildListTail | src/native.py:58-65 | The chain the fold builds ends where the accumulator ends. |
| Native.ListOfRegion | src/native.py:58-65 | `list` replaces the values above the marker by one nil-terminated list of them, bottom to top, or by None when there are none. It allocates one cell per value. |
| Native.FieldOfCons | src/native.py:84-99 | `car` and `cdr` undo `cons`. |
| Native.NewCellIsDistinct | src/native.py:71-87 | A cell made by `cons` is `eq?` to no value already on the stack. |
| Ops.Lookup | src/ops.py:53 | `OPTABLE[x]` follows Python list indexing. 0..4 select their handlers, -5..-1 count from the end, booleans index as 0 and 1, other integers raise IndexError, and other values raise TypeError. |
| Ops.OpcodesSelectHandlers | src/ops.py:9-53 | Each opcode number selects its own handler. |
| Ops.Skip | src/ops.py:20-51 | A handler's step is 1 or 2. It is 2 exactly for the handlers that read an operand. |
| Ops.AtomSpec | src/ops.py:22-24 | `opAtom` succeeds exactly when the operand lies inside the code. It then pushes it and changes nothing else; on error nothing changes. |
| Ops.CallSpec | src/ops.py:28-30 | `opCall` never changes the definitions. An empty stack raises IndexError, and an unknown name raises KeyError after the pop. |
| Ops.DefineSpec | src/ops.py:34-36 | `opDefine` succeeds exactly when the stack is non-empty and the operand lies inside the code. It pops first, even when it then raises, and on success binds the operand to the popped value. |
| Ops.FindSpec | src/ops.py:40-45 | `opFind` succeeds exactly when the operand lies inside the code and is bound. It then pushes the bound value; on error nothing changes. |
| Ops.StartArgsSpec | src/ops.py:49-51 | `opStartArgs` always succeeds and pushes one marker equal to the current stack depth. |
| Ops.HandleFrame | src/ops.py:20-53 | Only `opDefine` changes the definitions, and only `opCall` and `opStartArgs` touch the argument markers. |
| Ops.Atom | src/ops.py:22-24 | Pushes the operand, or raises IndexError past the end of the code. |
| Ops.Call | src/ops.py:28-30 | Pops a name and runs its native function. An unknown name raises KeyError after the pop. |
| Ops.Define | src/ops.py:34-36 | Pops a value, then binds the operand to it. The pop comes first. |
| Ops.Find | src/ops.py:40-45 | Pushes the value bound to the operand. An unbound name raises. |
| Ops.StartArgs | src/ops.py:49-51 | Pushes the stack depth as an argument marker. |
| Ops.Dispatch | src/ops.py:53 | Calling `OPTABLE[op]` runs that handler and returns its step. |
| Ops.StepStaysInCode | src/ops.py:20-51 | A handler that returns normally never moves the program counter past the end of the code. |
| Ops.FindAfterDefine | src/ops.py:34-45 | Finding a name right after defining it pushes the defined value back, restoring the stack. |
| Ops.DefineReplaces | src/ops.py:34-36 | A definition replaces the name's earlier binding and leaves every other binding alone. |
| Ops.MarkerDelimitsOperands | src/ops.py:47-51 | Start the arguments, push integers and an arithmetic name, and `opCall` leaves the stack below the marker plus their fold, with the marker gone. |
| Interpreter.Step | src/vm.py:46 | A loop iteration that returns normally moves forward by at least one word and never past the end of the code. |
| Interpreter.Exec | src/vm.py:45-47 | The loop stops at or after where it started and never past the end of the code. |
| Interpreter.RunSpec | src/vm.py:40-50 | A run that does not raise ends exactly at the end of the code. A run that raises stops inside the code and shows nothing. |
| Interpreter.Run | src/vm.py:40-50 | `run` loads the code, empties the operand stack, dispatches until the end or an exception, then shows and pops the top. |
| Interpreter.ExecStops | src/vm.py:45-47 | A loop that raises stops inside the code. One that does not stops exactly at the end, never past it. |
| Interpreter.HandleReadsOperand | src/ops.py:20-51 | A handler reads no code beyond the operand its step skips. |
| Interpreter.StepShift | src/vm.py:46 | One iteration reads only its opcode and operand, so it is the same at the matching place in `c1 + c2`. |
| Interpreter.StepPrefix | src/vm.py:46 | An iteration that returns normally inside `c1` is the same in `c1 + c2`. |
| Interpreter.ExecSuffix | src/vm.py:45-47 | Running the second half of `c1 + c2` is running `c2`, with program counters moved by the length of `c1`. |
| Interpreter.ExecAppend | src/vm.py:45-47 | When `c1` runs to its end without raising, running `c1 + c2` is running `c2` from the state `c1` left. |
| Interpreter.DefinitionsPersist | src/vm.py:40-50 | Definitions outlive a run. A program that binds a name shows nothing, and a later run that finds the name shows the value. |

## Left out

- Printing is not modelled. That covers `print(res)` in `lex`, `log`'s output, and the `:: value` line of `run`. `run` returns the value it would show instead.
- Exception messages are not modelled. Only the exception kinds are.
- Native.Divide: the quotient is an exact rational, not a rounded double. `str` of a float prints as a placeholder.
- Ops.Define, Ops.Find: definitions are keyed by the model's values. Python's dictionary treats `True`, `1` and `1.0` as one key; the model keeps them apart.
- Lex.Scan: `isspace`, `isalpha` and `isdigit` are modelled on ASCII only. Unicode letters, digits and spaces are not.
- Parse.Compile, Parse.CompileQuote, Parse.CompileDefine, Parse.CompileDis, Parse.CompileCond, Parse.CompileCall, Parse.CondClauses, Parse.CondClause, Parse.ArgsCode, Parse.QuoteCode: their own contracts only say that the patch list grows. Lemmas give their code in part. `QuoteWithoutUnquote`, `CallShape`, `DefineShape` and `DisShape` cover trees with no `cond` inside, and `CondOffsets` and `StalePatches` cover a `cond` whose clauses hold no `cond`. `CallArity` holds for every call, and `FormErrors` gives the arity and unknown-function errors. Not characterised beyond that: the code of a `cond` nested inside another form, the `unquote` branch of `quote` (src/parse.py:167-170), and the `cond` syntax error raised for a clause that is not a two-element list (src/parse.py:107-108).
- `vm.code` starts as None in Python; the model starts with empty code. Nothing reads it before `run` sets it.
- The disassembly counter `disstate` of the parser is never read, so it is not modelled.
- The command-line driver (`src/awrwydr.py`) is not part of this model, and neither is the unused two-field record in `src/lambdaobj.py`.
- There is no theorem that compiled code runs correctly. The compiler emits CALL followed by the name inline, while `opCall` takes the name from the stack and steps over one word. The jump opcodes also have no handler in the machine.
- `Cons.__init__` is only the `Pair` constructor. A cell's identity is a number allocated by whoever makes the cell: the reader, `cons` or `list`.
- Cons.Append: a value, not an update in place. Python's `append` mutates the cell and every cell after it, so a cell shared by two lists would change in both. The model does not capture that aliasing. The reader only ever appends to cells it has just made, so no sharing arises there.
