# py2assembly converter, modelled in Dafny

This project models the core of py2assembly, `py2assembly/converter.py`. It
translates a small subset of Python into Sigma16 assembly text.

The converter walks Python's syntax tree with one `convert_*` method per node
kind. Each method returns a list of instruction strings and an `ExtraData`
object. That object carries four things:

- `memory_data`, the variables and their initial values;
- the registers locked by the expression being translated;
- the pinned result register;
- the `true`/`done`/`loop` labels of the enclosing `if`/`while`.

Assignments of integer constants to new names become data declarations. Other
assignments become `lea`/`load`/arithmetic/`store` code, in registers R1..R3.
`if` and `while` become comparisons, conditional jumps and `#label` markers. A
`for i in range(a, b)` is rewritten into `i = a` followed by a `while` loop.

`assembly_code` finishes the program in four steps:

1. It appends `trap R0,R0,R0`.
2. It attaches every pending label to the instruction that follows it, in a
   20-column label field.
3. It adds one blank line.
4. It writes one `name data value` line per memory entry.

The model has two layers.

- **Pure layer.** These are functions that state what each conversion yields:
  - `Syntax`: the syntax tree;
  - `Assembly`: instructions, their text and `comment`;
  - `Memory`: the ordered dict;
  - `Context`: `ExtraData` as a value, register allocation, `+`;
  - `Lowering`: every `convert_*` method;
  - `Emitter`: `assembly_code`'s post-processing.

  A lowering returns two things. The first is the value of the `ExtraData` that
  the Python method returns. The second is the caller's `memory_data`
  afterwards. This is needed because `copy.copy` (binop, compare, if) shares the
  caller's dict, while `copy.deepcopy` (while, for) clones it.
- **Imperative layer.** `Objects` has the `ExtraData` class and its dict as a
  `MemoryTable` object. `get_available_register` updates the locked registers
  in place, and `__add__` builds a new object. In `Converter`, each
  `convert_*` is a method over those objects with the source's loops. Each
  method is proved to produce the code and objects that the pure layer
  specifies. Only the methods that write through a shared dict (`any`,
  `assign`, `if`) may modify the caller's `MemoryTable`.

The lemmas in `LoweringFacts` and `EmitterFacts` state what the design
promises:

- register allocation picks the least free register;
- constant and computed assignments;
- the shapes of `if`, `while` and `for`;
- declarations only grow and never repeat a name;
- only R1..R3 are used;
- labels land on the next instruction;
- the output is laid out as code, blank line, then data.

`Regression` derives, from the model alone, the label columns, instructions and
data sections that `tests/test_converter.py` expects for its assign, if, while
and for programs.

## Model

| member | source | states |
|---|---|---|
| Context.FreeRegister | py2assembly/converter.py:74-82 | the register picked is the least of 1..14 that is neither locked nor the target; none exists exactly when all fourteen are excluded |
| Context.FreeFrom | py2assembly/converter.py:74-78 | scanning from i, the first register that is neither locked nor the target, with every register skipped before it excluded |
| Context.Allocate | py2assembly/converter.py:72-82 | allocation succeeds exactly when a register is free, returns the least free one and appends it to the locked registers; otherwise it fails with "All registers are already in use." |
| Context.AllocateFromUnlocked | py2assembly/converter.py:136-145 | from a context with nothing locked and no target, successive allocations give R1, then R2, then R3 |
| Context.Plus | py2assembly/converter.py:84-87 | `a + b` keeps only the memory, a's entries with b's stored over them in b's order; locks, target and labels are back at their defaults |
| Objects.ExtraData.GetAvailableRegister | py2assembly/converter.py:72-82 | the loop over 1..14 returns the register Allocate picks and locks it; when none is free it fails and leaves the object unchanged |
| Objects.ExtraData.Plus | py2assembly/converter.py:84-87 | returns a fresh object with a dict of its own whose value is Context.Plus of the two operands |
| Objects.ExtraData.constructor | py2assembly/converter.py:39-70 | a new object holds the given entries in a dict of its own, with no locks, target -1 and empty labels |
| Objects.ExtraData.ShallowCopy | py2assembly/converter.py:135 | `copy.copy`: the same field values and the very same dict object |
| Objects.ExtraData.DeepCopy | py2assembly/converter.py:312 | `copy.deepcopy`: the same field values in a freshly allocated dict |
| Objects.MemoryTable.constructor | py2assembly/converter.py:41 | a dict holding the given entries |
| Objects.MemoryTable.Put | py2assembly/converter.py:276 | `d[k] = v` replaces a present key's value in place and appends a new key |
| Objects.MemoryTable.SetDefault | py2assembly/converter.py:284 | `d.setdefault(k, 0)` leaves a present key alone and appends an absent one |
| Memory.Assigned | py2assembly/converter.py:276 | storing an absent key appends it; storing a present key keeps the sequence of names |
| Memory.Defaulted | py2assembly/converter.py:284 | setdefault extends the table, leaves it unchanged when the key is present and appends the entry otherwise |
| Memory.DefaultedKeepsDistinct | py2assembly/converter.py:284 | setdefault never makes a name appear twice |
| Memory.AssignedExisting | py2assembly/converter.py:86 | storing a value the table already holds changes nothing |
| Memory.Merged | py2assembly/converter.py:84-87 | `{**a, **b}`: a's entries, then each of b's entries stored in b's order |
| Memory.MergedExtension | py2assembly/converter.py:84-87 | merging a table into an extension of itself (with no name repeated) yields that extension |
| Memory.HasExtension | py2assembly/converter.py:276 | a declared name stays declared in every extension of the table |
| Memory.HasDefaulted | py2assembly/converter.py:284 | after setdefault the key is present |
| Lowering.Ids | py2assembly/converter.py:259 | `[i.id for i in targets]`: one name per target, in order |
| Lowering.DesugarFor | py2assembly/converter.py:343-354 | `i = a` and `while i < b: body; i = i + 1`, all on the `for` line, are each smaller than the `for`, so lowering them terminates |
| Lowering.LowerAny | py2assembly/converter.py:364-369 | `convert_any`: assignments, binary operations, comparisons, `if`, `while` and `for` go to their lowering; every other node kind fails with "No convert method convert_<kind>" |
| Lowering.LowerBinOp | py2assembly/converter.py:132-178 | `convert_binop` on a shallow copy: pins a target register when none is pinned, then for name or constant operands and + - * / loads the operands into two more registers and applies the operator into the target; anything else fails; the caller's dict is as it was |
| Lowering.PinTarget | py2assembly/converter.py:136-137 | the target register becomes the next register the context allocates |
| Lowering.LowerCompare | py2assembly/converter.py:181-226 | `convert_compare` on a shallow copy: two registers, both operands, `cmp`, the conditional jump to the true label and `jump` to the done label, unannotated; anything but one comparator among > >= < <= between names or constants fails |
| Lowering.LowerAssign | py2assembly/converter.py:247-288 | `convert_assign` on the caller's object: every target must be a name; a constant goes through ConstantStores, a binary operation is lowered and its target register stored through ResultStores; any other value fails |
| Lowering.ConstantStores | py2assembly/converter.py:271-276 | each target in order: an undeclared name is declared with the constant and gets no code, a declared one gets `lea R1,c` and `store R1,x` |
| Lowering.ResultStores | py2assembly/converter.py:282-284 | each target in order gets `store Rr,x` and is defaulted to 0 in the table |
| Lowering.LowerBody | py2assembly/converter.py:238-240 | the statements of a body in order under one context, each seeing the memory the previous left; the first failure is the body's |
| Lowering.LowerIf | py2assembly/converter.py:229-244 | `convert_if` on a shallow copy: labels true<line> and done<line>, the test, the true label, the body, the done label; the body's declarations reach the caller |
| Lowering.LowerWhile | py2assembly/converter.py:291-326 | `convert_while` on a deep copy: loop<line>, the test, true<line>, the body, `jump loop<line>`, done<line>; the caller's memory is kept and the returned context holds the body's declarations |
| Lowering.LowerFor | py2assembly/converter.py:329-361 | `convert_for` on a deep copy: only `range` of two constants is accepted, lowered as `i = a` then the while loop; the caller's memory is kept |
| Lowering.LowerModule | py2assembly/converter.py:119-129 | `convert_module`: a fresh context, and after each statement the merge of the context and what the statement returned |
| LoweringFacts.BinOpShape | py2assembly/converter.py:132-178 | from an unlocked context, a binary operation lowers exactly when both operands are names or constants and the operator is + - * /; it is then `load/lea R2`, `load/lea R3`, `op R1,R2,R3` with R1 pinned as the target, and the memory is untouched |
| LoweringFacts.CompareShape | py2assembly/converter.py:181-226 | a comparison lowers exactly when it has one operator among > >= < <= and one comparator, both sides names or constants; it is then `load/lea R1`, `load/lea R2`, `cmp R1,R2`, the conditional jump to the true label and `jump` to the done label |
| LoweringFacts.AssignConstant | py2assembly/converter.py:263-276 | `x = c` declares an undeclared x with c and emits nothing; for a declared x it emits `lea R1,c` and `store R1,x` and keeps the declared value |
| LoweringFacts.AssignNeedsNames | py2assembly/converter.py:255-286 | an assignment lowers only if every target is a name and the value is a constant or a binary operation |
| LoweringFacts.ResultStoresCode | py2assembly/converter.py:282-283 | one `store` of the result register per target, in target order |
| LoweringFacts.ResultStoresMemory | py2assembly/converter.py:282-284 | the stores extend the table, never repeat a name, declare every target, and declare the new ones with 0 |
| LoweringFacts.AssignBinOp | py2assembly/converter.py:279-284 | `xs = a op b` lowers exactly when the operation does; it emits the three arithmetic instructions and then `store R1,x` for every target, and declares each new target with 0 |
| LoweringFacts.ConstantStoresFacts | py2assembly/converter.py:271-276 | for any number of targets of `xs = c`: the table only grows and never repeats a name, every target is declared afterwards, every new entry holds c for one of the targets, and each target costs either one declaration or one `lea`/`store` pair |
| LoweringFacts.ConstantStoresFixed | py2assembly/converter.py:271-276 | for any number of targets of `xs = c`, the code is `lea R1,c` followed by `store R1,x` repeated, each x one of the targets, each annotated with the assignment |
| LoweringFacts.FixedAssign | py2assembly/converter.py:247-288 | an assignment from an unlocked context uses only R1..R3 in their fixed roles |
| LoweringFacts.GrowsAny | py2assembly/converter.py:229-361 | every statement only appends to the memory it started from; the caller's table and the returned table are extensions of it, and no name repeats |
| LoweringFacts.GrowsBody | py2assembly/converter.py:238-240 | a statement sequence only appends to the memory and never repeats a name |
| LoweringFacts.FixedAny | py2assembly/converter.py:132-361 | from an unlocked context, arithmetic is always `op R1,R2,R3`, comparisons `cmp R1,R2`, stores go through R1, loads use R1..R3, and no halt is emitted |
| LoweringFacts.FixedBody | py2assembly/converter.py:238-240 | a statement sequence keeps the fixed register roles |
| LoweringFacts.OperationKeepsMemory | py2assembly/converter.py:131-135 | an operation or comparison works on a shallow copy: the caller's dict and the returned one are the caller's table, unchanged |
| LoweringFacts.IfShape | py2assembly/converter.py:229-244 | an `if` with a comparison lowers exactly when its test and body do; its code is the comparison jumping to `true<line>`/`done<line>`, the true label, the body, then the done label; what the body declares reaches the caller |
| LoweringFacts.WhileShape | py2assembly/converter.py:291-326 | a `while` lowers exactly when its test and body do; its code is `loop<line>`, the comparison, `true<line>`, the body, `jump loop<line>`, `done<line>`; the caller's memory is unchanged and the returned context holds the body's declarations |
| LoweringFacts.WhileKeepsCaller | py2assembly/converter.py:312 | a `while` never changes its caller's memory |
| LoweringFacts.ForRewrite | py2assembly/converter.py:337-358 | `for i in range(a, b): body` lowers, and to the same code, exactly when `i = a` followed by `while i < b: body; i = i + 1` does |
| LoweringFacts.ForDeclaresOnlyItsVariable | py2assembly/converter.py:336-361 | a `for` leaves the caller's memory unchanged; the returned context declares only the loop variable (with the range's start, unless already declared) |
| LoweringFacts.ForRejected | py2assembly/converter.py:337-360 | a `for` that is not over `range` of two constants fails |
| LoweringFacts.OrelseIgnored | py2assembly/converter.py:229-361 | the `else` branches of `if`, `while` and `for` make no difference |
| LoweringFacts.BodyOfTwo | py2assembly/converter.py:238-240 | the second of two statements sees the memory the first leaves; the code is the two codes in order |
| LoweringFacts.BodyOfOne | py2assembly/converter.py:238-240 | a one-statement body lowers to that statement's code and memory |
| LoweringFacts.ModuleWellFormed | py2assembly/converter.py:119-129 | after a whole module the context has no locks, no target and no labels, no name is declared twice, and all code uses the fixed register roles |
| LoweringFacts.ModuleFixed | py2assembly/converter.py:124-127 | after every statement the merge resets the context to unlocked, so the next statement again uses R1..R3 |
| LoweringFacts.ModuleDistinct | py2assembly/converter.py:124-127 | the module's memory never declares a name twice |
| LoweringFacts.ModuleStep | py2assembly/converter.py:124-127 | one more statement extends the code and the memory, and the memory becomes exactly the table the statement returned |
| LoweringFacts.ModulePrefixes | py2assembly/converter.py:124-127 | every prefix of a module that lowers also lowers, to a prefix of its code and of its memory |
| LoweringFacts.BodyPrefixes | py2assembly/converter.py:238-240 | every prefix of a statement sequence that lowers also lowers |
| Converter.ConvertAny | py2assembly/converter.py:364-369 | dispatch by node kind produces the code and returned object LowerAny specifies, and leaves the caller's dict as specified; unknown kinds fail |
| Converter.ConvertBinop | py2assembly/converter.py:132-178 | on a shallow copy, the method's loops produce LowerBinOp's code and returned context |
| Converter.ConvertCompare | py2assembly/converter.py:181-226 | on a shallow copy, produces LowerCompare's code and returned context |
| Converter.ConvertAssign | py2assembly/converter.py:247-288 | the target check and store loops produce LowerAssign's code, and they write the declarations into the caller's dict in place |
| Converter.StoreConstantTargets | py2assembly/converter.py:271-276 | the constant loop declares new targets in the dict in place and emits the `lea`/`store` pairs, as ConstantStores specifies |
| Converter.StoreResultTargets | py2assembly/converter.py:282-284 | the result loop emits one store per target and applies setdefault to the dict in place, as ResultStores specifies |
| Converter.ConvertBody | py2assembly/converter.py:238-240 | the body loop converts each statement on the same object, in order, joins the codes, and fails exactly when LowerBody does |
| Converter.ConvertIf | py2assembly/converter.py:229-244 | the body loop over a shallow copy produces LowerIf's code, and the body's declarations land in the caller's dict |
| Converter.ConvertWhile | py2assembly/converter.py:291-326 | the body loop over a deep copy produces LowerWhile's code and returned context, and the caller's dict is untouched |
| Converter.ConvertFor | py2assembly/converter.py:329-361 | the rewritten pair lowered on a deep copy produces LowerFor's code and returned context |
| Converter.ConvertModule | py2assembly/converter.py:119-129 | the statement loop with `extra += sub_extra` produces LowerModule's code and final context |
| Converter.AttachLabels | py2assembly/converter.py:386-401 | the `#label` loop renders exactly the linearized lines: each pending label goes on the next instruction, in a 20-column field |
| Converter.AssemblyCode | py2assembly/converter.py:380-409 | the program text is the one Compile specifies, and conversion fails exactly when lowering the module fails |
| Emitter.Linearize | py2assembly/converter.py:386-400 | the `#label` loop: a marker sets the one pending label, replacing any earlier one, and the next instruction takes it |
| Emitter.Annotated | py2assembly/converter.py:100-112 | an instruction with no note is its bare text; one with a node or a remark goes through Comment with indent 0 |
| Emitter.RenderLine | py2assembly/converter.py:398 | `f'{label:<20}{instruction}'` |
| Emitter.DataLine | py2assembly/converter.py:407-408 | `name data value` through Comment with indent -20 and "initial value" |
| Emitter.AssemblyLines | py2assembly/converter.py:383-408 | the code with the halt appended, labels attached and rendered, a blank line, then the data lines |
| Emitter.Compile | py2assembly/converter.py:380-409 | lowering the module and joining its lines with newlines; a lowering failure is the conversion's |
| Emitter.RenderLines | py2assembly/converter.py:398 | one text line per code line, each `f'{label:<20}{instruction}'` |
| Emitter.DataLines | py2assembly/converter.py:407-408 | one data line per memory entry, in insertion order |
| Assembly.Comment | py2assembly/converter.py:100-112 | the code, then blanks up to column 40 - indent (none when the code is longer), then "; ", then the comment |
| EmitterFacts.LinearizeLength | py2assembly/converter.py:389-398 | labels produce no lines: one line per instruction |
| EmitterFacts.LinearizeAt | py2assembly/converter.py:389-400 | each instruction keeps its place among the instructions and carries the label right before it (none after another instruction) |
| EmitterFacts.LinearizeAppend | py2assembly/converter.py:389-400 | linearizing a concatenation is linearizing the parts, the second starting from the label the first leaves pending |
| EmitterFacts.LinearizeNoTrap | py2assembly/converter.py:389-398 | without a halt among the units, no line is a halt |
| EmitterFacts.LaterLabelWins | py2assembly/converter.py:394-397 | two consecutive labels keep only the later one, as when a nested `if` ends where its enclosing `if` ends |
| EmitterFacts.AssemblyLayout | py2assembly/converter.py:385-408 | the text is the instructions, exactly one halt (carrying a label left pending at the end), one blank line, and one data line per memory entry in order |
| EmitterFacts.CompileLayout | py2assembly/converter.py:380-409 | a module converts exactly when it lowers; the output is then the rendered instructions, one halt carrying the label left pending, a blank line, and one data line per entry of the final memory |
| EmitterFacts.LineLayout | py2assembly/converter.py:398 | a line starts with the label padded to 20 columns, has the instruction at column 20, and an annotated one ends with "; " and its comment |
| EmitterFacts.DataLineLayout | py2assembly/converter.py:407 | a data line reads `name data value`, padded to 60 columns, and ends with "; initial value"; the printed value reads back as the declared value |
| Text.ParseNatToString | py2assembly/converter.py:407 | the decimal text of a value reads back as that value |
| Text.NatToStringInjective | py2assembly/converter.py:233-234 | labels built from different line numbers differ |
| Text.PadRight | py2assembly/converter.py:112 | `f'{s:<w}'` keeps s, pads with blanks up to w, and leaves a longer s whole |
| Regression.AssignAgain | tests/test_converter.py:32-42 | `a = 15; a = 19` gives `lea R1,19`, `store R1,a`, the halt, and `a data 15` |
| Regression.IfExample | tests/test_converter.py:133-149 | the if program gives the expected label column and instruction of each line, and `a data 4` |
| Regression.IfStatement | tests/test_converter.py:136-137 | `if a > 2: a = 7` lowers to the comparison, `true2`, the store pair and `done2` |
| Regression.WhileExample | tests/test_converter.py:152-178 | the while program gives the expected fifteen lines and `i data 3`, `v data 5` |
| Regression.TwoDeclarations | tests/test_converter.py:152-154 | `i = 3; v = 5` emits no code and declares i with 3, then v with 5 |
| Regression.WhileStatement | tests/test_converter.py:156-158 | the loop lowers to its head, its eight body instructions and its tail, leaving memory unchanged |
| Regression.WhileBody | tests/test_converter.py:157-158 | the two-statement body gives eight instructions and declares nothing new |
| Regression.ForExample | tests/test_converter.py:181-205 | the for program gives the expected fifteen lines and `v data 3`, `i data 5` |
| Regression.ForStatement | tests/test_converter.py:184-185 | the `for` lowers to the loop code and declares i with 5 only in the returned context |
| Regression.ForSteps | py2assembly/converter.py:356-359 | a range `for` whose initial assignment emits nothing lowers to exactly its loop's code, with the loop's declarations in the returned context and the caller's table unchanged |
| Regression.ForLoop | tests/test_converter.py:184-185 | the rewritten loop gives the head, the body with the increment last, and the tail |
| Regression.ForBody | tests/test_converter.py:185 | `v = v + i` followed by `i = i + 1` gives eight instructions |

## Left out

- Parsing: `ast.parse` (and the re-parse of the synthesized `while` text in `convert_for`) is not modelled. The model starts from the syntax tree and only includes the node kinds the converter inspects. Every other kind is `Other` and fails as "No convert method".
- `ast.unparse`, which gives the comment text, is a parameter `unparse` of the emitter. The comments are therefore modelled only up to that function.
- The `Module` node appears only as the root: `LowerModule` takes its body. A module nested elsewhere cannot occur in a parse tree.
- Exceptions: `NotImplementedError`, `ValueError`, `TypeError`, `AttributeError` and the register-exhaustion error all become one `Err` carrying a reason. Which exception class is raised is not modelled.
- Constants are natural numbers. A negative literal parses as a unary minus, which has no convert method. Non-integer constants are not modelled. Nor is the quirk that `True`/`False` pass the `int` check.
- Desugar lines: the nodes that `convert_for` re-parses keep line numbers 1..3 of the re-parsed text for the comparison and the increment. The model gives them the `for` line. Those numbers reach nothing in the output: labels use only the loop statement's line, which is reset, and comments use the node's text but not its line.
- `extra is None` defaults in `convert_assign`, `convert_while` and `convert_for` are not modelled. The module conversion always passes an object.
- `Converter.comment`'s assertion that an object or a comment is given is not modelled: every call site gives one. Its unused `line_number` is not modelled either.
- The `#label` marker is a separate unit kind rather than a string matched by the regular expression. No instruction string begins with `#label`, so the two are equivalent.
- Not modelled:
  - the `Converter` wrapper class;
  - `cached_property` caching;
  - `convert()` and the module-level `convert`;
  - the never-used `_method_map`;
  - the Django view and URL files.
- Objects.MemoryTable.Put: the dict is a value-typed field reassigned as a whole. The model does not capture hashing or Python's dict internals, only insertion order and key uniqueness.
