# Back-end emitter of the stack-machine compiler, in Dafny

This project models `FileInterpreter`, the last stage of a two-phase
compiler. It takes a flat list of tagged IR instructions (`sub`, `call_sub`,
`return`, `assign`, `if`, `while`) and emits textual assembly for a small
stack machine. Each instruction goes to a translation rule, and each rule
returns a few assembly lines. The driver concatenates the lines in input
order and keeps one piece of state: the current subroutine, which every
`sub` overwrites.

Layout, one module per file:

- `wrappers.dfy`: `Option` and `Result`.
- `decimal.dfy`: Python's `str()` on a non-negative int (`Decimal.Show`) and its reader `Decimal.Read`.
- `operands.dfy`: variables, operands, and the two encodings.
  - `parse_variable` is `Operands.Source`: on a variable it always writes a mode letter, `B` for a pointer and `A` otherwise; a literal passes through unchanged.
  - `parse_result` is `Operands.Dest`: it writes `A` only for a pointer.
  - Each encoding has a reader that recovers the variable.
- `asm_text.dfy`: a reader for the line grammar the emitter writes, defined here. A line is either a `#Start X`/`#End X` marker, or a mnemonic, space-separated operands and an optional `; comment`. The text after `;` (the `+2` of the return-address push, a jump's callee or target label) is kept as the comment.
- `rules.dfy`: the IR, the abstract variable store, and one rule per tag (`Rules.Rule` dispatches).
- `reading.dfy`: what each rule's lines mean when read back with the line reader and the operand readers. This is the independent partner of every rule.
- `calling.dfy`: the stack discipline of the calling convention. It keeps only the bookkeeping of `PUSH`/`POP` lines, enough to show that a call followed by the callee's `return` puts every live variable back from its own saved value.
- `driver.dfy`: the `__init__` loop, as a fold (`Driver.Translate`) and as a loop (`Driver.Compile`).
- `scenarios.dfy`: concrete translations.

The variable store is abstract:

- `live` stands for `filter_subroutine`. It is a function applied to the current subroutine, which is `None` before the first `sub`.
- `result` is the store's `"result"` variable.

Three behaviours of the code that are easy to misread:

- `if` uses its condition only in its start form. `while` uses its condition only in its end form, and its start form ignores it.
- A builtin call fills the four `{}` fields of `"{} {} {} {}"` from the mnemonic, the argument encodings and the result encoding, in that order.
  - With fewer than two arguments, Python raises `IndexError` and the run aborts. This is modelled as `MissingOperands`.
  - With more than two arguments, the extra values push the result out of the line.
- A user call ignores its arguments. Only the live variables are saved and restored.

## Model

| member | source | states |
|---|---|---|
| Decimal.ReadShow | compiler/low_level_compiler/low_level_compiler.py:93 | `str(offset)` reads back as the offset |
| Decimal.ShowRead | compiler/low_level_compiler/low_level_compiler.py:93 | a canonical digit string is `str()` of exactly the number it reads as |
| Decimal.ShowInjective | compiler/low_level_compiler/low_level_compiler.py:93 | distinct offsets print differently |
| Operands.ReadSourceOfSource | compiler/low_level_compiler/low_level_compiler.py:89-93 | reading a source encoding recovers the operand: a variable from its mode letter and offset, a literal unchanged |
| Operands.SourceOfReadSource | compiler/low_level_compiler/low_level_compiler.py:89-93 | any text read as a variable in source position is that variable's `A`/`B` encoding |
| Operands.ReadDestOfDest | compiler/low_level_compiler/low_level_compiler.py:95-97 | reading a destination encoding recovers the variable, including whether it is a pointer |
| Operands.DestOfReadDest | compiler/low_level_compiler/low_level_compiler.py:95-97 | any text read as a destination is that variable's destination encoding |
| Operands.EncodingsInjective | compiler/low_level_compiler/low_level_compiler.py:89-97 | distinct variables never share a source encoding or a destination encoding |
| Operands.ModeAsymmetry | compiler/low_level_compiler/low_level_compiler.py:89-97 | the encodings are not interchangeable: a pointer's destination text is, in source position, the direct variable at that offset, and a direct variable's destination text is a literal |
| Operands.SourceText | compiler/low_level_compiler/low_level_compiler.py:92-93 | `parse_variable` on a variable: mode letter, then the offset. Its contract is stated by Operands.ReadSourceOfSource and Operands.SourceOfReadSource |
| Operands.Source | compiler/low_level_compiler/low_level_compiler.py:89-93 | `parse_variable` on any operand: a literal passes through as its `str()`. Its contract is stated by Operands.ReadSourceOfSource |
| Operands.Dest | compiler/low_level_compiler/low_level_compiler.py:95-97 | `parse_result`: `A` only for a pointer, then the offset. Its contract is stated by Operands.ReadDestOfDest and Operands.DestOfReadDest |
| Rules.Push | compiler/low_level_compiler/low_level_compiler.py:86-87 | `push_stack`: one `PUSH` line. Its contract is stated by Reading.PushLine |
| Rules.Pop | compiler/low_level_compiler/low_level_compiler.py:83-84 | `pop_stack`: one `POP` line. Its contract is stated by Reading.PopLine |
| Rules.SubRule | compiler/low_level_compiler/low_level_compiler.py:32-35 | the marker of `sub_compiler`. Its contract is stated by Reading.SubReads |
| Rules.Builtin | compiler/low_level_compiler/low_level_compiler.py:38-39 | the one-line builtin call and its `IndexError`. Its contract is stated by Reading.BuiltinReads |
| Rules.CallSubRule | compiler/low_level_compiler/low_level_compiler.py:37-50 | `call_sub_compiler`: a builtin when the callee is an opcode, otherwise a user call on the current subroutine's live variables. Its contract is stated by Reading.BuiltinReads, Reading.UserCallReads and Driver.CallUsesCurrentSub |
| Rules.ReturnRule | compiler/low_level_compiler/low_level_compiler.py:52-56 | `return_compiler`. Its contract is stated by Reading.ReturnReads |
| Rules.AssignRule | compiler/low_level_compiler/low_level_compiler.py:58-60 | `assign_interpreter`. Its contract is stated by Reading.AssignReads |
| Rules.IfRule | compiler/low_level_compiler/low_level_compiler.py:62-69 | `if_interpreter`. Its contract is stated by Reading.IfReads and Reading.IfLabelsPair |
| Rules.WhileRule | compiler/low_level_compiler/low_level_compiler.py:71-81 | `while_interpreter`. Its contract is stated by Reading.WhileReads, Reading.WhileJumpPairs and Reading.WhileBranchPairs |
| Rules.NextContext | compiler/low_level_compiler/low_level_compiler.py:30-31 | `sub_compiler` overwrites the current subroutine and result. Its contract is stated by Driver.ContextIsLastSub and Driver.NoSubKeepsContext |
| Rules.SaveLines | compiler/low_level_compiler/low_level_compiler.py:42-43 | one `PUSH` of the source encoding per live variable, in store order |
| Rules.RestoreLines | compiler/low_level_compiler/low_level_compiler.py:46-47 | one `POP` of the destination encoding per live variable, last variable first |
| Rules.UserCall | compiler/low_level_compiler/low_level_compiler.py:40-50 | a user call is 2N+3 lines for N live variables |
| Rules.Rule | compiler/low_level_compiler/low_level_compiler.py:23-26 | an instruction fails to translate exactly when its tag has no rule or it is a builtin call short of operands; otherwise it gives at least one line |
| Reading.SubReads | compiler/low_level_compiler/low_level_compiler.py:29-35 | `sub` is one marker naming the subroutine, a start marker exactly when the status is "start" |
| Reading.OpcodesWrapMnemonics | compiler/low_level_compiler/low_level_compiler.py:7-8 | every builtin opcode is a one-token mnemonic wrapped in `__`, so stripping two characters at each end gives the mnemonic |
| Reading.BuiltinOutcome | compiler/low_level_compiler/low_level_compiler.py:38-39 | for any arguments, a builtin call gives one line exactly when it has at least two arguments, and otherwise fails with the opcode and the operand count |
| Reading.BuiltinReads | compiler/low_level_compiler/low_level_compiler.py:38-39 | a builtin call succeeds iff it has at least two arguments. The single line reads as the mnemonic, the first two arguments and then the result. With a third argument, that argument takes the result's place. Otherwise the run fails with the operand count |
| Reading.PushLine | compiler/low_level_compiler/low_level_compiler.py:86-87 | a push of a variable's source encoding reads as `PUSH` of that variable |
| Reading.PopLine | compiler/low_level_compiler/low_level_compiler.py:83-84 | a pop into a variable's destination encoding reads as `POP` into that variable |
| Reading.UserCallReads | compiler/low_level_compiler/low_level_compiler.py:40-50 | a user call is N pushes of the live variables in order, then the return-address push, then the jump whose comment names the callee, then N pops (pop 2N+1-k restores the variable of push k), then the move of the store's result into the call's result |
| Reading.ReturnReads | compiler/low_level_compiler/low_level_compiler.py:52-56 | `return` is two lines: the value moved into the store's result, then `POP 0` |
| Reading.AssignReads | compiler/low_level_compiler/low_level_compiler.py:58-60 | `assign` is one unconditional move of the value into the variable |
| Reading.IfReads | compiler/low_level_compiler/low_level_compiler.py:62-69 | `if` at "end" is only the end marker. At any other status it is the start marker, a branch on the condition to the end marker, and the filler |
| Reading.WhileReads | compiler/low_level_compiler/low_level_compiler.py:71-81 | `while` at any status other than "end" is a jump to the end marker, the filler and the start marker. At "end" it is the end marker, a branch on the condition back to the start marker, and the filler |
| Reading.IfLabelsPair | compiler/low_level_compiler/low_level_compiler.py:62-69 | the branch of an `if` start targets exactly the marker its end emits |
| Reading.WhileJumpPairs | compiler/low_level_compiler/low_level_compiler.py:71-81 | the jump of a `while` start targets the marker its end emits |
| Reading.WhileBranchPairs | compiler/low_level_compiler/low_level_compiler.py:71-81 | the branch of a `while` end targets the marker its start emits |
| Calling.ExecutePushes | compiler/low_level_compiler/low_level_compiler.py:42-44 | a run of pushes stacks their operands in order |
| Calling.ExecuteRestore | compiler/low_level_compiler/low_level_compiler.py:46-47 | on the stack the save phase built, the restore phase pops each variable back into its own slot, last saved first, and leaves the stack as it was |
| Calling.RunSave | compiler/low_level_compiler/low_level_compiler.py:42-43 | the save lines push the live variables' source encodings in store order |
| Calling.RunRestore | compiler/low_level_compiler/low_level_compiler.py:46-47 | the restore lines undo the save lines' stack exactly, writing each variable from its own saved text |
| Calling.CallThenReturn | compiler/low_level_compiler/low_level_compiler.py:40-56 | a user call with the callee's `return` run after the jump leaves the stack as it found it. The callee's `POP 0` takes the return-address placeholder, and the restore pops write the saved variables back |
| Calling.RestoresReadBack | compiler/low_level_compiler/low_level_compiler.py:42-47 | each restoring pop, read back, writes a live variable from the value saved from that same variable |
| Calling.CallRestoresSavedVariables | compiler/low_level_compiler/low_level_compiler.py:40-56 | from an empty stack, call plus return ends with an empty stack and N+1 pops. The first pop takes the placeholder, and the pop that writes `live[j]` takes `live[j]`'s saved value |
| Driver.Translate | compiler/low_level_compiler/low_level_compiler.py:22-26 | the translation fails exactly when some instruction cannot be translated; otherwise there is at least one line per instruction |
| Driver.TranslateOne | compiler/low_level_compiler/low_level_compiler.py:25-26 | one instruction translates to exactly its rule's output, and a rejected one to its own error |
| Driver.TranslateAppend | compiler/low_level_compiler/low_level_compiler.py:23-26 | the listing of `a + b` is the listing of `a` followed by the listing of `b` in the context `a` leaves, and `a`'s error wins |
| Driver.ContextAfterAppend | compiler/low_level_compiler/low_level_compiler.py:20-21 | the context is threaded left to right through the instructions |
| Driver.FirstFailure | compiler/low_level_compiler/low_level_compiler.py:25-39 | the first untranslatable instruction (an unknown tag at line 25, or a builtin call whose format runs out of values at line 39) decides the error of the whole run, whatever follows it |
| Driver.UnknownTagAborts | compiler/low_level_compiler/low_level_compiler.py:25 | a tag without a rule aborts the whole translation with that tag, even when everything around it translates |
| Driver.ContextIsLastSub | compiler/low_level_compiler/low_level_compiler.py:29-31 | the context is set by the last `sub`, start or end alike |
| Driver.NoSubKeepsContext | compiler/low_level_compiler/low_level_compiler.py:20-21 | instructions other than `sub` never change the context |
| Driver.CurrentSub | compiler/low_level_compiler/low_level_compiler.py:29-31 | after any prefix of the run, the current subroutine is the one the last `sub` named, or none when there is no `sub` |
| Driver.CallUsesCurrentSub | compiler/low_level_compiler/low_level_compiler.py:41 | a user call saves the live variables of the subroutine the last `sub` before it named |
| Driver.CallBeforeAnySub | compiler/low_level_compiler/low_level_compiler.py:41 | a user call with no `sub` before it saves the live variables of no subroutine |
| Driver.Compile | compiler/low_level_compiler/low_level_compiler.py:19-26 | the dispatch loop yields the fold's result: every instruction's lines in order, or the first error |
| Scenarios.EncodingExamples | compiler/low_level_compiler/low_level_compiler.py:89-97 | a pointer at offset 3 is `B3` as a source and `A3` as a destination, and its direct twin is `3` as a destination |
| Scenarios.ScaffoldExample | compiler/low_level_compiler/low_level_compiler.py:29-35 | a start/assign/end subroutine translates to its two markers around the move |
| Scenarios.UserCallExample | compiler/low_level_compiler/low_level_compiler.py:40-50 | the exact seven lines of a call with two live variables |
| Scenarios.GotoExample | compiler/low_level_compiler/low_level_compiler.py:25 | a `goto` aborts the run even after a translated `sub` |

## Left out

- The `print` of the joined listing (low_level_compiler.py:27) is output. The model returns the lines instead.
- `VariableStore` and `Variable` (line 3) are not part of this model. The store is a total function for `filter_subroutine` plus its `"result"` variable. The `KeyError` a missing `"result"` would raise is not modelled.
- The `current_result` field is set by `sub` and kept in the context, but nothing reads it.
- The later assembler stage's own parsing of the emitted text is not part of this model. The line reader here is a grammar for the emitted lines, defined in the model.
- Resolving the `{}` placeholders and the `#Start`/`#End` labels to addresses belongs to a later stage. Only the reading of each line's shape is modelled.
- The emitted assembly has no execution semantics here. `Calling` follows only the bookkeeping of `PUSH` and `POP`, and treats every other line as leaving the stack alone.
- Python arity errors from `*instruction[1:]` are not modelled separately: a malformed tuple is an `Other` instruction, which aborts the run like an unknown tag but under the `UnknownTag` label. The `AttributeError` of `parse_result` on a literal is ruled out by the typed IR constructors.
- Reading.BuiltinReads, Reading.AssignReads: these require each printed operand to be `Readable`, meaning a literal is a single token that cannot be mistaken for a variable's encoding. For a builtin call that is the first three arguments, because arguments past the third never reach the line. Other literals still produce the same text, but reading it back is not determined. The success and error outcome of a builtin call holds for every argument list (Reading.BuiltinOutcome).
- Reading.IfReads, Reading.WhileReads, Reading.IfLabelsPair, Reading.WhileBranchPairs: the condition must be `Readable` in the form that prints it (`if` at any status other than "end", `while` at "end"). A literal condition containing `;` or a space would move where the line is split, so the branch would not read back. In IfReads and WhileReads the other form is stated for every condition.
- Reading.ReturnReads: the move is stated only for a `Readable` value. The two-line shape and the `POP 0` hold for every value.
- Operands.ReadSourceOfSource: the same `Readable` restriction applies to literals. A literal such as `"A5"` is emitted unchanged but reads back as a variable.
