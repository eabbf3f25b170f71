/**
  The IR, the variable store the emitter queries, and one translation rule
  per instruction tag. Each rule returns the assembly lines the emitter
  produces for one instruction.
 */
module Rules {
  import opened Wrappers
  import opened Operands

  /**
    The variable store, which the emitter only queries: `live` is
    `filter_subroutine`, asked with the current subroutine (none before the
    first `sub`), and `result` is the well-known `"result"` variable.
   */
  datatype Store = Store(live: Option<string> -> seq<Variable>, result: Variable)

  /** The emitter's current subroutine and its result variable; `sub` overwrites both. */
  datatype Context = Context(sub: Option<string>, result: Option<Variable>)

  /**
    One tagged IR instruction. `Other` is a tuple the dispatch cannot
    translate: a tag with no rule, or a malformed tuple of a known tag, on
    which the source aborts as well.
   */
  datatype Instruction =
    | Sub(status: string, name: string, result: Variable)
    | CallSub(callee: string, args: seq<Operand>, result: Variable)
    | Return(value: Operand)
    | Assign(variable: Variable, value: Operand)
    | If(status: string, id: string, condition: Operand)
    | While(status: string, id: string, condition: Operand)
    | Other(tag: string)

  /** Why a translation aborts. */
  datatype Error =
    | UnknownTag(tag: string)
      // the format string of a builtin call ran out of values to fill its four fields
    | MissingOperands(opcode: string, given: nat)

  /** Callee names that are machine opcodes rather than user subroutines. */
  const Opcodes: seq<string> :=
    ["__MNZ__", "__MLZ__", "__ADD__", "__SUB__", "__AND__",
     "__OR__", "__XOR__", "__ANT__", "__SL__", "__SRL__", "__SRA__"]

  /** The opcode with its two leading and two trailing underscores removed. */
  function Mnemonic(opcode: string): string
    requires |opcode| >= 4
  {
    opcode[2..|opcode| - 2]
  }

  function Push(operand: string): string {
    "PUSH " + operand
  }

  function Pop(operand: string): string {
    "POP " + operand
  }

  /** Source encodings of a list of arguments, in order. */
  function Sources(args: seq<Operand>): (ts: seq<string>)
    ensures |ts| == |args|
    ensures forall k :: 0 <= k < |args| ==> ts[k] == Source(args[k])
  {
    seq(|args|, k requires 0 <= k < |args| => Source(args[k]))
  }

  function SubRule(status: string, name: string): seq<string> {
    if status == "start" then ["#Start " + name] else ["#End " + name]
  }

  /**
    A builtin opcode call. The four `{}` fields of the format string take,
    in order, the mnemonic, the source encodings of the arguments and the
    destination encoding of the result; values beyond the fourth are
    ignored, and fewer than four abort the translation.
   */
  function Builtin(opcode: string, args: seq<Operand>, result: Variable): Result<seq<string>, Error>
    requires opcode in Opcodes
  {
    var fields := [Mnemonic(opcode)] + Sources(args) + [Dest(result)];
    if |fields| < 4 then Failure(MissingOperands(opcode, |args|))
    else Success([fields[0] + " " + fields[1] + " " + fields[2] + " " + fields[3]])
  }

  /** Save phase of a user call: one push per live variable, in store order. */
  function SaveLines(vs: seq<Variable>): (r: seq<string>)
    ensures |r| == |vs|
    ensures forall k :: 0 <= k < |vs| ==> r[k] == Push(SourceText(vs[k]))
    decreases |vs|
  {
    if vs == [] then [] else [Push(SourceText(vs[0]))] + SaveLines(vs[1..])
  }

  /** Restore phase of a user call: one pop per live variable, last saved first. */
  function RestoreLines(vs: seq<Variable>): (r: seq<string>)
    ensures |r| == |vs|
    ensures forall k :: 0 <= k < |vs| ==> r[k] == Pop(Dest(vs[|vs| - 1 - k]))
    decreases |vs|
  {
    if vs == [] then [] else [Pop(Dest(vs[|vs| - 1]))] + RestoreLines(vs[..|vs| - 1])
  }

  /** A call of a user subroutine, with `live` the variables of the caller's subroutine. */
  function UserCall(callee: string, live: seq<Variable>, storeResult: Variable, result: Variable): (r: seq<string>)
    ensures |r| == 2 * |live| + 3
  {
    SaveLines(live)
    + [Push("{}; +2"), "MLZ -1 {} 0; " + callee]
    + RestoreLines(live)
    + ["MLZ -1 " + SourceText(storeResult) + " " + Dest(result)]
  }

  function CallSubRule(callee: string, args: seq<Operand>, result: Variable, ctx: Context, store: Store)
    : Result<seq<string>, Error>
  {
    if callee in Opcodes then Builtin(callee, args, result)
    else Success(UserCall(callee, store.live(ctx.sub), store.result, result))
  }

  function ReturnRule(value: Operand, storeResult: Variable): seq<string> {
    ["MLZ -1 " + Source(value) + " " + Dest(storeResult), Pop("0")]
  }

  function AssignRule(variable: Variable, value: Operand): seq<string> {
    ["MLZ -1 " + Source(value) + " " + Dest(variable)]
  }

  function IfRule(status: string, id: string, condition: Operand): seq<string> {
    if status == "end" then ["#End if_" + id]
    else
      ["#Start if_" + id,
       "MNZ " + Source(condition) + " {} 0; End if_" + id,
       "MLZ 0 0 0"]
  }

  function WhileRule(status: string, id: string, condition: Operand): seq<string> {
    if status == "end" then
      ["#End while_" + id,
       "MNZ " + Source(condition) + " {} 0; Start while_" + id,
       "MLZ 0 0 0"]
    else
      ["MLZ -1 {} 0; End while_" + id,
       "MLZ 0 0 0",
       "#Start while_" + id]
  }

  /** An instruction the emitter cannot translate: an unknown tag, or a builtin call short of operands. */
  predicate Rejected(ins: Instruction) {
    ins.Other? || (ins.CallSub? && ins.callee in Opcodes && |ins.args| < 2)
  }

  /** Dispatch on the tag: the lines one instruction translates to in context `ctx`. */
  function Rule(ins: Instruction, ctx: Context, store: Store): (r: Result<seq<string>, Error>)
    ensures r.Failure? <==> Rejected(ins)
    ensures r.Success? ==> |r.value| >= 1
  {
    match ins
    case Sub(status, name, _) => Success(SubRule(status, name))
    case CallSub(callee, args, result) => CallSubRule(callee, args, result, ctx, store)
    case Return(value) => Success(ReturnRule(value, store.result))
    case Assign(variable, value) => Success(AssignRule(variable, value))
    case If(status, id, condition) => Success(IfRule(status, id, condition))
    case While(status, id, condition) => Success(WhileRule(status, id, condition))
    case Other(tag) => Failure(UnknownTag(tag))
  }

  /** The context after `ins`: a `sub`, start or end, records its name and result. */
  function NextContext(ins: Instruction, ctx: Context): Context {
    if ins.Sub? then Context(Some(ins.name), Some(ins.result)) else ctx
  }
}
