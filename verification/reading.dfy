/**
  What each rule's lines mean when read back with the line reader:
  which mnemonic, which operands (recovered through the operand readers),
  which label or jump target. These lemmas connect every rule of the
  emitter to the instruction and operands it was given.
 */
module Reading {
  import opened Wrappers
  import opened Decimal
  import opened Operands
  import opened AsmText
  import opened Rules

  /** An operand whose source encoding is one token that reads back as the operand. */
  predicate Readable(o: Operand) {
    PlainLiteral(o) && IsWord(Source(o))
  }

  /** `line` reads as `MLZ cond s d` with `s` naming `src` and `d` naming `dst`. */
  predicate Moves(line: string, cond: string, src: Operand, dst: Variable) {
    var r := ReadLine(line);
    && r.Some? && r.value.Op? && r.value.mnemonic == "MLZ" && r.value.comment.None?
    && |r.value.operands| == 3
    && r.value.operands[0] == cond
    && ReadSource(r.value.operands[1]) == src
    && ReadDest(r.value.operands[2]) == Some(dst)
  }

  /** `line` reads as `PUSH t` with `t` naming `o`. */
  predicate Pushes(line: string, o: Operand) {
    var r := ReadLine(line);
    && r.Some? && r.value.Op? && r.value.mnemonic == "PUSH" && r.value.comment.None?
    && |r.value.operands| == 1 && ReadSource(r.value.operands[0]) == o
  }

  /** `line` reads as `POP t` with `t` naming `v` in destination position. */
  predicate Pops(line: string, v: Variable) {
    var r := ReadLine(line);
    && r.Some? && r.value.Op? && r.value.mnemonic == "POP" && r.value.comment.None?
    && |r.value.operands| == 1 && ReadDest(r.value.operands[0]) == Some(v)
  }

  /** `line` is a conditional branch `MNZ c {} 0` on `condition`, jumping to the marker its comment names. */
  predicate BranchesOn(line: string, condition: Operand, target: Line) {
    var r := ReadLine(line);
    && r.Some? && r.value.Op? && r.value.mnemonic == "MNZ"
    && |r.value.operands| == 3
    && ReadSource(r.value.operands[0]) == condition
    && r.value.operands[1..] == ["{}", "0"]
    && r.value.comment.Some? && Target(r.value.comment.value) == Some(target)
  }

  /** `line` is the unconditional jump `MLZ -1 {} 0` to the marker its comment names. */
  predicate JumpsTo(line: string, target: Line) {
    var r := ReadLine(line);
    && r.Some? && r.value.Op? && r.value.mnemonic == "MLZ"
    && r.value.operands == ["-1", "{}", "0"]
    && r.value.comment.Some? && Target(r.value.comment.value) == Some(target)
  }

  /** `jump` is an unconditional jump to the marker `marker` emits. */
  predicate JumpTargets(jump: string, marker: string) {
    var m := ReadLine(marker);
    m.Some? && m.value.Marker? && JumpsTo(jump, m.value)
  }

  /** `branch` is a branch on `condition` to the marker `marker` emits. */
  predicate BranchTargets(branch: string, condition: Operand, marker: string) {
    var m := ReadLine(marker);
    m.Some? && m.value.Marker? && BranchesOn(branch, condition, m.value)
  }

  /** `line` is the filler `MLZ 0 0 0`, a move that never happens. */
  predicate IsFiller(line: string) {
    ReadLine(line) == Some(Op("MLZ", ["0", "0", "0"], None))
  }

  // ---------------------------------------------------------------------
  // Words and lines

  lemma JoinCons(w: string, ws: seq<string>, c: char)
    requires |ws| >= 1
    ensures Join([w] + ws, c) == w + [c] + Join(ws, c)
  {
    assert ([w] + ws)[1..] == ws;
  }

  lemma Join2(a: string, b: string)
    ensures Join([a, b], ' ') == a + " " + b
  {
    JoinCons(a, [b], ' ');
  }

  lemma Join4(a: string, b: string, c: string, d: string)
    ensures Join([a, b, c, d], ' ') == a + " " + b + " " + c + " " + d
  {
    JoinCons(c, [d], ' ');
    JoinCons(b, [c, d], ' ');
    JoinCons(a, [b, c, d], ' ');
  }

  lemma DigitsAreWord(s: string)
    requires |s| >= 1 && AllDigits(s)
    ensures IsWord(s) && s[0] != '#' && s[0] != 'A' && s[0] != 'B'
  {
  }

  /** Both encodings of a variable are single tokens. */
  lemma EncodingsAreWords(v: Variable)
    ensures IsWord(SourceText(v)) && IsWord(Dest(v))
    ensures Readable(Var(v))
  {
    var d := Show(v.offset);
    DigitsAreWord(d);
    var p := if v.isPointer then "B" else "A";
    assert SourceText(v) == p + d;
    assert ' ' !in p && ';' !in p;
    if v.isPointer {
      assert Dest(v) == "A" + d;
    }
  }

  /** A three-operand instruction without comment reads back as written. */
  lemma ReadInstruction(m: string, a: string, b: string, c: string, comment: Option<string>)
    requires IsWord(m) && m[0] != '#' && IsWord(a) && IsWord(b) && IsWord(c)
    ensures ReadLine(m + " " + a + " " + b + " " + c + (if comment.Some? then "; " + comment.value else ""))
         == Some(Op(m, [a, b, c], comment))
  {
    Join4(m, a, b, c);
    ReadText([m, a, b, c], comment);
    assert [m, a, b, c][1..] == [a, b, c];
  }

  /** A one-operand instruction reads back as written. */
  lemma ReadUnary(m: string, a: string, comment: Option<string>)
    requires IsWord(m) && m[0] != '#' && IsWord(a)
    ensures ReadLine(m + " " + a + (if comment.Some? then "; " + comment.value else ""))
         == Some(Op(m, [a], comment))
  {
    Join2(m, a);
    ReadText([m, a], comment);
    assert [m, a][1..] == [a];
  }

  // ---------------------------------------------------------------------
  // Text identities: each emitted line as its words glued by spaces.
  // These are solver aids: they regroup literal concatenations so that the
  // reading lemmas below need not, and state nothing about the emitter.

  lemma MoveText(a: string, b: string)
    ensures "MLZ -1 " + a + " " + b == "MLZ" + " " + "-1" + " " + a + " " + b + ""
  {
  }

  lemma FillerText()
    ensures "MLZ 0 0 0" == "MLZ" + " " + "0" + " " + "0" + " " + "0" + ""
  {
  }

  lemma JumpText(comment: string)
    ensures "MLZ -1 {} 0; " + comment == "MLZ" + " " + "-1" + " " + "{}" + " " + "0" + ("; " + comment)
  {
  }

  lemma BranchText(a: string, comment: string)
    ensures "MNZ " + a + " {} 0; " + comment == "MNZ" + " " + a + " " + "{}" + " " + "0" + ("; " + comment)
  {
  }

  lemma ReturnAddressText()
    ensures Push("{}; +2") == "PUSH" + " " + "{}" + ("; " + "+2")
  {
  }

  lemma WhileJumpText(id: string)
    ensures "MLZ -1 {} 0; End while_" + id == "MLZ -1 {} 0; " + ("End " + ("while_" + id))
  {
  }

  lemma PrefixText(prefix: string, id: string)
    ensures "#Start " + prefix + id == "#Start " + (prefix + id)
    ensures "#End " + prefix + id == "#End " + (prefix + id)
  {
  }

  lemma IfBranchText(a: string, id: string)
    ensures "MNZ " + a + " {} 0; End if_" + id == "MNZ " + a + " {} 0; " + ("End " + ("if_" + id))
  {
  }

  lemma WhileBranchText(a: string, id: string)
    ensures "MNZ " + a + " {} 0; Start while_" + id == "MNZ " + a + " {} 0; " + ("Start " + ("while_" + id))
  {
  }

  lemma ReadMove(cond: string, src: Operand, dst: Variable)
    requires IsWord(cond) && Readable(src)
    ensures Moves("MLZ -1 " + Source(src) + " " + Dest(dst), "-1", src, dst)
  {
    EncodingsAreWords(dst);
    ReadInstruction("MLZ", "-1", Source(src), Dest(dst), None);
    MoveText(Source(src), Dest(dst));
    ReadSourceOfSource(src);
    ReadDestOfDest(dst);
  }

  lemma ReadFiller()
    ensures IsFiller("MLZ 0 0 0")
  {
    ReadInstruction("MLZ", "0", "0", "0", None);
    FillerText();
  }

  lemma ReadJump(comment: string)
    ensures ReadLine("MLZ -1 {} 0; " + comment) == Some(Op("MLZ", ["-1", "{}", "0"], Some(comment)))
  {
    ReadInstruction("MLZ", "-1", "{}", "0", Some(comment));
    JumpText(comment);
  }

  lemma ReadBranch(a: string, comment: string)
    requires IsWord(a)
    ensures ReadLine("MNZ " + a + " {} 0; " + comment) == Some(Op("MNZ", [a, "{}", "0"], Some(comment)))
  {
    ReadInstruction("MNZ", a, "{}", "0", Some(comment));
    BranchText(a, comment);
  }

  // ---------------------------------------------------------------------
  // The rules, read back

  /** `sub` emits one marker: a start marker exactly when the status is "start". */
  lemma SubReads(status: string, name: string)
    ensures |SubRule(status, name)| == 1
    ensures ReadLine(SubRule(status, name)[0]) == Some(Marker(status == "start", name))
  {
    ReadMarker(status == "start", name);
  }

  lemma Wrapped(m: string)
    requires |m| >= 1
    ensures |"__" + m + "__"| >= 4 && Mnemonic("__" + m + "__") == m
  {
    var o := "__" + m + "__";
    assert o[2..|o| - 2] == m;
  }

  /** Every builtin opcode is its mnemonic wrapped in double underscores, and the mnemonic is one token. */
  lemma OpcodesWrapMnemonics(opcode: string)
    requires opcode in Opcodes
    ensures |opcode| >= 4 && opcode == "__" + Mnemonic(opcode) + "__"
    ensures IsWord(Mnemonic(opcode)) && Mnemonic(opcode)[0] != '#'
  {
    var i :| 0 <= i < |Opcodes| && Opcodes[i] == opcode;
    var m := if i == 0 then "MNZ" else if i == 1 then "MLZ" else if i == 2 then "ADD" else if i == 3 then "SUB" else if i == 4 then "AND" else if i == 5 then "OR" else if i == 6 then "XOR" else if i == 7 then "ANT" else if i == 8 then "SL" else if i == 9 then "SRL" else "SRA";
    assert opcode == "__" + m + "__";
    Wrapped(m);
  }

  /**
    Whatever its operands, a builtin call translates exactly when it has at
    least two arguments, and otherwise aborts with the operand count.
   */
  lemma BuiltinOutcome(opcode: string, args: seq<Operand>, result: Variable)
    requires opcode in Opcodes
    ensures Builtin(opcode, args, result).Success? <==> |args| >= 2
    ensures Builtin(opcode, args, result).Failure? ==>
              Builtin(opcode, args, result).error == MissingOperands(opcode, |args|)
    ensures Builtin(opcode, args, result).Success? ==> |Builtin(opcode, args, result).value| == 1
  {
  }

  /**
    A builtin call translates exactly when it has at least two arguments, to
    one line: the mnemonic, then the first two arguments in source position,
    then the result in destination position. With a third argument, that
    argument takes the last field and the result is not written.
   */
  lemma BuiltinReads(opcode: string, args: seq<Operand>, result: Variable)
    requires opcode in Opcodes
    requires forall k :: 0 <= k < |args| && k < 3 ==> Readable(args[k])
    ensures Builtin(opcode, args, result).Success? <==> |args| >= 2
    ensures Builtin(opcode, args, result).Failure? ==>
              Builtin(opcode, args, result).error == MissingOperands(opcode, |args|)
    ensures Builtin(opcode, args, result).Success? ==>
              var lines := Builtin(opcode, args, result).value;
              var r := ReadLine(lines[0]);
              && |lines| == 1
              && r.Some? && r.value.Op? && r.value.comment.None?
              && opcode == "__" + r.value.mnemonic + "__"
              && |r.value.operands| == 3
              && ReadSource(r.value.operands[0]) == args[0]
              && ReadSource(r.value.operands[1]) == args[1]
              && (|args| == 2 ==> ReadDest(r.value.operands[2]) == Some(result))
              && (|args| > 2 ==> ReadSource(r.value.operands[2]) == args[2])
  {
    OpcodesWrapMnemonics(opcode);
    if |args| >= 2 {
      var m := Mnemonic(opcode);
      var fields := [m] + Sources(args) + [Dest(result)];
      EncodingsAreWords(result);
      ReadInstruction(m, fields[1], fields[2], fields[3], None);
      assert fields[0] + " " + fields[1] + " " + fields[2] + " " + fields[3]
          == m + " " + fields[1] + " " + fields[2] + " " + fields[3] + "";
      ReadSourceOfSource(args[0]);
      ReadSourceOfSource(args[1]);
      if |args| == 2 {
        ReadDestOfDest(result);
      } else {
        ReadSourceOfSource(args[2]);
      }
    }
  }

  lemma PushLine(v: Variable)
    ensures Pushes(Push(SourceText(v)), Var(v))
  {
    EncodingsAreWords(v);
    ReadUnary("PUSH", SourceText(v), None);
    assert Push(SourceText(v)) == "PUSH" + " " + SourceText(v) + "";
    ReadSourceOfSource(Var(v));
  }

  lemma PopLine(v: Variable)
    ensures Pops(Pop(Dest(v)), v)
  {
    EncodingsAreWords(v);
    ReadUnary("POP", Dest(v), None);
    assert Pop(Dest(v)) == "POP" + " " + Dest(v) + "";
    ReadDestOfDest(v);
  }

  lemma ReturnAddressLine()
    ensures ReadLine(Push("{}; +2")) == Some(Op("PUSH", ["{}"], Some("+2")))
  {
    ReadUnary("PUSH", "{}", Some("+2"));
    ReturnAddressText();
  }

  /** Indexing into the first and third of four concatenated parts. */
  lemma PartsAt<T>(a: seq<T>, b: seq<T>, c: seq<T>, d: seq<T>, i: nat, j: nat)
    requires i < |a| && j < |c|
    ensures (a + b + c + d)[i] == a[i]
    ensures (a + b + c + d)[|a| + |b| + j] == c[j]
  {
  }

  lemma UserCallLineAt(callee: string, live: seq<Variable>, storeResult: Variable, result: Variable, k: nat)
    requires k < |live|
    ensures UserCall(callee, live, storeResult, result)[k] == Push(SourceText(live[k]))
    ensures UserCall(callee, live, storeResult, result)[2 * |live| + 1 - k] == Pop(Dest(live[k]))
  {
    PartsAt(SaveLines(live), [Push("{}; +2"), "MLZ -1 {} 0; " + callee], RestoreLines(live),
            ["MLZ -1 " + SourceText(storeResult) + " " + Dest(result)], k, |live| - 1 - k);
  }

  lemma UserCallFrameAt(callee: string, live: seq<Variable>, storeResult: Variable, result: Variable)
    ensures var r := UserCall(callee, live, storeResult, result);
            var n := |live|;
            && r[n] == Push("{}; +2")
            && r[n + 1] == "MLZ -1 {} 0; " + callee
            && r[2 * n + 2] == "MLZ -1 " + Source(Var(storeResult)) + " " + Dest(result)
  {
    var r := UserCall(callee, live, storeResult, result);
    var save := SaveLines(live);
    var restore := RestoreLines(live);
    assert r == save + [Push("{}; +2"), "MLZ -1 {} 0; " + callee] + restore
                + ["MLZ -1 " + SourceText(storeResult) + " " + Dest(result)];
  }

  lemma UserCallReturnAddress(callee: string, live: seq<Variable>, storeResult: Variable, result: Variable)
    ensures ReadLine(UserCall(callee, live, storeResult, result)[|live|]) == Some(Op("PUSH", ["{}"], Some("+2")))
  {
    UserCallFrameAt(callee, live, storeResult, result);
    ReturnAddressLine();
  }

  lemma UserCallJump(callee: string, live: seq<Variable>, storeResult: Variable, result: Variable)
    ensures ReadLine(UserCall(callee, live, storeResult, result)[|live| + 1])
         == Some(Op("MLZ", ["-1", "{}", "0"], Some(callee)))
  {
    UserCallFrameAt(callee, live, storeResult, result);
    ReadJump(callee);
  }

  lemma UserCallResultMove(callee: string, live: seq<Variable>, storeResult: Variable, result: Variable)
    ensures Moves(UserCall(callee, live, storeResult, result)[2 * |live| + 2], "-1", Var(storeResult), result)
  {
    UserCallFrameAt(callee, live, storeResult, result);
    EncodingsAreWords(storeResult);
    ReadMove("-1", Var(storeResult), result);
  }

  lemma UserCallSavesAndRestores(callee: string, live: seq<Variable>, storeResult: Variable, result: Variable)
    ensures var r := UserCall(callee, live, storeResult, result);
            forall k :: 0 <= k < |live| ==> Pushes(r[k], Var(live[k])) && Pops(r[2 * |live| + 1 - k], live[k])
  {
    forall k | 0 <= k < |live|
      ensures Pushes(UserCall(callee, live, storeResult, result)[k], Var(live[k]))
      ensures Pops(UserCall(callee, live, storeResult, result)[2 * |live| + 1 - k], live[k])
    {
      UserCallLineAt(callee, live, storeResult, result, k);
      PushLine(live[k]);
      PopLine(live[k]);
    }
  }

  /**
    A user call is 2N+3 lines for the N live variables of the caller: N
    pushes of the live variables in store order, the push of the return
    address, the jump to the callee, N pops into the same variables in
    reverse order, and the move of the store's result into the call's
    result. The variable pushed k-th (from 0) is popped by line 2N+1-k,
    so the (N-k)-th pop restores the k-th push.
   */
  lemma UserCallReads(callee: string, live: seq<Variable>, storeResult: Variable, result: Variable)
    ensures var r := UserCall(callee, live, storeResult, result);
            var n := |live|;
            && |r| == 2 * n + 3
            && (forall k :: 0 <= k < n ==> Pushes(r[k], Var(live[k])) && Pops(r[2 * n + 1 - k], live[k]))
            && ReadLine(r[n]) == Some(Op("PUSH", ["{}"], Some("+2")))
            && ReadLine(r[n + 1]) == Some(Op("MLZ", ["-1", "{}", "0"], Some(callee)))
            && Moves(r[2 * n + 2], "-1", Var(storeResult), result)
  {
    UserCallSavesAndRestores(callee, live, storeResult, result);
    UserCallReturnAddress(callee, live, storeResult, result);
    UserCallJump(callee, live, storeResult, result);
    UserCallResultMove(callee, live, storeResult, result);
  }

  /** `return` is two lines: the value moved into the store's result, then `POP 0`. */
  lemma ReturnReads(value: Operand, storeResult: Variable)
    ensures |ReturnRule(value, storeResult)| == 2
    ensures Readable(value) ==> Moves(ReturnRule(value, storeResult)[0], "-1", value, storeResult)
    ensures ReadLine(ReturnRule(value, storeResult)[1]) == Some(Op("POP", ["0"], None))
  {
    if Readable(value) {
      ReadMove("-1", value, storeResult);
    }
    ReadUnary("POP", "0", None);
    assert Pop("0") == "POP" + " " + "0" + "";
  }

  /** `assign` is one unconditional move from the value into the variable. */
  lemma AssignReads(variable: Variable, value: Operand)
    requires Readable(value)
    ensures |AssignRule(variable, value)| == 1
    ensures Moves(AssignRule(variable, value)[0], "-1", value, variable)
  {
    ReadMove("-1", value, variable);
  }

  lemma BranchTo(condition: Operand, comment: string, target: Line)
    requires Readable(condition) && Target(comment) == Some(target)
    ensures BranchesOn("MNZ " + Source(condition) + " {} 0; " + comment, condition, target)
  {
    ReadBranch(Source(condition), comment);
    ReadSourceOfSource(condition);
    assert [Source(condition), "{}", "0"][1..] == ["{}", "0"];
  }

  lemma IfStartBranch(id: string, condition: Operand)
    requires Readable(condition)
    ensures BranchesOn("MNZ " + Source(condition) + " {} 0; End if_" + id, condition, Marker(false, "if_" + id))
  {
    var name := "if_" + id;
    ReadTarget(false, name);
    BranchTo(condition, "End " + name, Marker(false, name));
    IfBranchText(Source(condition), id);
  }

  lemma WhileEndBranch(id: string, condition: Operand)
    requires Readable(condition)
    ensures BranchesOn("MNZ " + Source(condition) + " {} 0; Start while_" + id, condition, Marker(true, "while_" + id))
  {
    var name := "while_" + id;
    ReadTarget(true, name);
    BranchTo(condition, "Start " + name, Marker(true, name));
    WhileBranchText(Source(condition), id);
  }

  lemma JumpTo(comment: string, target: Line)
    requires Target(comment) == Some(target)
    ensures JumpsTo("MLZ -1 {} 0; " + comment, target)
  {
    ReadJump(comment);
  }

  lemma WhileStartJump(id: string)
    ensures JumpsTo("MLZ -1 {} 0; End while_" + id, Marker(false, "while_" + id))
  {
    var name := "while_" + id;
    ReadTarget(false, name);
    JumpTo("End " + name, Marker(false, name));
    WhileJumpText(id);
  }

  lemma MarkerPrefix(prefix: string, id: string)
    ensures ReadLine("#Start " + prefix + id) == Some(Marker(true, prefix + id))
    ensures ReadLine("#End " + prefix + id) == Some(Marker(false, prefix + id))
  {
    ReadMarker(true, prefix + id);
    ReadMarker(false, prefix + id);
    PrefixText(prefix, id);
  }

  lemma IfStartLines(status: string, id: string, condition: Operand)
    requires Readable(condition) && status != "end"
    ensures ReadLine(IfRule(status, id, condition)[0]) == Some(Marker(true, "if_" + id))
    ensures BranchesOn(IfRule(status, id, condition)[1], condition, Marker(false, "if_" + id))
  {
    var r := IfRule(status, id, condition);
    assert r[0] == "#Start " + "if_" + id;
    MarkerPrefix("if_", id);
    assert r[1] == "MNZ " + Source(condition) + " {} 0; End if_" + id;
    IfStartBranch(id, condition);
  }

  lemma WhileStartText(status: string, id: string, condition: Operand)
    requires status != "end"
    ensures WhileRule(status, id, condition)[0] == "MLZ -1 {} 0; End while_" + id
    ensures WhileRule(status, id, condition)[2] == "#Start " + "while_" + id
  {
  }

  lemma WhileStartLines(status: string, id: string, condition: Operand)
    requires status != "end"
    ensures JumpsTo(WhileRule(status, id, condition)[0], Marker(false, "while_" + id))
    ensures ReadLine(WhileRule(status, id, condition)[2]) == Some(Marker(true, "while_" + id))
  {
    WhileStartText(status, id, condition);
    WhileStartJump(id);
    MarkerPrefix("while_", id);
  }

  lemma WhileEndLines(id: string, condition: Operand)
    requires Readable(condition)
    ensures ReadLine(WhileRule("end", id, condition)[0]) == Some(Marker(false, "while_" + id))
    ensures BranchesOn(WhileRule("end", id, condition)[1], condition, Marker(true, "while_" + id))
  {
    var r := WhileRule("end", id, condition);
    assert r[0] == "#End " + "while_" + id;
    MarkerPrefix("while_", id);
    assert r[1] == "MNZ " + Source(condition) + " {} 0; Start while_" + id;
    WhileEndBranch(id, condition);
  }

  /**
    `if` at "end" is only the end marker `if_<id>`; at any other status it is
    the start marker, a branch on the condition to the end marker, and the filler.
   */
  lemma IfReads(status: string, id: string, condition: Operand)
    requires status != "end" ==> Readable(condition)
    ensures var r := IfRule(status, id, condition);
            if status == "end" then
              |r| == 1 && ReadLine(r[0]) == Some(Marker(false, "if_" + id))
            else
              && |r| == 3
              && ReadLine(r[0]) == Some(Marker(true, "if_" + id))
              && BranchesOn(r[1], condition, Marker(false, "if_" + id))
              && IsFiller(r[2])
  {
    if status == "end" {
      assert IfRule(status, id, condition)[0] == "#End " + "if_" + id;
      MarkerPrefix("if_", id);
    } else {
      IfStartLines(status, id, condition);
      ReadFiller();
    }
  }

  /**
    `while` at any status but "end" is a jump to the end marker, the filler
    and the start marker; at "end" it is the end marker, a branch on the
    condition back to the start marker, and the filler.
   */
  lemma WhileReads(status: string, id: string, condition: Operand)
    requires status == "end" ==> Readable(condition)
    ensures var r := WhileRule(status, id, condition);
            && |r| == 3
            && (status == "end" ==>
                  && ReadLine(r[0]) == Some(Marker(false, "while_" + id))
                  && BranchesOn(r[1], condition, Marker(true, "while_" + id))
                  && IsFiller(r[2]))
            && (status != "end" ==>
                  && JumpsTo(r[0], Marker(false, "while_" + id))
                  && IsFiller(r[1])
                  && ReadLine(r[2]) == Some(Marker(true, "while_" + id)))
  {
    ReadFiller();
    if status == "end" {
      WhileEndLines(id, condition);
    } else {
      WhileStartLines(status, id, condition);
    }
  }

  lemma IfEndLine(id: string, condition: Operand)
    ensures ReadLine(IfRule("end", id, condition)[0]) == Some(Marker(false, "if_" + id))
  {
    assert IfRule("end", id, condition)[0] == "#End " + "if_" + id;
    MarkerPrefix("if_", id);
  }

  lemma WhileEndMarker(id: string, condition: Operand)
    ensures ReadLine(WhileRule("end", id, condition)[0]) == Some(Marker(false, "while_" + id))
  {
    assert WhileRule("end", id, condition)[0] == "#End " + "while_" + id;
    MarkerPrefix("while_", id);
  }

  /** Labels pair up: the branch of an `if` start targets the marker the matching end emits. */
  lemma IfLabelsPair(status: string, id: string, condition: Operand, other: Operand)
    requires Readable(condition) && status != "end"
    ensures BranchTargets(IfRule(status, id, condition)[1], condition, IfRule("end", id, other)[0])
  {
    IfStartLines(status, id, condition);
    IfEndLine(id, other);
  }

  /** The jump of a `while` start targets the marker the matching end emits. */
  lemma WhileJumpPairs(status: string, id: string, condition: Operand, other: Operand)
    requires status != "end"
    ensures JumpTargets(WhileRule(status, id, other)[0], WhileRule("end", id, condition)[0])
  {
    WhileStartLines(status, id, other);
    WhileEndMarker(id, condition);
  }

  /** The branch of a `while` end targets the marker the matching start emits. */
  lemma WhileBranchPairs(status: string, id: string, condition: Operand, other: Operand)
    requires Readable(condition) && status != "end"
    ensures BranchTargets(WhileRule("end", id, condition)[1], condition, WhileRule(status, id, other)[2])
  {
    WhileStartLines(status, id, other);
    WhileEndLines(id, condition);
  }
}
