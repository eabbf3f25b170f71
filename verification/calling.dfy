/**
  The calling convention's stack discipline. Only the bookkeeping of `PUSH`
  and `POP` lines is modelled: a push puts its operand text on a stack, a
  pop takes the top text off and records which slot it was written to.
  Every other line leaves the stack alone. With this, a user call followed
  by the callee's `return` can be shown to put every live variable back
  from the value saved from that same variable, and to leave the stack as
  it found it.
 */
module Calling {
  import opened Wrappers
  import opened Operands
  import opened AsmText
  import opened Rules
  import opened Reading

  /** One pop: the slot written and the text taken off the stack. */
  datatype Write = Write(dest: string, value: string)

  /** The stack (top last) and the pops performed so far, oldest first. */
  datatype Machine = Machine(stack: seq<string>, writes: seq<Write>)

  /** The effect of one line, as read; a pop from an empty stack is a fault. */
  function Step(m: Machine, line: Option<Line>): Option<Machine> {
    match line
    case Some(Op(mnemonic, operands, _)) =>
      if mnemonic == "PUSH" && |operands| == 1 then
        Some(Machine(m.stack + [operands[0]], m.writes))
      else if mnemonic == "POP" && |operands| == 1 then
        if m.stack == [] then None
        else Some(Machine(m.stack[..|m.stack| - 1], m.writes + [Write(operands[0], m.stack[|m.stack| - 1])]))
      else Some(m)
    case _ => Some(m)
  }

  /** The effect of a sequence of read lines, in order. */
  function Execute(m: Machine, lines: seq<Option<Line>>): Option<Machine>
    decreases |lines|
  {
    if lines == [] then Some(m)
    else
      match Step(m, lines[0])
      case None => None
      case Some(next) => Execute(next, lines[1..])
  }

  /** Every line of a listing, read with the line reader. */
  function ReadAll(lines: seq<string>): (rs: seq<Option<Line>>)
    ensures |rs| == |lines|
  {
    seq(|lines|, i requires 0 <= i < |lines| => ReadLine(lines[i]))
  }

  /** The effect of a listing of text lines. */
  function Run(m: Machine, lines: seq<string>): Option<Machine> {
    Execute(m, ReadAll(lines))
  }

  lemma ReadAllAppend(a: seq<string>, b: seq<string>)
    ensures ReadAll(a + b) == ReadAll(a) + ReadAll(b)
  {
  }

  lemma {:induction false} ExecuteAppend(m: Machine, a: seq<Option<Line>>, b: seq<Option<Line>>)
    ensures Execute(m, a + b) == (match Execute(m, a) case None => None case Some(mid) => Execute(mid, b))
    decreases |a|
  {
    if a == [] {
      assert a + b == b;
    } else {
      assert (a + b)[0] == a[0];
      assert (a + b)[1..] == a[1..] + b;
      match Step(m, a[0])
      case None =>
      case Some(next) => ExecuteAppend(next, a[1..], b);
    }
  }

  /** Running two listings one after the other is running their concatenation. */
  lemma RunAppend(m: Machine, a: seq<string>, b: seq<string>)
    ensures Run(m, a + b) == (match Run(m, a) case None => None case Some(mid) => Run(mid, b))
  {
    ReadAllAppend(a, b);
    ExecuteAppend(m, ReadAll(a), ReadAll(b));
  }

  /** Pushes of the given texts, as read. */
  function PushOps(ts: seq<string>): (rs: seq<Option<Line>>)
    ensures |rs| == |ts|
  {
    seq(|ts|, k requires 0 <= k < |ts| => Some(Op("PUSH", [ts[k]], None)))
  }

  /** Pops into the given slots, as read. */
  function PopOps(ds: seq<string>): (rs: seq<Option<Line>>)
    ensures |rs| == |ds|
  {
    seq(|ds|, k requires 0 <= k < |ds| => Some(Op("POP", [ds[k]], None)))
  }

  /** Source encodings of `vs` in order: the stack the save phase builds. */
  function Saved(vs: seq<Variable>): (ts: seq<string>)
    ensures |ts| == |vs|
  {
    seq(|vs|, k requires 0 <= k < |vs| => SourceText(vs[k]))
  }

  /** Destination encodings of `vs`, last variable first: the slots the restore phase pops into. */
  function RestoredSlots(vs: seq<Variable>): (ds: seq<string>)
    ensures |ds| == |vs|
  {
    seq(|vs|, k requires 0 <= k < |vs| => Dest(vs[|vs| - 1 - k]))
  }

  /** The pops the restore phase performs: last saved variable first, each from its own saved text. */
  function Restores(vs: seq<Variable>): (ws: seq<Write>)
    ensures |ws| == |vs|
  {
    seq(|vs|, k requires 0 <= k < |vs| => Write(Dest(vs[|vs| - 1 - k]), SourceText(vs[|vs| - 1 - k])))
  }

  /** A listing of pushes of the given texts reads as those pushes. */
  lemma ReadPushes(lines: seq<string>, texts: seq<string>)
    requires |lines| == |texts|
    requires forall k :: 0 <= k < |texts| ==> IsWord(texts[k]) && lines[k] == Push(texts[k])
    ensures ReadAll(lines) == PushOps(texts)
  {
    forall k | 0 <= k < |texts|
      ensures ReadAll(lines)[k] == PushOps(texts)[k]
    {
      ReadUnary("PUSH", texts[k], None);
      assert lines[k] == "PUSH" + " " + texts[k] + "";
    }
  }

  lemma ReadSave(vs: seq<Variable>)
    ensures ReadAll(SaveLines(vs)) == PushOps(Saved(vs))
  {
    var texts := Saved(vs);
    forall k | 0 <= k < |vs|
      ensures IsWord(texts[k]) && SaveLines(vs)[k] == Push(texts[k])
    {
      EncodingsAreWords(vs[k]);
    }
    ReadPushes(SaveLines(vs), texts);
  }

  /** A listing of pops into the given slots reads as those pops. */
  lemma ReadPops(lines: seq<string>, slots: seq<string>)
    requires |lines| == |slots|
    requires forall k :: 0 <= k < |slots| ==> IsWord(slots[k]) && lines[k] == Pop(slots[k])
    ensures ReadAll(lines) == PopOps(slots)
  {
    forall k | 0 <= k < |slots|
      ensures ReadAll(lines)[k] == PopOps(slots)[k]
    {
      ReadUnary("POP", slots[k], None);
      assert lines[k] == "POP" + " " + slots[k] + "";
    }
  }

  lemma ReadRestore(vs: seq<Variable>)
    ensures ReadAll(RestoreLines(vs)) == PopOps(RestoredSlots(vs))
  {
    var slots := RestoredSlots(vs);
    forall k | 0 <= k < |vs|
      ensures IsWord(slots[k]) && RestoreLines(vs)[k] == Pop(slots[k])
    {
      EncodingsAreWords(vs[|vs| - 1 - k]);
    }
    ReadPops(RestoreLines(vs), slots);
  }

  lemma {:induction false} ExecutePushes(m: Machine, ts: seq<string>)
    ensures Execute(m, PushOps(ts)) == Some(Machine(m.stack + ts, m.writes))
    decreases |ts|
  {
    if ts == [] {
      assert m.stack + ts == m.stack;
    } else {
      var next := Machine(m.stack + [ts[0]], m.writes);
      assert PushOps(ts)[1..] == PushOps(ts[1..]);
      ExecutePushes(next, ts[1..]);
      assert next.stack + ts[1..] == m.stack + ts;
    }
  }

  /** A pop takes the top of the stack into the slot it names. */
  lemma PopStep(m: Machine, d: string)
    requires m.stack != []
    ensures Step(m, Some(Op("POP", [d], None)))
         == Some(Machine(m.stack[..|m.stack| - 1], m.writes + [Write(d, m.stack[|m.stack| - 1])]))
  {
  }

  lemma PopOpsSplit(vs: seq<Variable>)
    requires |vs| >= 1
    ensures PopOps(RestoredSlots(vs)) == [Some(Op("POP", [Dest(vs[|vs| - 1])], None))] + PopOps(RestoredSlots(vs[..|vs| - 1]))
  {
    var init := vs[..|vs| - 1];
    assert RestoredSlots(vs) == [Dest(vs[|vs| - 1])] + RestoredSlots(init);
  }

  lemma RestoresSplit(vs: seq<Variable>)
    requires |vs| >= 1
    ensures Restores(vs) == [Write(Dest(vs[|vs| - 1]), SourceText(vs[|vs| - 1]))] + Restores(vs[..|vs| - 1])
  {
  }

  /** On the stack the save phase built, the restore phase pops every variable back into itself. */
  lemma {:induction false} ExecuteRestore(m: Machine, vs: seq<Variable>)
    ensures Execute(Machine(m.stack + Saved(vs), m.writes), PopOps(RestoredSlots(vs)))
         == Some(Machine(m.stack, m.writes + Restores(vs)))
    decreases |vs|
  {
    if vs == [] {
      assert m.stack + Saved(vs) == m.stack;
      assert m.writes + Restores(vs) == m.writes;
    } else {
      var n := |vs|;
      var init := vs[..n - 1];
      var last := vs[n - 1];
      var start := Machine(m.stack + Saved(vs), m.writes);
      assert Saved(vs) == Saved(init) + [SourceText(last)];
      assert start.stack[..|start.stack| - 1] == m.stack + Saved(init);
      assert start.stack[|start.stack| - 1] == SourceText(last);
      var w := Write(Dest(last), SourceText(last));
      var next := Machine(m.stack + Saved(init), m.writes + [w]);
      var ops := PopOps(RestoredSlots(vs));
      PopOpsSplit(vs);
      PopStep(start, Dest(last));
      assert Step(start, ops[0]) == Some(next);
      assert ops[1..] == PopOps(RestoredSlots(init));
      assert Execute(start, ops) == Execute(next, PopOps(RestoredSlots(init)));
      ExecuteRestore(Machine(m.stack, m.writes + [w]), init);
      RestoresSplit(vs);
      assert (m.writes + [w]) + Restores(init) == m.writes + Restores(vs);
    }
  }

  /** The save phase pushes the live variables' source encodings, in store order. */
  lemma RunSave(m: Machine, vs: seq<Variable>)
    ensures Run(m, SaveLines(vs)) == Some(Machine(m.stack + Saved(vs), m.writes))
  {
    ReadSave(vs);
    ExecutePushes(m, Saved(vs));
  }

  /** On the stack the save phase built, the restore phase pops every variable back into itself. */
  lemma RunRestore(m: Machine, vs: seq<Variable>)
    ensures Run(Machine(m.stack + Saved(vs), m.writes), RestoreLines(vs)) == Some(Machine(m.stack, m.writes + Restores(vs)))
  {
    ReadRestore(vs);
    ExecuteRestore(m, vs);
  }

  /** A read line that leaves the stack alone: unreadable, a marker, or neither a push nor a pop. */
  predicate Inert(r: Option<Line>) {
    r.None? || r.value.Marker? || (r.value.mnemonic != "PUSH" && r.value.mnemonic != "POP")
  }

  lemma ExecuteOne(m: Machine, x: Option<Line>)
    ensures Execute(m, [x]) == Step(m, x)
  {
    assert [x][1..] == [];
  }

  /** Executing `a` and then `b` from where `a` stopped. */
  lemma ExecuteThen(m: Machine, a: seq<Option<Line>>, b: seq<Option<Line>>, mid: Machine)
    requires Execute(m, a) == Some(mid)
    ensures Execute(m, a + b) == Execute(mid, b)
  {
    ExecuteAppend(m, a, b);
  }

  /** A line led by a word other than PUSH and POP is inert, whatever follows the word. */
  lemma LeadingWordInert(w: string, rest: string)
    requires IsWord(w) && w[0] != '#' && w != "PUSH" && w != "POP"
    ensures Inert(ReadLine(w + " " + rest))
  {
    ReadLeadingWord(w, rest);
  }

  /** A line led by a mnemonic other than PUSH and POP does not touch the stack. */
  lemma RunOther(m: Machine, w: string, rest: string)
    requires IsWord(w) && w[0] != '#' && w != "PUSH" && w != "POP"
    ensures Run(m, [w + " " + rest]) == Some(m)
  {
    var r := ReadLine(w + " " + rest);
    LeadingWordInert(w, rest);
    assert ReadAll([w + " " + rest]) == [r];
    ExecuteOne(m, r);
  }

  /** The read return-address push and the callee's `POP 0`. */
  const ReturnAddressPush: Option<Line> := Some(Op("PUSH", ["{}"], Some("+2")))
  const ReturnPop: Option<Line> := Some(Op("POP", ["0"], None))

  /** The return-address push, two inert lines and the callee's `POP 0` leave the stack as they found it. */
  lemma ExecuteCallMiddle(m: Machine, middle: seq<Option<Line>>)
    requires MiddleShape(middle)
    ensures Execute(m, middle) == Some(Machine(m.stack, m.writes + [Write("0", "{}")]))
  {
    var pushed := Machine(m.stack + ["{}"], m.writes);
    ExecuteOne(m, middle[0]);
    ExecuteOne(pushed, middle[1]);
    ExecuteOne(pushed, middle[2]);
    ExecuteOne(pushed, middle[3]);
    assert pushed.stack[..|pushed.stack| - 1] == m.stack;
    ExecuteThen(m, middle[..1], [middle[1]], pushed);
    assert middle[..1] + [middle[1]] == middle[..2];
    ExecuteThen(m, middle[..2], [middle[2]], pushed);
    assert middle[..2] + [middle[2]] == middle[..3];
    ExecuteThen(m, middle[..3], [middle[3]], pushed);
    assert middle[..3] + [middle[3]] == middle;
  }

  /** A user call with the callee's `return` spliced in, as read lines, executed from any stack. */
  lemma ExecuteCallThenReturn(m: Machine, live: seq<Variable>, middle: seq<Option<Line>>, final: Option<Line>)
    requires MiddleShape(middle) && Inert(final)
    ensures Execute(m, PushOps(Saved(live)) + middle + PopOps(RestoredSlots(live)) + [final])
         == Some(Machine(m.stack, m.writes + [Write("0", "{}")] + Restores(live)))
  {
    var saves := PushOps(Saved(live));
    var restores := PopOps(RestoredSlots(live));
    var saved := Machine(m.stack + Saved(live), m.writes);
    var popped := Machine(saved.stack, saved.writes + [Write("0", "{}")]);
    var restored := Machine(m.stack, popped.writes + Restores(live));
    ExecutePushes(m, Saved(live));
    ExecuteCallMiddle(saved, middle);
    ExecuteThen(m, saves, middle, saved);
    ExecuteRestore(Machine(m.stack, popped.writes), live);
    ExecuteThen(m, saves + middle, restores, popped);
    ExecuteOne(restored, final);
    ExecuteThen(m, saves + middle + restores, [final], restored);
  }

  /** The lines between a user call's save and restore phases once the callee's `return` is spliced in. */
  function Middle(callee: string, value: string, slot: string): seq<string> {
    [Push("{}; +2"), "MLZ -1 {} 0; " + callee, "MLZ -1 " + value + " " + slot, Pop("0")]
  }

  /** A middle part, as read: the return-address push, two inert lines and the callee's `POP 0`. */
  predicate MiddleShape(rs: seq<Option<Line>>) {
    |rs| == 4 && rs[0] == ReturnAddressPush && Inert(rs[1]) && Inert(rs[2]) && rs[3] == ReturnPop
  }

  // Solver aids: a line split after its leading word.

  lemma LeadingMove(a: string, b: string)
    ensures "MLZ -1 " + a + " " + b == "MLZ" + " " + ("-1 " + a + " " + b)
  {
  }

  lemma LeadingJump(callee: string)
    ensures "MLZ -1 {} 0; " + callee == "MLZ" + " " + ("-1 {} 0; " + callee)
  {
  }

  lemma ReadReturnPop()
    ensures ReadLine(Pop("0")) == ReturnPop
  {
    ReadUnary("POP", "0", None);
    assert Pop("0") == "POP" + " " + "0" + "";
  }

  lemma ReadJumpInert(callee: string)
    ensures Inert(ReadLine("MLZ -1 {} 0; " + callee))
  {
    LeadingJump(callee);
    LeadingWordInert("MLZ", "-1 {} 0; " + callee);
  }

  lemma ReadMoveInert(value: string, slot: string)
    ensures Inert(ReadLine("MLZ -1 " + value + " " + slot))
  {
    LeadingMove(value, slot);
    LeadingWordInert("MLZ", "-1 " + value + " " + slot);
  }

  /** The middle lines, as read. */
  lemma ReadMiddle(callee: string, value: string, slot: string)
    ensures MiddleShape(ReadAll(Middle(callee, value, slot)))
  {
    ReturnAddressLine();
    ReadJumpInert(callee);
    ReadMoveInert(value, slot);
    ReadReturnPop();
  }

  /** Splicing two lines after the first `k + 2` lines of a listing. */
  lemma Splice(save: seq<string>, a: string, b: string, restore: seq<string>, last: string, c: string, d: string)
    ensures var call := save + [a, b] + restore + [last];
            call[..|save| + 2] + [c, d] + call[|save| + 2..] == save + [a, b, c, d] + restore + [last]
  {
    var call := save + [a, b] + restore + [last];
    assert call[..|save| + 2] == save + [a, b];
    assert call[|save| + 2..] == restore + [last];
  }

  /**
    The lines a user call runs when the callee's `return` is executed
    between the call's jump and its restore phase.
   */
  function Spliced(callee: string, live: seq<Variable>, storeResult: Variable, result: Variable, value: Operand)
    : seq<string>
  {
    var call := UserCall(callee, live, storeResult, result);
    call[..|live| + 2] + ReturnRule(value, storeResult) + call[|live| + 2..]
  }

  /** The spliced listing: save phase, middle lines, restore phase, result move. */
  lemma CallListing(callee: string, live: seq<Variable>, storeResult: Variable, result: Variable, value: Operand)
    ensures Spliced(callee, live, storeResult, result, value)
              == SaveLines(live) + Middle(callee, Source(value), Dest(storeResult)) + RestoreLines(live)
                 + ["MLZ -1 " + SourceText(storeResult) + " " + Dest(result)]
  {
    Splice(SaveLines(live), Push("{}; +2"), "MLZ -1 {} 0; " + callee, RestoreLines(live),
           "MLZ -1 " + SourceText(storeResult) + " " + Dest(result),
           "MLZ -1 " + Source(value) + " " + Dest(storeResult), Pop("0"));
  }

  /** Reading the spliced listing piece by piece. */
  lemma ReadListing(live: seq<Variable>, middle: seq<string>, last: string)
    ensures ReadAll(SaveLines(live) + middle + RestoreLines(live) + [last])
         == PushOps(Saved(live)) + ReadAll(middle) + PopOps(RestoredSlots(live)) + [ReadLine(last)]
  {
    ReadSave(live);
    ReadRestore(live);
    ReadAllAppend(SaveLines(live), middle);
    ReadAllAppend(SaveLines(live) + middle, RestoreLines(live));
    ReadAllAppend(SaveLines(live) + middle + RestoreLines(live), [last]);
  }

  /**
    A user call, with the callee's `return` run between its jump and its
    restore phase, starting from any stack: every pop of the restore phase
    writes a live variable with the text saved from that same variable, the
    callee's `POP 0` takes exactly the return-address placeholder, and the
    stack ends as it began.
   */
  lemma CallThenReturn(m: Machine, callee: string, live: seq<Variable>, storeResult: Variable,
                       result: Variable, value: Operand)
    ensures Run(m, Spliced(callee, live, storeResult, result, value))
              == Some(Machine(m.stack, m.writes + [Write("0", "{}")] + Restores(live)))
  {
    var middle := Middle(callee, Source(value), Dest(storeResult));
    var last := "MLZ -1 " + SourceText(storeResult) + " " + Dest(result);
    CallListing(callee, live, storeResult, result, value);
    ReadListing(live, middle, last);
    ReadMiddle(callee, Source(value), Dest(storeResult));
    ReadMoveInert(SourceText(storeResult), Dest(result));
    ExecuteCallThenReturn(m, live, ReadAll(middle), ReadLine(last));
  }

  lemma RestoreAt(live: seq<Variable>, j: nat)
    requires j < |live|
    ensures Restores(live)[|live| - 1 - j] == Write(Dest(live[j]), SourceText(live[j]))
  {
    assert |live| - 1 - (|live| - 1 - j) == j;
  }

  /** Each restoring pop, read back, writes a live variable with the text saved from that variable. */
  lemma RestoresReadBack(live: seq<Variable>)
    ensures forall j :: 0 <= j < |live| ==>
              && ReadDest(Restores(live)[|live| - 1 - j].dest) == Some(live[j])
              && ReadSource(Restores(live)[|live| - 1 - j].value) == Var(live[j])
  {
    forall j | 0 <= j < |live|
      ensures ReadDest(Restores(live)[|live| - 1 - j].dest) == Some(live[j])
      ensures ReadSource(Restores(live)[|live| - 1 - j].value) == Var(live[j])
    {
      RestoreAt(live, j);
      ReadDestOfDest(live[j]);
      ReadSourceOfSource(Var(live[j]));
    }
  }

  /**
    Read back through the operand readers: the pop that writes `live[j]` is
    the (n-j)-th one after the callee's `POP 0`, and the value it takes is
    the one saved from `live[j]` itself.
   */
  lemma CallRestoresSavedVariables(callee: string, live: seq<Variable>, storeResult: Variable,
                                   result: Variable, value: Operand)
    ensures var n := |live|;
            var out := Run(Machine([], []), Spliced(callee, live, storeResult, result, value));
            && out.Some? && out.value.stack == [] && |out.value.writes| == n + 1
            && out.value.writes[0] == Write("0", "{}")
            && forall j :: 0 <= j < n ==>
                 && ReadDest(out.value.writes[n - j].dest) == Some(live[j])
                 && ReadSource(out.value.writes[n - j].value) == Var(live[j])
  {
    var writes := [Write("0", "{}")] + Restores(live);
    CallThenReturn(Machine([], []), callee, live, storeResult, result, value);
    assert [] + [Write("0", "{}")] + Restores(live) == writes;
    PlaceholderThenRestoresReadBack(live, writes);
  }

  /** The writes of call plus return, after the placeholder, read back as the live variables. */
  lemma PlaceholderThenRestoresReadBack(live: seq<Variable>, writes: seq<Write>)
    requires writes == [Write("0", "{}")] + Restores(live)
    ensures |writes| == |live| + 1
    ensures forall j :: 0 <= j < |live| ==>
              && ReadDest(writes[|live| - j].dest) == Some(live[j])
              && ReadSource(writes[|live| - j].value) == Var(live[j])
  {
    RestoresReadBack(live);
    forall i | 1 <= i <= |live|
      ensures writes[i] == Restores(live)[i - 1]
    {
    }
  }
}
