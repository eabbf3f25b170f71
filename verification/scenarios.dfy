/**
  Concrete translations: the encodings of one pointer variable, a builtin
  call, a subroutine scaffold, a user call with two live variables, and an
  unknown tag aborting the run.
 */
module Scenarios {
  import opened Wrappers
  import opened Decimal
  import opened Operands
  import opened Rules
  import opened Driver

  /** A pointer variable at offset 3 reads as `B3`, is written as `A3`; its direct twin is written as `3`. */
  lemma EncodingExamples()
    ensures SourceText(Variable(3, true)) == "B3"
    ensures Dest(Variable(3, true)) == "A3"
    ensures Dest(Variable(3, false)) == "3"
    ensures Source(Lit("7")) == "7"
  {
    assert Show(3) == "3";
  }

  /** `__ADD__` on a pointer variable and a literal, into a pointer result. */
  lemma BuiltinExample(store: Store, ctx: Context)
    ensures Rule(CallSub("__ADD__", [Var(Variable(3, true)), Lit("7")], Variable(4, true)), ctx, store)
         == Success(["ADD B3 7 A4"])
  {
    assert Show(3) == "3" && Show(4) == "4";
    assert Mnemonic("__ADD__") == "ADD";
    assert Source(Var(Variable(3, true))) == "B3";
    assert Dest(Variable(4, true)) == "A4";
    var fields := [Mnemonic("__ADD__")] + Sources([Var(Variable(3, true)), Lit("7")]) + [Dest(Variable(4, true))];
    assert fields == ["ADD", "B3", "7", "A4"];
    assert "ADD" + " " + "B3" + " " + "7" + " " + "A4" == "ADD B3 7 A4";
  }

  /** A builtin given a single argument has too few values for its four fields. */
  lemma BuiltinTooFewExample(store: Store, ctx: Context)
    ensures Rule(CallSub("__MNZ__", [Lit("1")], Variable(0, false)), ctx, store)
         == Failure(MissingOperands("__MNZ__", 1))
  {
  }

  /** A subroutine that assigns one variable to another. */
  lemma ScaffoldExample(store: Store)
    ensures Translate([Sub("start", "S", Variable(0, false)),
                       Assign(Variable(3, true), Var(Variable(5, false))),
                       Sub("end", "S", Variable(0, false))], Initial, store)
         == Success(["#Start S", "MLZ -1 A5 A3", "#End S"])
  {
    var r := Variable(0, false);
    var instrs := [Sub("start", "S", r), Assign(Variable(3, true), Var(Variable(5, false))), Sub("end", "S", r)];
    assert Show(3) == "3" && Show(5) == "5";
    assert Source(Var(Variable(5, false))) == "A5";
    assert Dest(Variable(3, true)) == "A3";
    assert "MLZ -1 " + "A5" + " " + "A3" == "MLZ -1 A5 A3";
    assert AssignRule(Variable(3, true), Var(Variable(5, false))) == ["MLZ -1 A5 A3"];
    assert "#Start " + "S" == "#Start S" && "#End " + "S" == "#End S";
    var inS := Context(Some("S"), Some(r));
    assert NextContext(instrs[0], Initial) == inS;
    assert NextContext(instrs[1], inS) == inS;
    TranslateOne(instrs[2], inS, store);
    assert Translate(instrs[2..], inS, store) == Success(["#End S"]);
    assert instrs[1..][1..] == instrs[2..];
    assert Translate(instrs[1..], inS, store) == Success(["MLZ -1 A5 A3"] + ["#End S"]);
    assert Translate(instrs, Initial, store) == Success(["#Start S"] + (["MLZ -1 A5 A3"] + ["#End S"]));
    assert ["#Start S"] + (["MLZ -1 A5 A3"] + ["#End S"]) == ["#Start S", "MLZ -1 A5 A3", "#End S"];
  }

  /** Inside subroutine `main` with live variables at offsets 1 and 2 (the second a pointer), a call of `f`. */
  lemma UserCallExample(store: Store)
    requires store.live(Some("main")) == [Variable(1, false), Variable(2, true)]
    requires store.result == Variable(9, false)
    ensures Rule(CallSub("f", [], Variable(4, false)), Context(Some("main"), Some(Variable(0, false))), store)
         == Success(["PUSH A1", "PUSH B2", "PUSH {}; +2", "MLZ -1 {} 0; f", "POP A2", "POP 1", "MLZ -1 A9 4"])
  {
    var live := [Variable(1, false), Variable(2, true)];
    assert "f" !in Opcodes;
    UserCallExampleLines(live);
  }

  lemma UserCallExampleLines(live: seq<Variable>)
    requires live == [Variable(1, false), Variable(2, true)]
    ensures UserCall("f", live, Variable(9, false), Variable(4, false))
         == ["PUSH A1", "PUSH B2", "PUSH {}; +2", "MLZ -1 {} 0; f", "POP A2", "POP 1", "MLZ -1 A9 4"]
  {
    ExampleSave(live);
    ExampleRestore(live);
    ExampleResultMove();
    assert Push("{}; +2") == "PUSH {}; +2";
    assert "MLZ -1 {} 0; " + "f" == "MLZ -1 {} 0; f";
  }

  lemma ExampleSave(live: seq<Variable>)
    requires live == [Variable(1, false), Variable(2, true)]
    ensures SaveLines(live) == ["PUSH A1", "PUSH B2"]
  {
    assert Show(1) == "1" && Show(2) == "2";
    assert SourceText(live[0]) == "A1" && SourceText(live[1]) == "B2";
    assert "PUSH " + "A1" == "PUSH A1" && "PUSH " + "B2" == "PUSH B2";
  }

  lemma ExampleRestore(live: seq<Variable>)
    requires live == [Variable(1, false), Variable(2, true)]
    ensures RestoreLines(live) == ["POP A2", "POP 1"]
  {
    assert Show(1) == "1" && Show(2) == "2";
    assert Dest(live[0]) == "1" && Dest(live[1]) == "A2";
    assert "POP " + "A2" == "POP A2" && "POP " + "1" == "POP 1";
  }

  lemma ExampleResultMove()
    ensures "MLZ -1 " + SourceText(Variable(9, false)) + " " + Dest(Variable(4, false)) == "MLZ -1 A9 4"
  {
    assert Show(4) == "4" && Show(9) == "9";
    assert SourceText(Variable(9, false)) == "A9" && Dest(Variable(4, false)) == "4";
    assert "MLZ -1 " + "A9" + " " + "4" == "MLZ -1 A9 4";
  }

  /** A `goto` between two translatable instructions aborts the run with its tag. */
  lemma GotoExample(store: Store)
    ensures Translate([Sub("start", "S", Variable(0, false)), Other("goto"), Return(Lit("0"))], Initial, store)
         == Failure(UnknownTag("goto"))
  {
    var instrs := [Sub("start", "S", Variable(0, false)), Other("goto"), Return(Lit("0"))];
    assert !Rejected(instrs[0]);
    FirstFailure(instrs, 1, Initial, store);
  }
}
