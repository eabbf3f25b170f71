/**
  The emitter's driver: it walks the instruction list in order, dispatches
  each instruction to its rule under the current context, updates the
  context on every `sub`, and concatenates the lines. The first instruction
  it cannot translate aborts the whole translation, so no partial listing
  is ever produced.
 */
module Driver {
  import opened Wrappers
  import opened Operands
  import opened Rules

  /** No subroutine entered yet. */
  const Initial: Context := Context(None, None)

  /** The context after walking `instrs` from `ctx`. */
  function ContextAfter(instrs: seq<Instruction>, ctx: Context): Context
    decreases |instrs|
  {
    if instrs == [] then ctx else ContextAfter(instrs[1..], NextContext(instrs[0], ctx))
  }

  /** Some instruction of `instrs` cannot be translated. */
  predicate AnyRejected(instrs: seq<Instruction>) {
    exists i :: 0 <= i < |instrs| && Rejected(instrs[i])
  }

  /**
    The listing for `instrs`, translated from context `ctx`: the lines of
    every instruction in order, or the error of the first one that cannot
    be translated.
   */
  function Translate(instrs: seq<Instruction>, ctx: Context, store: Store): (r: Result<seq<string>, Error>)
    ensures r.Failure? <==> AnyRejected(instrs)
    ensures r.Success? ==> |r.value| >= |instrs|
    decreases |instrs|
  {
    if instrs == [] then Success([])
    else
      match Rule(instrs[0], ctx, store)
      case Failure(e) => Failure(e)
      case Success(lines) =>
        match Translate(instrs[1..], NextContext(instrs[0], ctx), store)
        case Failure(e) => Failure(e)
        case Success(rest) =>
          assert forall i :: 1 <= i < |instrs| ==> instrs[i] == instrs[1..][i - 1];
          Success(lines + rest)
  }

  /** The error an untranslatable instruction aborts with; it does not depend on the context. */
  function ErrorOf(ins: Instruction): Error
    requires Rejected(ins)
  {
    if ins.Other? then UnknownTag(ins.tag) else MissingOperands(ins.callee, |ins.args|)
  }

  /** A single instruction translates to exactly its rule's lines, or its error. */
  lemma TranslateOne(ins: Instruction, ctx: Context, store: Store)
    ensures Translate([ins], ctx, store) == Rule(ins, ctx, store)
    ensures Rejected(ins) ==> Rule(ins, ctx, store) == Failure(ErrorOf(ins))
  {
    assert [ins][1..] == [];
    match Rule(ins, ctx, store)
    case Failure(_) =>
    case Success(lines) => assert lines + [] == lines;
  }

  /** The context is a left fold: walking `a + b` is walking `b` from where `a` left off. */
  lemma {:induction false} ContextAfterAppend(a: seq<Instruction>, b: seq<Instruction>, ctx: Context)
    ensures ContextAfter(a + b, ctx) == ContextAfter(b, ContextAfter(a, ctx))
    decreases |a|
  {
    if a == [] {
      assert a + b == b;
    } else {
      assert (a + b)[1..] == a[1..] + b;
      ContextAfterAppend(a[1..], b, NextContext(a[0], ctx));
    }
  }

  /** Two listings in sequence: the first error wins, otherwise the lines are concatenated. */
  function Then(first: Result<seq<string>, Error>, second: Result<seq<string>, Error>): Result<seq<string>, Error> {
    match first
    case Failure(e) => Failure(e)
    case Success(l1) =>
      match second
      case Failure(e) => Failure(e)
      case Success(l2) => Success(l1 + l2)
  }

  lemma ThenAssociative(x: Result<seq<string>, Error>, y: Result<seq<string>, Error>, z: Result<seq<string>, Error>)
    ensures Then(Then(x, y), z) == Then(x, Then(y, z))
  {
    if x.Success? && y.Success? && z.Success? {
      assert (x.value + y.value) + z.value == x.value + (y.value + z.value);
    }
  }

  /** A non-empty walk is its first instruction's lines, then the rest from the next context. */
  lemma TranslateCons(instrs: seq<Instruction>, ctx: Context, store: Store)
    requires instrs != []
    ensures Translate(instrs, ctx, store)
         == Then(Rule(instrs[0], ctx, store), Translate(instrs[1..], NextContext(instrs[0], ctx), store))
  {
  }

  /**
    Translation is compositional: the listing for `a + b` is the listing
    for `a` followed by the listing for `b` translated in the context `a`
    leaves behind, and it fails exactly when one of the two parts fails,
    with the first part's error taking precedence.
   */
  lemma {:induction false} TranslateAppend(a: seq<Instruction>, b: seq<Instruction>, ctx: Context, store: Store)
    ensures Translate(a + b, ctx, store) == Then(Translate(a, ctx, store), Translate(b, ContextAfter(a, ctx), store))
    decreases |a|
  {
    if a == [] {
      assert a + b == b;
      match Translate(b, ctx, store)
      case Failure(_) =>
      case Success(lb) => assert [] + lb == lb;
    } else {
      var next := NextContext(a[0], ctx);
      assert (a + b)[0] == a[0];
      assert (a + b)[1..] == a[1..] + b;
      TranslateCons(a + b, ctx, store);
      TranslateCons(a, ctx, store);
      TranslateAppend(a[1..], b, next, store);
      ThenAssociative(Rule(a[0], ctx, store), Translate(a[1..], next, store), Translate(b, ContextAfter(a[1..], next), store));
    }
  }

  /**
    The first instruction that cannot be translated decides the outcome:
    the whole translation fails with that instruction's error, whatever
    follows it.
   */
  lemma {:induction false} FirstFailure(instrs: seq<Instruction>, i: nat, ctx: Context, store: Store)
    requires i < |instrs| && Rejected(instrs[i])
    requires forall j :: 0 <= j < i ==> !Rejected(instrs[j])
    ensures Translate(instrs, ctx, store) == Failure(ErrorOf(instrs[i]))
    decreases i
  {
    if i == 0 {
      TranslateOne(instrs[0], ctx, store);
    } else {
      assert !Rejected(instrs[0]);
      assert forall j :: 0 <= j < i - 1 ==> instrs[1..][j] == instrs[j + 1];
      FirstFailure(instrs[1..], i - 1, NextContext(instrs[0], ctx), store);
    }
  }

  /**
    A tuple whose tag has no rule aborts the translation with that tag,
    even when everything around it translates.
   */
  lemma UnknownTagAborts(before: seq<Instruction>, tag: string, after: seq<Instruction>, ctx: Context, store: Store)
    requires !AnyRejected(before)
    ensures Translate(before + [Other(tag)] + after, ctx, store) == Failure(UnknownTag(tag))
  {
    var instrs := before + [Other(tag)] + after;
    assert instrs[|before|] == Other(tag);
    forall j | 0 <= j < |before|
      ensures !Rejected(instrs[j])
    {
      assert instrs[j] == before[j];
    }
    FirstFailure(instrs, |before|, ctx, store);
  }

  /**
    The context after a walk is set by the last `sub` in it, start or end
    alike: its name becomes the current subroutine and its result the
    current result.
   */
  lemma {:induction false} ContextIsLastSub(instrs: seq<Instruction>, i: nat, ctx: Context)
    requires i < |instrs| && instrs[i].Sub?
    requires forall j :: i < j < |instrs| ==> !instrs[j].Sub?
    ensures ContextAfter(instrs, ctx) == Context(Some(instrs[i].name), Some(instrs[i].result))
    decreases |instrs|
  {
    if i == 0 {
      NoSubKeepsContext(instrs[1..], NextContext(instrs[0], ctx));
    } else {
      assert forall j :: i - 1 < j < |instrs| - 1 ==> instrs[1..][j] == instrs[j + 1];
      ContextIsLastSub(instrs[1..], i - 1, NextContext(instrs[0], ctx));
    }
  }

  /** A walk with no `sub` in it leaves the context as it was. */
  lemma {:induction false} NoSubKeepsContext(instrs: seq<Instruction>, ctx: Context)
    requires forall j :: 0 <= j < |instrs| ==> !instrs[j].Sub?
    ensures ContextAfter(instrs, ctx) == ctx
    decreases |instrs|
  {
    if instrs != [] {
      assert forall j :: 0 <= j < |instrs| - 1 ==> instrs[1..][j] == instrs[j + 1];
      NoSubKeepsContext(instrs[1..], ctx);
    }
  }

  /**
    A call of a user subroutine saves the live variables of the subroutine
    the last `sub` before it named.
   */
  lemma CallUsesCurrentSub(before: seq<Instruction>, i: nat, callee: string, args: seq<Operand>, result: Variable,
                           store: Store)
    requires callee !in Opcodes
    requires i < |before| && before[i].Sub?
    requires forall j :: i < j < |before| ==> !before[j].Sub?
    ensures Rule(CallSub(callee, args, result), ContextAfter(before, Initial), store)
         == Success(UserCall(callee, store.live(Some(before[i].name)), store.result, result))
  {
    ContextIsLastSub(before, i, Initial);
  }

  /** A call of a user subroutine before any `sub` saves the live variables of no subroutine. */
  lemma CallBeforeAnySub(before: seq<Instruction>, callee: string, args: seq<Operand>, result: Variable, store: Store)
    requires callee !in Opcodes
    requires forall j :: 0 <= j < |before| ==> !before[j].Sub?
    ensures Rule(CallSub(callee, args, result), ContextAfter(before, Initial), store)
         == Success(UserCall(callee, store.live(None), store.result, result))
  {
    NoSubKeepsContext(before, Initial);
  }

  /** The current subroutine after a walk is the one the last `sub` named, if there is one. */
  lemma CurrentSub(before: seq<Instruction>)
    ensures ContextAfter(before, Initial).sub
         == (if exists i :: 0 <= i < |before| && before[i].Sub?
             then Some(before[LastSub(before)].name) else None)
  {
    var some := exists i :: 0 <= i < |before| && before[i].Sub?;
    if some {
      ContextIsLastSub(before, LastSub(before), Initial);
    } else {
      NoSubKeepsContext(before, Initial);
    }
  }

  /** The position of the last `sub` in `instrs`. */
  function LastSub(instrs: seq<Instruction>): (i: nat)
    requires exists i :: 0 <= i < |instrs| && instrs[i].Sub?
    ensures i < |instrs| && instrs[i].Sub?
    ensures forall j :: i < j < |instrs| ==> !instrs[j].Sub?
    decreases |instrs|
  {
    if instrs[|instrs| - 1].Sub? then |instrs| - 1
    else
      var init := instrs[..|instrs| - 1];
      assert exists i :: 0 <= i < |init| && init[i].Sub? by {
        var i :| 0 <= i < |instrs| && instrs[i].Sub?;
        assert i < |init| && init[i] == instrs[i];
      }
      var k := LastSub(init);
      assert instrs[k] == init[k];
      k
  }

  /**
    The emitter's main loop: dispatch every instruction under the current
    context, extend the listing with its lines, and update the context on a
    `sub`. The first instruction without a translation aborts the run.
   */
  method Compile(instrs: seq<Instruction>, store: Store) returns (r: Result<seq<string>, Error>)
    ensures r == Translate(instrs, Initial, store)
    ensures r.Failure? <==> AnyRejected(instrs)
  {
    var compiled: seq<string> := [];
    var ctx := Initial;
    var i := 0;
    while i < |instrs|
      invariant 0 <= i <= |instrs|
      invariant Translate(instrs[..i], Initial, store) == Success(compiled)
      invariant ctx == ContextAfter(instrs[..i], Initial)
    {
      var ins := instrs[i];
      assert instrs[..i + 1] == instrs[..i] + [ins];
      TranslateAppend(instrs[..i], [ins], Initial, store);
      ContextAfterAppend(instrs[..i], [ins], Initial);
      TranslateOne(ins, ctx, store);
      assert [ins][1..] == [];
      match Rule(ins, ctx, store)
      case Failure(e) =>
        TranslateAppend(instrs[..i + 1], instrs[i + 1..], Initial, store);
        assert instrs[..i + 1] + instrs[i + 1..] == instrs;
        return Failure(e);
      case Success(lines) =>
        compiled := compiled + lines;
        ctx := NextContext(ins, ctx);
        i := i + 1;
    }
    assert instrs[..i] == instrs;
    return Success(compiled);
  }
}
