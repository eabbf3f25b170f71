/**
  Variables and their two textual encodings: the source form written by
  `parse_variable` (always carries a mode letter) and the destination form
  written by `parse_result` (carries `A` only for a pointer). Each encoding
  has a reader that recovers the variable from its text.
 */
module Operands {
  import opened Wrappers
  import opened Decimal

  /** A storage slot: its offset in the frame and whether it holds an address. */
  datatype Variable = Variable(offset: nat, isPointer: bool)

  /** An instruction argument: a variable, or a literal already rendered by `str()`. */
  datatype Operand = Var(variable: Variable) | Lit(text: string)

  /** `parse_variable` on a variable: mode letter `B` (pointer) or `A` (direct), then the offset. */
  function SourceText(v: Variable): string {
    (if v.isPointer then "B" else "A") + Show(v.offset)
  }

  /** `parse_variable`: literals pass through unchanged. */
  function Source(o: Operand): string {
    match o
    case Var(v) => SourceText(v)
    case Lit(t) => t
  }

  /** `parse_result`: `A` only for a pointer, then the offset. */
  function Dest(v: Variable): string {
    (if v.isPointer then "A" else "") + Show(v.offset)
  }

  /** The variable a source-position text names, if it names one. */
  function ReadSourceVariable(s: string): Option<Variable> {
    if |s| >= 1 && (s[0] == 'A' || s[0] == 'B') then
      match Read(s[1..])
      case Some(n) => Some(Variable(n, s[0] == 'B'))
      case None => None
    else None
  }

  /** How a source-position text is understood: a variable if it names one, else a literal. */
  function ReadSource(s: string): Operand {
    match ReadSourceVariable(s)
    case Some(v) => Var(v)
    case None => Lit(s)
  }

  /** The variable a destination-position text names, if it names one. */
  function ReadDest(s: string): Option<Variable> {
    if |s| >= 1 && s[0] == 'A' then
      match Read(s[1..])
      case Some(n) => Some(Variable(n, true))
      case None => None
    else
      match Read(s)
      case Some(n) => Some(Variable(n, false))
      case None => None
  }

  /** A literal that cannot be mistaken for a variable's source encoding. */
  predicate PlainLiteral(o: Operand) {
    o.Lit? ==> ReadSourceVariable(o.text).None?
  }

  /** Reading the source encoding back recovers the operand. */
  lemma ReadSourceOfSource(o: Operand)
    requires PlainLiteral(o)
    ensures ReadSource(Source(o)) == o
  {
    if o.Var? {
      var s := SourceText(o.variable);
      assert s[1..] == Show(o.variable.offset);
      ReadShow(o.variable.offset);
    }
  }

  /** A text read as a variable in source position is exactly that variable's source encoding. */
  lemma SourceOfReadSource(s: string, v: Variable)
    requires ReadSourceVariable(s) == Some(v)
    ensures SourceText(v) == s
  {
    ShowRead(s[1..], v.offset);
    assert s == [s[0]] + s[1..];
  }

  /** Reading the destination encoding back recovers the variable. */
  lemma ReadDestOfDest(v: Variable)
    ensures ReadDest(Dest(v)) == Some(v)
  {
    var s := Dest(v);
    ReadShow(v.offset);
    if v.isPointer {
      assert s[1..] == Show(v.offset);
    } else {
      assert s == Show(v.offset);
      assert s[0] != 'A';
    }
  }

  /** A text read as a variable in destination position is exactly that variable's destination encoding. */
  lemma DestOfReadDest(s: string, v: Variable)
    requires ReadDest(s) == Some(v)
    ensures Dest(v) == s
  {
    if |s| >= 1 && s[0] == 'A' {
      ShowRead(s[1..], v.offset);
      assert s == [s[0]] + s[1..];
    } else {
      ShowRead(s, v.offset);
    }
  }

  /** Distinct variables get distinct encodings in both positions. */
  lemma EncodingsInjective(a: Variable, b: Variable)
    ensures SourceText(a) == SourceText(b) ==> a == b
    ensures Dest(a) == Dest(b) ==> a == b
  {
    ReadSourceOfSource(Var(a));
    ReadSourceOfSource(Var(b));
    ReadDestOfDest(a);
    ReadDestOfDest(b);
  }

  /**
    The two encodings are not interchangeable: the destination text of a
    pointer reads, in source position, as the direct variable at the same
    offset, and the destination text of a direct variable reads as a literal.
   */
  lemma ModeAsymmetry(v: Variable)
    ensures ReadSource(Dest(v)) == (if v.isPointer then Var(Variable(v.offset, false)) else Lit(Dest(v)))
    ensures Dest(v) != SourceText(v)
  {
    ReadShow(v.offset);
    var d := Dest(v);
    if v.isPointer {
      assert d[1..] == Show(v.offset);
    } else {
      assert d == Show(v.offset);
      assert d[0] != 'A' && d[0] != 'B';
    }
    assert SourceText(v)[0] == (if v.isPointer then 'B' else 'A');
  }
}
