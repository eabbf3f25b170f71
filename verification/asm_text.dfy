/**
  A reader for the line grammar the emitter writes, defined here: a line is
  either a label marker (`#Start X` / `#End X`) or a mnemonic followed by
  space-separated operands and an optional `; comment`. The text after `;`
  (the `+2` of the return-address push, the callee of a jump, the target
  label of a branch) is kept as the comment.
 */
module AsmText {
  import opened Wrappers

  datatype Line =
    | Marker(start: bool, name: string)
    | Op(mnemonic: string, operands: seq<string>, comment: Option<string>)

  /** A single operand or mnemonic token. */
  predicate IsWord(w: string) {
    |w| >= 1 && ' ' !in w && ';' !in w
  }

  /** The first position of `c` in `s`. */
  function Find(s: string, c: char): (r: Option<nat>)
    ensures r.None? ==> c !in s
    ensures r.Some? ==> r.value < |s| && s[r.value] == c && c !in s[..r.value]
    decreases |s|
  {
    if s == [] then None
    else if s[0] == c then Some(0)
    else
      match Find(s[1..], c)
      case None => None
      case Some(i) => assert s[..i + 1] == [s[0]] + s[1..][..i]; Some(i + 1)
  }

  /** Cuts `s` at every `c`. */
  function Split(s: string, c: char): (ws: seq<string>)
    ensures |ws| >= 1
    decreases |s|
  {
    match Find(s, c)
    case None => [s]
    case Some(i) => [s[..i]] + Split(s[i + 1..], c)
  }

  /** Glues `ws` with `c` between neighbours. */
  function Join(ws: seq<string>, c: char): string
    requires |ws| >= 1
  {
    if |ws| == 1 then ws[0] else ws[0] + [c] + Join(ws[1..], c)
  }

  function DropSpace(s: string): string {
    if |s| >= 1 && s[0] == ' ' then s[1..] else s
  }

  /** How one line of emitted text is read under this grammar. */
  function ReadLine(s: string): Option<Line> {
    if |s| >= 7 && s[..7] == "#Start " then Some(Marker(true, s[7..]))
    else if |s| >= 5 && s[..5] == "#End " then Some(Marker(false, s[5..]))
    else
      var semi := Find(s, ';');
      var body := if semi.Some? then s[..semi.value] else s;
      var comment := if semi.Some? then Some(DropSpace(s[semi.value + 1..])) else None;
      var words := Split(body, ' ');
      if forall k :: 0 <= k < |words| ==> IsWord(words[k]) then Some(Op(words[0], words[1..], comment))
      else None
  }

  /** The jump target a branch comment such as `End if_3` names. */
  function Target(comment: string): Option<Line> {
    if |comment| >= 6 && comment[..6] == "Start " then Some(Marker(true, comment[6..]))
    else if |comment| >= 4 && comment[..4] == "End " then Some(Marker(false, comment[4..]))
    else None
  }

  /** An instruction line written out: words joined by spaces, then `; comment` if any. */
  function Text(words: seq<string>, comment: Option<string>): string
    requires |words| >= 1
  {
    Join(words, ' ') + (if comment.Some? then "; " + comment.value else "")
  }

  lemma FindFirst(a: string, c: char, b: string)
    requires c !in a
    ensures Find(a + [c] + b, c) == Some(|a|)
  {
    var s := a + [c] + b;
    assert s[|a|] == c;
  }

  lemma {:induction false} JoinFacts(ws: seq<string>, c: char, d: char)
    requires |ws| >= 1 && |ws[0]| >= 1
    requires forall k :: 0 <= k < |ws| ==> d !in ws[k]
    requires c != d
    ensures d !in Join(ws, c)
    ensures Join(ws, c)[0] == ws[0][0]
    decreases |ws|
  {
    if |ws| > 1 {
      if |ws[1]| >= 1 {
        JoinFacts(ws[1..], c, d);
      } else {
        JoinNoChar(ws[1..], c, d);
      }
    }
  }

  lemma {:induction false} JoinNoChar(ws: seq<string>, c: char, d: char)
    requires |ws| >= 1
    requires forall k :: 0 <= k < |ws| ==> d !in ws[k]
    requires c != d
    ensures d !in Join(ws, c)
    decreases |ws|
  {
    if |ws| > 1 {
      JoinNoChar(ws[1..], c, d);
    }
  }

  /** Splitting joined words gives the words back. */
  lemma {:induction false} SplitJoin(ws: seq<string>, c: char)
    requires |ws| >= 1
    requires forall k :: 0 <= k < |ws| ==> c !in ws[k]
    ensures Split(Join(ws, c), c) == ws
    decreases |ws|
  {
    if |ws| > 1 {
      var rest := Join(ws[1..], c);
      var s := ws[0] + [c] + rest;
      assert Join(ws, c) == s;
      FindFirst(ws[0], c, rest);
      assert s[..|ws[0]|] == ws[0];
      assert s[|ws[0]| + 1..] == rest;
      SplitJoin(ws[1..], c);
      assert ws == [ws[0]] + ws[1..];
    } else {
      assert Find(ws[0], c).None?;
    }
  }

  /** An instruction line is read back as its mnemonic, operands and comment. */
  lemma ReadText(words: seq<string>, comment: Option<string>)
    requires |words| >= 1
    requires forall k :: 0 <= k < |words| ==> IsWord(words[k])
    requires |words[0]| >= 1 && words[0][0] != '#'
    ensures ReadLine(Text(words, comment)) == Some(Op(words[0], words[1..], comment))
  {
    JoinFacts(words, ' ', ';');
    SplitJoin(words, ' ');
    var j := Join(words, ' ');
    if comment.Some? {
      assert Text(words, comment) == j + "; " + comment.value;
      ReadCommented(j, comment.value);
    } else {
      assert Text(words, comment) == j;
      ReadUncommented(j);
    }
  }

  lemma ReadUncommented(j: string)
    requires |j| >= 1 && j[0] != '#' && ';' !in j
    requires forall k :: 0 <= k < |Split(j, ' ')| ==> IsWord(Split(j, ' ')[k])
    ensures ReadLine(j) == Some(Op(Split(j, ' ')[0], Split(j, ' ')[1..], None))
  {
    assert Find(j, ';') == None;
    NotMarker(j);
  }

  lemma ReadCommented(j: string, comment: string)
    requires |j| >= 1 && j[0] != '#' && ';' !in j
    requires forall k :: 0 <= k < |Split(j, ' ')| ==> IsWord(Split(j, ' ')[k])
    ensures ReadLine(j + "; " + comment) == Some(Op(Split(j, ' ')[0], Split(j, ' ')[1..], Some(comment)))
  {
    var s := j + "; " + comment;
    assert s == j + [';'] + (" " + comment);
    FindFirst(j, ';', " " + comment);
    assert Find(s, ';') == Some(|j|);
    assert s[..|j|] == j;
    assert s[|j| + 1..] == " " + comment;
    assert DropSpace(" " + comment) == comment;
    NotMarker(s);
  }

  /** A line that does not open with `#` is not a marker. */
  lemma NotMarker(s: string)
    requires |s| >= 1 && s[0] != '#'
    ensures !(|s| >= 7 && s[..7] == "#Start ") && !(|s| >= 5 && s[..5] == "#End ")
  {
    if |s| >= 7 {
      assert s[..7][0] == s[0];
    }
    if |s| >= 5 {
      assert s[..5][0] == s[0];
    }
  }

  /** A marker line is read back as the marker it writes. */
  lemma ReadMarker(start: bool, name: string)
    ensures ReadLine((if start then "#Start " else "#End ") + name) == Some(Marker(start, name))
  {
    var s := (if start then "#Start " else "#End ") + name;
    if start {
      assert s[..7] == "#Start ";
      assert s[7..] == name;
    } else {
      assert s[1] == 'E';
      assert s[..5] == "#End ";
      assert s[5..] == name;
    }
  }

  /** A branch comment is read back as the marker it names. */
  lemma ReadTarget(start: bool, name: string)
    ensures Target((if start then "Start " else "End ") + name) == Some(Marker(start, name))
  {
    var s := (if start then "Start " else "End ") + name;
    if start {
      assert s[..6] == "Start ";
      assert s[6..] == name;
    } else {
      assert s[0] == 'E';
      assert s[..4] == "End ";
      assert s[4..] == name;
    }
  }

  /**
    Whatever follows it, a line that opens with a word and a space is either
    unreadable or an instruction with that word as mnemonic.
   */
  lemma ReadLeadingWord(w: string, rest: string)
    requires IsWord(w) && w[0] != '#'
    ensures var r := ReadLine(w + " " + rest);
            r.None? || (r.value.Op? && r.value.mnemonic == w)
  {
    var s := w + " " + rest;
    assert s[0] == w[0];
    var semi := Find(s, ';');
    assert s[|w|] == ' ';
    if semi.Some? {
      assert semi.value > |w|;
    }
    var body := if semi.Some? then s[..semi.value] else s;
    assert body == w + [' '] + body[|w| + 1..];
    FindFirst(w, ' ', body[|w| + 1..]);
    assert body[..|w|] == w;
  }
}
