/**
 * The editable input box of the console (`InterpreterInput` in
 * pyde/interpreter.py) and its auto-indent rule: after a newline is inserted,
 * one space goes in for each leading whitespace character of the previous
 * line (a tab becomes one space), plus four more when that line ends with a
 * colon.
 */
module CodeInput {
  import opened Wrappers
  import opened PyStr

  /** The indentation `insert_text` computes after a newline, from the buffer
      `text` as it is just after the newline went in. The previous line is the
      second-to-last piece of `text.split('\n')`. `None` stands for the
      IndexError that `insert_text` swallows: there is no second-to-last line,
      that line is empty (`[-1]` of it raises), or it ends in whitespace
      (stripping its last character leaves nothing, and `[-1]` raises). */
  function NewlineIndent(text: string): (r: Option<nat>)
    ensures '\n' !in text ==> r == None
    ensures '\n' in text ==>
              var lines := Split(text, '\n'); |lines| >= 2 && r == LineIndent(lines[|lines| - 2])
  {
    SplitSingle(text, '\n');
    var lines := Split(text, '\n');
    if |lines| < 2 then None else LineIndent(lines[|lines| - 2])
  }

  /** The test `previous_line[-1].strip()[-1] == ':'` of `insert_text`, as
      Python evaluates it: `None` where either `[-1]` raises IndexError. */
  function ColonTest(previous: string): Option<bool>
  {
    match PyLast(previous)
    case None => None
    case Some(c) =>
      match PyLast(Strip([c]))
      case None => None
      case Some(d) => Some(d == ':')
  }

  /** The test raises exactly when the line is empty or ends in whitespace;
      otherwise it asks whether the line ends in a colon. */
  lemma ColonTestMeaning(previous: string)
    ensures previous == [] || IsSpace(previous[|previous| - 1]) ==> ColonTest(previous) == None
    ensures previous != [] && !IsSpace(previous[|previous| - 1]) ==>
              ColonTest(previous) == Some(previous[|previous| - 1] == ':')
  {
    if previous != [] {
      StripChar(previous[|previous| - 1]);
    }
  }

  /** The indentation owed to the line after `previous`: its leading
      whitespace, four more when the colon test holds, and `None` when the
      test raises. */
  function LineIndent(previous: string): (r: Option<nat>)
    ensures r == None <==> previous == [] || IsSpace(previous[|previous| - 1])
    ensures r.Some? && previous[|previous| - 1] == ':' ==> r.value == LeadingSpaces(previous) + 4
    ensures r.Some? && previous[|previous| - 1] != ':' ==> r.value == LeadingSpaces(previous)
  {
    ColonTestMeaning(previous);
    match ColonTest(previous)
    case None => None
    case Some(colon) => if colon then Some(LeadingSpaces(previous) + 4) else Some(LeadingSpaces(previous))
  }

  /** How many spaces `insert_text` adds after a newline: the computed
      indentation, or none when the computation raised. */
  function AddedSpaces(text: string): nat
  {
    match NewlineIndent(text)
    case Some(n) => n
    case None => 0
  }

  /** After Enter, the second-to-last line of the buffer is the line the
      cursor was on before. */
  lemma PreviousLine(before: string, p: string)
    requires IsLastPiece(p, before, '\n')
    ensures var lines := Split(before + "\n", '\n'); |lines| >= 2 && lines[|lines| - 2] == p
  {
    var lines := Split(before, '\n');
    assert before + "\n" == before + ['\n'] + "";
    SplitConcat(before, "", '\n');
    LastOfSplit(before, '\n');
    LastPieceUnique(p, lines[|lines| - 1], before, '\n');
  }

  /** The rule stated on the buffer as it was before Enter was pressed: with
      `p` the line the cursor was on, a line ending in a colon gets its
      indentation plus four, a line ending in any other non-whitespace
      character keeps its indentation, and an empty line or one ending in
      whitespace gets no indentation at all. */
  lemma NewlineIndentRule(before: string, p: string)
    requires IsLastPiece(p, before, '\n')
    ensures p == [] ==> NewlineIndent(before + "\n") == None
    ensures p != [] && IsSpace(p[|p| - 1]) ==> NewlineIndent(before + "\n") == None
    ensures p != [] && p[|p| - 1] == ':' ==> NewlineIndent(before + "\n") == Some(LeadingSpaces(p) + 4)
    ensures p != [] && !IsSpace(p[|p| - 1]) && p[|p| - 1] != ':' ==>
              NewlineIndent(before + "\n") == Some(LeadingSpaces(p))
  {
    IndentAfterEnter(before, p);
  }

  /** After Enter, the indentation is the one owed to the cursor's former line. */
  lemma IndentAfterEnter(before: string, p: string)
    requires IsLastPiece(p, before, '\n')
    ensures NewlineIndent(before + "\n") == LineIndent(p)
  {
    var text := before + "\n";
    assert text[|text| - 1] == '\n';
    PreviousLine(before, p);
    var lines := Split(text, '\n');
    assert NewlineIndent(text) == LineIndent(lines[|lines| - 2]);
  }

  /** After a newline and `n` inserted spaces, the cursor's line is exactly
      those spaces, and its leading whitespace is all of it. */
  lemma IndentedLine(before: string, n: nat)
    ensures IsLastPiece(Spaces(n), before + "\n" + Spaces(n), '\n')
    ensures LeadingSpaces(Spaces(n)) == n
  {
  }

  /** Pressing Enter on a line that holds nothing but the indentation the
      previous Enter produced indents the next line by nothing: the
      indentation is lost, because that line is empty or ends in a space. */
  lemma {:induction false} BlankLineGetsNoIndent(before: string, n: nat)
    ensures NewlineIndent(before + "\n" + Spaces(n) + "\n") == None
  {
    IndentedLine(before, n);
    NewlineIndentRule(before + "\n" + Spaces(n), Spaces(n));
  }

  /** The text input box. Text is always inserted at the end of the buffer. */
  class InterpreterInput {
    var text: string

    constructor ()
      ensures text == ""
    {
      text := "";
    }

    /** `InterpreterInput.insert_text`: insert `t`, and when `t` is a lone
        newline insert the computed indentation one space at a time. Each
        space goes through `InsertText` again and, not being a newline, adds
        nothing further. */
    method InsertText(t: string)
      modifies this
      ensures t != "\n" ==> text == old(text) + t
      ensures t == "\n" ==> text == old(text) + "\n" + Spaces(AddedSpaces(old(text) + "\n"))
      decreases if t == "\n" then 1 else 0
    {
      text := text + t;
      if t == "\n" {
        var n := AddedSpaces(text);
        ghost var start := text;
        var i := 0;
        while i < n
          invariant 0 <= i <= n
          invariant text == start + Spaces(i)
        {
          InsertText(" ");
          i := i + 1;
        }
      }
    }
  }
}
