/**
 * The few Python string operations that the auto-indent rule and the
 * re-insertion of previous code rely on: `str.isspace` for one character,
 * `str.split(sep)`, `sep.join`, `str.strip()` and `str.lstrip()`, `s[-1]`,
 * and runs of spaces.
 */
module PyStr {
  import opened Wrappers

  /** The code points for which Python's `str.isspace()` holds, one by one. */
  function PythonWhitespace(): set<int> {
    {
      0x09, 0x0A, 0x0B, 0x0C, 0x0D, 0x1C, 0x1D, 0x1E, 0x1F, 0x20, 0x85, 0xA0, 0x1680,
      0x2000, 0x2001, 0x2002, 0x2003, 0x2004, 0x2005, 0x2006, 0x2007, 0x2008, 0x2009, 0x200A,
      0x2028, 0x2029, 0x202F, 0x205F, 0x3000
    }
  }

  /** Python's `str.isspace()` on one character: exactly the characters that
      `strip()` and `lstrip()` remove (tab to carriage return, the file, group,
      record and unit separators, space, NEL, no-break space and the Unicode
      space separators). */
  predicate IsSpace(c: char) {
    var n := c as int;
    (0x09 <= n <= 0x0D) || (0x1C <= n <= 0x20) || n == 0x85 || n == 0xA0 || n == 0x1680
    || (0x2000 <= n <= 0x200A) || n == 0x2028 || n == 0x2029 || n == 0x202F
    || n == 0x205F || n == 0x3000
  }

  /** `IsSpace` holds of exactly the code points Python lists as whitespace. */
  lemma IsSpaceIsPythonWhitespace(c: char)
    ensures IsSpace(c) <==> c as int in PythonWhitespace()
  {
  }

  /** Python's `s.split(sep)` for a single-character separator: the pieces of `s`
      between separators, always at least one. */
  function Split(s: string, sep: char): (r: seq<string>)
    ensures |r| >= 1
    decreases |s|
  {
    if s == [] then [""]
    else
      var rest := Split(s[1..], sep);
      if s[0] == sep then [""] + rest
      else [[s[0]] + rest[0]] + rest[1..]
  }

  /** A string without the separator is its own single piece; a string with
      one splits into at least two pieces. */
  lemma {:induction false} SplitSingle(s: string, sep: char)
    ensures sep !in s ==> Split(s, sep) == [s]
    ensures sep in s ==> |Split(s, sep)| >= 2
    decreases |s|
  {
    if s != [] {
      SplitSingle(s[1..], sep);
      assert s == [s[0]] + s[1..];
    }
  }

  /** No piece of a split holds the separator. */
  lemma {:induction false} SplitPiecesFree(s: string, sep: char)
    ensures forall i :: 0 <= i < |Split(s, sep)| ==> sep !in Split(s, sep)[i]
    decreases |s|
  {
    if s != [] {
      SplitPiecesFree(s[1..], sep);
    }
  }

  /** Python's `sep.join(parts)`. */
  function Join(parts: seq<string>, sep: char): string
  {
    if |parts| == 0 then ""
    else if |parts| == 1 then parts[0]
    else parts[0] + [sep] + Join(parts[1..], sep)
  }

  /** Joining the pieces of a split gives back the original string. */
  lemma {:induction false} JoinSplit(s: string, sep: char)
    ensures Join(Split(s, sep), sep) == s
    decreases |s|
  {
    if s != [] {
      var c, t := s[0], s[1..];
      var rest := Split(t, sep);
      var parts := Split(s, sep);
      JoinSplit(t, sep);
      assert s == [c] + t;
      if c == sep {
        assert parts[1..] == rest;
      } else if |rest| >= 2 {
        assert parts[1..] == rest[1..];
      }
    }
  }

  /** Splitting at a separator placed between two strings splits each of them
      on its own: the pieces of `a` come first, then the pieces of `b`. */
  lemma {:induction false} SplitConcat(a: string, b: string, sep: char)
    ensures Split(a + [sep] + b, sep) == Split(a, sep) + Split(b, sep)
  {
    SplitJoined(a, b, sep, a + [sep] + b);
  }

  /** `SplitConcat` for a string `s` that is known to be `a + [sep] + b`. */
  lemma {:induction false} SplitJoined(a: string, b: string, sep: char, s: string)
    requires s == a + [sep] + b
    ensures Split(s, sep) == Split(a, sep) + Split(b, sep)
    decreases |a|
  {
    if a == [] {
      assert s == [sep] + b;
      SplitCons(sep, b, sep);
    } else {
      var c, t := a[0], a[1..];
      var u := t + [sep] + b;
      assert a == [c] + t && s == [c] + u;
      SplitJoined(t, b, sep, u);
      SplitConsStep(c, t, u, Split(b, sep), sep);
    }
  }

  /** Putting the same character in front of two strings keeps a common tail
      of their pieces. */
  lemma SplitConsStep(c: char, t: string, u: string, tail: seq<string>, sep: char)
    requires Split(u, sep) == Split(t, sep) + tail
    ensures Split([c] + u, sep) == Split([c] + t, sep) + tail
  {
    SplitCons(c, u, sep);
    SplitCons(c, t, sep);
    if c != sep {
      ExtendFirst([c], Split(t, sep), tail);
    }
  }

  /** Splitting `[c] + t`: a separator opens an empty first piece, any other
      character joins the first piece of `t`. */
  lemma SplitCons(c: char, t: string, sep: char)
    ensures Split([c] + t, sep) ==
              if c == sep then [""] + Split(t, sep)
              else [[c] + Split(t, sep)[0]] + Split(t, sep)[1..]
  {
    assert ([c] + t)[1..] == t;
  }

  /** Prefixing the first of several pieces commutes with appending more pieces. */
  lemma ExtendFirst(x: string, p: seq<string>, q: seq<string>)
    requires |p| >= 1
    ensures [x + (p + q)[0]] + (p + q)[1..] == ([x + p[0]] + p[1..]) + q
  {
    assert (p + q)[0] == p[0] && (p + q)[1..] == p[1..] + q;
  }

  /** Splitting a join of separator-free pieces gives back the pieces. */
  lemma {:induction false} SplitJoin(parts: seq<string>, sep: char)
    requires |parts| >= 1
    requires forall i :: 0 <= i < |parts| ==> sep !in parts[i]
    ensures Split(Join(parts, sep), sep) == parts
    decreases |parts|
  {
    var first, others := parts[0], parts[1..];
    assert sep !in first;
    SplitSingle(first, sep);
    if |parts| >= 2 {
      assert forall i :: 0 <= i < |others| ==> sep !in others[i] by {
        forall i | 0 <= i < |others| ensures sep !in others[i] {
          assert others[i] == parts[i + 1];
        }
      }
      SplitJoin(others, sep);
      SplitConcat(first, Join(others, sep), sep);
      assert Join(parts, sep) == first + [sep] + Join(others, sep);
      assert [first] + others == parts;
    }
  }

  /** `p` is the last piece of `s` when split at `sep`: the longest suffix of
      `s` free of the separator. */
  predicate IsLastPiece(p: string, s: string, sep: char) {
    |p| <= |s| && p == s[|s| - |p|..] && sep !in p
    && (|p| == |s| || s[|s| - |p| - 1] == sep)
  }

  /** The last element of `Split(s, sep)` is the last piece of `s`. */
  lemma {:induction false} LastOfSplit(s: string, sep: char)
    ensures IsLastPiece(Split(s, sep)[|Split(s, sep)| - 1], s, sep)
    decreases |s|
  {
    if s != [] {
      var rest := Split(s[1..], sep);
      LastOfSplit(s[1..], sep);
      SplitSingle(s[1..], sep);
      var q := rest[|rest| - 1];
      var r := Split(s, sep);
      if s[0] == sep || |rest| >= 2 {
        assert r[|r| - 1] == q;
        if |q| == |s| - 1 {
          assert q == s[1..];
          assert s[0] == sep;
        }
      } else {
        assert q == s[1..];
        assert r[|r| - 1] == s;
      }
    }
  }

  /** A string has only one last piece. */
  lemma LastPieceUnique(p: string, q: string, s: string, sep: char)
    requires IsLastPiece(p, s, sep) && IsLastPiece(q, s, sep)
    ensures p == q
  {
  }

  /** Python's `s.lstrip()`: `s` without its leading whitespace. */
  function LStrip(s: string): (r: string)
    ensures |r| <= |s| && r == s[|s| - |r|..]
    ensures r == [] || !IsSpace(r[0])
    ensures forall i :: 0 <= i < |s| - |r| ==> IsSpace(s[i])
    decreases |s|
  {
    if s != [] && IsSpace(s[0]) then LStrip(s[1..]) else s
  }

  /** Python's `s.rstrip()`: `s` without its trailing whitespace. */
  function RStrip(s: string): (r: string)
    ensures |r| <= |s| && r == s[..|r|]
    ensures r == [] || !IsSpace(r[|r| - 1])
    ensures forall i :: |r| <= i < |s| ==> IsSpace(s[i])
    decreases |s|
  {
    if s != [] && IsSpace(s[|s| - 1]) then RStrip(s[..|s| - 1]) else s
  }

  /** Python's `s.strip()`: whitespace removed from both ends. */
  function Strip(s: string): string
  {
    RStrip(LStrip(s))
  }

  /** Stripping a single character leaves nothing when it is whitespace and
      leaves it alone otherwise. */
  lemma StripChar(c: char)
    ensures Strip([c]) == if IsSpace(c) then [] else [c]
  {
    assert [c][1..] == [] && [c][..0] == [];
  }

  /** Python's `s[-1]`: the last character, or `None` for the IndexError
      an empty string raises. */
  function PyLast(s: string): Option<char>
  {
    if s == [] then None else Some(s[|s| - 1])
  }

  /** `len(line) - len(line.lstrip())`: the length of the run of whitespace
      that opens `line`. */
  function LeadingSpaces(line: string): (n: nat)
    ensures n <= |line|
    ensures forall i :: 0 <= i < n ==> IsSpace(line[i])
    ensures n < |line| ==> !IsSpace(line[n])
  {
    |line| - |LStrip(line)|
  }

  /** A run of `n` spaces. */
  function Spaces(n: nat): (r: string)
    ensures |r| == n
    ensures forall i :: 0 <= i < n ==> r[i] == ' '
  {
    if n == 0 then "" else Spaces(n - 1) + " "
  }
}
