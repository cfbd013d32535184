/**
 * `clean_job_description`: line-based normalisation of a raw job
 * description. Line breaks are unified, every line is stripped, blank lines
 * are dropped, inner whitespace is collapsed, and the survivors are joined
 * with single line breaks.
 */
module Normalizer {
  import opened Strings

  /** A line as the normaliser leaves it: non-empty, no whitespace at either
      end, and its only whitespace single spaces (so it holds no line break). */
  predicate NormalLine(l: string)
  {
    l != [] && !IsSpace(l[0]) && !IsSpace(l[|l| - 1]) && Collapsed(l)
  }

  /** Every line of `ls` is normal. */
  predicate AllNormal(ls: seq<string>)
  {
    forall l :: l in ls ==> NormalLine(l)
  }

  /** Every line break is directly followed by a non-whitespace character:
      the text has no blank (or whitespace-only) line and does not end in a
      line break. */
  predicate NoBlankLine(t: string)
  {
    forall i :: 0 <= i < |t| ==> NoBlankLineAt(t, i)
  }

  predicate NoBlankLineAt(t: string, i: int)
    requires 0 <= i < |t|
  {
    t[i] == '\n' ==> i + 1 < |t| && !IsSpace(t[i + 1])
  }

  lemma NormalLineHasNoBreak(l: string)
    requires NormalLine(l)
    ensures '\n' !in l && '\r' !in l
  {
    forall i | 0 <= i < |l|
      ensures l[i] != '\n' && l[i] != '\r'
    {
      assert CollapsedAt(l, i);
    }
  }

  // ---------------------------------------------------------------------
  // The steps of the normaliser

  lemma AbsentHead(s: string, pat: string)
    requires pat != [] && pat[0] !in s
    ensures !Contains(s, pat)
  {
    ContainsAt(s, pat);
  }

  /** `text.replace('\r\n', '\n').replace('\r', '\n')`: no carriage return is
      left, and a text without one is unchanged. */
  function NormalizeBreaks(s: string): (r: string)
    ensures '\r' !in r
    ensures '\r' !in s ==> r == s
  {
    var once := ReplaceAll(s, "\r\n", "\n");
    ReplaceRemovesChar(once, '\r', "\n");
    if '\r' !in s then
      AbsentHead(s, "\r\n");
      ReplaceAbsent(s, "\r\n", "\n");
      AbsentHead(s, "\r");
      ReplaceAbsent(s, "\r", "\n");
      ReplaceAll(once, "\r", "\n")
    else
      ReplaceAll(once, "\r", "\n")
  }

  /** What the loop keeps of one line: nothing when it is blank, otherwise the
      stripped line with its inner whitespace runs collapsed to one space. */
  function KeptLine(line: string): (r: seq<string>)
    ensures |r| <= 1
    ensures r == [] <==> AllSpace(line)
    ensures AllNormal(r)
  {
    StripEmpty(line);
    var l := Strip(line);
    if l == [] then []
    else
      CollapseWsCollapsed(l);
      CollapseWsLast(l);
      [CollapseWs(l)]
  }

  /** The lines the loop collects, in order: a normal line for every
      non-blank input line. */
  function CleanLines(lines: seq<string>): (r: seq<string>)
    ensures AllNormal(r)
    ensures |r| <= |lines|
  {
    if lines == [] then []
    else CleanLines(lines[..|lines| - 1]) + KeptLine(lines[|lines| - 1])
  }

  /** The maximal whitespace prefix of `t` has length `n`. */
  function SpaceRun(t: string): (n: nat)
    ensures n <= |t|
    ensures forall i :: 0 <= i < n ==> IsSpace(t[i])
    ensures n < |t| ==> !IsSpace(t[n])
    decreases |t|
  {
    if t != [] && IsSpace(t[0]) then 1 + SpaceRun(t[1..]) else 0
  }

  function CountChar(s: string, c: char): (n: nat)
    ensures c !in s ==> n == 0
  {
    if s == [] then 0 else (if s[0] == c then 1 else 0) + CountChar(s[1..], c)
  }

  function LastIndexOf(s: string, c: char): (i: nat)
    requires c in s
    ensures i < |s| && s[i] == c
    ensures forall j :: i < j < |s| ==> s[j] != c
  {
    if s[|s| - 1] == c then |s| - 1
    else
      assert c in s[..|s| - 1] by {
        var k :| 0 <= k < |s| && s[k] == c;
        assert s[..|s| - 1][k] == c;
      }
      LastIndexOf(s[..|s| - 1], c)
  }

  /** `re.sub(r'\n\s*\n\s*\n+', '\n\n', t)`. Every character the pattern
      matches is whitespace and the first is a line break, so a match starting
      at a line break lies inside the whitespace run that starts there; one
      exists exactly when that run holds at least three line breaks, and,
      every quantifier being greedy, it ends at the run's last line break.
      The search then resumes after the match. */
  function SubBlankRuns(t: string): string
    decreases |t|
  {
    if t == [] then []
    else
      var run := t[..SpaceRun(t)];
      if t[0] == '\n' && CountChar(run, '\n') >= 3 then
        "\n\n" + SubBlankRuns(t[LastIndexOf(run, '\n') + 1..])
      else [t[0]] + SubBlankRuns(t[1..])
  }

  /** The normaliser as a function of its input. */
  function Clean(description: string): string
  {
    if description == [] then []
    else Strip(SubBlankRuns(JoinedLines(description)))
  }

  /** The text after the line loop and the join, before the final cleanup. */
  function JoinedLines(description: string): string
  {
    Join(CleanLines(Split(NormalizeBreaks(description), '\n')), "\n")
  }

  // ---------------------------------------------------------------------
  // The normaliser as the source writes it

  /** `clean_job_description`, loop for loop. The result has no carriage
      return, no whitespace at either end, no blank line, and each of its
      lines is a normal line. */
  method CleanJobDescription(description: string) returns (cleaned: string)
    ensures cleaned == Clean(description)
    ensures description == [] ==> cleaned == []
    ensures '\r' !in cleaned
    ensures Trimmed(cleaned)
    ensures NoBlankLine(cleaned)
    ensures cleaned != [] ==> AllNormal(Split(cleaned, '\n'))
  {
    if description == [] {
      return [];
    }
    var text := ReplaceAll(ReplaceAll(description, "\r\n", "\n"), "\r", "\n");
    var lines := Split(text, '\n');
    var cleanedLines: seq<string> := [];
    for i := 0 to |lines|
      invariant cleanedLines == CleanLines(lines[..i])
    {
      assert lines[..i + 1][..i] == lines[..i];
      assert CleanLines(lines[..i + 1]) == CleanLines(lines[..i]) + KeptLine(lines[i]);
      var line := Strip(lines[i]);
      if line != [] {
        line := CollapseWs(line);
        assert KeptLine(lines[i]) == [line];
        cleanedLines := cleanedLines + [line];
      } else {
        assert KeptLine(lines[i]) == [];
      }
    }
    assert lines[..|lines|] == lines;
    assert text == NormalizeBreaks(description);
    var cleanedText := Join(cleanedLines, "\n");
    assert cleanedText == JoinedLines(description);
    FinalCleanupNoOp(description);
    cleanedText := SubBlankRuns(cleanedText);
    cleaned := Strip(cleanedText);
    assert cleaned == Clean(description);
    LinesOfClean(description);
  }

  // ---------------------------------------------------------------------
  // Properties

  /** A join of normal lines starts with the first line's first character,
      ends with a non-space, and has neither a blank line nor a carriage
      return. */
  lemma {:induction false} JoinedNormalLines(ls: seq<string>)
    requires |ls| >= 1
    requires AllNormal(ls)
    ensures Join(ls, "\n") != [] && !IsSpace(Join(ls, "\n")[0])
    ensures !IsSpace(Join(ls, "\n")[|Join(ls, "\n")| - 1])
    ensures NoBlankLine(Join(ls, "\n"))
    ensures '\r' !in Join(ls, "\n")
  {
    NormalLineHasNoBreak(ls[0]);
    if |ls| > 1 {
      var rest := Join(ls[1..], "\n");
      JoinedNormalLines(ls[1..]);
      var t := Join(ls, "\n");
      assert t == ls[0] + "\n" + rest;
      forall i | 0 <= i < |t|
        ensures NoBlankLineAt(t, i)
      {
        if i < |ls[0]| {
          assert t[i] == ls[0][i];
        } else if i > |ls[0]| {
          assert NoBlankLineAt(rest, i - |ls[0]| - 1);
          assert t[i] == rest[i - |ls[0]| - 1];
          assert i + 1 < |t| ==> t[i + 1] == rest[i - |ls[0]|];
        } else {
          assert t[i + 1] == rest[0];
        }
      }
    } else {
      forall i | 0 <= i < |ls[0]|
        ensures NoBlankLineAt(ls[0], i)
      {
      }
    }
  }

  /** Once a line break is followed by a non-space everywhere, the pattern of
      line 40 cannot match anywhere. */
  lemma {:induction false} SubBlankRunsNoOp(t: string)
    requires NoBlankLine(t)
    ensures SubBlankRuns(t) == t
    decreases |t|
  {
    if t != [] {
      if t[0] == '\n' {
        assert NoBlankLineAt(t, 0);
        assert SpaceRun(t) == 1 by {
          assert t[1..] != [] && !IsSpace(t[1..][0]);
        }
        assert t[..1] == "\n";
        assert CountChar(t[..1], '\n') == 1;
      }
      assert NoBlankLine(t[1..]) by {
        forall i | 0 <= i < |t[1..]|
          ensures NoBlankLineAt(t[1..], i)
        {
          assert NoBlankLineAt(t, i + 1);
        }
      }
      SubBlankRunsNoOp(t[1..]);
      assert [t[0]] + t[1..] == t;
    }
  }

  /** The final cleanup (the regex of line 40 and the closing strip) never
      changes the joined lines. */
  lemma FinalCleanupNoOp(description: string)
    ensures SubBlankRuns(JoinedLines(description)) == JoinedLines(description)
    ensures Strip(JoinedLines(description)) == JoinedLines(description)
    ensures description != [] ==> Clean(description) == JoinedLines(description)
  {
    var ls := CleanLines(Split(NormalizeBreaks(description), '\n'));
    if ls != [] {
      JoinedNormalLines(ls);
      SubBlankRunsNoOp(JoinedLines(description));
    }
  }

  /** The normalised text's shape: it is the join of its normal lines, so each
      of its lines is normal, and it holds no carriage return. */
  lemma LinesOfClean(description: string)
    ensures var c := Clean(description);
      && '\r' !in c
      && NoBlankLine(c)
      && Trimmed(c)
      && (c != [] ==> Split(c, '\n') == CleanLines(Split(NormalizeBreaks(description), '\n')))
      && (c != [] ==> AllNormal(Split(c, '\n')))
  {
    FinalCleanupNoOp(description);
    var ls := CleanLines(Split(NormalizeBreaks(description), '\n'));
    var c := Clean(description);
    if description != [] && ls != [] {
      assert c == Join(ls, "\n");
      JoinedNormalLines(ls);
      NormalLinesHaveNoBreak(ls);
      SplitJoin(ls, '\n');
      assert Split(c, '\n') == ls;
    } else if description != [] {
      assert c == [];
    }
  }

  /** No normal line holds a line break. */
  lemma NormalLinesHaveNoBreak(ls: seq<string>)
    requires AllNormal(ls)
    ensures forall i :: 0 <= i < |ls| ==> '\n' !in ls[i]
  {
    forall i | 0 <= i < |ls|
      ensures '\n' !in ls[i]
    {
      NormalLineHasNoBreak(ls[i]);
    }
  }

  /** Normal lines survive the line loop unchanged. */
  lemma {:induction false} CleanLinesFixed(ls: seq<string>)
    requires AllNormal(ls)
    ensures CleanLines(ls) == ls
  {
    if ls != [] {
      var init, l := ls[..|ls| - 1], ls[|ls| - 1];
      assert init + [l] == ls;
      CleanLinesFixed(init);
      KeptNormalLine(l);
      assert CleanLines(ls) == CleanLines(init) + KeptLine(l);
      assert CleanLines(ls) == init + [l];
    }
  }

  /** The loop keeps a normal line as it is. */
  lemma KeptNormalLine(l: string)
    requires NormalLine(l)
    ensures KeptLine(l) == [l]
  {
    CollapsedFixed(l);
    assert Strip(l) == l;
  }

  /** Normalising twice is normalising once. */
  lemma CleanIdempotent(description: string)
    ensures Clean(Clean(description)) == Clean(description)
  {
    var c := Clean(description);
    if c != [] {
      LinesOfClean(description);
      var ls := Split(c, '\n');
      CleanLinesFixed(ls);
      FinalCleanupNoOp(c);
      assert JoinedLines(c) == Join(ls, "\n");
      FinalCleanupNoOp(description);
      SplitJoinBack(description);
    }
  }

  /** The normalised text is the join of its own lines. */
  lemma SplitJoinBack(description: string)
    requires Clean(description) != []
    ensures Join(Split(Clean(description), '\n'), "\n") == Clean(description)
  {
    LinesOfClean(description);
    FinalCleanupNoOp(description);
  }

  /** A description made only of whitespace normalises to the empty text. */
  lemma {:induction false} BlankDescription(description: string)
    requires AllSpace(description)
    ensures Clean(description) == []
  {
    if description != [] {
      var text := NormalizeBreaks(description);
      assert AllSpace(text) by {
        NormalizeBreaksSpaces(description);
      }
      SplitSpaces(text);
      BlankLinesDropped(Split(text, '\n'));
      FinalCleanupNoOp(description);
    }
  }

  lemma {:induction false} ReplaceSpaces(s: string, pat: string, rep: string)
    requires pat != [] && AllSpace(s) && AllSpace(rep)
    ensures AllSpace(ReplaceAll(s, pat, rep))
    decreases |s|
  {
    if s != [] {
      var r := ReplaceAll(s, pat, rep);
      if pat <= s {
        var tail := ReplaceAll(s[|pat|..], pat, rep);
        ReplaceSpaces(s[|pat|..], pat, rep);
        assert r == rep + tail;
        forall i | 0 <= i < |r| ensures IsSpace(r[i]) {
          if i >= |rep| {
            assert r[i] == tail[i - |rep|];
          } else {
            assert r[i] == rep[i];
          }
        }
      } else {
        var tail := ReplaceAll(s[1..], pat, rep);
        ReplaceSpaces(s[1..], pat, rep);
        assert r == [s[0]] + tail;
        forall i | 0 <= i < |r| ensures IsSpace(r[i]) {
          if i >= 1 {
            assert r[i] == tail[i - 1];
          }
        }
      }
    }
  }

  lemma NormalizeBreaksSpaces(s: string)
    requires AllSpace(s)
    ensures AllSpace(NormalizeBreaks(s))
  {
    assert AllSpace("\n") by {
      assert IsSpace("\n"[0]);
    }
    ReplaceSpaces(s, "\r\n", "\n");
    ReplaceSpaces(ReplaceAll(s, "\r\n", "\n"), "\r", "\n");
  }

  lemma {:induction false} SplitSpaces(s: string)
    requires AllSpace(s)
    ensures forall k :: 0 <= k < |Split(s, '\n')| ==> AllSpace(Split(s, '\n')[k])
    decreases |s|
  {
    if s != [] {
      SplitSpaces(s[1..]);
    }
  }

  lemma {:induction false} BlankLinesDropped(ls: seq<string>)
    requires forall k :: 0 <= k < |ls| ==> AllSpace(ls[k])
    ensures CleanLines(ls) == []
  {
    if ls != [] {
      BlankLinesDropped(ls[..|ls| - 1]);
      assert KeptLine(ls[|ls| - 1]) == [];
    }
  }
}
