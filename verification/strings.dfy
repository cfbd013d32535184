/**
 * The parts of Python's `str` and `re` behaviour that the job-description
 * pipeline relies on, written as functions on `seq<char>`.
 *
 * Character classes are fixed: whitespace is the set `str.isspace()` accepts
 * (which is also what `\s` matches in a `re` pattern over `str`), digits are
 * the ASCII digits, and lower-casing maps only the ASCII capitals.
 */
module Strings {

  /** `str.isspace()` for one character, and the `\s` class of `re`. */
  predicate IsSpace(c: char)
  {
    var n := c as int;
    (9 <= n <= 13) || (28 <= n <= 32) || n == 0x85 || n == 0xA0 || n == 0x1680
    || (0x2000 <= n <= 0x200A) || n == 0x2028 || n == 0x2029 || n == 0x202F
    || n == 0x205F || n == 0x3000
  }

  /** The `\d` class, restricted to ASCII. */
  predicate IsDigit(c: char)
  {
    '0' <= c <= '9'
  }

  predicate AllSpace(s: string)
  {
    forall i :: 0 <= i < |s| ==> IsSpace(s[i])
  }

  predicate AllDigits(s: string)
  {
    forall i :: 0 <= i < |s| ==> IsDigit(s[i])
  }

  function LowerChar(c: char): char
  {
    if 'A' <= c <= 'Z' then (c as int + 32) as char else c
  }

  /** `s.lower()` on the ASCII letters. */
  function Lower(s: string): string
  {
    seq(|s|, i requires 0 <= i < |s| => LowerChar(s[i]))
  }

  // ---------------------------------------------------------------------
  // strip()

  /** The number of whitespace characters `s` starts with. */
  function LeadingSpaces(s: string): (k: nat)
    ensures k <= |s| && AllSpace(s[..k])
    ensures k < |s| ==> !IsSpace(s[k])
    decreases |s|
  {
    if s != [] && IsSpace(s[0]) then
      var k := LeadingSpaces(s[1..]);
      assert s[..k + 1] == [s[0]] + s[1..][..k];
      k + 1
    else 0
  }

  /** `s.lstrip()`: drops the leading whitespace and nothing else. */
  function StripLeft(s: string): (r: string)
    ensures |r| <= |s| && r == s[|s| - |r|..]
    ensures AllSpace(s[..|s| - |r|])
    ensures r == [] || !IsSpace(r[0])
    ensures s != [] && IsSpace(s[0]) ==> |r| < |s|
  {
    s[LeadingSpaces(s)..]
  }

  /** `s.rstrip()`: drops the trailing whitespace and nothing else. */
  function StripRight(s: string): (r: string)
    ensures |r| <= |s| && r == s[..|r|]
    ensures AllSpace(s[|r|..])
    ensures r == [] || !IsSpace(r[|r| - 1])
    decreases |s|
  {
    if s != [] && IsSpace(s[|s| - 1]) then
      var r := StripRight(s[..|s| - 1]);
      assert s[..|s| - 1][..|r|] == s[..|r|];
      assert s[|r|..] == s[..|s| - 1][|r|..] + [s[|s| - 1]];
      r
    else s
  }

  /** Neither end of `s` is whitespace (`s.strip() == s`). */
  predicate Trimmed(s: string)
  {
    s == [] || (!IsSpace(s[0]) && !IsSpace(s[|s| - 1]))
  }

  /** `s.strip()`: the result neither starts nor ends with whitespace, and a
      string that already does neither is left as it is. */
  function Strip(s: string): (r: string)
    ensures Trimmed(r)
    ensures Trimmed(s) ==> r == s
  {
    StripRight(StripLeft(s))
  }

  /** Stripping leaves nothing exactly when the text is all whitespace. */
  lemma StripEmpty(s: string)
    ensures Strip(s) == [] <==> AllSpace(s)
  {
    var l := StripLeft(s);
    assert l != [] ==> l[0] == s[|s| - |l|];
    assert l[0..] == l;
    if Strip(s) == [] {
      assert l == [];
      assert s[..|s|] == s;
    }
  }

  /** Stripping a trimmed, non-empty text followed by a line break gives the
      text back. */
  lemma StripTrailingBreak(s: string)
    requires s != [] && Trimmed(s)
    ensures Strip(s + "\n") == s
  {
    var t := s + "\n";
    assert StripLeft(t) == t;
    assert t[..|t| - 1] == s;
    assert StripRight(t) == StripRight(s);
  }

  // ---------------------------------------------------------------------
  // `pat in text`

  /** Python's `pat in text`. */
  predicate Contains(text: string, pat: string)
    decreases |text|
  {
    pat <= text || (text != [] && Contains(text[1..], pat))
  }

  /** `pat` occurs in `text` starting at index `i`. */
  predicate OccursAt(text: string, pat: string, i: int)
  {
    0 <= i && i + |pat| <= |text| && text[i..i + |pat|] == pat
  }

  /** Containment is occurrence at some index. */
  lemma {:induction false} ContainsAt(text: string, pat: string)
    ensures Contains(text, pat) <==> exists i :: OccursAt(text, pat, i)
    decreases |text|
  {
    if text == [] {
      if Contains(text, pat) {
        assert OccursAt(text, pat, 0);
      }
    } else {
      ContainsAt(text[1..], pat);
      if Contains(text, pat) {
        if pat <= text {
          assert OccursAt(text, pat, 0);
        } else {
          var i :| OccursAt(text[1..], pat, i);
          assert text[1..][i..i + |pat|] == text[i + 1..i + 1 + |pat|];
          assert OccursAt(text, pat, i + 1);
        }
      }
      if exists i :: OccursAt(text, pat, i) {
        var i :| OccursAt(text, pat, i);
        if i == 0 {
          assert pat <= text;
        } else {
          assert text[1..][i - 1..i - 1 + |pat|] == text[i..i + |pat|];
          assert OccursAt(text[1..], pat, i - 1);
        }
      }
    }
  }

  /** Containment is transitive: a text holding `outer` holds every part of it. */
  lemma ContainsTransitive(text: string, outer: string, inner: string)
    requires Contains(text, outer) && Contains(outer, inner)
    ensures Contains(text, inner)
  {
    ContainsAt(text, outer);
    ContainsAt(outer, inner);
    var i :| OccursAt(text, outer, i);
    var j :| OccursAt(outer, inner, j);
    forall k | 0 <= k < |inner|
      ensures text[i + j + k] == inner[k]
    {
      assert inner[k] == outer[j..j + |inner|][k] == outer[j + k];
      assert outer[j + k] == text[i..i + |outer|][j + k] == text[i + j + k];
    }
    assert text[i + j..i + j + |inner|] == inner;
    assert OccursAt(text, inner, i + j);
    ContainsAt(text, inner);
  }

  /** A text holds each of the pieces it is made of. */
  lemma ContainsPart(text: string, a: string, b: string, c: string)
    requires text == a + b + c
    ensures Contains(text, b)
  {
    assert text[|a|..|a| + |b|] == b;
    assert OccursAt(text, b, |a|);
    ContainsAt(text, b);
  }

  /** A text holds the first of two parts it is made of. */
  lemma ContainsLeft(text: string, a: string, b: string)
    requires text == a + b
    ensures Contains(text, a)
  {
    assert text == [] + a + b;
    ContainsPart(text, [], a, b);
  }

  /** A text holds the second of two parts it is made of. */
  lemma ContainsRight(text: string, a: string, b: string)
    requires text == a + b
    ensures Contains(text, b)
  {
    assert text == a + b + [];
    ContainsPart(text, a, b, []);
  }

  // ---------------------------------------------------------------------
  // split(sep) and join

  /** Python's `s.split(sep)` for a one-character separator: always at least
      one piece, and no piece holds the separator. */
  function Split(s: string, sep: char): (r: seq<string>)
    ensures |r| >= 1
    ensures forall i :: 0 <= i < |r| ==> sep !in r[i]
    decreases |s|
  {
    if s == [] then [[]]
    else
      var rest := Split(s[1..], sep);
      if s[0] == sep then [[]] + rest
      else [[s[0]] + rest[0]] + rest[1..]
  }

  /** Python's `sep.join(parts)`. */
  function Join(parts: seq<string>, sep: string): string
  {
    if parts == [] then []
    else if |parts| == 1 then parts[0]
    else parts[0] + sep + Join(parts[1..], sep)
  }

  lemma {:induction false} SplitNoSeparator(s: string, sep: char)
    requires sep !in s
    ensures Split(s, sep) == [s]
    decreases |s|
  {
    if s != [] {
      SplitNoSeparator(s[1..], sep);
      assert [s[0]] + s[1..] == s;
    }
  }

  lemma {:induction false} SplitAtSeparator(a: string, b: string, sep: char)
    requires sep !in a
    ensures Split(a + [sep] + b, sep) == [a] + Split(b, sep)
    decreases |a|
  {
    var s := a + [sep] + b;
    if a == [] {
      assert s[1..] == b;
    } else {
      assert s[1..] == a[1..] + [sep] + b;
      SplitAtSeparator(a[1..], b, sep);
      assert [a[0]] + a[1..] == a;
    }
  }

  /** Splitting a join on a separator none of the parts holds gives the parts back. */
  lemma {:induction false} SplitJoin(parts: seq<string>, sep: char)
    requires |parts| >= 1
    requires forall i :: 0 <= i < |parts| ==> sep !in parts[i]
    ensures Split(Join(parts, [sep]), sep) == parts
  {
    if |parts| == 1 {
      SplitNoSeparator(parts[0], sep);
    } else {
      SplitJoin(parts[1..], sep);
      SplitAtSeparator(parts[0], Join(parts[1..], [sep]), sep);
      assert [parts[0]] + parts[1..] == parts;
    }
  }

  /** Joining one more part appends the separator and the part. */
  lemma {:induction false} JoinSnoc(parts: seq<string>, x: string, sep: string)
    requires |parts| >= 1
    ensures Join(parts + [x], sep) == Join(parts, sep) + sep + x
  {
    if |parts| == 1 {
      assert parts + [x] == [parts[0], x];
      assert Join([x], sep) == x;
    } else {
      assert (parts + [x])[1..] == parts[1..] + [x];
      JoinSnoc(parts[1..], x, sep);
    }
  }

  // ---------------------------------------------------------------------
  // replace

  /** Python's `s.replace(pat, rep)`: occurrences are replaced left to right
      without overlapping. */
  function ReplaceAll(s: string, pat: string, rep: string): string
    requires pat != []
    decreases |s|
  {
    if s == [] then []
    else if pat <= s then rep + ReplaceAll(s[|pat|..], pat, rep)
    else [s[0]] + ReplaceAll(s[1..], pat, rep)
  }

  /** Replacing a pattern that does not occur changes nothing. */
  lemma {:induction false} ReplaceAbsent(s: string, pat: string, rep: string)
    requires pat != [] && !Contains(s, pat)
    ensures ReplaceAll(s, pat, rep) == s
    decreases |s|
  {
    if s != [] {
      ReplaceAbsent(s[1..], pat, rep);
      assert [s[0]] + s[1..] == s;
    }
  }

  /** A character outside the pattern's replacement and the input is outside the output. */
  lemma {:induction false} ReplaceKeepsOut(s: string, pat: string, rep: string, c: char)
    requires pat != [] && c !in s && c !in rep
    ensures c !in ReplaceAll(s, pat, rep)
    decreases |s|
  {
    if s != [] {
      if pat <= s {
        ReplaceKeepsOut(s[|pat|..], pat, rep, c);
      } else {
        ReplaceKeepsOut(s[1..], pat, rep, c);
      }
    }
  }

  /** Replacing every occurrence of a character by text without it removes it. */
  lemma {:induction false} ReplaceRemovesChar(s: string, c: char, rep: string)
    requires c !in rep
    ensures c !in ReplaceAll(s, [c], rep)
    decreases |s|
  {
    if s != [] {
      if [c] <= s {
        ReplaceRemovesChar(s[1..], c, rep);
      } else {
        assert s[0] != c;
        ReplaceRemovesChar(s[1..], c, rep);
      }
    }
  }

  // ---------------------------------------------------------------------
  // re.sub(r'\s+', ' ', s)

  /** `re.sub(r'\s+', ' ', s)`: every maximal run of whitespace becomes one
      space. Read left to right, a whitespace character followed by more
      whitespace is dropped and the last one of the run becomes the space. */
  function CollapseWs(s: string): string
    decreases |s|
  {
    if s == [] then []
    else if IsSpace(s[0]) then
      if |s| > 1 && IsSpace(s[1]) then CollapseWs(s[1..]) else " " + CollapseWs(s[1..])
    else [s[0]] + CollapseWs(s[1..])
  }

  /** The only whitespace is single spaces, never two in a row. */
  predicate Collapsed(s: string)
  {
    forall i :: 0 <= i < |s| ==> CollapsedAt(s, i)
  }

  /** At index `i`, a whitespace character is a space and the next one is not whitespace. */
  predicate CollapsedAt(s: string, i: int)
    requires 0 <= i < |s|
  {
    IsSpace(s[i]) ==> s[i] == ' ' && (i + 1 < |s| ==> !IsSpace(s[i + 1]))
  }

  /** Collapsing leaves no run of whitespace and no whitespace but a space;
      it keeps a leading non-space character first, and turns a leading run
      of whitespace into a leading space. */
  lemma {:induction false} CollapseWsCollapsed(s: string)
    ensures Collapsed(CollapseWs(s))
    ensures s != [] ==> CollapseWs(s) != []
    ensures s != [] && !IsSpace(s[0]) ==> CollapseWs(s)[0] == s[0]
    ensures s != [] && IsSpace(s[0]) ==> CollapseWs(s)[0] == ' '
    decreases |s|
  {
    if s != [] {
      var r := CollapseWs(s);
      var tail := CollapseWs(s[1..]);
      CollapseWsCollapsed(s[1..]);
      if IsSpace(s[0]) && |s| > 1 && IsSpace(s[1]) {
        assert r == tail;
      } else {
        assert r == [if IsSpace(s[0]) then ' ' else s[0]] + tail;
        forall i | 0 <= i < |r|
          ensures CollapsedAt(r, i)
        {
          if i > 0 {
            assert CollapsedAt(tail, i - 1);
            assert r[i] == tail[i - 1];
            assert i + 1 < |r| ==> r[i + 1] == tail[i];
          } else if IsSpace(s[0]) {
            assert |r| > 1 ==> r[1] == tail[0] && !IsSpace(s[1]);
          }
        }
      }
    }
  }

  /** Collapsing keeps a non-space last character last. */
  lemma {:induction false} CollapseWsLast(s: string)
    requires s != [] && !IsSpace(s[|s| - 1])
    ensures CollapseWs(s) != [] && !IsSpace(CollapseWs(s)[|CollapseWs(s)| - 1])
    decreases |s|
  {
    var r := CollapseWs(s);
    if |s| > 1 {
      CollapseWsLast(s[1..]);
      var u := CollapseWs(s[1..]);
      if !(IsSpace(s[0]) && IsSpace(s[1])) {
        assert r == [r[0]] + u;
      }
      assert r[|r| - 1] == u[|u| - 1];
    } else {
      assert s[1..] == [] && CollapseWs(s[1..]) == [];
      assert r == [s[0]] + CollapseWs(s[1..]);
    }
  }

  lemma CollapsedTail(s: string)
    requires s != [] && Collapsed(s)
    ensures Collapsed(s[1..])
  {
    var t := s[1..];
    forall i | 0 <= i < |t|
      ensures CollapsedAt(t, i)
    {
      assert CollapsedAt(s, i + 1);
      assert t[i] == s[i + 1];
      assert i + 1 < |t| ==> t[i + 1] == s[i + 2];
    }
  }

  /** A collapsed string is a fixed point of collapsing. */
  lemma {:induction false} CollapsedFixed(s: string)
    requires Collapsed(s)
    ensures CollapseWs(s) == s
    decreases |s|
  {
    if s != [] {
      CollapsedTail(s);
      CollapsedFixed(s[1..]);
      if IsSpace(s[0]) {
        assert CollapsedAt(s, 0);
        assert s[0] == ' ';
        assert |s| > 1 ==> !IsSpace(s[1]);
      }
      assert [s[0]] + s[1..] == s;
    }
  }

  // ---------------------------------------------------------------------
  // str.split() with no argument

  function NonSpacePrefix(t: string): (n: nat)
    ensures n <= |t|
    ensures t != [] && !IsSpace(t[0]) ==> n > 0
    ensures n < |t| ==> IsSpace(t[n])
    decreases |t|
  {
    if t != [] && !IsSpace(t[0]) then 1 + NonSpacePrefix(t[1..]) else 0
  }

  /** Python's `s.split()`: the maximal runs of non-whitespace characters. */
  function Words(s: string): seq<string>
    decreases |s|
  {
    var t := StripLeft(s);
    if t == [] then []
    else
      var n := NonSpacePrefix(t);
      [t[..n]] + Words(t[n..])
  }

  /** A word of `s.split()`: non-empty, with no whitespace in it. */
  predicate IsWord(w: string)
  {
    w != [] && forall i :: 0 <= i < |w| ==> !IsSpace(w[i])
  }

  /** Every piece `split()` returns is a word, and the pieces joined by
      single spaces are the text with each whitespace run made one space
      and the ends stripped: so they are all the words, in order. */
  lemma {:induction false} WordsAreWords(s: string)
    ensures forall w :: w in Words(s) ==> IsWord(w)
    ensures Join(Words(s), " ") == Strip(CollapseWs(s))
    decreases |s|
  {
    if StripLeft(s) == [] {
      SkipLeadingSpace(s);
    } else {
      var w, rest := FirstWord(s);
      WordsAreWords(rest);
      WordThenRest(w, rest, Words(rest));
    }
  }

  /** The first word `split()` takes off a text that is not all whitespace,
      and what remains after it. */
  lemma FirstWord(s: string) returns (w: string, rest: string)
    requires StripLeft(s) != []
    ensures Words(s) == [w] + Words(rest) && |rest| < |s|
    ensures IsWord(w) && (rest == [] || IsSpace(rest[0]))
    ensures Strip(CollapseWs(s)) == Strip(w + CollapseWs(rest))
  {
    var t := StripLeft(s);
    var n := NonSpacePrefix(t);
    w, rest := t[..n], t[n..];
    assert IsWord(w) by {
      NonSpacePrefixShape(t);
    }
    assert Strip(CollapseWs(s)) == Strip(w + CollapseWs(rest)) by {
      SkipLeadingSpace(s);
      CutAt(t, n);
      CollapseWsWord(w, rest);
    }
  }

  /** A text is its first `n` characters followed by the rest. */
  lemma CutAt(t: string, n: nat)
    requires n <= |t|
    ensures t == t[..n] + t[n..]
  {
  }

  /** One induction step of `WordsAreWords`: a word, then the rest of the
      text, which is empty or starts with whitespace. */
  lemma WordThenRest(w: string, rest: string, words: seq<string>)
    requires IsWord(w) && (rest == [] || IsSpace(rest[0]))
    requires forall v :: v in words ==> IsWord(v)
    requires Join(words, " ") == Strip(CollapseWs(rest))
    ensures Join([w] + words, " ") == Strip(w + CollapseWs(rest))
  {
    var x := CollapseWs(rest);
    JoinCons(w, words, " ");
    if words == [] {
      assert AllSpace(x) by {
        StripEmpty(x);
      }
      StripWordThenSpace(w, x);
    } else {
      assert Strip(x) != [] by {
        JoinNonEmpty(words);
      }
      assert Collapsed(x) && x != [] && IsSpace(x[0]) && !AllSpace(x) by {
        StripEmpty(x);
        CollapseWsCollapsed(rest);
      }
      StripWordThenText(w, x);
    }
  }

  /** Joining a part in front of others. */
  lemma JoinCons(w: string, words: seq<string>, sep: string)
    ensures Join([w] + words, sep) == if words == [] then w else w + sep + Join(words, sep)
  {
    if words != [] {
      assert ([w] + words)[1..] == words;
    }
  }

  /** Joining non-empty words gives non-empty text. */
  lemma JoinNonEmpty(words: seq<string>)
    requires words != [] && forall v :: v in words ==> IsWord(v)
    ensures Join(words, " ") != []
  {
    assert IsWord(words[0]);
  }

  /** Leading whitespace does not change the stripped, collapsed text. */
  lemma SkipLeadingSpace(s: string)
    ensures Strip(CollapseWs(s)) == Strip(CollapseWs(StripLeft(s)))
  {
    var t := StripLeft(s);
    var p := s[..|s| - |t|];
    if p != [] {
      var y := CollapseWs(t);
      assert CollapseWs(s) == " " + y by {
        CutAt(s, |s| - |t|);
        CollapseWsSpaces(p, t);
      }
      StripLeftSpace(' ', y);
    }
  }

  /** A leading whitespace character is stripped off like the rest. */
  lemma StripLeftSpace(c: char, y: string)
    requires IsSpace(c)
    ensures StripLeft([c] + y) == StripLeft(y)
  {
    assert ([c] + y)[1..] == y;
  }

  /** A leading run of whitespace collapses to one space. */
  lemma {:induction false} CollapseWsSpaces(p: string, t: string)
    requires p != [] && AllSpace(p)
    requires t == [] || !IsSpace(t[0])
    ensures CollapseWs(p + t) == " " + CollapseWs(t)
    decreases |p|
  {
    var s := p + t;
    assert s[1..] == p[1..] + t;
    if |p| > 1 {
      CollapseWsSpaces(p[1..], t);
    } else {
      assert s[1..] == t;
    }
  }

  /** A word passes through collapsing unchanged. */
  lemma {:induction false} CollapseWsWord(w: string, r: string)
    requires forall i :: 0 <= i < |w| ==> !IsSpace(w[i])
    ensures CollapseWs(w + r) == w + CollapseWs(r)
    decreases |w|
  {
    if w != [] {
      assert (w + r)[0] == w[0] && (w + r)[1..] == w[1..] + r;
      assert CollapseWs(w + r) == [w[0]] + CollapseWs(w[1..] + r);
      CollapseWsWord(w[1..], r);
      assert [w[0]] + w[1..] == w;
    } else {
      assert w + r == r;
    }
  }

  /** `StripRight` is the one prefix that leaves only whitespace behind and
      does not end in whitespace. */
  lemma {:induction false} StripRightUnique(s: string, r: string)
    requires |r| <= |s| && r == s[..|r|]
    requires AllSpace(s[|r|..])
    requires r == [] || !IsSpace(r[|r| - 1])
    ensures StripRight(s) == r
    decreases |s|
  {
    if |s| > |r| {
      assert IsSpace(s[|s| - 1]) by { assert s[|s| - 1] == s[|r|..][|s| - 1 - |r|]; }
      var u := s[..|s| - 1];
      assert u[..|r|] == r;
      assert forall i :: 0 <= i < |u[|r|..]| ==> u[|r|..][i] == s[|r|..][i];
      StripRightUnique(u, r);
    } else {
      assert s == r;
    }
  }

  /** A word followed by whitespace strips to the word. */
  lemma StripWordThenSpace(w: string, x: string)
    requires IsWord(w) && AllSpace(x)
    ensures Strip(w + x) == w
  {
    var s := w + x;
    assert StripLeft(s) == s;
    assert s[..|w|] == w && s[|w|..] == x;
    StripRightUnique(s, w);
  }

  /** A word followed by a collapsed text that starts with a space and is
      not all whitespace strips to the word, one space and the stripped
      text. */
  lemma StripWordThenText(w: string, x: string)
    requires IsWord(w) && Collapsed(x)
    requires x != [] && IsSpace(x[0]) && !AllSpace(x)
    ensures Strip(w + x) == w + " " + Strip(x)
  {
    var k :| 0 <= k < |x| && !IsSpace(x[k]);
    assert 0 < k < |x|;
    assert CollapsedAt(x, 0);
    var y := x[1..];
    assert x[0] == ' ' && !IsSpace(y[0]);
    assert x == " " + y;
    LeadingSpaceStrip(y);
    var r := StripRight(y);
    StripRightOfNonSpace(y);
    StripAfterWord(w, x, y, r);
  }

  /** Stripping one space before a text that starts with a non-space. */
  lemma LeadingSpaceStrip(y: string)
    requires y != [] && !IsSpace(y[0])
    ensures Strip(" " + y) == StripRight(y)
  {
    var x := " " + y;
    assert x[1..] == y;
    assert StripLeft(x) == StripLeft(y);
  }

  /** Stripping the right of a text that starts with a non-space leaves
      something. */
  lemma StripRightOfNonSpace(y: string)
    requires y != [] && !IsSpace(y[0])
    ensures StripRight(y) != []
  {
  }

  /** The right strip of a word, a space and a text. */
  lemma StripAfterWord(w: string, x: string, y: string, r: string)
    requires IsWord(w) && x == " " + y && r == StripRight(y) && r != []
    ensures Strip(w + x) == w + " " + r
  {
    var a := w + " ";
    var s := a + y;
    assert w + x == s;
    assert s[0] == w[0];
    assert StripLeft(s) == s;
    var c := a + r;
    ConcatSlices(a, y, |r|);
    assert s[|c|..] == y[|r|..];
    assert AllSpace(s[|c|..]);
    assert c[|c| - 1] == r[|r| - 1];
    StripRightUnique(s, c);
  }

  /** Cutting `a + y` after `a` and `k` more characters. */
  lemma ConcatSlices(a: string, y: string, k: nat)
    requires k <= |y|
    ensures (a + y)[..|a| + k] == a + y[..k]
    ensures (a + y)[|a| + k..] == y[k..]
  {
  }



  /** `split()` finds no words exactly when the text is all whitespace. */
  lemma NoWords(s: string)
    ensures Words(s) == [] <==> AllSpace(s)
  {
    var t := StripLeft(s);
    if t != [] {
      assert s[|s| - |t|] == t[0];
    } else {
      assert s[..|s|] == s;
    }
  }

  /** The prefix `NonSpacePrefix` measures holds no whitespace. */
  lemma {:induction false} NonSpacePrefixShape(t: string)
    ensures forall i :: 0 <= i < NonSpacePrefix(t) ==> !IsSpace(t[i])
    decreases |t|
  {
    if t != [] && !IsSpace(t[0]) {
      NonSpacePrefixShape(t[1..]);
    }
  }

  // ---------------------------------------------------------------------
  // int(s) and str(n)

  function DigitValue(c: char): nat
    requires IsDigit(c)
  {
    c as int - '0' as int
  }

  function Digit(d: nat): (c: char)
    requires d < 10
    ensures IsDigit(c) && DigitValue(c) == d
  {
    ('0' as int + d) as char
  }

  /** Python's `int(s)` for a string of ASCII digits. */
  function DigitsValue(s: string): nat
    requires AllDigits(s)
  {
    if s == [] then 0 else DigitsValue(s[..|s| - 1]) * 10 + DigitValue(s[|s| - 1])
  }

  /** Python's `str(n)` for a natural number; `int` reads it back. */
  function NatToString(n: nat): (r: string)
    ensures r != [] && AllDigits(r)
    ensures DigitsValue(r) == n
  {
    if n < 10 then [Digit(n)]
    else
      var r := NatToString(n / 10) + [Digit(n % 10)];
      assert r[..|r| - 1] == NatToString(n / 10);
      r
  }

  /** Python's `str(i)` for an integer. */
  function IntToString(i: int): string
  {
    if i < 0 then "-" + NatToString(-i) else NatToString(i)
  }
}
