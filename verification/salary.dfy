/**
 * `parse_salary`: the lower-cased salary text loses its currency symbols and
 * commas, then its whitespace; every `k` becomes `000`; the maximal runs of
 * digits that remain are the numbers, and the first two, read as integers,
 * are the minimum and the maximum.
 */
module Salary {
  import opened Options
  import opened Strings

  /** The `salary_min` and `salary_max` entries of the result; `None` stands
      for Python's `None`. */
  datatype SalaryRange = SalaryRange(salaryMin: Option<nat>, salaryMax: Option<nat>)

  /** The class `[$,€£¥]`. */
  predicate IsSalarySymbol(c: char)
  {
    c == '$' || c == ',' || c == '€' || c == '£' || c == '¥'
  }

  /** `re.sub(<class>, '', s)` for a one-character class: every character of
      the class removed. */
  function Without(s: string, drop: char -> bool): string
  {
    if s == [] then []
    else if drop(s[0]) then Without(s[1..], drop)
    else [s[0]] + Without(s[1..], drop)
  }

  /** The length of the run of digits at the start of `s`. */
  function DigitPrefix(s: string): (n: nat)
    ensures n <= |s| && AllDigits(s[..n])
    ensures n < |s| ==> !IsDigit(s[n])
    ensures s != [] && IsDigit(s[0]) ==> n > 0
  {
    if s != [] && IsDigit(s[0]) then
      var n := 1 + DigitPrefix(s[1..]);
      assert s[..n] == [s[0]] + s[1..][..n - 1];
      n
    else 0
  }

  /** `re.findall(r'\d+', s)`: the maximal runs of digits, left to right. */
  function DigitRuns(s: string): (r: seq<string>)
    ensures forall i :: 0 <= i < |r| ==> r[i] != [] && AllDigits(r[i])
    decreases |s|
  {
    if s == [] then []
    else if !IsDigit(s[0]) then DigitRuns(s[1..])
    else
      var n := DigitPrefix(s);
      [s[..n]] + DigitRuns(s[n..])
  }

  /** The three substitutions, in the source's order. */
  function Cleaned(s: string): string
  {
    ReplaceAll(Without(Without(Lower(s), IsSalarySymbol), IsSpace), "k", "000")
  }

  /** `parse_salary`: an empty string has no salary; otherwise the numbers
      of the cleaned text decide, by position. A maximum never comes without
      a minimum. */
  function ParseSalary(s: string): (r: SalaryRange)
    ensures s == [] ==> r == SalaryRange(None, None)
    ensures r.salaryMax.Some? ==> r.salaryMin.Some?
  {
    if s == [] then SalaryRange(None, None) else Positional(DigitRuns(Cleaned(s)))
  }

  /** The first number is the minimum and the second the maximum; any
      further numbers are ignored. */
  function Positional(numbers: seq<string>): (r: SalaryRange)
    requires forall i :: 0 <= i < |numbers| ==> AllDigits(numbers[i])
    ensures r.salaryMin.Some? <==> |numbers| >= 1
    ensures r.salaryMax.Some? <==> |numbers| >= 2
  {
    if |numbers| >= 2 then SalaryRange(Some(DigitsValue(numbers[0])), Some(DigitsValue(numbers[1])))
    else if |numbers| == 1 then SalaryRange(Some(DigitsValue(numbers[0])), None)
    else SalaryRange(None, None)
  }

  /** A non-empty salary string parses to the numbers of its per-character cleaning. */
  lemma ParseViaChars(s: string)
    requires s != []
    ensures ParseSalary(s) == Positional(DigitRuns(CleanChars(s)))
  {
    CleanedPerChar(s);
  }

  lemma {:induction false} WithoutAppend(a: string, b: string, drop: char -> bool)
    ensures Without(a + b, drop) == Without(a, drop) + Without(b, drop)
  {
    if a != [] {
      assert (a + b)[1..] == a[1..] + b;
      WithoutAppend(a[1..], b, drop);
    } else {
      assert a + b == b;
    }
  }

  lemma {:induction false} WithoutKeeps(s: string, drop: char -> bool)
    requires forall i :: 0 <= i < |s| ==> !drop(s[i])
    ensures Without(s, drop) == s
  {
    if s != [] {
      WithoutKeeps(s[1..], drop);
      assert [s[0]] + s[1..] == s;
    }
  }

  lemma {:induction false} ReplaceCharAppend(a: string, b: string, c: char, rep: string)
    ensures ReplaceAll(a + b, [c], rep) == ReplaceAll(a, [c], rep) + ReplaceAll(b, [c], rep)
  {
    if a != [] {
      assert (a + b)[1..] == a[1..] + b;
      assert [c] <= a + b <==> [c] <= a;
      ReplaceCharAppend(a[1..], b, c, rep);
    } else {
      assert a + b == b;
    }
  }

  lemma {:induction false} ReplaceCharAbsent(s: string, c: char, rep: string)
    requires c !in s
    ensures ReplaceAll(s, [c], rep) == s
  {
    if s != [] {
      assert s[0] != c;
      ReplaceCharAbsent(s[1..], c, rep);
      assert [s[0]] + s[1..] == s;
    }
  }

  lemma {:induction false} DigitPrefixOf(d: string, rest: string)
    requires AllDigits(d) && (rest == [] || !IsDigit(rest[0]))
    ensures DigitPrefix(d + rest) == |d|
  {
    if d != [] {
      assert (d + rest)[1..] == d[1..] + rest;
      DigitPrefixOf(d[1..], rest);
    }
  }

  lemma DigitRunsLead(d: string, rest: string)
    requires d != [] && AllDigits(d) && (rest == [] || !IsDigit(rest[0]))
    ensures DigitRuns(d + rest) == [d] + DigitRuns(rest)
  {
    DigitPrefixOf(d, rest);
    var s := d + rest;
    assert s[..|d|] == d && s[|d|..] == rest;
  }

  lemma DigitRunsSkip(c: char, rest: string)
    requires !IsDigit(c)
    ensures DigitRuns([c] + rest) == DigitRuns(rest)
  {
    assert ([c] + rest)[1..] == rest;
  }

  lemma DigitsValueZero(d: string)
    requires AllDigits(d)
    ensures AllDigits(d + "0") && DigitsValue(d + "0") == 10 * DigitsValue(d)
  {
    assert (d + "0")[..|d|] == d;
  }

  lemma DigitsValueThousand(d: string)
    requires AllDigits(d)
    ensures AllDigits(d + "000") && DigitsValue(d + "000") == 1000 * DigitsValue(d)
  {
    DigitsValueZero(d);
    DigitsValueZero(d + "0");
    DigitsValueZero(d + "0" + "0");
    assert d + "0" + "0" + "0" == d + "000";
  }

  lemma LowerDigits(d: string)
    requires AllDigits(d)
    ensures Lower(d) == d
  {
  }

  lemma LowerAppend(a: string, b: string)
    ensures Lower(a + b) == Lower(a) + Lower(b)
  {
  }

  /** What the cleaning makes of one character. */
  function CleanChar(c: char): string
  {
    var l := LowerChar(c);
    if IsSalarySymbol(l) || IsSpace(l) then [] else if l == 'k' then "000" else [l]
  }

  /** The cleaning, character by character. */
  function CleanChars(s: string): string
  {
    if s == [] then [] else CleanChar(s[0]) + CleanChars(s[1..])
  }

  /** The four passes of the cleaning act on each character independently. */
  lemma {:induction false} CleanedPerChar(s: string)
    ensures Cleaned(s) == CleanChars(s)
  {
    if s != [] {
      var c, rest := s[0], s[1..];
      var l := LowerChar(c);
      assert s == [c] + rest;
      LowerAppend([c], rest);
      assert Lower([c]) == [l];
      WithoutAppend([l], Lower(rest), IsSalarySymbol);
      var x := Without([l], IsSalarySymbol);
      WithoutAppend(x, Without(Lower(rest), IsSalarySymbol), IsSpace);
      var y := Without(x, IsSpace);
      ReplaceCharAppend(y, Without(Without(Lower(rest), IsSalarySymbol), IsSpace), 'k', "000");
      assert ReplaceAll(y, "k", "000") == CleanChar(c);
      CleanedPerChar(rest);
    } else {
      assert Lower(s) == [];
    }
  }

  lemma {:induction false} CleanCharsAppend(a: string, b: string)
    ensures CleanChars(a + b) == CleanChars(a) + CleanChars(b)
  {
    if a != [] {
      assert (a + b)[1..] == a[1..] + b;
      CleanCharsAppend(a[1..], b);
    } else {
      assert a + b == b;
    }
  }

  lemma {:induction false} CleanCharsDigits(d: string)
    requires AllDigits(d)
    ensures CleanChars(d) == d
  {
    if d != [] {
      CleanCharsDigits(d[1..]);
      assert [d[0]] + d[1..] == d;
    }
  }

  /** The cleaning of the literal pieces of a dollar range. */
  lemma DollarPieces()
    ensures CleanChars("$") == [] && CleanChars(" - $") == "-"
  {
    assert CleanChars([]) == [];
    assert "$"[1..] == [];
    assert " - $"[1..] == "- $" && "- $"[1..] == " $" && " $"[1..] == "$";
  }

  /** The cleaning of the literal pieces of a range in thousands. */
  lemma KiloPieces()
    ensures CleanChars("k") == "000" && CleanChars("k-") == "000-"
  {
    assert CleanChars([]) == [];
    assert "k"[1..] == [] && "-"[1..] == [] && "k-"[1..] == "-";
  }

  /** The cleaning of the comma groups. */
  lemma GroupPieces()
    ensures CleanChars(",000") == "000" && CleanChars(",000 - $") == "000-"
  {
    assert CleanChars([]) == [];
    assert ",000"[1..] == "000" && "000"[1..] == "00" && "00"[1..] == "0" && "0"[1..] == [];
    DollarPieces();
    CleanCharsAppend(",000", " - $");
    assert ",000" + " - $" == ",000 - $";
  }

  /** Two digit strings with a dash between them are two numbers. */
  lemma TwoRuns(x: string, y: string)
    requires x != [] && y != [] && AllDigits(x) && AllDigits(y)
    ensures DigitRuns(x + "-" + y) == [x, y]
  {
    assert x + "-" + y == x + (['-'] + y);
    DigitRunsLead(x, ['-'] + y);
    DigitRunsSkip('-', y);
    DigitRunsLead(y, []);
    assert y + [] == y;
    assert DigitRuns([]) == [];
  }

  /** A salary string whose cleaning is two numbers with a dash between
      them parses to those numbers, in that order. */
  lemma ParseTwo(s: string, x: string, y: string)
    requires s != [] && x != [] && y != [] && AllDigits(x) && AllDigits(y)
    requires CleanChars(s) == x + "-" + y
    ensures ParseSalary(s) == SalaryRange(Some(DigitsValue(x)), Some(DigitsValue(y)))
  {
    ParseViaChars(s);
    TwoRuns(x, y);
  }

  /** Digits after a cleaned prefix come through unchanged. */
  lemma CleanedDigitsAfter(p: string, x: string, B: string)
    requires CleanChars(p) == x && AllDigits(B)
    ensures CleanChars(p + B) == x + B
  {
    CleanCharsAppend(p, B);
    CleanCharsDigits(B);
  }

  /** Digits before a cleaned suffix come through unchanged. */
  lemma CleanedDigitsBefore(A: string, q: string, y: string)
    requires AllDigits(A) && CleanChars(q) == y
    ensures CleanChars(A + q) == A + y
  {
    CleanCharsAppend(A, q);
    CleanCharsDigits(A);
  }

  lemma Regroup(A: string, B: string)
    ensures A + "000-" + B + "000" == (A + "000") + "-" + (B + "000")
  {
    assert "000-" == "000" + "-";
  }

  lemma CleanedRange(A: string, B: string)
    requires AllDigits(A) && AllDigits(B)
    ensures CleanChars("$" + A + " - $" + B) == A + "-" + B
  {
    DollarPieces();
    var p := "$" + A;
    CleanCharsAppend("$", A);
    CleanCharsDigits(A);
    assert CleanChars(p) == A;
    var q := p + " - $";
    CleanCharsAppend(p, " - $");
    assert CleanChars(q) == A + "-";
    CleanCharsAppend(q, B);
    CleanCharsDigits(B);
  }

  /** `"$<a> - $<b>"` parses to `a` and `b`, in that order, whichever is larger. */
  lemma ParseRange(s: string, a: nat, b: nat)
    requires s == "$" + NatToString(a) + " - $" + NatToString(b)
    ensures ParseSalary(s) == SalaryRange(Some(a), Some(b))
  {
    var A, B := NatToString(a), NatToString(b);
    CleanedRange(A, B);
    ParseTwo(s, A, B);
  }

  lemma CleanedGroupedRange(A: string, B: string)
    requires AllDigits(A) && AllDigits(B)
    ensures CleanChars("$" + A + ",000 - $" + B + ",000") == (A + "000") + "-" + (B + "000")
  {
    DollarPieces();
    GroupPieces();
    CleanedDigitsAfter("$", [], A);
    CleanCharsAppend("$" + A, ",000 - $");
    assert [] + A == A;
    CleanedDigitsAfter("$" + A + ",000 - $", A + "000-", B);
    CleanCharsAppend("$" + A + ",000 - $" + B, ",000");
    Regroup(A, B);
  }

  /** `"$<a>,000 - $<b>,000"` parses to `a` thousand and `b` thousand: the
      comma is dropped, leaving the digits to join up. */
  lemma ParseGroupedRange(s: string, a: nat, b: nat)
    requires s == "$" + NatToString(a) + ",000 - $" + NatToString(b) + ",000"
    ensures ParseSalary(s) == SalaryRange(Some(a * 1000), Some(b * 1000))
  {
    var A, B := NatToString(a), NatToString(b);
    CleanedGroupedRange(A, B);
    DigitsValueThousand(A);
    DigitsValueThousand(B);
    ParseTwo(s, A + "000", B + "000");
  }

  lemma CleanedKilo(A: string)
    requires AllDigits(A)
    ensures CleanChars("$" + A + "k") == A + "000"
  {
    DollarPieces();
    KiloPieces();
    var p := "$" + A;
    CleanCharsAppend("$", A);
    CleanCharsDigits(A);
    assert CleanChars(p) == A;
    CleanCharsAppend(p, "k");
  }

  /** `"$<a>k"` parses to `a` thousand, with no maximum. */
  lemma ParseKilo(s: string, a: nat)
    requires s == "$" + NatToString(a) + "k"
    ensures ParseSalary(s) == SalaryRange(Some(a * 1000), None)
  {
    var A := NatToString(a);
    CleanedKilo(A);
    DigitsValueThousand(A);
    ParseViaChars(s);
    DigitRunsLead(A + "000", []);
    assert A + "000" + [] == A + "000";
    assert DigitRuns([]) == [];
  }

  lemma CleanedKiloRange(A: string, B: string)
    requires AllDigits(A) && AllDigits(B)
    ensures CleanChars(A + "k-" + B + "k") == (A + "000") + "-" + (B + "000")
  {
    KiloPieces();
    CleanedDigitsBefore(A, "k-", "000-");
    CleanedDigitsAfter(A + "k-", A + "000-", B);
    CleanCharsAppend(A + "k-" + B, "k");
    Regroup(A, B);
  }

  /** `"<a>k-<b>k"` parses to `a` thousand and `b` thousand. */
  lemma ParseKiloRange(s: string, a: nat, b: nat)
    requires s == NatToString(a) + "k-" + NatToString(b) + "k"
    ensures ParseSalary(s) == SalaryRange(Some(a * 1000), Some(b * 1000))
  {
    var A, B := NatToString(a), NatToString(b);
    CleanedKiloRange(A, B);
    DigitsValueThousand(A);
    DigitsValueThousand(B);
    ParseTwo(s, A + "000", B + "000");
  }

  /** The numerals of the docstring examples. */
  lemma ExampleNumerals()
    ensures NatToString(80) == "80" && NatToString(100) == "100" && NatToString(120) == "120"
  {
  }

  /** The first example of the docstring: `"$80,000 - $120,000"`. */
  lemma ExampleDollarRange(s: string)
    requires s == "$80,000 - $120,000"
    ensures ParseSalary(s) == SalaryRange(Some(80000), Some(120000))
  {
    ExampleNumerals();
    assert s == "$" + NatToString(80) + ",000 - $" + NatToString(120) + ",000";
    ParseGroupedRange(s, 80, 120);
  }

  /** The second example of the docstring: `"$100k"`. */
  lemma ExampleKilo(s: string)
    requires s == "$100k"
    ensures ParseSalary(s) == SalaryRange(Some(100000), None)
  {
    ExampleNumerals();
    assert s == "$" + NatToString(100) + "k";
    ParseKilo(s, 100);
  }

  /** The third example of the docstring: `"80k-120k"`. */
  lemma ExampleKiloRange(s: string)
    requires s == "80k-120k"
    ensures ParseSalary(s) == SalaryRange(Some(80000), Some(120000))
  {
    ExampleNumerals();
    assert s == NatToString(80) + "k-" + NatToString(120) + "k";
    ParseKiloRange(s, 80, 120);
  }

  /** A digit string with no digit has no runs. */
  lemma {:induction false} NoDigitNoRuns(t: string)
    requires forall i :: 0 <= i < |t| ==> !IsDigit(t[i])
    ensures DigitRuns(t) == []
  {
    if t != [] {
      NoDigitNoRuns(t[1..]);
    }
  }

  /** Cleaning creates a digit only from a digit or a `k`. */
  lemma {:induction false} CleanCharsNoDigit(s: string)
    requires forall i :: 0 <= i < |s| ==> !IsDigit(s[i]) && LowerChar(s[i]) != 'k'
    ensures forall i :: 0 <= i < |CleanChars(s)| ==> !IsDigit(CleanChars(s)[i])
  {
    if s != [] {
      CleanCharsNoDigit(s[1..]);
    }
  }

  /** Text with no digit and no `k` has no salary. */
  lemma NoNumberNoSalary(s: string)
    requires forall i :: 0 <= i < |s| ==> !IsDigit(s[i]) && LowerChar(s[i]) != 'k'
    ensures ParseSalary(s) == SalaryRange(None, None)
  {
    if s != [] {
      ParseViaChars(s);
      CleanCharsNoDigit(s);
      NoDigitNoRuns(CleanChars(s));
    }
  }
}
