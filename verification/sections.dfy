/**
 * `extract_job_sections`: sorts the lines of a cleaned description into five
 * named sections. A line whose lower-cased, stripped text holds one of a
 * section's keywords is a header: it moves the cursor to that section and is
 * itself dropped. Every other non-blank line is appended, with a line break,
 * to the section under the cursor, which starts at `other`. Each section is
 * stripped at the end.
 */
module Sections {
  import opened Options
  import opened Strings
  import Normalizer

  /** The five keys of the result, in the dict's insertion order. */
  datatype Section = About | Requirements | Responsibilities | Benefits | Other

  /** The key under which a section appears in the result. */
  function Key(s: Section): string
  {
    match s
    case About => "about"
    case Requirements => "requirements"
    case Responsibilities => "responsibilities"
    case Benefits => "benefits"
    case Other => "other"
  }

  const AllSections: set<Section> := {About, Requirements, Responsibilities, Benefits, Other}

  /** The order in which the closing loop visits the keys. */
  const KeyOrder: seq<Section> := [About, Requirements, Responsibilities, Benefits, Other]

  // The keyword groups, tested in this order; the first group with a
  // keyword in the line decides the header.
  const AboutWords: seq<string> := ["about", "overview", "company", "description"]
  const RequirementWords: seq<string> :=
    ["requirement", "qualification", "experience", "to be successful", "about you"]
  const ResponsibilityWords: seq<string> := ["responsibility", "duty", "role", "purpose", "working"]
  const BenefitWords: seq<string> := ["benefit", "perk", "offer", "what we offer"]
  const ClosingWords: seq<string> := ["next step", "apply", "contact"]

  /** Every keyword of every group. */
  const HeaderWords: seq<string> :=
    AboutWords + RequirementWords + ResponsibilityWords + BenefitWords + ClosingWords

  /** `any(keyword in text for keyword in words)`, keyword by keyword. */
  predicate AnyIn(words: seq<string>, text: string)
  {
    words != [] && (Contains(text, words[0]) || AnyIn(words[1..], text))
  }

  /** `AnyIn` holds when some keyword of the list occurs in the text. */
  lemma {:induction false} AnyInExists(words: seq<string>, text: string)
    ensures AnyIn(words, text) <==> exists k :: k in words && Contains(text, k)
  {
    if words != [] {
      AnyInExists(words[1..], text);
      if AnyIn(words, text) && !Contains(text, words[0]) {
        var k :| k in words[1..] && Contains(text, k);
        assert k in words;
      }
      if exists k :: k in words && Contains(text, k) {
        var k :| k in words && Contains(text, k);
        if k != words[0] {
          assert k in words[1..];
        }
      }
    }
  }

  /** The text the header test looks at: `line.lower().strip()`. */
  function HeaderText(line: string): string
  {
    Strip(Lower(line))
  }

  /** How the loop treats one line: a header switching to a section, or a
      content line carrying its original text. */
  datatype LineKind = Header(section: Section) | Content(text: string)

  /** The keyword groups in the order the loop tests them, each with the
      section its header switches to. */
  const HeaderGroups: seq<(seq<string>, Section)> := [
    (AboutWords, About), (RequirementWords, Requirements),
    (ResponsibilityWords, Responsibilities), (BenefitWords, Benefits), (ClosingWords, Other)]

  /** The first group with a keyword in `t` decides the section. */
  function FirstGroup(groups: seq<(seq<string>, Section)>, t: string): Option<Section>
  {
    if groups == [] then None
    else if AnyIn(groups[0].0, t) then Some(groups[0].1)
    else FirstGroup(groups[1..], t)
  }

  /** The header test of the loop. */
  function Classify(line: string): LineKind
  {
    match FirstGroup(HeaderGroups, HeaderText(line))
    case Some(s) => Header(s)
    case None => Content(line)
  }

  /** Every line classified. */
  function Kinds(lines: seq<string>): seq<LineKind>
  {
    seq(|lines|, i requires 0 <= i < |lines| => Classify(lines[i]))
  }

  /** The loop's state: the section under the cursor and what each section
      has accumulated so far. */
  datatype State = State(cursor: Section, bodies: map<Section, string>)

  /** Every section has an entry. */
  predicate Valid(st: State)
  {
    st.bodies.Keys == AllSections
  }

  /** The state before the first line: the cursor at `other`, every section
      empty. */
  const Start: State :=
    State(Other, map[About := "", Requirements := "", Responsibilities := "", Benefits := "", Other := ""])

  /** One turn of the loop: a header moves the cursor; a non-blank content
      line is appended, with a line break, to the section under the cursor. */
  function Step(st: State, k: LineKind): (r: State)
    requires Valid(st)
    ensures Valid(r)
  {
    match k
    case Header(s) => st.(cursor := s)
    case Content(line) =>
      if !AllSpace(line) then
        EverySection(st.cursor);
        st.(bodies := st.bodies[st.cursor := st.bodies[st.cursor] + line + "\n"])
      else st
  }

  /** The state after the given lines. */
  function Scan(ks: seq<LineKind>): (r: State)
    ensures Valid(r)
  {
    if ks == [] then Start else Step(Scan(ks[..|ks| - 1]), ks[|ks| - 1])
  }

  /** Every section's body stripped. */
  function Stripped(bodies: map<Section, string>): (r: map<Section, string>)
    requires bodies.Keys == AllSections
    ensures r.Keys == AllSections
    ensures forall s :: s in r ==> Trimmed(r[s])
  {
    map s | s in AllSections :: Strip(bodies[s])
  }

  /** The result of `extract_job_sections`: every section's stripped body. */
  function SectionsOf(description: string): map<Section, string>
  {
    Stripped(Scan(Kinds(Split(description, '\n'))).bodies)
  }

  // ---------------------------------------------------------------------
  // The extractor as the source writes it

  /** `extract_job_sections`, loop for loop: a cursor loop over the lines,
      then the closing loop stripping every section. */
  method ExtractJobSections(description: string) returns (sections: map<Section, string>)
    ensures sections == SectionsOf(description)
  {
    sections := map[About := "", Requirements := "", Responsibilities := "", Benefits := "", Other := ""];
    var lines := Split(description, '\n');
    ghost var ks := Kinds(lines);
    var current := Other;
    for i := 0 to |lines|
      invariant State(current, sections) == Scan(ks[..i])
    {
      var line := lines[i];
      assert ks[i] == Classify(line);
      ScanStep(ks, i);
      ClassifyChain(line);
      StripEmpty(line);
      var lineLower := Strip(Lower(line));
      if AnyIn(AboutWords, lineLower) {
        current := About;
      } else if AnyIn(RequirementWords, lineLower) {
        current := Requirements;
      } else if AnyIn(ResponsibilityWords, lineLower) {
        current := Responsibilities;
      } else if AnyIn(BenefitWords, lineLower) {
        current := Benefits;
      } else if AnyIn(ClosingWords, lineLower) {
        current := Other;
      } else if Strip(line) != [] {
        sections := sections[current := sections[current] + line + "\n"];
      }
    }
    assert ks[..|lines|] == ks;
    sections := StripSections(sections);
  }

  /** The closing loop: `for key in sections: sections[key] = sections[key].strip()`. */
  method StripSections(bodies: map<Section, string>) returns (sections: map<Section, string>)
    requires bodies.Keys == AllSections
    ensures sections == Stripped(bodies)
  {
    ghost var target := Stripped(bodies);
    sections := bodies;
    for j := 0 to |KeyOrder|
      invariant Visited(sections, bodies, target, j)
    {
      var key := KeyOrder[j];
      VisitOneMore(sections, bodies, target, j);
      assert Strip(sections[key]) == target[key];
      sections := sections[key := Strip(sections[key])];
    }
    VisitedAll(sections, bodies, target);
  }

  /** The closing loop's invariant: the first `j` keys hold their final
      value, the others are untouched. */
  predicate Visited(sections: map<Section, string>, bodies: map<Section, string>,
                    target: map<Section, string>, j: nat)
    requires bodies.Keys == AllSections && target.Keys == AllSections
    requires j <= |KeyOrder|
  {
    sections.Keys == AllSections &&
    forall s :: s in sections ==>
      sections[s] == if s in KeyOrder[..j] then target[s] else bodies[s]
  }

  /** One more turn of the closing loop keeps its invariant. */
  lemma VisitOneMore(sections: map<Section, string>, bodies: map<Section, string>,
                     target: map<Section, string>, j: nat)
    requires bodies.Keys == AllSections && target.Keys == AllSections
    requires j < |KeyOrder| && Visited(sections, bodies, target, j)
    ensures KeyOrder[j] in sections && sections[KeyOrder[j]] == bodies[KeyOrder[j]]
    ensures Visited(sections[KeyOrder[j] := target[KeyOrder[j]]], bodies, target, j + 1)
  {
    assert KeyOrder[..j + 1] == KeyOrder[..j] + [KeyOrder[j]];
    assert KeyOrder[j] !in KeyOrder[..j];
  }

  /** After the closing loop, every key holds its final value. */
  lemma VisitedAll(sections: map<Section, string>, bodies: map<Section, string>,
                   target: map<Section, string>)
    requires bodies.Keys == AllSections && target.Keys == AllSections
    requires Visited(sections, bodies, target, |KeyOrder|)
    ensures sections == target
  {
    assert KeyOrder[..|KeyOrder|] == KeyOrder;
    forall s | s in sections
      ensures sections[s] == target[s]
    {
      EveryKeyVisited(s);
    }
  }

  /** The closing loop visits every section. */
  lemma EveryKeyVisited(s: Section)
    ensures s in KeyOrder
  {
  }

  /** The five sections are all the sections there are. */
  lemma EverySection(s: Section)
    ensures s in AllSections
  {
  }

  /** The loop's state after one more line. */
  lemma ScanStep(ks: seq<LineKind>, i: nat)
    requires i < |ks|
    ensures Scan(ks[..i + 1]) == Step(Scan(ks[..i]), ks[i])
  {
    assert ks[..i + 1][..i] == ks[..i];
  }

  // ---------------------------------------------------------------------
  // Properties

  /** The group table read as the loop's if-chain. */
  lemma ClassifyChain(line: string)
    ensures var t := HeaderText(line);
      Classify(line) ==
        if AnyIn(AboutWords, t) then Header(About)
        else if AnyIn(RequirementWords, t) then Header(Requirements)
        else if AnyIn(ResponsibilityWords, t) then Header(Responsibilities)
        else if AnyIn(BenefitWords, t) then Header(Benefits)
        else if AnyIn(ClosingWords, t) then Header(Other)
        else Content(line)
  {
    var t := HeaderText(line);
    var g := HeaderGroups;
    assert g[1..][1..][1..][1..][1..] == [];
    assert FirstGroup(g[1..][1..][1..][1..], t) == if AnyIn(ClosingWords, t) then Some(Other) else None;
    assert FirstGroup(g[1..][1..][1..], t)
      == if AnyIn(BenefitWords, t) then Some(Benefits) else FirstGroup(g[1..][1..][1..][1..], t);
    assert FirstGroup(g[1..][1..], t)
      == if AnyIn(ResponsibilityWords, t) then Some(Responsibilities) else FirstGroup(g[1..][1..][1..], t);
    assert FirstGroup(g[1..], t)
      == if AnyIn(RequirementWords, t) then Some(Requirements) else FirstGroup(g[1..][1..], t);
  }

  /** A line is a header exactly when its lower-cased, stripped text holds
      one of the keywords of some group. */
  lemma HeaderIffKeyword(line: string)
    ensures Classify(line).Header? <==> exists k :: k in HeaderWords && Contains(HeaderText(line), k)
  {
    var t := HeaderText(line);
    ClassifyChain(line);
    AnyInExists(AboutWords, t);
    AnyInExists(RequirementWords, t);
    AnyInExists(ResponsibilityWords, t);
    AnyInExists(BenefitWords, t);
    AnyInExists(ClosingWords, t);
    if exists k :: k in HeaderWords && Contains(t, k) {
      var k :| k in HeaderWords && Contains(t, k);
      assert k in AboutWords || k in RequirementWords || k in ResponsibilityWords
        || k in BenefitWords || k in ClosingWords;
    }
    if Classify(line).Header? {
      var k :| (k in AboutWords || k in RequirementWords || k in ResponsibilityWords
        || k in BenefitWords || k in ClosingWords) && Contains(t, k);
      assert k in HeaderWords;
    }
  }

  /** "about" is tested first, so a line holding "about you" opens the about
      section, although "about you" is also listed among the requirement
      keywords. */
  lemma AboutYouOpensAbout(line: string)
    requires Contains(HeaderText(line), "about you")
    ensures Classify(line) == Header(About)
  {
    assert "about" <= "about you";
    ContainsTransitive(HeaderText(line), "about you", "about");
    ClassifyChain(line);
    assert AboutWords[0] == "about";
  }

  /** A line mentioning experience, or a role, is a header: it never lands in
      a section. */
  lemma ExperienceAndRoleAreHeaders(line: string)
    requires Contains(HeaderText(line), "experience") || Contains(HeaderText(line), "role")
    ensures Classify(line).Header?
  {
    assert "experience" in HeaderWords && "role" in HeaderWords;
    HeaderIffKeyword(line);
  }

  /** What a line adds to the sections: a non-blank content line with its
      line break, nothing otherwise. */
  function Added(k: LineKind): string
  {
    if k.Content? && !AllSpace(k.text) then k.text + "\n" else []
  }

  /** The combined length of the five sections. */
  function Total(st: State): nat
    requires Valid(st)
  {
    |st.bodies[About]| + |st.bodies[Requirements]| + |st.bodies[Responsibilities]|
    + |st.bodies[Benefits]| + |st.bodies[Other]|
  }

  /** A turn of the loop grows the sections by exactly what the line adds. */
  lemma StepTotal(st: State, k: LineKind)
    requires Valid(st)
    ensures Total(Step(st, k)) == Total(st) + |Added(k)|
  {
    match k
    case Header(_) =>
    case Content(line) =>
      if !AllSpace(line) {
        var b := Step(st, k).bodies;
        EverySection(st.cursor);
        match st.cursor
        case About => assert b == st.bodies[About := st.bodies[About] + line + "\n"];
        case Requirements => assert b == st.bodies[Requirements := st.bodies[Requirements] + line + "\n"];
        case Responsibilities =>
          assert b == st.bodies[Responsibilities := st.bodies[Responsibilities] + line + "\n"];
        case Benefits => assert b == st.bodies[Benefits := st.bodies[Benefits] + line + "\n"];
        case Other => assert b == st.bodies[Other := st.bodies[Other] + line + "\n"];
      }
  }

  /** The characters the lines contribute to the sections: every non-blank
      content line with its line break. */
  function ContentLength(ks: seq<LineKind>): nat
  {
    if ks == [] then 0 else ContentLength(ks[..|ks| - 1]) + |Added(ks[|ks| - 1])|
  }

  /** No content is lost or duplicated, counted in characters: the five
      unstripped sections together are as long as the non-blank content
      lines with their line breaks (`ScanPlaces` says which section each
      line goes to). */
  lemma {:induction false} ContentConserved(ks: seq<LineKind>)
    ensures Total(Scan(ks)) == ContentLength(ks)
  {
    if ks != [] {
      ContentConserved(ks[..|ks| - 1]);
      StepTotal(Scan(ks[..|ks| - 1]), ks[|ks| - 1]);
    }
  }

  /** Where the cursor stands after the given lines: at the section of the
      last header among them, at `other` when there is none. */
  function Cursor(ks: seq<LineKind>): Section
  {
    if ks == [] then Other
    else if ks[|ks| - 1].Header? then ks[|ks| - 1].section
    else Cursor(ks[..|ks| - 1])
  }

  /** What section `s` receives from the given lines: in order, what each
      line adds when the cursor stands at `s` as that line is read. */
  function Placed(ks: seq<LineKind>, s: Section): string
  {
    if ks == [] then []
    else
      var init := ks[..|ks| - 1];
      Placed(init, s) + (if Cursor(init) == s then Added(ks[|ks| - 1]) else [])
  }

  /** One turn of the loop: a header moves the cursor to its section, and
      the section under the cursor, and no other, grows by what the line
      adds. */
  lemma StepPlaces(st: State, k: LineKind, s: Section)
    requires Valid(st)
    ensures Step(st, k).cursor == if k.Header? then k.section else st.cursor
    ensures Step(st, k).bodies[s] == st.bodies[s] + (if st.cursor == s then Added(k) else [])
  {
    EverySection(s);
    EverySection(st.cursor);
  }

  /** The loop places every line: the cursor stands at the last header, and
      every section holds, in order, the non-blank content lines read while
      the cursor stood at it, each with its line break. */
  lemma {:induction false} ScanPlaces(ks: seq<LineKind>)
    ensures Scan(ks).cursor == Cursor(ks)
    ensures forall s :: s in AllSections ==> Scan(ks).bodies[s] == Placed(ks, s)
  {
    if ks != [] {
      var init := ks[..|ks| - 1];
      ScanPlaces(init);
      StepPlaces(Scan(init), ks[|ks| - 1], Other);
      forall s | s in AllSections
        ensures Scan(ks).bodies[s] == Placed(ks, s)
      {
        StepPlaces(Scan(init), ks[|ks| - 1], s);
      }
    }
  }

  /** Each section `extract_job_sections` returns is the text placed in it,
      stripped. */
  lemma SectionsArePlaced(description: string, s: Section)
    ensures SectionsOf(description)[s] == Strip(Placed(Kinds(Split(description, '\n')), s))
  {
    EverySection(s);
    ScanPlaces(Kinds(Split(description, '\n')));
  }

  /** The lines, each taken as content. */
  function Contents(lines: seq<string>): seq<LineKind>
  {
    seq(|lines|, i requires 0 <= i < |lines| => Content(lines[i]))
  }

  /** When no line is a header, every line is content. */
  lemma NoHeaderLines(lines: seq<string>)
    requires forall l :: l in lines ==> Classify(l).Content?
    ensures Kinds(lines) == Contents(lines)
  {
    forall i | 0 <= i < |lines|
      ensures Kinds(lines)[i] == Contents(lines)[i]
    {
      assert lines[i] in lines;
    }
  }

  /** Without header lines the cursor stays at `other` and nothing reaches
      another section. */
  lemma {:induction false} ContentsStayOther(lines: seq<string>)
    ensures Scan(Contents(lines)).cursor == Other
    ensures forall s :: s in AllSections && s != Other ==> Scan(Contents(lines)).bodies[s] == []
  {
    if lines != [] {
      var init := lines[..|lines| - 1];
      assert Contents(lines)[..|lines| - 1] == Contents(init);
      ContentsStayOther(init);
    }
  }

  /** No line is blank. */
  predicate NoBlankLines(lines: seq<string>)
  {
    forall l :: l in lines ==> !AllSpace(l)
  }

  /** Without header lines, and with no blank line, `other` is the lines
      joined, plus a final line break. */
  lemma {:induction false} NoHeadersAllOther(lines: seq<string>)
    requires lines != [] && NoBlankLines(lines)
    ensures Scan(Contents(lines)).bodies[Other] == Join(lines, "\n") + "\n"
  {
    var init, line := lines[..|lines| - 1], lines[|lines| - 1];
    var prev := Scan(Contents(init));
    OtherTakesLastLine(lines);
    if init == [] {
      assert Contents(init) == [] && prev.bodies[Other] == [];
      assert Join(lines, "\n") == line;
    } else {
      assert NoBlankLines(init) by {
        assert forall l :: l in init ==> l in lines;
      }
      var front := Join(init, "\n");
      assert prev.bodies[Other] == front + "\n" by {
        NoHeadersAllOther(init);
      }
      assert Join(lines, "\n") == front + "\n" + line by {
        JoinSnoc(init, line, "\n");
      }
    }
  }

  /** Without header lines, the last non-blank line goes to `other`. */
  lemma OtherTakesLastLine(lines: seq<string>)
    requires lines != [] && NoBlankLines(lines)
    ensures lines == lines[..|lines| - 1] + [lines[|lines| - 1]]
    ensures Scan(Contents(lines)).bodies[Other]
      == Scan(Contents(lines[..|lines| - 1])).bodies[Other] + lines[|lines| - 1] + "\n"
  {
    var ks := Contents(lines);
    var init, line := lines[..|lines| - 1], lines[|lines| - 1];
    assert ks[..|ks| - 1] == Contents(init);
    assert line in lines;
    ContentsStayOther(init);
  }

  /** A cleaned description without a header line comes back whole as the
      `other` section, and every other section is empty. */
  lemma CleanTextWithoutHeaders(description: string)
    requires forall l :: l in Split(Normalizer.Clean(description), '\n') ==> Classify(l).Content?
    ensures SectionsOf(Normalizer.Clean(description))[Other] == Normalizer.Clean(description)
    ensures forall s :: s in AllSections && s != Other ==> SectionsOf(Normalizer.Clean(description))[s] == []
  {
    var c := Normalizer.Clean(description);
    var lines := Split(c, '\n');
    NoHeaderLines(lines);
    ContentsStayOther(lines);
    if c == [] {
      EmptyTextAllEmpty();
    } else {
      CleanLinesNotBlank(description);
      NoHeadersAllOther(lines);
      StripTrailingBreak(c);
    }
  }

  /** Empty text gives five empty sections. */
  lemma EmptyTextAllEmpty()
    ensures forall s :: s in AllSections ==> SectionsOf("")[s] == []
  {
    var lines := Split("", '\n');
    assert lines == [""];
    var ks := Kinds(lines);
    assert ks[..0] == [];
    ScanPlaces(ks);
    forall s | s in AllSections
      ensures SectionsOf("")[s] == []
    {
      assert Placed(ks, s) == Placed(ks[..0], s);
    }
  }

  /** The lines of a non-empty cleaned description are all non-blank, and
      joined they give the description back. */
  lemma CleanLinesNotBlank(description: string)
    requires Normalizer.Clean(description) != []
    ensures NoBlankLines(Split(Normalizer.Clean(description), '\n'))
    ensures Join(Split(Normalizer.Clean(description), '\n'), "\n") == Normalizer.Clean(description)
  {
    var lines := Split(Normalizer.Clean(description), '\n');
    Normalizer.LinesOfClean(description);
    Normalizer.SplitJoinBack(description);
    forall l | l in lines
      ensures !AllSpace(l)
    {
      assert Normalizer.NormalLine(l);
    }
  }
}
