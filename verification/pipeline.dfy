/**
 * `process_job_description`: the description is cleaned once, and the
 * sections, the keywords and the two counts are all taken from the cleaned
 * text. The stages are plain calls, so the pipeline is a function.
 */
module Pipeline {
  import opened Strings
  import Normalizer
  import Sections
  import Keywords

  /** The dict the pipeline returns. */
  datatype ProcessedDescription = ProcessedDescription(
    descriptionClean: string,
    descriptionStructured: map<Sections.Section, string>,
    keywords: set<string>,
    wordCount: nat,
    lineCount: nat)

  /** `process_job_description`: the description is cleaned, and the
      sections, keywords and counts are taken from the clean text. Splitting
      always gives at least one line. */
  function ProcessJobDescription(description: string): (r: ProcessedDescription)
    ensures r.lineCount >= 1
  {
    var clean := Normalizer.Clean(description);
    ProcessedDescription(clean, Sections.SectionsOf(clean), Keywords.KeywordsOf(clean),
      |Words(clean)|, |Split(clean, '\n')|)
  }

  /** Feeding the cleaned text back in changes nothing. */
  lemma ProcessingCleanTextAgain(description: string)
    ensures ProcessJobDescription(Normalizer.Clean(description)) == ProcessJobDescription(description)
  {
    Normalizer.CleanIdempotent(description);
  }

  /** The line count is the number of non-blank lines of the description,
      and 1 when there are none (splitting `""` gives one empty piece). */
  lemma LineCountIsNonBlankLines(description: string)
    ensures var kept := Normalizer.CleanLines(Split(Normalizer.NormalizeBreaks(description), '\n'));
      ProcessJobDescription(description).lineCount == if description == [] || kept == [] then 1 else |kept|
  {
    CleanLineCount(description);
  }

  /** The lines of the cleaned text are the non-blank lines kept, or the one
      empty piece of `""`. */
  lemma CleanLineCount(description: string)
    ensures var kept := Normalizer.CleanLines(Split(Normalizer.NormalizeBreaks(description), '\n'));
      |Split(Normalizer.Clean(description), '\n')| == if description == [] || kept == [] then 1 else |kept|
  {
    var kept := Normalizer.CleanLines(Split(Normalizer.NormalizeBreaks(description), '\n'));
    var c := Normalizer.Clean(description);
    if description != [] {
      Normalizer.FinalCleanupNoOp(description);
      assert c == Join(kept, "\n");
      if kept != [] {
        assert Normalizer.NormalLine(kept[0]);
        assert |Join(kept, "\n")| >= |kept[0]|;
        Normalizer.LinesOfClean(description);
      }
    }
  }

  /** The word count counts the words of the cleaned text: whitespace-free
      pieces which, joined by single spaces, give the text with its line
      breaks made spaces; it is 0 exactly when the cleaned text is empty. */
  lemma WordCountCountsWords(description: string)
    ensures var clean := Normalizer.Clean(description);
      (forall w :: w in Words(clean) ==> IsWord(w))
      && Join(Words(clean), " ") == Strip(CollapseWs(clean))
      && (ProcessJobDescription(description).wordCount == 0 <==> clean == [])
  {
    var clean := Normalizer.Clean(description);
    WordsAreWords(clean);
    NoWords(clean);
    Normalizer.LinesOfClean(description);
    if clean != [] {
      assert !IsSpace(clean[0]);
    }
  }

  /** An empty description: empty text, no words, one line, no keywords and
      five empty sections. */
  lemma EmptyDescription()
    ensures ProcessJobDescription("").descriptionClean == []
    ensures ProcessJobDescription("").wordCount == 0 && ProcessJobDescription("").lineCount == 1
    ensures ProcessJobDescription("").keywords == {}
    ensures forall s :: s in Sections.AllSections ==> ProcessJobDescription("").descriptionStructured[s] == []
  {
    assert Normalizer.Clean("") == [];
    assert Split("", '\n') == [""];
    Keywords.EmptyHasNone();
    Sections.EmptyTextAllEmpty();
  }
}
