/**
 * `extract_keywords`: the terms of a fixed vocabulary that occur in the
 * lower-cased description, as plain substrings. The source returns
 * `list(set(found))`, whose order depends on string hashing, so the result
 * is modelled as a set.
 */
module Keywords {
  import opened Strings

  /** The technical terms, checked first. */
  const TechKeywords: seq<string> := [
    "sql", "database", "azure", "cloud", "python", "javascript", "java",
    "aws", "docker", "kubernetes", "git", "agile", "scrum", "devops",
    "api", "rest", "microservices", "machine learning", "ai", "data",
    "analytics", "etl", "data warehouse", "bi", "power bi", "ssis",
    "ssas", "ssrs", "aoag", "replication"]

  /** The job terms, checked second. */
  const JobKeywords: seq<string> := [
    "engineer", "developer", "analyst", "manager", "architect",
    "administrator", "specialist", "consultant", "lead", "senior",
    "junior", "entry", "full-time", "part-time", "contract",
    "remote", "hybrid", "onsite"]

  /** Every term the extractor looks for. */
  const Vocabulary: seq<string> := TechKeywords + JobKeywords

  /** The keywords of a description: every vocabulary term that is a
      substring of its lower-cased text. */
  function KeywordsOf(description: string): set<string>
  {
    set k | k in Vocabulary && Contains(Lower(description), k)
  }

  /** The extractor as the source writes it: one pass over each list,
      appending every term found, then the duplicates removed. */
  method ExtractKeywords(description: string) returns (keywords: set<string>)
    ensures keywords == KeywordsOf(description)
  {
    var textLower := Lower(description);
    var found := CheckTerms(TechKeywords, textLower, []);
    found := CheckTerms(JobKeywords, textLower, found);
    keywords := set k | k in found;
  }

  /** `for keyword in words: if keyword in text: found.append(keyword)`. */
  method CheckTerms(words: seq<string>, text: string, found: seq<string>) returns (result: seq<string>)
    ensures forall k :: k in result <==> k in found || (k in words && Contains(text, k))
  {
    result := found;
    for i := 0 to |words|
      invariant forall k :: k in result <==> k in found || (k in words[..i] && Contains(text, k))
    {
      assert words[..i + 1] == words[..i] + [words[i]];
      if Contains(text, words[i]) {
        result := result + [words[i]];
      }
    }
    assert words[..|words|] == words;
  }

  /** A term found means every vocabulary term inside it is found too. */
  lemma FoundWithin(description: string, outer: string, inner: string)
    requires outer in KeywordsOf(description)
    requires inner in Vocabulary && Contains(outer, inner)
    ensures inner in KeywordsOf(description)
  {
    ContainsTransitive(Lower(description), outer, inner);
  }

  /** A description mentioning JavaScript also yields "java". */
  lemma JavascriptImpliesJava(description: string)
    requires "javascript" in KeywordsOf(description)
    ensures "java" in KeywordsOf(description)
  {
    assert "java" <= "javascript";
    assert "java" in Vocabulary;
    FoundWithin(description, "javascript", "java");
  }

  /** Likewise "power bi" yields "bi" and "data warehouse" yields "data". */
  lemma CompoundTermsImplyParts(description: string)
    ensures "power bi" in KeywordsOf(description) ==> "bi" in KeywordsOf(description)
    ensures "data warehouse" in KeywordsOf(description) ==> "data" in KeywordsOf(description)
  {
    assert "bi" in Vocabulary && "data" in Vocabulary;
    assert Contains("power bi", "bi") by {
      assert "bi" <= "power bi"[6..];
      assert "power bi"[6..] == "power bi"[1..][1..][1..][1..][1..][1..];
    }
    assert "data" <= "data warehouse";
    if "power bi" in KeywordsOf(description) {
      FoundWithin(description, "power bi", "bi");
    }
    if "data warehouse" in KeywordsOf(description) {
      FoundWithin(description, "data warehouse", "data");
    }
  }

  /** Lower-casing first makes the search case-insensitive for ASCII letters:
      descriptions that lower-case alike have the same keywords. */
  lemma CaseInsensitive(a: string, b: string)
    requires Lower(a) == Lower(b)
    ensures KeywordsOf(a) == KeywordsOf(b)
  {
  }

  /** An empty description has no keywords. */
  lemma EmptyHasNone()
    ensures KeywordsOf("") == {}
  {
    assert Lower("") == [];
    NoEmptyTerm();
  }

  /** No term of the vocabulary is empty. */
  lemma NoEmptyTerm()
    ensures [] !in Vocabulary
  {
    assert [] !in TechKeywords by {
      forall i | 0 <= i < |TechKeywords|
        ensures TechKeywords[i] != []
      {
      }
    }
    assert [] !in JobKeywords by {
      forall i | 0 <= i < |JobKeywords|
        ensures JobKeywords[i] != []
      {
      }
    }
  }
}
