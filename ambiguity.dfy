/** Ambiguity detectors: the keyword-and-word-count rule, the detector that
    delegates to a caller-supplied check, and the server's default detector
    that never reports ambiguity. */
module Ambiguity {
  import opened Wrappers
  import opened Text
  import opened Sequences

  /** The keywords used when the caller gives none. */
  const DefaultKeywords: seq<string> := [
    "what", "which", "how many", "how much", "any",
    "all", "can you", "could you", "would you", "should you"
  ]

  /** Queries with fewer words than this are ambiguous. */
  const MinWords: nat := 3

  datatype Detector =
    | Simple(keywords: set<string>)
      /** The outcome of the callback: its answer, or the message of what it raised. */
    | Callback(check: string -> Result<bool, string>)
    | NeverAmbiguous

  /** `SimpleAmbiguityDetector(ambiguous_keywords)`: `set(keywords or defaults)`,
      so that both an absent and an empty list select the defaults. */
  function NewSimple(keywords: Option<seq<string>>): (d: Detector)
    ensures d.Simple?
    ensures keywords.None? || keywords.value == [] ==> d.keywords == set k | k in DefaultKeywords
    ensures keywords.Some? && keywords.value != [] ==> forall k :: k in d.keywords <==> k in keywords.value
  {
    if keywords.None? || keywords.value == [] then Simple(set k | k in DefaultKeywords)
    else Simple(set k | k in keywords.value)
  }

  /** The ten defaults are ten different keywords. */
  lemma DefaultKeywordCount()
    ensures |NewSimple(None).keywords| == 10
  {
    assert Distinct(DefaultKeywords) by {
      forall i, j | 0 <= i < j < |DefaultKeywords|
        ensures DefaultKeywords[i] != DefaultKeywords[j]
      {
        DefaultKeywordsDiffer(i, j);
      }
    }
    DistinctCardinality(DefaultKeywords);
  }

  /** Two default keywords at different positions differ in their length or in
      one of their first six characters. */
  lemma DefaultKeywordsDiffer(i: int, j: int)
    requires 0 <= i < j < |DefaultKeywords|
    ensures DefaultKeywords[i] != DefaultKeywords[j]
  {
    var a := DefaultKeywords[i];
    var b := DefaultKeywords[j];
    if |a| == |b| {
      assert a[0] != b[0] || a[1] != b[1] || a[5] != b[5];
    }
  }

  /** Some keyword occurs in the lower-cased query (Python's `keyword in query_lower`). */
  predicate HasKeyword(keywords: set<string>, query: string) {
    exists k :: k in keywords && Contains(Lower(query), k)
  }

  /** `len(query.lower().split()) < 3` */
  predicate TooShort(query: string) {
    |Words(Lower(query))| < MinWords
  }

  /** `is_ambiguous(query)` */
  function IsAmbiguous(d: Detector, query: string): (r: bool)
    ensures d.Simple? ==> (r <==> HasKeyword(d.keywords, query) || TooShort(query))
    ensures d.Callback? ==> (r <==> d.check(query).Failure? || d.check(query).value)
    ensures d.NeverAmbiguous? ==> !r
  {
    match d
    case Simple(keywords) => HasKeyword(keywords, query) || TooShort(query)
    case Callback(check) =>
      (match check(query)
       case Success(answer) => answer
       case Failure(_) => true)
    case NeverAmbiguous => false
  }

  /** A keyword that holds an upper-case ASCII letter never matches, because
      the query it is compared against has been lower-cased. */
  lemma UpperCaseKeywordNeverMatches(k: string, query: string, i: int)
    requires 0 <= i < |k| && IsAsciiUpper(k[i])
    ensures !Contains(Lower(query), k)
  {
    var low := Lower(query);
    forall p: nat | p <= |low| ensures !SubstringAt(low, k, p) {
      if p + |k| <= |low| {
        assert low[p..p + |k|][i] == low[p + i];
      }
    }
  }

  /** Lower-casing a query first does not change the verdict. */
  lemma CaseInsensitive(d: Detector, query: string)
    requires d.Simple?
    ensures IsAmbiguous(d, Lower(query)) == IsAmbiguous(d, query)
  {
    LowerIdempotent(query);
  }

  /** Lower-casing keeps the word boundaries of a text, so the word count is
      that of the original query. */
  lemma {:induction false} WordsOfLower(s: string)
    ensures |Words(Lower(s))| == |Words(s)|
    decreases |s|
  {
    var t := TrimLeft(s);
    TrimLeftOfLower(s);
    if t != [] {
      var w := Word(t);
      WordOfLower(t);
      var rest := t[|w|..];
      LowerSuffix(t, |w|);
      WordsOfLower(rest);
      WordsStep(s);
      WordsStep(Lower(s));
    }
  }

  /** One step of `split()`: strip leading whitespace, take a word, go on. */
  lemma WordsStep(s: string)
    ensures TrimLeft(s) == [] ==> Words(s) == []
    ensures TrimLeft(s) != [] ==>
      |Words(s)| == 1 + |Words(TrimLeft(s)[|Word(TrimLeft(s))|..])|
  {
  }

  lemma LowerSuffix(s: string, n: nat)
    requires n <= |s|
    ensures Lower(s)[n..] == Lower(s[n..])
  {
  }

  lemma {:induction false} TrimLeftOfLower(s: string)
    ensures TrimLeft(Lower(s)) == Lower(TrimLeft(s))
    decreases |s|
  {
    if s != [] {
      LowerPreservesSpace(s, 0);
      assert Lower(s)[1..] == Lower(s[1..]);
      TrimLeftOfLower(s[1..]);
    }
  }

  lemma {:induction false} WordOfLower(s: string)
    ensures Word(Lower(s)) == Lower(Word(s))
    decreases |s|
  {
    if s != [] {
      LowerPreservesSpace(s, 0);
      assert Lower(s)[1..] == Lower(s[1..]);
      WordOfLower(s[1..]);
      if !IsSpace(s[0]) {
        assert Lower(s)[0] == LowerChar(s[0]);
        LowerConcat([s[0]], Word(s[1..]));
      }
    }
  }

  /** The word count of the rule is the word count of the query as typed. */
  lemma WordCountIgnoresCase(query: string)
    ensures |Words(Lower(query))| == |Words(query)|
  {
    WordsOfLower(query);
  }

  /** A query with a default keyword, whatever its case, is ambiguous. */
  lemma DefaultKeywordScenario(prefix: string, suffix: string)
    ensures IsAmbiguous(NewSimple(None), prefix + "What" + suffix)
  {
    var q := prefix + "What" + suffix;
    LowerConcat(prefix + "What", suffix);
    LowerConcat(prefix, "What");
    assert Lower("What") == "what";
    assert Contains(Lower("What"), "what") by {
      assert SubstringAt(Lower("What"), "what", 0);
    }
    ContainsInRight(Lower(prefix), Lower("What"), "what");
    ContainsInLeft(Lower(prefix) + Lower("What"), Lower(suffix), "what");
    assert "what" in DefaultKeywords;
  }

  /** A detector whose callback raises treats the query as ambiguous. */
  lemma FailingCallbackIsCautious(check: string -> Result<bool, string>, query: string)
    requires check(query).Failure?
    ensures IsAmbiguous(Callback(check), query)
  {
  }
}
