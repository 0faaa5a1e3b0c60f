/**
 * GenerationMetrics (tests/evaluation_metrics.py), heuristic part: the
 * lexical faithfulness and relevancy scores and the response length. Scores
 * are exact rationals (`real`): the rounding of Python's float division and
 * multiplication is not modelled.
 */
module Generation {
  import opened Text
  import opened Ratios

  /** The stop words `calculate_faithfulness` ignores. */
  const FaithfulnessStopWords: set<string> := {
    "the", "a", "an", "and", "or", "but", "in", "on", "at", "to", "for",
    "of", "with", "is", "are", "was", "were", "be", "been", "being",
    "have", "has", "had", "do", "does", "did", "will", "would", "could",
    "should", "may", "might", "can", "this", "that", "these", "those"}

  /** The stop words `calculate_relevancy` ignores: common words and question words. */
  const RelevancyStopWords: set<string> := {
    "the", "a", "an", "and", "or", "but", "in", "on", "at", "to", "for",
    "of", "with", "is", "are", "was", "were", "be", "been", "being",
    "what", "how", "why", "when", "where", "who", "which", "explain",
    "describe", "discuss", "provide"}

  /** A word survives the filter: not a stop word and longer than three characters. */
  predicate IsContentWord(w: string, stopWords: set<string>) {
    w !in stopWords && |w| > 3
  }

  /** `[w for w in words if w not in stop_words and len(w) > 3]`. */
  function ContentWords(words: seq<string>, stopWords: set<string>): (kept: seq<string>)
    ensures |kept| <= |words|
    ensures forall i | 0 <= i < |kept| :: IsContentWord(kept[i], stopWords) && kept[i] in words
    ensures forall i | 0 <= i < |words| && IsContentWord(words[i], stopWords) :: words[i] in kept
  {
    if words == [] then []
    else if IsContentWord(words[0], stopWords) then [words[0]] + ContentWords(words[1..], stopWords)
    else ContentWords(words[1..], stopWords)
  }

  /** The filter keeps order and multiplicity: filtering a concatenation is concatenating
      the filtered parts. */
  lemma {:induction false} ContentWordsAppend(a: seq<string>, b: seq<string>, stopWords: set<string>)
    ensures ContentWords(a + b, stopWords) == ContentWords(a, stopWords) + ContentWords(b, stopWords)
  {
    if a == [] {
      assert a + b == b;
    } else {
      assert (a + b)[0] == a[0];
      assert (a + b)[1..] == a[1..] + b;
      ContentWordsAppend(a[1..], b, stopWords);
    }
  }

  /** `sum(1 for w in words if w in text)`. */
  function CountContained(words: seq<string>, text: string): (n: nat)
    ensures n <= |words|
    ensures n == |words| <==> forall i | 0 <= i < |words| :: Contains(text, words[i])
  {
    if words == [] then 0
    else (if Contains(text, words[0]) then 1 else 0) + CountContained(words[1..], text)
  }

  /** Every occurrence in the word list is counted, repeated words included: counts add
      up over a concatenation. */
  lemma {:induction false} CountContainedAppend(a: seq<string>, b: seq<string>, text: string)
    ensures CountContained(a + b, text) == CountContained(a, text) + CountContained(b, text)
  {
    if a == [] {
      assert a + b == b;
    } else {
      assert (a + b)[0] == a[0];
      assert (a + b)[1..] == a[1..] + b;
      CountContainedAppend(a[1..], b, text);
    }
  }

  /** A text that contains every word the other one contains counts at least as many. */
  lemma {:induction false} CountContainedMonotone(words: seq<string>, text: string, wider: string)
    requires forall w | Contains(text, w) :: Contains(wider, w)
    ensures CountContained(words, text) <= CountContained(words, wider)
  {
    if words != [] {
      CountContainedMonotone(words[1..], text, wider);
    }
  }

  lemma CountAllContained(words: seq<string>, text: string)
    requires forall w | w in words :: Contains(text, w)
    ensures CountContained(words, text) == |words|
  {
    forall i | 0 <= i < |words| ensures Contains(text, words[i]) {
      assert words[i] in words;
    }
  }

  /** `min(x, 1.0)`. */
  function AtMostOne(x: real): (r: real)
    ensures r <= 1.0 && r <= x && (r == x || r == 1.0)
  {
    if x <= 1.0 then x else 1.0
  }


  // ---------------------------------------------------------------------------
  // Faithfulness

  /** The significant words of the lower-cased response. */
  function ResponseContentWords(response: string): seq<string> {
    ContentWords(FindWords(LowerString(response)), FaithfulnessStopWords)
  }

  /** `" ".join(context).lower()`. */
  function GroundingText(context: seq<string>): string {
    LowerString(Join(context))
  }

  /** `calculate_faithfulness`: the fraction of significant response words that occur
      as a substring of the lower-cased, space-joined context. */
  function Faithfulness(response: string, context: seq<string>): (score: real)
    ensures 0.0 <= score <= 1.0
    ensures response == "" || context == [] ==> score == 0.0
  {
    if response == "" || context == [] then 0.0
    else
      var words := ResponseContentWords(response);
      if words == [] then 0.5
      else
        var grounded := CountContained(words, GroundingText(context));
        FractionInUnitInterval(grounded, |words|);
        AtMostOne(grounded as real / |words| as real)
  }

  /** A response with no significant word gets the neutral score 0.5. */
  lemma FaithfulnessNeutral(response: string, context: seq<string>)
    requires response != "" && context != [] && ResponseContentWords(response) == []
    ensures Faithfulness(response, context) == 0.5
  {
  }

  /** With something to score, faithfulness is exactly grounded/total: the clamp to 1.0 never bites. */
  lemma FaithfulnessIsGroundedFraction(response: string, context: seq<string>)
    requires response != "" && context != [] && ResponseContentWords(response) != []
    ensures Faithfulness(response, context) ==
      CountContained(ResponseContentWords(response), GroundingText(context)) as real / |ResponseContentWords(response)| as real
  {
    var words := ResponseContentWords(response);
    FractionInUnitInterval(CountContained(words, GroundingText(context)), |words|);
  }

  /** Every significant word found in the context gives a faithfulness of exactly 1.0. */
  lemma FaithfulnessFullyGrounded(response: string, context: seq<string>)
    requires response != "" && context != []
    requires ResponseContentWords(response) != []
    requires forall w | w in ResponseContentWords(response) :: Contains(GroundingText(context), w)
    ensures Faithfulness(response, context) == 1.0
  {
    var words := ResponseContentWords(response);
    var text := GroundingText(context);
    assert CountContained(words, text) == |words| by {
      CountAllContained(words, text);
    }
    FaithfulnessIsGroundedFraction(response, context);
    WholeFraction(|words|);
  }

  /** Appending a passage to the context keeps every occurrence of a word. */
  lemma {:induction false} GroundingTextGrows(context: seq<string>, passage: string, w: string)
    requires context != []
    requires Contains(GroundingText(context), w)
    ensures Contains(GroundingText(context + [passage]), w)
  {
    JoinSnoc(context, passage);
    LowerStringAppend(Join(context), " " + passage);
    assert Join(context + [passage]) == Join(context) + (" " + passage);
    ContainsAppend(GroundingText(context), LowerString(" " + passage), w);
  }

  /** Appending a context passage never lowers the faithfulness score. */
  lemma FaithfulnessContextMonotone(response: string, context: seq<string>, passage: string)
    ensures Faithfulness(response, context) <= Faithfulness(response, context + [passage])
  {
    var words := ResponseContentWords(response);
    if response != "" && context != [] && words != [] {
      var text, wider := GroundingText(context), GroundingText(context + [passage]);
      forall w | Contains(text, w) ensures Contains(wider, w) {
        GroundingTextGrows(context, passage, w);
      }
      CountContainedMonotone(words, text, wider);
      FaithfulnessIsGroundedFraction(response, context);
      FaithfulnessIsGroundedFraction(response, context + [passage]);
      DivideMonotone(CountContained(words, text), CountContained(words, wider), |words|);
    }
  }



  // ---------------------------------------------------------------------------
  // Relevancy

  /** The key terms of the lower-cased query. */
  function QueryTerms(query: string): seq<string> {
    ContentWords(FindWords(LowerString(query)), RelevancyStopWords)
  }

  /** The length factor: 0.7 below 50 characters, 0.9 above 1000, 1.0 in between. */
  function LengthPenalty(response: string): (penalty: real)
    ensures 0.7 <= penalty <= 1.0
    ensures |response| < 50 <==> penalty == 0.7
    ensures |response| > 1000 <==> penalty == 0.9
    ensures 50 <= |response| <= 1000 <==> penalty == 1.0
  {
    if |response| < 50 then 0.7
    else if |response| > 1000 then 0.9
    else 1.0
  }

  /** `calculate_relevancy`: the fraction of query terms that occur as a substring of the
      lower-cased response, scaled by the length penalty. */
  function Relevancy(query: string, response: string): (score: real)
    ensures 0.0 <= score <= 1.0
    ensures query == "" || response == "" ==> score == 0.0
    ensures |response| < 50 ==> score <= 0.7
  {
    if query == "" || response == "" then 0.0
    else
      var terms := QueryTerms(query);
      if terms == [] then 0.5
      else
        var matching := CountContained(terms, LowerString(response));
        FractionInUnitInterval(matching, |terms|);
        ScaledRatioBound(matching as real / |terms| as real, LengthPenalty(response));
        AtMostOne(matching as real / |terms| as real * LengthPenalty(response))
  }


  /** A query with no key term gets the neutral score 0.5, whatever the response length. */
  lemma RelevancyNeutral(query: string, response: string)
    requires query != "" && response != "" && QueryTerms(query) == []
    ensures Relevancy(query, response) == 0.5
  {
  }

  /** With query terms to score, relevancy is exactly matched/total times the penalty. */
  lemma RelevancyIsPenalisedFraction(query: string, response: string)
    requires query != "" && response != "" && QueryTerms(query) != []
    ensures Relevancy(query, response) ==
      CountContained(QueryTerms(query), LowerString(response)) as real / |QueryTerms(query)| as real
        * LengthPenalty(response)
  {
    var terms := QueryTerms(query);
    var matching := CountContained(terms, LowerString(response));
    FractionInUnitInterval(matching, |terms|);
    ScaledRatioBound(matching as real / |terms| as real, LengthPenalty(response));
  }

  /** A response mentioning every query term scores exactly its length penalty. */
  lemma RelevancyAllTermsMatched(query: string, response: string)
    requires query != "" && response != "" && QueryTerms(query) != []
    requires forall t | t in QueryTerms(query) :: Contains(LowerString(response), t)
    ensures Relevancy(query, response) == LengthPenalty(response)
  {
    var terms := QueryTerms(query);
    assert CountContained(terms, LowerString(response)) == |terms| by {
      CountAllContained(terms, LowerString(response));
    }
    RelevancyIsPenalisedFraction(query, response);
    WholeFraction(|terms|);
  }

  /** The query of the relevancy unit test, "What is the capital of France?", has the key
      terms "capital" and "france": the other words are question words or too short. */
  lemma CapitalQueryTerms()
    ensures QueryTerms(Join(["What", "is", "the", "capital", "of", "France"]) + "?") == ["capital", "france"]
  {
    FindWordsLowerJoinThen(["What", "is", "the", "capital", "of", "France"], '?');
    CapitalQueryLowered();
    CapitalContentWords();
  }

  lemma CapitalQueryLowered()
    ensures LowerAll(["What", "is", "the", "capital", "of", "France"]) == ["what", "is", "the", "capital", "of", "france"]
  {
    assert LowerString("What") == "what";
    assert LowerString("France") == "france";
    assert LowerString("is") == "is" && LowerString("the") == "the";
    assert LowerString("capital") == "capital" && LowerString("of") == "of";
  }

  lemma CapitalContentWords()
    ensures ContentWords(["what", "is", "the", "capital", "of", "france"], RelevancyStopWords) == ["capital", "france"]
  {
    var lowered := ["what", "is", "the", "capital", "of", "france"];
    assert ContentWords(lowered[5..], RelevancyStopWords) == ["france"] by {
      assert "france" !in RelevancyStopWords;
      assert lowered[5..][1..] == [];
    }
    assert ContentWords(lowered[4..], RelevancyStopWords) == ["france"] by {
      assert lowered[4..][1..] == lowered[5..];
    }
    assert ContentWords(lowered[3..], RelevancyStopWords) == ["capital", "france"] by {
      assert "capital" !in RelevancyStopWords;
      assert lowered[3..][1..] == lowered[4..];
    }
    assert ContentWords(lowered[2..], RelevancyStopWords) == ["capital", "france"] by {
      assert lowered[2..][1..] == lowered[3..];
    }
    assert ContentWords(lowered[1..], RelevancyStopWords) == ["capital", "france"] by {
      assert lowered[1..][1..] == lowered[2..];
    }
    assert "what" in RelevancyStopWords;
  }

  /** The response of the relevancy unit test mentions both key terms. */
  lemma CapitalResponseMatches()
    ensures forall t | t in ["capital", "france"] :: Contains(LowerString("The capital of France is Paris."), t)
  {
    var text := LowerString("The capital of France is Paris.");
    assert text[4..11] == "capital" by {
      forall i | 0 <= i < 7 ensures text[4..11][i] == "capital"[i] {
        assert text[4 + i] == Lower("The capital of France is Paris."[4 + i]);
      }
    }
    assert text[15..21] == "france" by {
      forall i | 0 <= i < 6 ensures text[15..21][i] == "france"[i] {
        assert text[15 + i] == Lower("The capital of France is Paris."[15 + i]);
      }
    }
    ContainsAt(text, "capital");
    assert OccursAt(text, "capital", 4);
    ContainsAt(text, "france");
    assert OccursAt(text, "france", 15);
  }

  /** The query's words joined by spaces, followed by the question mark, are the query. */
  lemma CapitalQuerySentence()
    ensures Join(["What", "is", "the", "capital", "of", "France"]) + "?" == "What is the capital of France?"
  {
    var front, back := ["What", "is", "the"], ["capital", "of", "France"];
    assert front + back == ["What", "is", "the", "capital", "of", "France"];
    JoinAppend(front, back);
    assert Join(front) == "What is the";
    assert Join(back) == "capital of France";
    assert "What is the" + " " + "capital of France" + "?" == "What is the capital of France?";
  }

  /** The relevancy unit test: every key term matched, but a response under 50 characters,
      so the score is the 0.7 penalty. */
  lemma RelevancyCapitalOfFrance()
    ensures Relevancy("What is the capital of France?", "The capital of France is Paris.") == 0.7
  {
    var query := "What is the capital of France?";
    var response := "The capital of France is Paris.";
    CapitalQuerySentence();
    CapitalQueryTerms();
    CapitalResponseMatches();
    assert |response| == 31;
    RelevancyAllTermsMatched(query, response);
  }

  // ---------------------------------------------------------------------------
  // Response length

  /** `len(response.split())`: the number of whitespace-separated words. */
  function ResponseLength(response: string): (words: nat)
    ensures words <= |response|
  {
    |SplitWhitespace(response)|
  }

  /** Blank text (empty or whitespace only) has no words. */
  lemma ResponseLengthBlank(response: string)
    requires forall i | 0 <= i < |response| :: IsSpace(response[i])
    ensures ResponseLength(response) == 0
  {
    RunsNone(response, IsNotSpace);
  }

  /** Word counts add up across a whitespace separator. */
  lemma ResponseLengthSplit(a: string, sep: char, b: string)
    requires IsSpace(sep)
    ensures ResponseLength(a + [sep] + b) == ResponseLength(a) + ResponseLength(b)
  {
    RunsSplit(a, sep, b, IsNotSpace);
  }

  /** A run of non-whitespace characters is one word. */
  lemma ResponseLengthOneWord(w: string)
    requires w != [] && forall i | 0 <= i < |w| :: !IsSpace(w[i])
    ensures ResponseLength(w) == 1
  {
    RunsAll(w, IsNotSpace);
  }

  /** A space-joined list of non-empty, space-free words has one word per entry. */
  lemma {:induction false} ResponseLengthJoin(words: seq<string>)
    requires forall k | 0 <= k < |words| :: words[k] != [] && forall i | 0 <= i < |words[k]| :: !IsSpace(words[k][i])
    ensures ResponseLength(Join(words)) == |words|
  {
    if words == [] {
      RunsNone([], IsNotSpace);
    } else if |words| == 1 {
      ResponseLengthOneWord(words[0]);
    } else {
      ResponseLengthJoin(words[1..]);
      ResponseLengthOneWord(words[0]);
      assert Join(words) == words[0] + [' '] + Join(words[1..]);
      ResponseLengthSplit(words[0], ' ', Join(words[1..]));
    }
  }

  /** The sentence of the response-length unit test has ten words. */
  lemma ResponseLengthTenWords()
    ensures ResponseLength("This is a test response with ten words in it.") == 10
  {
    var words := ["This", "is", "a", "test", "response", "with", "ten", "words", "in", "it."];
    assert ResponseLength(Join(words)) == 10 by {
      ResponseLengthJoin(words);
    }
    TenWordsSentence();
  }

  /** The ten words of the unit test, joined by single spaces, are its sentence. */
  lemma TenWordsSentence()
    ensures Join(["This", "is", "a", "test", "response", "with", "ten", "words", "in", "it."])
            == "This is a test response with ten words in it."
  {
    var front, back := ["This", "is", "a", "test", "response"], ["with", "ten", "words", "in", "it."];
    assert front + back == ["This", "is", "a", "test", "response", "with", "ten", "words", "in", "it."];
    JoinAppend(front, back);
    TenWordsHalves();
  }

  lemma TenWordsHalves()
    ensures Join(["This", "is", "a", "test", "response"]) + " " + Join(["with", "ten", "words", "in", "it."])
            == "This is a test response with ten words in it."
  {
    TenWordsFront();
    TenWordsBack();
    assert "This is a test response" + " " + "with ten words in it." == "This is a test response with ten words in it.";
  }

  lemma TenWordsFront()
    ensures Join(["This", "is", "a", "test", "response"]) == "This is a test response"
  {
  }

  lemma TenWordsBack()
    ensures Join(["with", "ten", "words", "in", "it."]) == "with ten words in it."
  {
  }
}
