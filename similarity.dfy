/**
 * `calculateSimilarity` and the three feedback tiers of `checkAnswer`.
 * Scores are exact fractions rather than floating-point numbers.
 */
module Similarity {
  import opened Wrappers
  import opened Levenshtein
  import opened TextNormal

  /** A similarity score held as the exact fraction num / den. */
  datatype Score = Score(num: nat, den: nat) {
    /** A score of [0, 1]: a positive denominator and a numerator no larger. */
    predicate Valid() {
      0 < den && num <= den
    }

    function Value(): real
      requires Valid()
    {
      num as real / den as real
    }

    /** The score is strictly above p / q. */
    predicate Above(p: nat, q: nat) {
      num * q > p * den
    }
  }

  /**
   * `calculateSimilarity(str1, str2)`: one minus the edit distance relative to
   * the longer length; on equal lengths str2 counts as the longer one, and two
   * empty strings score 1.
   */
  function CalculateSimilarity(s1: string, s2: string): (r: Score)
    ensures r.Valid()
    ensures r.num == r.den <==> s1 == s2
  {
    var longer := if |s1| > |s2| then s1 else s2;
    var shorter := if |s1| > |s2| then s2 else s1;
    if |longer| == 0 then Score(1, 1)
    else
      var d := Lev(longer, shorter);
      LevBounds(longer, shorter);
      LevZeroIff(longer, shorter);
      Score(|longer| - d, |longer|)
  }

  /** For nonempty inputs the score is (L - d) / L with L the longer length and d the distance. */
  lemma SimilarityIsRatio(s1: string, s2: string)
    requires Max(|s1|, |s2|) > 0
    ensures Lev(s1, s2) <= Max(|s1|, |s2|)
    ensures CalculateSimilarity(s1, s2) == Score(Max(|s1|, |s2|) - Lev(s1, s2), Max(|s1|, |s2|))
  {
    LevBounds(s1, s2);
    LevSymmetric(s1, s2);
  }

  /** The score does not depend on the order of the arguments, so the tie-break is immaterial. */
  lemma SimilaritySymmetric(s1: string, s2: string)
    ensures CalculateSimilarity(s1, s2) == CalculateSimilarity(s2, s1)
  {
    LevSymmetric(s1, s2);
  }

  /** As a real number a valid score lies in [0, 1] and is 1.0 exactly for equal strings. */
  lemma SimilarityValue(s1: string, s2: string)
    ensures 0.0 <= CalculateSimilarity(s1, s2).Value() <= 1.0
    ensures CalculateSimilarity(s1, s2).Value() == 1.0 <==> s1 == s2
  {
    var r := CalculateSimilarity(s1, s2);
    ValueBounds(r.num, r.den);
  }

  lemma ValueBounds(n: nat, d: nat)
    requires 0 < d && n <= d
    ensures 0.0 <= n as real / d as real <= 1.0
    ensures n as real / d as real == 1.0 <==> n == d
  {
    var v := n as real / d as real;
    assert v * d as real == n as real;
    if v == 1.0 {
      assert n as real == d as real;
    }
  }

  /** Above(p, q) is the comparison value > p / q of `checkAnswer`, carried out exactly. */
  lemma AboveIsRealComparison(s: Score, p: nat, q: nat)
    requires s.Valid() && 0 < q
    ensures s.Above(p, q) <==> s.Value() > p as real / q as real
  {
    var v, t := s.Value(), p as real / q as real;
    assert v * s.den as real == s.num as real;
    assert t * q as real == p as real;
    if v > t {
      assert (v - t) * (s.den as real * q as real) > 0.0;
      assert v * s.den as real * q as real > t * q as real * s.den as real;
    } else {
      assert (t - v) * (s.den as real * q as real) >= 0.0;
      assert v * s.den as real * q as real <= t * q as real * s.den as real;
    }
  }

  datatype Tier = Excellent | Close | KeepPracticing

  /** What `checkAnswer` shows: the tier and, below the top tier, the exact verse. */
  datatype Feedback = Feedback(tier: Tier, correction: Option<string>)

  /** The thresholds of `checkAnswer`: above 0.8 (4 / 5), above 0.6 (3 / 5), otherwise. */
  function Classify(s: Score): Tier {
    if s.Above(4, 5) then Excellent
    else if s.Above(3, 5) then Close
    else KeepPracticing
  }

  /** The tiers as the source writes them, on the real value of the score. */
  lemma ClassifyByValue(s: Score)
    requires s.Valid()
    ensures Classify(s) == Excellent <==> s.Value() > 0.8
    ensures Classify(s) == Close <==> 0.6 < s.Value() <= 0.8
    ensures Classify(s) == KeepPracticing <==> s.Value() <= 0.6
  {
    AboveIsRealComparison(s, 4, 5);
    AboveIsRealComparison(s, 3, 5);
  }

  /** The tiers on the distance d and the longer length L, in integers. */
  lemma TierByDistance(s1: string, s2: string)
    ensures var L, d, t := Max(|s1|, |s2|), Lev(s1, s2), Classify(CalculateSimilarity(s1, s2));
      (L == 0 ==> t == Excellent) &&
      (L > 0 ==> (t == Excellent <==> 5 * (L - d) > 4 * L)) &&
      (L > 0 ==> (t == Close <==> 5 * (L - d) <= 4 * L && 5 * (L - d) > 3 * L))
  {
    if Max(|s1|, |s2|) > 0 {
      SimilarityIsRatio(s1, s2);
    }
  }

  /**
   * The grading of `checkAnswer`: both strings lower-cased and trimmed, the
   * user's answer first; the verse text is the correction below the top tier.
   */
  function Grade(answer: string, verseText: string): Feedback {
    var tier := Classify(CalculateSimilarity(Normalize(answer), Normalize(verseText)));
    Feedback(tier, if tier == Excellent then None else Some(verseText))
  }

  /** An answer equal to the verse up to ASCII case and surrounding whitespace is excellent. */
  lemma GradeExactMatch(answer: string, verseText: string)
    requires Normalize(answer) == Normalize(verseText)
    ensures Grade(answer, verseText) == Feedback(Excellent, None)
  {
  }

  /** A score above 0.8 earns the top tier and no correction; anything else shows the verse. */
  lemma GradeTiers(answer: string, verseText: string)
    ensures var f, v := Grade(answer, verseText), CalculateSimilarity(Normalize(answer), Normalize(verseText)).Value();
      (f.tier == Excellent <==> v > 0.8) &&
      (f.tier == Close <==> 0.6 < v <= 0.8) &&
      (f.tier == KeepPracticing <==> v <= 0.6) &&
      (f.correction.None? <==> v > 0.8) &&
      (f.correction.Some? ==> f.correction.value == verseText)
  {
    ClassifyByValue(CalculateSimilarity(Normalize(answer), Normalize(verseText)));
  }

  /** A case-changed, space-padded recitation of the verse is an exact match. */
  lemma ScenarioCaseAndSpaces()
    ensures Grade("  for god so loved the world\n", "For God so loved the world") == Feedback(Excellent, None)
  {
    NormalizeJohn316();
    NormalizeJohn316Padded();
    GradeExactMatch("  for god so loved the world\n", "For God so loved the world");
  }

  lemma NormalizeJohn316()
    ensures Normalize("For God so loved the world") == "for god so loved the world"
  {
    assert ToLower("For God so loved the world") == "for god so loved the world";
    TrimIdentity("for god so loved the world");
  }

  lemma NormalizeJohn316Padded()
    ensures Normalize("  for god so loved the world\n") == "for god so loved the world"
  {
    var norm := "for god so loved the world";
    assert ToLower("  for god so loved the world\n") == "  " + norm + "\n";
    TrimPadding("  ", norm, "\n");
  }

  /**
   * A verse continued past its end: "the lord is my shepherd" against the
   * same words followed by " i shall not want" are 17 edits apart over 40
   * characters, a score of 0.575, so the verse is shown as a correction.
   */
  lemma ScenarioLongerAnswer()
    ensures Grade("The Lord is my shepherd I shall not want", "The Lord is my shepherd")
      == Feedback(KeepPracticing, Some("The Lord is my shepherd"))
  {
    var short, tail := "the lord is my shepherd", " i shall not want";
    NormalizePsalm23();
    NormalizePsalm23Continued();
    LevAppendExact(short, tail);
    TierByDistance(short + tail, short);
  }

  lemma LowerPsalm23()
    ensures ToLower("The Lord is my shepherd") == "the lord is my shepherd"
  {
  }

  lemma LowerPsalm23Tail()
    ensures ToLower(" I shall not want") == " i shall not want"
  {
  }

  lemma NormalizePsalm23()
    ensures Normalize("The Lord is my shepherd") == "the lord is my shepherd"
  {
    LowerPsalm23();
    TrimIdentity("the lord is my shepherd");
  }

  lemma NormalizePsalm23Continued()
    ensures Normalize("The Lord is my shepherd I shall not want") == "the lord is my shepherd" + " i shall not want"
  {
    LowerPsalm23();
    LowerPsalm23Tail();
    ToLowerConcat("The Lord is my shepherd", " I shall not want");
    assert "The Lord is my shepherd I shall not want" == "The Lord is my shepherd" + " I shall not want";
    TrimIdentity("the lord is my shepherd" + " i shall not want");
  }
}
