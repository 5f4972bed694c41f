/**
 * The quiz controller of scripts.js: the mutable `currentQuizVerse` and the
 * handlers `startQuiz`, `checkAnswer`, `showAnswer` and `nextQuestion`,
 * without their DOM writes.
 */
module Quiz {
  import opened Wrappers
  import opened Similarity

  /** A saved verse as the quiz reads it: its id, its reference and its text. */
  datatype Verse = Verse(id: int, reference: string, text: string)

  /** `startQuiz` refuses to run on fewer verses than this. */
  const MinQuizVerses: nat := 3

  datatype QuizError = TooFewVerses

  /** What `showAnswer` displays. */
  datatype Reveal = Reveal(reference: string, text: string)

  /** The retry loop of `startQuiz` stops on a verse whose id differs from the current one, or on any verse when there is none. */
  predicate Fresh(previous: Option<Verse>, v: Verse) {
    previous.None? || v.id != previous.value.id
  }

  /** Each draw stands for one `Math.floor(Math.random() * verses.length)`: an index into the pool. */
  predicate DrawsInRange(pool: seq<Verse>, draws: seq<nat>) {
    forall k :: 0 <= k < |draws| ==> draws[k] < |pool|
  }

  /** Some draw picks a verse the loop accepts, so the loop ends. */
  predicate SomeDrawFresh(pool: seq<Verse>, draws: seq<nat>, previous: Option<Verse>)
    requires DrawsInRange(pool, draws)
  {
    exists k :: 0 <= k < |draws| && Fresh(previous, pool[draws[k]])
  }

  /** The number of the draw on which the retry loop stops: the first one that picks a fresh verse. */
  function FirstFresh(pool: seq<Verse>, draws: seq<nat>, previous: Option<Verse>): (k: nat)
    requires DrawsInRange(pool, draws) && SomeDrawFresh(pool, draws, previous)
    ensures k < |draws| && Fresh(previous, pool[draws[k]])
    ensures forall m :: 0 <= m < k ==> !Fresh(previous, pool[draws[m]])
  {
    if Fresh(previous, pool[draws[0]]) then 0
    else
      assert SomeDrawFresh(pool, draws[1..], previous) by {
        var k :| 0 <= k < |draws| && Fresh(previous, pool[draws[k]]);
        assert draws[1..][k - 1] == draws[k];
      }
      1 + FirstFresh(pool, draws[1..], previous)
  }

  class QuizSession {
    /** `currentQuizVerse`: the verse being asked, if any. */
    var current: Option<Verse>

    /** The page starts with no verse asked. */
    constructor ()
      ensures current == None
    {
      current := None;
    }

    /**
     * `startQuiz`: refuses a pool of fewer than three verses and leaves the
     * session alone; otherwise draws from the pool until the verse differs in
     * id from the current one and makes it current.
     */
    method StartQuiz(pool: seq<Verse>, draws: seq<nat>) returns (r: Result<Verse, QuizError>)
      requires |pool| >= MinQuizVerses ==> DrawsInRange(pool, draws) && SomeDrawFresh(pool, draws, current)
      modifies this
      ensures |pool| < MinQuizVerses ==> r == Err(TooFewVerses) && current == old(current)
      ensures |pool| >= MinQuizVerses ==>
        r == Ok(pool[draws[FirstFresh(pool, draws, old(current))]]) && current == Some(r.value)
      ensures r.Ok? ==> r.value in pool && Fresh(old(current), r.value)
    {
      if |pool| < MinQuizVerses {
        return Err(TooFewVerses);
      }
      ghost var k0 := FirstFresh(pool, draws, current);
      var k := 0;
      var chosen := pool[draws[0]];
      while current.Some? && chosen.id == current.value.id
        invariant k <= k0 && chosen == pool[draws[k]]
        decreases k0 - k
      {
        k := k + 1;
        chosen := pool[draws[k]];
      }
      current := Some(chosen);
      return Ok(chosen);
    }

    /** `nextQuestion`: asks another verse, exactly as `startQuiz` does. */
    method NextQuestion(pool: seq<Verse>, draws: seq<nat>) returns (r: Result<Verse, QuizError>)
      requires |pool| >= MinQuizVerses ==> DrawsInRange(pool, draws) && SomeDrawFresh(pool, draws, current)
      modifies this
      ensures |pool| < MinQuizVerses ==> r == Err(TooFewVerses) && current == old(current)
      ensures |pool| >= MinQuizVerses ==>
        r == Ok(pool[draws[FirstFresh(pool, draws, old(current))]]) && current == Some(r.value)
      ensures r.Ok? ==> r.value in pool && Fresh(old(current), r.value)
    {
      r := StartQuiz(pool, draws);
    }

    /**
     * `checkAnswer`: nothing without a current verse; otherwise the feedback
     * for the answer against the verse's text. The session is not changed.
     */
    method CheckAnswer(answer: string) returns (f: Option<Feedback>)
      ensures f.None? <==> current.None?
      ensures f.Some? ==> f.value == Grade(answer, current.value.text)
      ensures f.Some? ==> (f.value.correction.None? <==> f.value.tier == Excellent)
      ensures f.Some? && f.value.correction.Some? ==> f.value.correction.value == current.value.text
    {
      if current.None? {
        return None;
      }
      f := Some(Grade(answer, current.value.text));
    }

    /** `showAnswer`: the current verse's reference and text, or nothing; the session is not changed. */
    method ShowAnswer() returns (shown: Option<Reveal>)
      ensures shown.None? <==> current.None?
      ensures shown.Some? ==> shown.value == Reveal(current.value.reference, current.value.text)
    {
      if current.None? {
        return None;
      }
      shown := Some(Reveal(current.value.reference, current.value.text));
    }
  }

  /**
   * A pool of two verses is refused; with three verses two questions in a row
   * are never the same verse, and grading does not change the question.
   */
  method QuizWalkthrough(a: Verse, b: Verse, c: Verse, draws1: seq<nat>, draws2: seq<nat>)
    requires DrawsInRange([a, b, c], draws1) && DrawsInRange([a, b, c], draws2) && |draws1| > 0
    requires forall v :: v in [a, b, c] ==> SomeDrawFresh([a, b, c], draws2, Some(v))
  {
    var session := new QuizSession();
    var refused := session.StartQuiz([a, b], []);
    assert refused == Err(TooFewVerses) && session.current == None;
    assert Fresh(None, [a, b, c][draws1[0]]);
    var first := session.StartQuiz([a, b, c], draws1);
    var asked := session.current;
    var feedback := session.CheckAnswer("for god so loved the world");
    assert session.current == asked;
    var second := session.NextQuestion([a, b, c], draws2);
    assert first.value.id != second.value.id;
  }
}
