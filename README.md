# Verse-memorisation quiz of BibleNotes, modelled in Dafny

BibleNotes is a Bible-journal web application. Its one piece of real logic is the
memorisation quiz in `scripts.js`. The quiz asks for a saved verse by its reference.
It then grades the typed recollection with a Levenshtein-based similarity score and
answers with one of three tiers: "Excellent", "Close" or "Keep practicing".

This project models that quiz and proves its properties:

- `levenshtein.dfy` (module `Levenshtein`): the textbook edit distance `Lev` as a
  recursive function. `EditDistance` fills the (|b|+1) x (|a|+1) table of
  `editDistance` in place with the same nested loops, and is proved to return `Lev(a, b)`.
  Further lemmas prove the bounds, identity, symmetry, and the shortcut that copies
  the diagonal cell on a match.
- `edit_scripts.dfy` (module `EditScripts`): shows that `Lev` really is the fewest
  single-character insertions, deletions and substitutions. No script is cheaper,
  and `OptimalScript` builds a script that costs exactly `Lev`.
- `normalize.dfy` (module `TextNormal`): the `toLowerCase().trim()` that `checkAnswer`
  applies to both strings.
- `similarity.dfy` (module `Similarity`): `calculateSimilarity` as an exact fraction
  `Score(num, den)`, together with the tier thresholds (above 0.8, above 0.6, otherwise)
  and the grading of an answer.
- `quiz.dfy` (module `Quiz`): the quiz state `currentQuizVerse` as the field `current`
  of the class `QuizSession`, with `StartQuiz`, `NextQuestion`, `CheckAnswer` and `ShowAnswer`.
- `wrappers.dfy`: `Option` and `Result`.

The quiz as `scripts.js` writes it:

- The only quiz state is `currentQuizVerse` (scripts.js:556). `checkAnswer` and
  `showAnswer` do nothing when it is `null` (scripts.js:592, 630).
- The similarity score is never displayed; the feedback is a tier and, below the top
  tier, the verse text. So `Feedback` holds only the tier and the correction.
- The no-repeat test compares verse `id`s (scripts.js:571). It applies whenever a verse is
  current, whatever the pool size.
- The retry loop (scripts.js:569-571) has no bound. If every draw picks a verse with the
  current id, it never ends. The model states as a precondition that some draw ends it.

## Model

| member | source | states |
|---|---|---|
| Levenshtein.Lev | scripts.js:655-678 | the reference distance the table computes: the cheapest of a substitution (free on equal last characters), an insertion and a deletion, on the empty string the other string's length |
| Levenshtein.EditDistance | scripts.js:655-678 | the bottom-right cell of the table filled row by row is the Levenshtein distance `Lev(a, b)`; with an empty first string it is the length of the second, and the other way round |
| Levenshtein.FillRow | scripts.js:663-675 | the inner loop fills row j with the distances between every prefix of a and b[..j] and leaves every other row unchanged |
| Levenshtein.LevCell | scripts.js:665-672 | a cell equals the diagonal cell when the characters match, and otherwise one plus the least of the diagonal, left and upper cells |
| Levenshtein.LevMatch | scripts.js:665-666 | when the last characters agree, the distance is the distance of the two shortened strings, so copying the diagonal is as good as taking the minimum |
| Levenshtein.LevDropLast | scripts.js:663-675 | removing the last character of the first string raises or lowers the distance by at most one |
| Levenshtein.LevDropLastRight | scripts.js:663-675 | removing the last character of the second string raises or lowers the distance by at most one |
| Levenshtein.LevBounds | scripts.js:655-678 | the difference of the lengths is at most the distance, and the distance is at most the longer length |
| Levenshtein.LevSelf | scripts.js:655-678 | a string is at distance 0 from itself |
| Levenshtein.LevZeroIff | scripts.js:655-678 | the distance is 0 exactly when the two strings are equal |
| Levenshtein.LevSymmetric | scripts.js:655-678 | the distance from a to b equals the distance from b to a |
| Levenshtein.LevAppend | scripts.js:655-678 | appending a tail t to s costs at most the length of t |
| Levenshtein.LevAppendExact | scripts.js:655-678 | s and s + t are exactly the length of t apart, in either order |
| EditScripts.LevIsLowerBound | scripts.js:655-678 | every script of insertions, deletions and substitutions that turns x into y costs at least `Lev(x, y)` |
| EditScripts.OptimalScript | scripts.js:655-678 | some script turns x into y at cost exactly `Lev(x, y)`, so `Lev` is the minimum |
| TextNormal.ToLower | scripts.js:596-597 | lower-casing keeps the length and maps each character on its own: A-Z to a-z, everything else unchanged |
| TextNormal.LowerChar | scripts.js:596-597 | a lowered character is never an ASCII capital; A-Z move by 32 code points to a-z, and every other character, non-ASCII capitals included, is returned unchanged |
| TextNormal.SkipForward | scripts.js:596-597 | the characters skipped are all trimmable, and the character it stops at is not |
| TextNormal.SkipBackward | scripts.js:596-597 | the characters skipped from the end are all trimmable, and the character before the stop is not |
| TextNormal.Normalize | scripts.js:596-597 | `s.toLowerCase().trim()`: `Trim` applied to `ToLower` |
| TextNormal.Trim | scripts.js:596-597 | the trimmed string is an infix of the input; all characters removed before and after it are trimmable; its first and last characters are not |
| TextNormal.TrimPadding | scripts.js:596-597 | padding a string that has no trimmable ends with trimmable characters on both sides is undone by trimming |
| TextNormal.NormalizeShape | scripts.js:596-597 | a normalised string is no longer than the input, holds no ASCII capital, and has no trimmable character at either end |
| TextNormal.NormalizeIdempotent | scripts.js:596-597 | normalising a normalised string changes nothing |
| Similarity.CalculateSimilarity | scripts.js:646-653 | the score lies in [0, 1] and is 1 exactly when the two strings are equal; two empty strings score 1 |
| Similarity.SimilarityIsRatio | scripts.js:646-653 | for nonempty input the score is (L - d) / L, where L is the longer length and d the distance, whichever string is the longer |
| Similarity.SimilaritySymmetric | scripts.js:647-652 | swapping the arguments gives the same score, so the tie-break of equal lengths does not matter |
| Similarity.SimilarityValue | scripts.js:646-653 | as a real number the score lies in [0, 1] and is 1.0 exactly when the strings are equal |
| Similarity.AboveIsRealComparison | scripts.js:602-608 | the integer test num * q > p * den is the real comparison score > p / q |
| Similarity.Classify | scripts.js:602-626 | the tier choice: above 4/5 "Excellent", else above 3/5 "Close", else "Keep practicing" |
| Similarity.ClassifyByValue | scripts.js:602-626 | "Excellent" exactly when the score is above 0.8, "Close" exactly when it is in (0.6, 0.8], "Keep practicing" exactly when it is at most 0.6 |
| Similarity.TierByDistance | scripts.js:602-626 | with L the longer length and d the distance: "Excellent" exactly when 5(L - d) > 4L, "Close" exactly when not that and 5(L - d) > 3L; two empty strings are "Excellent" |
| Similarity.Grade | scripts.js:594-626 | the non-DOM body of `checkAnswer`: both strings lower-cased and trimmed, the answer first, the tier of their score, and the verse text as the correction below the top tier |
| Similarity.GradeTiers | scripts.js:591-627 | grading lower-cases and trims both strings, then gives the tier of their score; it shows no correction exactly in the top tier, and otherwise shows the verse text |
| Similarity.GradeExactMatch | scripts.js:595-607 | an answer equal to the verse up to ASCII case and surrounding whitespace is "Excellent" with no correction |
| Similarity.ScenarioCaseAndSpaces | scripts.js:591-607 | "  for god so loved the world" plus a newline, against "For God so loved the world", is "Excellent" |
| Similarity.ScenarioLongerAnswer | scripts.js:591-627 | "The Lord is my shepherd I shall not want" against "The Lord is my shepherd" is 17 edits over 40 characters, a score of 0.575, so "Keep practicing" with the verse shown |
| Quiz.QuizWalkthrough | scripts.js:558-643 | a client run: a pool of two is refused and leaves no current verse; from a pool of three, grading an answer leaves the question unchanged, and the next question differs in id from the first |
| Quiz.FirstFresh | scripts.js:568-571 | the index of the draw that ends the retry loop: the first draw whose verse differs in id from the previous one |
| Quiz.QuizSession.constructor | scripts.js:556 | a new session has no current verse |
| Quiz.QuizSession.StartQuiz | scripts.js:558-573 | a pool of fewer than 3 verses is refused and the current verse is kept; otherwise the first fresh draw becomes current, is a member of the pool, and differs in id from the previous current verse |
| Quiz.QuizSession.NextQuestion | scripts.js:641-643 | behaves exactly as `StartQuiz` |
| Quiz.QuizSession.CheckAnswer | scripts.js:591-627 | without a current verse it gives nothing; otherwise it grades the answer against the current verse's text; the correction is absent exactly in the top tier, and otherwise is the verse text |
| Quiz.QuizSession.ShowAnswer | scripts.js:629-639 | without a current verse it gives nothing; otherwise it gives the current verse's reference and text |

## Left out

- DOM rendering and `alert` messages (`innerHTML` of the quiz area and the feedback box) are left out. They only display what the model returns.
- The early return of `startQuiz` when the page has no quiz area (scripts.js:564-565) is left out. It depends on the page, not on the quiz.
- `Math.random` (scripts.js:570) is a parameter. Each element of `draws` stands for one `Math.floor(Math.random() * verses.length)`. The caller must supply a draw that ends the loop; the source gives no such guarantee.
- The verse pool is a parameter. In the source it is the global `verses` array, filled by `fetch` calls to the server.
- The tags, timestamps and owner of a verse are left out. The quiz never reads them.
- Similarity.CalculateSimilarity: the score is the exact fraction (L - d) / L, not an IEEE double, and the tier comparisons are exact. The two agree on every string a JavaScript engine can hold, by an argument, not a proof in the model. A fraction that differs from 4/5 or 3/5 differs by at least 1/(5L), which for L below about 10^15 exceeds the rounding error of the quotient and of the literals 0.8 and 0.6. A fraction equal to 4/5 or 3/5 rounds to the same double as the literal, so `>` is false in both.
- TextNormal.ToLower, TextNormal.LowerChar: only ASCII capitals are lowered; a non-ASCII capital such as 'É' is left unchanged where `toLowerCase` gives 'é'. Full Unicode `toLowerCase` (including mappings that change the length) is left out.
- String lengths count Unicode scalar values. JavaScript's `length` counts UTF-16 code units, so the two differ for characters outside the Basic Multilingual Plane.
- server.js is not part of this model. It holds Express routing, JSON-file storage, password hashing, tokens and e-mail: all I/O and foreign libraries.
- Authentication, verse/sermon/quiet-time CRUD, Bible passage lookup and the rendering functions of scripts.js are not part of this model. They are network I/O and UI.
