/**
 * What the edit distance measures: the fewest single-character insertions,
 * deletions and substitutions that turn one string into another. A script
 * is read from its last step backwards, each step consuming the last
 * character of the source and/or producing the last character of the target.
 */
module EditScripts {
  import opened Levenshtein

  datatype Edit = Keep | Substitute(c: char) | Insert(c: char) | Delete

  function StepCost(e: Edit): nat {
    if e.Keep? then 0 else 1
  }

  /** The number of steps of s that are not Keep. */
  function Cost(s: seq<Edit>): nat {
    if |s| == 0 then 0 else Cost(s[..|s| - 1]) + StepCost(s[|s| - 1])
  }

  /** Script s turns x into y. */
  predicate Transforms(s: seq<Edit>, x: seq<char>, y: seq<char>)
    decreases |s|
  {
    if |s| == 0 then x == y
    else
      var rest := s[..|s| - 1];
      match s[|s| - 1]
      case Keep =>
        |x| > 0 && |y| > 0 && x[|x| - 1] == y[|y| - 1] && Transforms(rest, x[..|x| - 1], y[..|y| - 1])
      case Substitute(c) =>
        |x| > 0 && |y| > 0 && y[|y| - 1] == c && Transforms(rest, x[..|x| - 1], y[..|y| - 1])
      case Insert(c) =>
        |y| > 0 && y[|y| - 1] == c && Transforms(rest, x, y[..|y| - 1])
      case Delete =>
        |x| > 0 && Transforms(rest, x[..|x| - 1], y)
  }

  /** No script turning x into y is cheaper than Lev(x, y). */
  lemma {:induction false} LevIsLowerBound(s: seq<Edit>, x: seq<char>, y: seq<char>)
    requires Transforms(s, x, y)
    ensures Lev(x, y) <= Cost(s)
    decreases |s|
  {
    if |s| == 0 {
      LevSelf(x);
    } else {
      var rest := s[..|s| - 1];
      match s[|s| - 1]
      case Keep =>
        LevIsLowerBound(rest, x[..|x| - 1], y[..|y| - 1]);
      case Substitute(c) =>
        LevIsLowerBound(rest, x[..|x| - 1], y[..|y| - 1]);
      case Insert(c) =>
        LevIsLowerBound(rest, x, y[..|y| - 1]);
      case Delete =>
        LevIsLowerBound(rest, x[..|x| - 1], y);
    }
  }

  /** A script that turns x into y at cost exactly Lev(x, y): the distance is attained. */
  function OptimalScript(x: seq<char>, y: seq<char>): (s: seq<Edit>)
    ensures Transforms(s, x, y) && Cost(s) == Lev(x, y)
    decreases |x| + |y|
  {
    if |x| == 0 && |y| == 0 then []
    else if |x| == 0 then
      Extend(OptimalScript(x, y[..|y| - 1]), Insert(y[|y| - 1]))
    else if |y| == 0 then
      Extend(OptimalScript(x[..|x| - 1], y), Delete)
    else
      var x', y' := x[..|x| - 1], y[..|y| - 1];
      var diagonal := Lev(x', y') + (if x[|x| - 1] == y[|y| - 1] then 0 else 1);
      if Lev(x, y) == diagonal then
        Extend(OptimalScript(x', y'), if x[|x| - 1] == y[|y| - 1] then Keep else Substitute(y[|y| - 1]))
      else if Lev(x, y) == Lev(x, y') + 1 then
        Extend(OptimalScript(x, y'), Insert(y[|y| - 1]))
      else
        Extend(OptimalScript(x', y), Delete)
  }

  /** Appending a step: the step is last and the rest is the old script. */
  function Extend(s: seq<Edit>, e: Edit): (r: seq<Edit>)
    ensures |r| == |s| + 1 && r[..|s|] == s && r[|s|] == e
    ensures Cost(r) == Cost(s) + StepCost(e)
  {
    var r := s + [e];
    assert r[..|s|] == s;
    r
  }
}
