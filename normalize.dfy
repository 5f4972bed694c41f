/**
 * The normalisation `checkAnswer` applies to both strings before grading:
 * `toLowerCase()` (ASCII letters only here) followed by `trim()`.
 */
module TextNormal {

  /**
   * The characters `String.prototype.trim` removes: ECMAScript WhiteSpace
   * (tab, vertical tab, form feed, space, no-break space, byte-order mark and
   * the Unicode space separators) and LineTerminator (LF, CR, U+2028, U+2029).
   */
  predicate IsTrimmable(c: char) {
    var n := c as int;
    if n < 0x80 then 0x09 <= n <= 0x0D || n == 0x20
    else n in {0xA0, 0x1680, 0x2028, 0x2029, 0x202F, 0x205F, 0x3000, 0xFEFF} || 0x2000 <= n <= 0x200A
  }

  predicate IsUpperAscii(c: char) {
    'A' <= c <= 'Z'
  }

  function LowerChar(c: char): (r: char)
    ensures !IsUpperAscii(r)
    ensures IsUpperAscii(c) ==> r as int == c as int + 32
    ensures !IsUpperAscii(c) ==> r == c
  {
    if IsUpperAscii(c) then (c as int + 32) as char else c
  }

  /** `toLowerCase` restricted to ASCII: every letter A-Z is lowered, nothing else moves. */
  function ToLower(s: string): (r: string)
    ensures |r| == |s|
    ensures forall k :: 0 <= k < |s| ==> r[k] == LowerChar(s[k])
  {
    seq(|s|, k requires 0 <= k < |s| => LowerChar(s[k]))
  }

  /** The first index at or after i that does not hold a trimmable character (|s| if none). */
  function SkipForward(s: string, i: nat): (j: nat)
    requires i <= |s|
    ensures i <= j <= |s|
    ensures forall k :: i <= k < j ==> IsTrimmable(s[k])
    ensures j < |s| ==> !IsTrimmable(s[j])
    decreases |s| - i
  {
    if i < |s| && IsTrimmable(s[i]) then SkipForward(s, i + 1) else i
  }

  /** The least e, down from j but not below i, such that s[e..j] is all trimmable. */
  function SkipBackward(s: string, i: nat, j: nat): (e: nat)
    requires i <= j <= |s|
    ensures i <= e <= j
    ensures forall k :: e <= k < j ==> IsTrimmable(s[k])
    ensures i < e ==> !IsTrimmable(s[e - 1])
    decreases j
  {
    if i < j && IsTrimmable(s[j - 1]) then SkipBackward(s, i, j - 1) else j
  }

  /** Where the trimmed string starts and ends inside s. */
  function TrimStart(s: string): nat {
    SkipForward(s, 0)
  }

  function TrimEnd(s: string): nat {
    SkipBackward(s, TrimStart(s), |s|)
  }

  /**
   * `trim()`: the infix s[i..j] left once every trimmable character before i
   * and from j on is removed; it has no trimmable character at either end.
   */
  function Trim(s: string): (r: string)
    ensures TrimStart(s) <= TrimEnd(s) <= |s| && r == s[TrimStart(s)..TrimEnd(s)]
    ensures forall k :: 0 <= k < TrimStart(s) ==> IsTrimmable(s[k])
    ensures forall k :: TrimEnd(s) <= k < |s| ==> IsTrimmable(s[k])
    ensures |r| > 0 ==> !IsTrimmable(r[0]) && !IsTrimmable(r[|r| - 1])
  {
    var i, j := TrimStart(s), TrimEnd(s);
    var r := s[i..j];
    assert |r| > 0 ==> r[0] == s[i] && r[|r| - 1] == s[j - 1];
    r
  }

  /** `s.toLowerCase().trim()` */
  function Normalize(s: string): string {
    Trim(ToLower(s))
  }

  /** A normalised string holds no ASCII capital and has no trimmable character at either end. */
  lemma NormalizeShape(s: string)
    ensures var r := Normalize(s);
      |r| <= |s| &&
      (forall k :: 0 <= k < |r| ==> !IsUpperAscii(r[k])) &&
      (|r| > 0 ==> !IsTrimmable(r[0]) && !IsTrimmable(r[|r| - 1]))
  {
    var lower := ToLower(s);
    var r := Trim(lower);
    var i := TrimStart(lower);
    forall k | 0 <= k < |r|
      ensures !IsUpperAscii(r[k])
    {
      assert r[k] == lower[i + k];
    }
  }

  /** Normalising twice changes nothing more than normalising once. */
  lemma NormalizeIdempotent(s: string)
    ensures Normalize(Normalize(s)) == Normalize(s)
  {
    var r := Normalize(s);
    NormalizeShape(s);
    ToLowerIdentity(r);
    TrimIdentity(r);
    assert ToLower(r) == r;
    assert Normalize(r) == Trim(r);
  }

  /** A string without trimmable ends is its own trim. */
  lemma TrimIdentity(s: string)
    requires |s| > 0 ==> !IsTrimmable(s[0]) && !IsTrimmable(s[|s| - 1])
    ensures Trim(s) == s
  {
  }

  predicate AllTrimmable(s: string) {
    forall k :: 0 <= k < |s| ==> IsTrimmable(s[k])
  }

  /** Skipping forward from i stops at the first non-trimmable index n when s[i..n] is all trimmable. */
  lemma {:induction false} SkipForwardStops(s: string, i: nat, n: nat)
    requires i <= n < |s| && !IsTrimmable(s[n])
    requires forall k :: i <= k < n ==> IsTrimmable(s[k])
    ensures SkipForward(s, i) == n
    decreases n - i
  {
    if i < n {
      SkipForwardStops(s, i + 1, n);
    }
  }

  /** Skipping backward from j stops just after the last non-trimmable index n - 1 when s[n..j] is all trimmable. */
  lemma {:induction false} SkipBackwardStops(s: string, i: nat, n: nat, j: nat)
    requires i < n <= j <= |s| && !IsTrimmable(s[n - 1])
    requires forall k :: n <= k < j ==> IsTrimmable(s[k])
    ensures SkipBackward(s, i, j) == n
    decreases j
  {
    if n < j {
      SkipBackwardStops(s, i, n, j - 1);
    }
  }

  /** Padding a string that has no trimmable ends with trimmable characters on both sides is undone by Trim. */
  lemma TrimPadding(p: string, s: string, q: string)
    requires AllTrimmable(p) && AllTrimmable(q)
    requires |s| > 0 ==> !IsTrimmable(s[0]) && !IsTrimmable(s[|s| - 1])
    ensures Trim(p + s + q) == s
  {
    var t := p + s + q;
    if |s| == 0 {
      assert AllTrimmable(t);
    } else {
      assert t[|p|] == s[0];
      SkipForwardStops(t, 0, |p|);
      assert t[|p| + |s| - 1] == s[|s| - 1];
      SkipBackwardStops(t, |p|, |p| + |s|, |t|);
      assert t[|p|..|p| + |s|] == s;
    }
  }

  /** Lowering works character by character, so it distributes over concatenation. */
  lemma ToLowerConcat(a: string, b: string)
    ensures ToLower(a + b) == ToLower(a) + ToLower(b)
  {
  }

  /** A string without ASCII capitals is its own lower-case form. */
  lemma ToLowerIdentity(s: string)
    requires forall k :: 0 <= k < |s| ==> !IsUpperAscii(s[k])
    ensures ToLower(s) == s
  {
  }
}
