/**
 * The three JavaScript string operations the core relies on:
 * String.prototype.trim, String.prototype.toLowerCase (as far as it matters
 * for comparing against the session's lower-case commands) and
 * String.prototype.includes.
 */
module JsText {

  /** The characters `trim` strips: ECMAScript's WhiteSpace and LineTerminator code points. */
  predicate IsTrimmable(c: char)
  {
    var n := c as int;
    (0x9 <= n <= 0xD) || n == 0x20 || n == 0xA0 || n == 0x1680 || (0x2000 <= n <= 0x200A)
    || n == 0x2028 || n == 0x2029 || n == 0x202F || n == 0x205F || n == 0x3000 || n == 0xFEFF
  }

  /** The first index at or after `i` whose character is kept, or `|s|`. */
  function TrimStartIndex(s: string, i: nat): (k: nat)
    requires i <= |s|
    ensures i <= k <= |s|
    ensures forall j :: i <= j < k ==> IsTrimmable(s[j])
    ensures k < |s| ==> !IsTrimmable(s[k])
    decreases |s| - i
  {
    if i < |s| && IsTrimmable(s[i]) then TrimStartIndex(s, i + 1) else i
  }

  /** The end of `s[lo..j]` once its trailing trimmable characters are dropped. */
  function TrimEndIndex(s: string, lo: nat, j: nat): (k: nat)
    requires lo <= j <= |s|
    ensures lo <= k <= j
    ensures forall m :: k <= m < j ==> IsTrimmable(s[m])
    ensures k > lo ==> !IsTrimmable(s[k - 1])
    decreases j
  {
    if j > lo && IsTrimmable(s[j - 1]) then TrimEndIndex(s, lo, j - 1) else j
  }

  /**
   * `s.trim()`: the slice of `s` left once the trimmable characters at both
   * ends are gone. It is empty exactly when every character of `s` is
   * trimmable, and otherwise starts and ends with a kept character.
   */
  function Trim(s: string): (r: string)
    ensures |r| <= |s|
    ensures r != [] ==> !IsTrimmable(r[0]) && !IsTrimmable(r[|r| - 1])
    ensures r == [] <==> forall i :: 0 <= i < |s| ==> IsTrimmable(s[i])
  {
    var a := TrimStartIndex(s, 0);
    var b := TrimEndIndex(s, a, |s|);
    assert b > a ==> s[a..b][0] == s[a] && s[a..b][b - a - 1] == s[b - 1];
    s[a..b]
  }

  /** What `trim` removes: `Trim(s)` is `s` minus a trimmable prefix and a trimmable suffix. */
  lemma TrimIsSlice(s: string)
    ensures exists a, b :: (0 <= a <= b <= |s| && Trim(s) == s[a..b]
      && (forall i :: 0 <= i < a ==> IsTrimmable(s[i]))
      && (forall i :: b <= i < |s| ==> IsTrimmable(s[i])))
  {
    var a := TrimStartIndex(s, 0);
    var b := TrimEndIndex(s, a, |s|);
    assert Trim(s) == s[a..b];
  }

  /** A string with nothing to trim at either end is its own trim. */
  lemma TrimUnchanged(s: string)
    requires s != [] ==> !IsTrimmable(s[0]) && !IsTrimmable(s[|s| - 1])
    ensures Trim(s) == s
  {
    assert TrimStartIndex(s, 0) == 0;
    assert TrimEndIndex(s, 0, |s|) == |s|;
    assert s[0..|s|] == s;
  }

  /** Trimming twice is trimming once. */
  lemma TrimIdempotent(s: string)
    ensures Trim(Trim(s)) == Trim(s)
  {
    TrimUnchanged(Trim(s));
  }

  /**
   * One character of `toLowerCase`. Only the letters whose lower-case form
   * is an ASCII letter are folded: 'A'..'Z' and the Kelvin sign, which
   * lower-cases to 'k'. Every other character's lower-case form is either
   * itself or contains a non-ASCII character, so it can never take part in
   * an exact match against the session's ASCII commands.
   */
  function LowerChar(c: char): char
  {
    if 'A' <= c <= 'Z' then (c as int + 32) as char
    else if c == '\U{212A}' then 'k'
    else c
  }

  /** `s.toLowerCase()`, character by character. */
  function ToLower(s: string): (r: string)
    ensures |r| == |s|
    ensures forall i :: 0 <= i < |s| ==> r[i] == LowerChar(s[i])
  {
    if s == [] then [] else [LowerChar(s[0])] + ToLower(s[1..])
  }

  /** A lower-case ASCII word: letters 'a'..'z' and spaces. */
  predicate IsLowerWord(w: string)
  {
    forall i :: 0 <= i < |w| ==> 'a' <= w[i] <= 'z' || w[i] == ' '
  }

  /** The characters that lower-case to `d`, for `d` a lower-case letter or a space. */
  predicate FoldsTo(c: char, d: char)
  {
    c == d || ('a' <= d <= 'z' && c as int == d as int - 32) || (d == 'k' && c == '\U{212A}')
  }

  /** The characters that lower-case to a lower-case letter or a space are exactly those `FoldsTo` names. */
  lemma LowerCharFolds(c: char, d: char)
    requires 'a' <= d <= 'z' || d == ' '
    ensures LowerChar(c) == d <==> FoldsTo(c, d)
  {
  }

  /**
   * Comparing `s.toLowerCase()` with a lower-case word is a case-insensitive
   * comparison of whole strings: same length, and each character of `s` is
   * the word's character in either case.
   */
  lemma LowerEquals(s: string, w: string)
    requires IsLowerWord(w)
    ensures ToLower(s) == w <==> |s| == |w| && forall i :: 0 <= i < |s| ==> FoldsTo(s[i], w[i])
  {
    if |s| == |w| {
      forall i | 0 <= i < |s| ensures ToLower(s)[i] == w[i] <==> FoldsTo(s[i], w[i]) {
        LowerCharFolds(s[i], w[i]);
      }
      if forall i :: 0 <= i < |s| ==> FoldsTo(s[i], w[i]) {
        assert forall i :: 0 <= i < |s| ==> ToLower(s)[i] == w[i];
      }
    }
  }

  /** `t` occurs in `s` starting at offset `i`. */
  predicate OccursAt(s: string, t: string, i: int)
  {
    0 <= i && i + |t| <= |s| && s[i..i + |t|] == t
  }

  /** `s.includes(t)`: `t` occurs in `s` at some offset. */
  function Includes(s: string, t: string): (r: bool)
    ensures r <==> exists i :: OccursAt(s, t, i)
    decreases |s|
  {
    if |t| > |s| then false
    else if s[..|t|] == t then
      assert OccursAt(s, t, 0);
      true
    else
      var r := Includes(s[1..], t);
      assert forall i :: OccursAt(s[1..], t, i) <==> OccursAt(s, t, i + 1) by {
        forall i ensures OccursAt(s[1..], t, i) <==> OccursAt(s, t, i + 1) {
          if 0 <= i && i + 1 + |t| <= |s| {
            assert s[1..][i..i + |t|] == s[i + 1..i + 1 + |t|];
          }
        }
      }
      assert !OccursAt(s, t, 0);
      assert r ==> exists i :: OccursAt(s, t, i) by {
        if r {
          var k :| OccursAt(s[1..], t, k);
          assert OccursAt(s, t, k + 1);
        }
      }
      assert (exists i :: OccursAt(s, t, i)) ==> r by {
        if exists i :: OccursAt(s, t, i) {
          var k :| OccursAt(s, t, k);
          assert OccursAt(s[1..], t, k - 1);
        }
      }
      r
  }
}
