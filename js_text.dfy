/**
 * The few pieces of JavaScript string semantics the pages rely on:
 * the whitespace class shared by the regex escape `\s` and by
 * `String.prototype.trim`, `trim` itself, the e-mail pattern
 * `^\S+@\S+$`, and the `a || b` fallback applied to optional messages,
 * together with the notification those messages end up in.
 */
module JsText {

  datatype Option<+T> = None | Some(value: T)

  /** A notification shown by a page (`notifications.show`): its title,
      message and colour. */
  datatype Notice = Notice(title: string, message: string, color: string)

  /** A character in ECMAScript's WhiteSpace or LineTerminator sets:
      what `\s` matches and what `trim` removes. */
  predicate IsJsWhitespace(c: char) {
    var n := c as int;
    (9 <= n <= 13) || n == 32 || n == 160 || n == 5760 ||
    (8192 <= n <= 8202) || n == 8232 || n == 8233 || n == 8239 ||
    n == 8287 || n == 12288 || n == 65279
  }

  predicate NoWhitespace(s: string) {
    forall k :: 0 <= k < |s| ==> !IsJsWhitespace(s[k])
  }

  /** Where `trim` starts: the position of the first non-whitespace
      character, or the end when there is none. */
  function CoreStart(s: string): (a: nat)
    ensures a <= |s|
    ensures forall k :: 0 <= k < a ==> IsJsWhitespace(s[k])
    ensures a < |s| ==> !IsJsWhitespace(s[a])
  {
    if s == [] || !IsJsWhitespace(s[0]) then 0
    else
      var a := 1 + CoreStart(s[1..]);
      assert forall k :: 1 <= k < |s| ==> s[k] == s[1..][k - 1];
      a
  }

  /** Where `trim` stops, scanning back from the end no further than `a`:
      just after the last non-whitespace character at or after `a`. */
  function CoreEnd(s: string, a: nat): (b: nat)
    requires a <= |s|
    decreases |s|
    ensures a <= b <= |s|
    ensures forall k :: b <= k < |s| ==> IsJsWhitespace(s[k])
    ensures a < b ==> !IsJsWhitespace(s[b - 1])
  {
    if |s| == a || !IsJsWhitespace(s[|s| - 1]) then |s|
    else CoreEnd(s[..|s| - 1], a)
  }

  /** `s.trim()`: the slice of `s` between its first and its last
      non-whitespace character, empty when there is none. The middle is kept
      as it is; only whitespace is cut from the two ends. */
  function Trim(s: string): (r: string)
    ensures |r| <= |s|
    ensures r == [] || (!IsJsWhitespace(r[0]) && !IsJsWhitespace(r[|r| - 1]))
    ensures exists a, b ::
              0 <= a <= b <= |s| && r == s[a..b] &&
              (forall k :: 0 <= k < a ==> IsJsWhitespace(s[k])) &&
              (forall k :: b <= k < |s| ==> IsJsWhitespace(s[k]))
  {
    var a := CoreStart(s);
    var b := CoreEnd(s, a);
    s[a..b]
  }

  /** The number of UTF-16 code units `c` occupies: two for a character above
      U+FFFF (written as a surrogate pair), one otherwise. */
  function CodeUnits(c: char): nat {
    if c as int > 0xFFFF then 2 else 1
  }

  /** `s.length`: JavaScript counts UTF-16 code units, not characters, so a
      character outside the Basic Multilingual Plane counts twice. */
  function JsLength(s: string): (n: nat)
    ensures |s| <= n <= 2 * |s|
    ensures |s| == 1 ==> n == CodeUnits(s[0])
  {
    if s == [] then 0 else CodeUnits(s[0]) + JsLength(s[1..])
  }

  /** `length` equals the number of characters exactly when no character
      lies above U+FFFF. */
  lemma {:induction false} LengthIsSizeIffBmp(s: string)
    ensures JsLength(s) == |s| <==> forall k :: 0 <= k < |s| ==> CodeUnits(s[k]) == 1
  {
    if s != [] {
      LengthIsSizeIffBmp(s[1..]);
      assert forall k :: 1 <= k < |s| ==> s[k] == s[1..][k - 1];
    }
  }

  /** `s.trim().length >= 2` holds exactly when two distinct positions of `s`
      hold non-whitespace characters, or one holds a character above U+FFFF
      (never whitespace), which alone is two code units long. */
  lemma TrimmedAtLeastTwo(s: string)
    ensures JsLength(Trim(s)) >= 2 <==>
      (exists i, j :: 0 <= i < j < |s| && !IsJsWhitespace(s[i]) && !IsJsWhitespace(s[j])) ||
      (exists i :: 0 <= i < |s| && CodeUnits(s[i]) == 2)
  {
    var a := CoreStart(s);
    var b := CoreEnd(s, a);
    var r := Trim(s);
    assert r == s[a..b];
    if b - a >= 2 {
      assert !IsJsWhitespace(s[a]) && !IsJsWhitespace(s[b - 1]);
    } else if b - a == 1 {
      assert r[0] == s[a];
      assert forall k :: 0 <= k < |s| && !IsJsWhitespace(s[k]) ==> k == a;
    } else {
      assert forall k :: 0 <= k < |s| ==> IsJsWhitespace(s[k]);
    }
  }

  /** What the regular expression `^\S+@\S+$` accepts: a non-empty run of
      non-whitespace, an '@', and a non-empty run of non-whitespace, spanning
      the whole string. */
  ghost predicate MatchesEmailPattern(s: string) {
    exists i :: 0 < i < |s| - 1 && s[i] == '@' && NoWhitespace(s[..i]) && NoWhitespace(s[i + 1..])
  }

  /** A direct check of the same pattern: no whitespace anywhere, and an '@'
      strictly between the first and the last character. */
  predicate IsEmailShaped(s: string) {
    NoWhitespace(s) && |s| >= 3 && '@' in s[1..|s| - 1]
  }

  lemma EmailCheckMatchesPattern(s: string)
    ensures IsEmailShaped(s) <==> MatchesEmailPattern(s)
  {
    if IsEmailShaped(s) {
      var m :| 0 <= m < |s| - 2 && s[1..|s| - 1][m] == '@';
      var i := m + 1;
      assert s[i] == '@';
      assert NoWhitespace(s[..i]) by {
        forall k | 0 <= k < i ensures !IsJsWhitespace(s[..i][k]) { assert s[..i][k] == s[k]; }
      }
      var rest := s[i + 1..];
      assert NoWhitespace(rest) by {
        forall k | 0 <= k < |rest| ensures !IsJsWhitespace(rest[k]) { assert rest[k] == s[i + 1 + k]; }
      }
    }
    if MatchesEmailPattern(s) {
      var i :| 0 < i < |s| - 1 && s[i] == '@' && NoWhitespace(s[..i]) && NoWhitespace(s[i + 1..]);
      forall k | 0 <= k < |s| ensures !IsJsWhitespace(s[k]) {
        if k < i {
          assert s[..i][k] == s[k];
        } else if k > i {
          assert s[i + 1..][k - i - 1] == s[k];
        }
      }
      assert s[1..|s| - 1][i - 1] == '@';
    }
  }

  /** JavaScript's `message || fallback` where `message` may be missing:
      a missing or empty message gives way to the fallback. */
  function OrElse(message: Option<string>, fallback: string): (r: string)
    ensures message.Some? && message.value != "" ==> r == message.value
    ensures message.None? || message.value == "" ==> r == fallback
  {
    match message
    case Some(m) => if m != "" then m else fallback
    case None => fallback
  }
}
