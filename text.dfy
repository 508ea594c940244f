/**
 * String helpers that the JavaScript runtime provides to the source:
 * decimal rendering of a number inside a template literal, `toLowerCase`,
 * `includes`, and the `/\s+/g` replacement used for export filenames.
 */
module Text {
  import opened Wrappers

  predicate IsDigit(c: char) {
    '0' <= c <= '9'
  }

  function DigitChar(d: nat): (c: char)
    requires d < 10
    ensures IsDigit(c)
  {
    "0123456789"[d]
  }

  /** `${n}` for a non-negative integer: its decimal digits, most significant first. */
  function Decimal(n: nat): (r: string)
    ensures |r| >= 1
    ensures forall i :: 0 <= i < |r| ==> IsDigit(r[i])
    ensures r[|r| - 1] == DigitChar(n % 10)
  {
    if n < 10 then [DigitChar(n)] else Decimal(n / 10) + [DigitChar(n % 10)]
  }

  lemma DigitCharInjective(a: nat, b: nat)
    requires a < 10 && b < 10 && DigitChar(a) == DigitChar(b)
    ensures a == b
  {
  }

  /** Different numbers render to different strings, so numbered filenames never collide. */
  lemma {:induction false} DecimalInjective(a: nat, b: nat)
    requires Decimal(a) == Decimal(b)
    ensures a == b
  {
    var da, db := Decimal(a), Decimal(b);
    DigitCharInjective(a % 10, b % 10);
    if a < 10 || b < 10 {
      // one rendering has a single digit, so both do
    } else {
      assert Decimal(a / 10) == da[..|da| - 1] == db[..|db| - 1] == Decimal(b / 10);
      DecimalInjective(a / 10, b / 10);
    }
  }

  /** `toLowerCase` on one character (ASCII letters only; see README). */
  function LowerChar(c: char): (r: char)
    ensures 'A' <= c <= 'Z' ==> 'a' <= r <= 'z'
    ensures !('A' <= c <= 'Z') ==> r == c
  {
    if 'A' <= c <= 'Z' then (c as int - 'A' as int + 'a' as int) as char else c
  }

  function Lower(s: string): (r: string)
    ensures |r| == |s|
    ensures forall i :: 0 <= i < |s| ==> r[i] == LowerChar(s[i])
  {
    seq(|s|, i requires 0 <= i < |s| => LowerChar(s[i]))
  }

  /** `sub` occurs in `s` starting at position `i`. */
  ghost predicate OccursAt(s: string, sub: string, i: int) {
    0 <= i && i + |sub| <= |s| && s[i..i + |sub|] == sub
  }

  /** `s.includes(sub)`: a scan from the left, as the runtime performs it. */
  function Includes(s: string, sub: string): (r: bool)
    ensures r <==> exists i :: OccursAt(s, sub, i)
    decreases |s|
  {
    if |sub| <= |s| && s[..|sub|] == sub then
      assert OccursAt(s, sub, 0);
      true
    else if |s| <= |sub| then
      NoRoom(s, sub);
      false
    else
      OccursInTail(s, sub);
      Includes(s[1..], sub)
  }

  /** A text no longer than the needle holds it only as its whole self. */
  lemma NoRoom(s: string, sub: string)
    requires |s| <= |sub| && !(|sub| <= |s| && s[..|sub|] == sub)
    ensures !exists i :: OccursAt(s, sub, i)
  {
    forall i | 0 <= i && i + |sub| <= |s| ensures !OccursAt(s, sub, i) {
      assert i == 0;
      assert s[i..i + |sub|] == s[..|sub|];
    }
  }

  /** When the needle is not at the front, it occurs in the text exactly when it occurs in the text's tail. */
  lemma OccursInTail(s: string, sub: string)
    requires |s| >= 1 && !(|sub| <= |s| && s[..|sub|] == sub)
    ensures (exists i :: OccursAt(s, sub, i)) <==> (exists i :: OccursAt(s[1..], sub, i))
  {
    if exists i :: OccursAt(s, sub, i) {
      var i :| OccursAt(s, sub, i);
      assert s[0..|sub|] == s[..|sub|];
      assert i >= 1;
      var here, there := s[i..i + |sub|], s[1..][i - 1..i - 1 + |sub|];
      assert here == there by {
        forall k | 0 <= k < |sub| ensures here[k] == there[k] {
          assert here[k] == s[i + k];
        }
      }
      assert OccursAt(s[1..], sub, i - 1);
    }
    if exists j :: OccursAt(s[1..], sub, j) {
      var j :| OccursAt(s[1..], sub, j);
      var here, there := s[j + 1..j + 1 + |sub|], s[1..][j..j + |sub|];
      assert here == there by {
        forall k | 0 <= k < |sub| ensures here[k] == there[k] {
          assert there[k] == s[j + 1 + k];
        }
      }
      assert OccursAt(s, sub, j + 1);
    }
  }

  /** The characters of the JavaScript regular-expression class `\s`: line terminators and Unicode white space. */
  predicate IsWhitespace(c: char) {
    c == ' ' || c == '\t' || c == '\n' || c == '\r' || c == '\U{000B}' || c == '\U{000C}'
    || c == '\U{00A0}' || c == '\U{1680}' || ('\U{2000}' <= c <= '\U{200A}')
    || c == '\U{2028}' || c == '\U{2029}' || c == '\U{202F}' || c == '\U{205F}'
    || c == '\U{3000}' || c == '\U{FEFF}'
  }

  /**
   * `s.replace(/\s+/g, '_')`: every maximal run of whitespace becomes one underscore.
   * `inRun` says that the character before `s` was whitespace already replaced.
   */
  function ReplaceWhitespaceRuns(s: string, inRun: bool := false): (r: string)
    ensures |r| <= |s|
  {
    if s == [] then []
    else if IsWhitespace(s[0]) then
      (if inRun then [] else "_") + ReplaceWhitespaceRuns(s[1..], true)
    else
      [s[0]] + ReplaceWhitespaceRuns(s[1..], false)
  }

  /** The replacement leaves no whitespace behind, and text without whitespace comes out unchanged. */
  lemma {:induction false} ReplaceWhitespaceRunsFacts(s: string, inRun: bool)
    ensures forall i :: 0 <= i < |ReplaceWhitespaceRuns(s, inRun)| ==> !IsWhitespace(ReplaceWhitespaceRuns(s, inRun)[i])
    ensures (forall i :: 0 <= i < |s| ==> !IsWhitespace(s[i])) ==> ReplaceWhitespaceRuns(s, inRun) == s
  {
    if s != [] {
      var r := ReplaceWhitespaceRuns(s, inRun);
      if IsWhitespace(s[0]) {
        var tail := ReplaceWhitespaceRuns(s[1..], true);
        ReplaceWhitespaceRunsFacts(s[1..], true);
        var head: string := if inRun then [] else "_";
        assert r == head + tail;
        forall i | 0 <= i < |r| ensures !IsWhitespace(r[i]) {
          if i >= |head| {
            assert r[i] == tail[i - |head|];
          }
        }
      } else {
        var tail := ReplaceWhitespaceRuns(s[1..], false);
        ReplaceWhitespaceRunsFacts(s[1..], false);
        assert r == [s[0]] + tail;
        forall i | 0 <= i < |r| ensures !IsWhitespace(r[i]) {
          if i > 0 {
            assert r[i] == tail[i - 1];
          }
        }
        if forall i :: 0 <= i < |s| ==> !IsWhitespace(s[i]) {
          assert forall i :: 0 <= i < |s[1..]| ==> !IsWhitespace(s[1..][i]) by {
            forall i | 0 <= i < |s[1..]| ensures !IsWhitespace(s[1..][i]) {
              assert s[1..][i] == s[i + 1];
            }
          }
          assert tail == s[1..];
          assert s == [s[0]] + s[1..];
        }
      }
    }
  }

  /** `s.split(c)[0]`: the text before the first `c`, or all of `s` when it has none. */
  function Before(s: string, c: char): (r: string)
    ensures r <= s && c !in r
    ensures r == s || (|r| < |s| && s[|r|] == c)
  {
    if s == [] || s[0] == c then [] else [s[0]] + Before(s[1..], c)
  }

  /** The text after the first `c`; `None` when `s` has no `c`. */
  function After(s: string, c: char): (r: Option<string>)
    ensures r.None? <==> c !in s
    ensures r.Some? ==> s == Before(s, c) + [c] + r.value
  {
    if s == [] then None
    else if s[0] == c then Some(s[1..])
    else
      var rest := After(s[1..], c);
      assert s == [s[0]] + s[1..];
      rest
  }

  /** Splitting `x + [c] + y` at its first `c` gives back `x` and `y` when `x` has no `c`. */
  lemma {:induction false} SplitAtFirst(x: string, c: char, y: string)
    requires c !in x
    ensures Before(x + [c] + y, c) == x
    ensures After(x + [c] + y, c) == Some(y)
  {
    if x != [] {
      assert (x + [c] + y)[1..] == x[1..] + [c] + y;
      SplitAtFirst(x[1..], c, y);
    }
  }
}
