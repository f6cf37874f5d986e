/** The JavaScript string built-ins the core relies on: `trim`, `toLowerCase`,
    `includes` and `Array.prototype.join`, over Dafny's `string`. */
module JsString {

  /** ECMAScript WhiteSpace and LineTerminator code points, the set `trim` removes. */
  predicate IsWhitespace(c: char) {
    || c == '\t' || c == '\n' || c == '\U{000B}' || c == '\U{000C}' || c == '\r'
    || c == ' ' || c == '\U{00A0}' || c == '\U{1680}' || ('\U{2000}' <= c <= '\U{200A}')
    || c == '\U{2028}' || c == '\U{2029}' || c == '\U{202F}' || c == '\U{205F}'
    || c == '\U{3000}' || c == '\U{FEFF}'
  }

  predicate AllWhitespace(s: string) {
    forall i :: 0 <= i < |s| ==> IsWhitespace(s[i])
  }

  /** `s.trimStart()`: drop leading whitespace. */
  function TrimStart(s: string): string {
    if s != [] && IsWhitespace(s[0]) then TrimStart(s[1..]) else s
  }

  /** `s.trimEnd()`: drop trailing whitespace. */
  function TrimEnd(s: string): string {
    if s != [] && IsWhitespace(s[|s| - 1]) then TrimEnd(s[..|s| - 1]) else s
  }

  /** `s.trim()`. */
  function Trim(s: string): string {
    TrimEnd(TrimStart(s))
  }

  /** `trimStart` keeps a suffix and removes only whitespace, up to the
      first character that is not whitespace. */
  lemma {:induction false} TrimStartSpec(s: string)
    ensures |TrimStart(s)| <= |s| && TrimStart(s) == s[|s| - |TrimStart(s)|..]
    ensures AllWhitespace(s[..|s| - |TrimStart(s)|])
    ensures |TrimStart(s)| == 0 || !IsWhitespace(TrimStart(s)[0])
  {
    if s != [] && IsWhitespace(s[0]) {
      TrimStartSpec(s[1..]);
      var r := TrimStart(s[1..]);
      var n := |s| - |r|;
      assert s[1..][|s| - 1 - |r|..] == s[n..];
      forall k | 0 <= k < n ensures IsWhitespace(s[..n][k]) {
        if k > 0 { assert s[..n][k] == s[1..][..|s| - 1 - |r|][k - 1]; }
      }
    }
  }

  /** `trimEnd` keeps a prefix and removes only whitespace, back to the
      last character that is not whitespace. */
  lemma {:induction false} TrimEndSpec(s: string)
    ensures |TrimEnd(s)| <= |s| && TrimEnd(s) == s[..|TrimEnd(s)|]
    ensures AllWhitespace(s[|TrimEnd(s)|..])
    ensures |TrimEnd(s)| == 0 || !IsWhitespace(TrimEnd(s)[|TrimEnd(s)| - 1])
  {
    if s != [] && IsWhitespace(s[|s| - 1]) {
      var p := s[..|s| - 1];
      TrimEndSpec(p);
      var r := TrimEnd(p);
      assert p[..|r|] == s[..|r|];
      forall k | 0 <= k < |s| - |r| ensures IsWhitespace(s[|r|..][k]) {
        if k < |s| - 1 - |r| { assert s[|r|..][k] == p[|r|..][k]; }
      }
    }
  }

  /** The cut `s[i..j]` keeps `r` and drops only whitespace on both sides. */
  ghost predicate WhitespaceMargins(s: string, r: string, i: int, j: int) {
    0 <= i <= j <= |s| && r == s[i..j] && AllWhitespace(s[..i]) && AllWhitespace(s[j..])
  }

  /** `trim` cuts whitespace margins off both ends and leaves no whitespace
      at either end of the result. */
  lemma TrimSpec(s: string)
    ensures exists i, j :: WhitespaceMargins(s, Trim(s), i, j)
    ensures |Trim(s)| == 0 || (!IsWhitespace(Trim(s)[0]) && !IsWhitespace(Trim(s)[|Trim(s)| - 1]))
  {
    var t := TrimStart(s);
    var r := TrimEnd(t);
    TrimStartSpec(s);
    TrimEndSpec(t);
    var i := |s| - |t|;
    assert t == s[i..];
    assert r == s[i..i + |r|];
    assert s[i + |r|..] == t[|r|..];
    assert r == Trim(s);
    assert WhitespaceMargins(s, Trim(s), i, i + |r|);
  }

  /** A string is blank after trimming exactly when it consists of whitespace only. */
  lemma TrimEmptyIff(s: string)
    ensures |Trim(s)| == 0 <==> AllWhitespace(s)
  {
    TrimSpec(s);
    var r := Trim(s);
    var i, j :| WhitespaceMargins(s, r, i, j);
    if |r| == 0 {
      assert i == j;
      forall k | 0 <= k < |s| ensures IsWhitespace(s[k]) {
        if k < i { assert s[..i][k] == s[k]; } else { assert s[j..][k - j] == s[k]; }
      }
    } else {
      assert s[i] == r[0];
    }
  }

  /** Trimming twice is trimming once. */
  lemma TrimIdempotent(s: string)
    ensures Trim(Trim(s)) == Trim(s)
  {
    var t := Trim(s);
    var u := Trim(t);
    TrimSpec(s);
    TrimSpec(t);
    var i, j :| WhitespaceMargins(t, u, i, j);
    if t != [] {
      assert i == 0 && j == |t|;
      assert u == t[0..|t|];
    }
  }

  /** A string with no whitespace at either end is its own trim. */
  lemma TrimmedIsFixed(s: string)
    requires |s| == 0 || (!IsWhitespace(s[0]) && !IsWhitespace(s[|s| - 1]))
    ensures Trim(s) == s
  {
  }

  /** ASCII upper-case letter. */
  predicate IsAsciiUpper(c: char) {
    'A' <= c <= 'Z'
  }

  function LowerChar(c: char): (r: char)
    ensures !IsAsciiUpper(r)
    ensures IsAsciiUpper(c) ==> r as int == c as int + 32
    ensures !IsAsciiUpper(c) ==> r == c
  {
    if IsAsciiUpper(c) then (c as int + 32) as char else c
  }

  /** `s.toLowerCase()` restricted to the ASCII letters. */
  function Lower(s: string): (r: string)
    ensures |r| == |s|
    ensures forall i :: 0 <= i < |s| ==> r[i] == LowerChar(s[i])
  {
    if s == [] then [] else [LowerChar(s[0])] + Lower(s[1..])
  }

  /** A string with no ASCII upper-case letter. */
  predicate IsLowerCase(s: string) {
    forall i :: 0 <= i < |s| ==> !IsAsciiUpper(s[i])
  }

  /** Lowering leaves no upper-case letter and fixes strings that have none. */
  lemma LowerIsLowerCase(s: string)
    ensures IsLowerCase(Lower(s))
    ensures IsLowerCase(s) ==> Lower(s) == s
  {
  }

  /** `kw` occurs in `text` starting at position `i`. */
  predicate OccursAt(text: string, kw: string, i: nat) {
    i + |kw| <= |text| && text[i..i + |kw|] == kw
  }

  /** `text.includes(kw)`: `kw` is a substring of `text`. */
  function Includes(text: string, kw: string): (r: bool)
    ensures r <==> exists i: nat :: OccursAt(text, kw, i)
  {
    if |kw| > |text| then
      assert forall i: nat :: !OccursAt(text, kw, i);
      false
    else if text[..|kw|] == kw then
      assert OccursAt(text, kw, 0);
      true
    else
      var rest := Includes(text[1..], kw);
      assert forall i: nat :: OccursAt(text[1..], kw, i) <==> OccursAt(text, kw, i + 1) by {
        forall i: nat ensures OccursAt(text[1..], kw, i) <==> OccursAt(text, kw, i + 1) {
          if i + |kw| <= |text[1..]| {
            assert text[1..][i..i + |kw|] == text[i + 1..i + 1 + |kw|];
          }
        }
      }
      assert forall i: nat :: OccursAt(text, kw, i) ==> i > 0 && OccursAt(text[1..], kw, i - 1);
      rest
  }

  /** A keyword found in a text is still found once the text is lower-cased,
      provided the keyword itself has no upper-case letter. */
  lemma LowerKeepsMatch(text: string, kw: string)
    requires IsLowerCase(kw) && Includes(text, kw)
    ensures Includes(Lower(text), kw)
  {
    var i: nat :| OccursAt(text, kw, i);
    var lt := Lower(text);
    forall k | 0 <= k < |kw| ensures lt[i + k] == kw[k] {
      assert text[i + k] == kw[k];
    }
    assert lt[i..i + |kw|] == kw;
    assert OccursAt(lt, kw, i);
  }

  /** A keyword with a character that the text lacks does not occur in it. */
  lemma AbsentChar(text: string, kw: string, k: nat)
    requires k < |kw| && kw[k] !in text
    ensures !Includes(text, kw)
  {
    forall i: nat ensures !OccursAt(text, kw, i) {
      if i + |kw| <= |text| {
        assert text[i..i + |kw|][k] == text[i + k];
      }
    }
  }

  /** `lines.join(sep)`. */
  function Join(lines: seq<string>, sep: string): string {
    if |lines| == 0 then ""
    else if |lines| == 1 then lines[0]
    else lines[0] + sep + Join(lines[1..], sep)
  }

  /** A joined text opens with its first line. */
  lemma JoinStartsWithFirst(lines: seq<string>, sep: string)
    requires |lines| > 0
    ensures |lines[0]| <= |Join(lines, sep)| && Join(lines, sep)[..|lines[0]|] == lines[0]
  {
    if |lines| > 1 {
      var r := Join(lines, sep);
      assert r == lines[0] + (sep + Join(lines[1..], sep));
    }
  }
}
