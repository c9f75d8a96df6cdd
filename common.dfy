/** Values and string operations shared by the whole model: optional values,
    results, bytes, and the few Python `str` operations the tracker code uses
    (`in`, `startswith`, `split`, `rstrip`, `isdigit`, `isspace`, `lower`). */
module Common {

  datatype Option<+T> = None | Some(value: T) {
    /** The value, or `default` when there is none (Python's `x or default` on an optional). */
    function GetOr(default: T): T {
      if Some? then value else default
    }
  }

  datatype Result<+T, +E> = Ok(value: T) | Err(error: E)

  newtype byte = b: int | 0 <= b < 256

  /** Python truthiness of an optional string: neither `None` nor `''`. */
  predicate Truthy(s: Option<string>) {
    s.Some? && s.value != ""
  }

  /** An optional string formatted by an f-string: `None` prints as "None". */
  function PyStr(s: Option<string>): string {
    if s.Some? then s.value else "None"
  }

  /** `sub` occurs in `s` starting at index `i`. */
  predicate OccursAt(s: string, sub: string, i: int) {
    0 <= i && i + |sub| <= |s| && s[i..i + |sub|] == sub
  }

  /** Python's `sub in s` for strings. */
  predicate Contains(s: string, sub: string) {
    exists i | 0 <= i <= |s| - |sub| :: OccursAt(s, sub, i)
  }

  /** Python's `s.startswith(p)`. */
  predicate StartsWith(s: string, p: string) {
    |p| <= |s| && s[..|p|] == p
  }

  /** Index of the first occurrence of `c` in `s`. */
  function IndexOf(s: string, c: char): (i: nat)
    requires c in s
    ensures i < |s| && s[i] == c && c !in s[..i]
  {
    if s[0] == c then 0 else 1 + IndexOf(s[1..], c)
  }

  /** The parts joined back with the separator (the inverse of `Split`). */
  function Join(parts: seq<string>, c: char): string
    requires |parts| >= 1
  {
    if |parts| == 1 then parts[0] else parts[0] + [c] + Join(parts[1..], c)
  }

  /** Python's `s.split(c)` for a one-character separator. */
  function Split(s: string, c: char): (parts: seq<string>)
    ensures |parts| >= 1
    ensures forall k :: 0 <= k < |parts| ==> c !in parts[k]
    ensures Join(parts, c) == s
    ensures parts[0] == if c in s then s[..IndexOf(s, c)] else s
    decreases |s|
  {
    if c !in s then [s]
    else
      var i := IndexOf(s, c);
      var rest := Split(s[i + 1..], c);
      assert s == s[..i] + [c] + s[i + 1..];
      [s[..i]] + rest
  }

  /** Python's `s.rstrip(c)` for one character. */
  function RStrip(s: string, c: char): (r: string)
    ensures |r| <= |s| && r == s[..|r|]
    ensures r == [] || r[|r| - 1] != c
    ensures forall k :: |r| <= k < |s| ==> s[k] == c
  {
    if |s| > 0 && s[|s| - 1] == c then RStrip(s[..|s| - 1], c) else s
  }

  /** Python's `s.isdigit()`, restricted to the ASCII digits. */
  predicate IsDigits(s: string) {
    |s| > 0 && forall k :: 0 <= k < |s| ==> '0' <= s[k] <= '9'
  }

  /** Python's `c.isspace()`: the characters the regular-expression class `\s` matches. */
  predicate IsSpace(c: char) {
    c == ' ' || ('\t' <= c <= '\r') || ('\U{1C}' <= c <= '\U{1F}')
    || c == '\U{85}' || c == '\U{A0}' || c == '\U{1680}' || ('\U{2000}' <= c <= '\U{200A}')
    || c == '\U{2028}' || c == '\U{2029}' || c == '\U{202F}' || c == '\U{205F}' || c == '\U{3000}'
  }

  function LowerChar(c: char): char {
    if 'A' <= c <= 'Z' then (c as int + 32) as char else c
  }

  /** Python's `s.lower()`, restricted to the ASCII letters. */
  function Lower(s: string): (r: string)
    ensures |r| == |s|
    ensures forall k :: 0 <= k < |s| ==> r[k] == LowerChar(s[k])
  {
    if s == [] then [] else [LowerChar(s[0])] + Lower(s[1..])
  }

  /** A string has no ASCII capital letters. */
  predicate NoUpper(s: string) {
    forall k :: 0 <= k < |s| ==> !('A' <= s[k] <= 'Z')
  }

  /** The prefix of `s` before its first newline: what the regular expression `(.*)` captures. */
  function UpToNewline(s: string): (r: string)
    ensures |r| <= |s| && r == s[..|r|] && '\n' !in r
    ensures |r| == |s| || s[|r|] == '\n'
  {
    if '\n' in s then s[..IndexOf(s, '\n')] else s
  }

  lemma {:induction false} LowerHasNoUpper(s: string)
    ensures NoUpper(Lower(s))
  {
    forall k | 0 <= k < |s| ensures !('A' <= Lower(s)[k] <= 'Z') {
      assert Lower(s)[k] == LowerChar(s[k]);
    }
  }

  /** `s.split(c)[1]` is the text between the first and the second `c` (or the end). */
  lemma {:induction false} SecondPart(s: string, c: char)
    requires c in s
    ensures |Split(s, c)| >= 2
    ensures var i := IndexOf(s, c);
      var t := s[i + 1..];
      Split(s, c)[1] == if c in t then t[..IndexOf(t, c)] else t
  {
  }

  /** The last part ends the joined string, right after a separator when there
      is more than one part. */
  lemma {:induction false} JoinLast(parts: seq<string>, c: char)
    requires |parts| >= 1
    ensures var j := Join(parts, c); var l := parts[|parts| - 1];
      |l| <= |j| && j[|j| - |l|..] == l && (|parts| > 1 ==> |l| < |j| && j[|j| - |l| - 1] == c)
  {
    if |parts| > 1 {
      JoinLast(parts[1..], c);
      var rest := Join(parts[1..], c);
      assert Join(parts, c) == (parts[0] + [c]) + rest;
      var l := parts[|parts| - 1];
      assert l == parts[1..][|parts[1..]| - 1];
      if |parts[1..]| == 1 {
        assert rest == l;
      }
    }
  }
}
