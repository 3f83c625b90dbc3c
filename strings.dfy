/**
 * The few operations on Rust `&str` that the resolver and the profile search
 * use, over strings as sequences of Unicode scalar values (`char`).
 */
module Strings {
  import opened Wrappers

  /** `s.starts_with(p)` for a string pattern. */
  predicate StartsWith(s: string, p: string) {
    |p| <= |s| && s[..|p|] == p
  }

  /** `s.contains(p)` for a string pattern: `p` occurs at some offset of `s`. */
  predicate Contains(s: string, p: string) {
    exists k :: 0 <= k <= |s| - |p| && StartsWith(s[k..], p)
  }

  /** `s.matches(c).count()` for a single-character pattern. */
  function CountChar(s: string, c: char): (n: nat)
    ensures n <= |s|
    ensures n == 0 <==> c !in s
  {
    if s == [] then 0 else (if s[0] == c then 1 else 0) + CountChar(s[1..], c)
  }

  /** `char::is_ascii_digit`. */
  predicate IsAsciiDigit(c: char) {
    '0' <= c <= '9'
  }

  /** `char::is_ascii_hexdigit`: digits and the letters a-f in either case. */
  predicate IsAsciiHexDigit(c: char) {
    IsAsciiDigit(c) || 'a' <= c <= 'f' || 'A' <= c <= 'F'
  }

  /** `s.chars().all(|c| c.is_ascii_digit())`. */
  predicate AllDigits(s: string) {
    forall i :: 0 <= i < |s| ==> IsAsciiDigit(s[i])
  }

  /** `s.chars().all(|c| c.is_ascii_hexdigit())`. */
  predicate AllHex(s: string) {
    forall i :: 0 <= i < |s| ==> IsAsciiHexDigit(s[i])
  }

  /** Number of bytes the UTF-8 encoding of `c` takes. */
  function Utf8Width(c: char): nat {
    var n := c as int;
    if n < 0x80 then 1 else if n < 0x800 then 2 else if n < 0x1_0000 then 3 else 4
  }

  /** `s.len()`: the length of `s` in UTF-8 bytes, not in characters. */
  function Utf8Len(s: string): nat {
    if s == [] then 0 else Utf8Width(s[0]) + Utf8Len(s[1..])
  }

  /** Every character of a hexadecimal string is ASCII, so its byte length is its character count. */
  lemma {:induction false} HexUtf8Len(s: string)
    requires AllHex(s)
    ensures Utf8Len(s) == |s|
  {
    if s != [] {
      assert AllHex(s[1..]) by {
        forall i | 0 <= i < |s[1..]| ensures IsAsciiHexDigit(s[1..][i]) {
          assert s[1..][i] == s[i + 1];
        }
      }
      HexUtf8Len(s[1..]);
    }
  }

  /** A string made only of decimal digits contains no '.' (immediate from `CountChar`'s contract). */
  lemma DigitsHaveNoDot(s: string)
    requires AllDigits(s)
    ensures CountChar(s, '.') == 0
  {
  }

  /** `char::is_whitespace`: the Unicode White_Space property. */
  predicate IsWhitespace(c: char) {
    var n := c as int;
    (0x09 <= n <= 0x0D) || n == 0x20 || n == 0x85 || n == 0xA0 || n == 0x1680
    || (0x2000 <= n <= 0x200A) || n == 0x2028 || n == 0x2029 || n == 0x202F
    || n == 0x205F || n == 0x3000
  }

  ghost predicate AllWhitespace(s: string) {
    forall i :: 0 <= i < |s| ==> IsWhitespace(s[i])
  }

  ghost predicate NoWhitespace(s: string) {
    forall i :: 0 <= i < |s| ==> !IsWhitespace(s[i])
  }

  /** The leading-whitespace skip that `split_whitespace().next()` does before its first token. */
  function TrimStart(s: string): (r: string)
    ensures |r| <= |s| && r == s[|s| - |r|..]
    ensures AllWhitespace(s[..|s| - |r|])
    ensures r != [] ==> !IsWhitespace(r[0])
  {
    if s == [] || !IsWhitespace(s[0]) then s else TrimStart(s[1..])
  }

  /** The longest prefix of `s` that holds no whitespace. */
  function TokenPrefix(s: string): (r: string)
    ensures |r| <= |s| && r == s[..|r|]
    ensures NoWhitespace(r)
    ensures |r| < |s| ==> IsWhitespace(s[|r|])
  {
    if s == [] || IsWhitespace(s[0]) then [] else [s[0]] + TokenPrefix(s[1..])
  }

  /**
   * `t` is the first whitespace-separated token of `line` and starts at offset `k`:
   * only whitespace before it, none inside it, and whitespace or the end after it.
   */
  ghost predicate IsFirstToken(line: string, k: int, t: string) {
    && 0 <= k && k + |t| <= |line|
    && t != []
    && AllWhitespace(line[..k])
    && line[k..k + |t|] == t
    && NoWhitespace(t)
    && (k + |t| == |line| || IsWhitespace(line[k + |t|]))
  }

  /** `line.split_whitespace().next()`. */
  function FirstToken(line: string): (r: Option<string>)
    ensures r.None? <==> AllWhitespace(line)
    ensures r.Some? ==> exists k :: IsFirstToken(line, k, r.value)
  {
    var rest := TrimStart(line);
    if rest == [] then
      assert line[..|line|] == line;
      None
    else
      var t := TokenPrefix(rest);
      var k := |line| - |rest|;
      assert t != [] by { assert !IsWhitespace(rest[0]); }
      assert line[k..k + |t|] == t by { assert line[k..] == rest; }
      assert !IsWhitespace(line[k]);
      assert IsFirstToken(line, k, t);
      Some(t)
  }
}
