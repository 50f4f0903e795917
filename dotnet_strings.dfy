/**
 * The two .NET string tests the claim store relies on:
 * `string.IsNullOrWhiteSpace` and `StartsWith(prefix, StringComparison.OrdinalIgnoreCase)`.
 */
module DotNetStrings {
  import opened Wrappers

  /** The characters `char.IsWhiteSpace` accepts: the Unicode space, line and
      paragraph separators, plus U+0009..U+000D and U+0085. */
  predicate IsWhiteSpace(ch: char)
  {
    || '\U{9}' <= ch <= '\U{D}'
    || ch == ' ' || ch == '\U{85}' || ch == '\U{A0}' || ch == '\U{1680}'
    || '\U{2000}' <= ch <= '\U{200A}'
    || ch == '\U{2028}' || ch == '\U{2029}' || ch == '\U{202F}' || ch == '\U{205F}' || ch == '\U{3000}'
  }

  /** `string.IsNullOrWhiteSpace`: null, empty, or white space only. */
  predicate IsNullOrWhiteSpace(s: Option<string>)
  {
    s.None? || forall i :: 0 <= i < |s.value| ==> IsWhiteSpace(s.value[i])
  }

  /** ASCII case folding, standing in for the ordinal case-insensitive comparison. */
  function ToLowerAscii(ch: char): char
  {
    if 'A' <= ch <= 'Z' then (ch as int + 32) as char else ch
  }

  /** `s.StartsWith(prefix, StringComparison.OrdinalIgnoreCase)`, with ASCII case folding. */
  predicate StartsWithIgnoreCase(s: string, prefix: string)
  {
    |prefix| <= |s| && forall i :: 0 <= i < |prefix| ==> ToLowerAscii(s[i]) == ToLowerAscii(prefix[i])
  }

  /** A string starts, ignoring case, with each of its own prefixes. */
  lemma PrefixStartsWith(s: string, prefix: string)
    requires prefix <= s
    ensures StartsWithIgnoreCase(s, prefix)
  {
  }
}
