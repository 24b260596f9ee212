/** The string operations the search code relies on: `toLowerCase`, `includes` and truthiness. */
module Text {
  import opened Wrappers

  /** `toLowerCase` on one character, restricted to the ASCII letters. */
  function LowerChar(c: char): char {
    if 'A' <= c <= 'Z' then (c as int + 32) as char else c
  }

  /** `String.prototype.toLowerCase`, character by character. */
  function Lower(s: string): string {
    seq(|s|, i requires 0 <= i < |s| => LowerChar(s[i]))
  }

  /** `needle` occurs in `s` starting at position `i`. */
  predicate OccursAt(s: string, needle: string, i: int) {
    0 <= i && i + |needle| <= |s| && s[i..i + |needle|] == needle
  }

  /** `String.prototype.includes`: `needle` occurs somewhere in `s`. */
  predicate Contains(s: string, needle: string) {
    exists i | 0 <= i <= |s| - |needle| :: OccursAt(s, needle, i)
  }

  /** JavaScript truthiness of an optional string: present and not empty. */
  predicate Truthy(o: Option<string>) {
    o.Some? && o.value != ""
  }

  /** Lowercasing preserves the length. */
  lemma LowerLength(s: string)
    ensures |Lower(s)| == |s|
  {
  }

  /** A needle longer than the haystack never occurs in it. */
  lemma NotContainsLonger(s: string, needle: string)
    requires |s| < |needle|
    ensures !Contains(s, needle)
  {
  }
}
