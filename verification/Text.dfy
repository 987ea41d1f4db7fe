/** Searching and splitting strings, as the standard `find` and `split_once` do. */
module Text {
  import opened Common

  /** Position of the first `c`, or the length of `s`. */
  function IndexOf(s: string, c: char): (i: nat)
    ensures i <= |s| && c !in s[..i]
    ensures i < |s| ==> s[i] == c
  {
    if s == "" || s[0] == c then 0 else
    var i := 1 + IndexOf(s[1..], c);
    assert s[..i] == [s[0]] + s[1..][..i - 1];
    i
  }

  /** `IndexOf` is determined by what it promises. */
  lemma IndexOfIs(s: string, c: char, i: nat)
    requires i <= |s| && c !in s[..i] && (i < |s| ==> s[i] == c)
    ensures IndexOf(s, c) == i
  {
  }

  /** The text before the first `c` and, if there is one, the text after it. */
  function SplitOnce(s: string, c: char): (string, Option<string>) {
    var i := IndexOf(s, c);
    if i < |s| then (s[..i], Some(s[i + 1..])) else (s, None)
  }

  function Join(parts: (string, Option<string>), c: char): string {
    parts.0 + (if parts.1.Some? then [c] + parts.1.value else "")
  }

  /** Splitting at the first `c` loses nothing, and it undoes joining when the first part has no `c`. */
  lemma SplitJoin(s: string, parts: (string, Option<string>), c: char)
    ensures Join(SplitOnce(s, c), c) == s
    ensures c !in parts.0 ==> SplitOnce(Join(parts, c), c) == parts
  {
    if c !in parts.0 {
      var t := Join(parts, c);
      assert t[..|parts.0|] == parts.0;
      IndexOfIs(t, c, |parts.0|);
      assert parts.1.Some? ==> t[|parts.0| + 1..] == parts.1.value;
      assert SplitOnce(t, c).0 == parts.0;
    }
  }
}
