/** The two string tests the plugin applies to paths. */
module Paths {

  /** Python's `needle in hay` for strings: `needle` occurs somewhere in `hay`. */
  predicate IsSubstring(needle: string, hay: string)
    decreases |hay|
  {
    needle <= hay || (hay != [] && IsSubstring(needle, hay[1..]))
  }

  /** `needle` occurs in `hay` starting at position `i`. */
  predicate OccursAt(needle: string, hay: string, i: nat) {
    i + |needle| <= |hay| && hay[i..i + |needle|] == needle
  }

  /** An occurrence at position `i` makes `needle` a substring. */
  lemma {:induction false} OccurrenceIsSubstring(needle: string, hay: string, i: nat)
    requires OccursAt(needle, hay, i)
    ensures IsSubstring(needle, hay)
  {
    if i == 0 {
      assert needle <= hay;
    } else {
      assert hay[1..][i - 1..i - 1 + |needle|] == hay[i..i + |needle|];
      OccurrenceIsSubstring(needle, hay[1..], i - 1);
    }
  }

  /** A substring occurs at some position. */
  lemma {:induction false} SubstringHasOccurrence(needle: string, hay: string)
    requires IsSubstring(needle, hay)
    ensures exists i: nat :: OccursAt(needle, hay, i)
  {
    if needle <= hay {
      assert OccursAt(needle, hay, 0);
    } else {
      SubstringHasOccurrence(needle, hay[1..]);
      var i: nat :| OccursAt(needle, hay[1..], i);
      assert hay[i + 1..i + 1 + |needle|] == hay[1..][i..i + |needle|];
      assert OccursAt(needle, hay, i + 1);
    }
  }

  /**
   * The substring test accepts every ancestor directory, and also strings that are no
   * ancestor at all: "/a" is in "/ab" and in "/b/a".
   */
  lemma SubstringIsNotAncestry(parent: string, child: string)
    requires parent <= child
    ensures IsSubstring(parent, child)
    ensures IsSubstring("/a", "/ab") && IsSubstring("/a", "/b/a")
  {
    assert "/a" <= "/ab";
    assert "/a" <= "/b/a"[2..];
  }

  /** Python's `s.endswith(suffix)`. */
  predicate EndsWith(s: string, suffix: string) {
    |suffix| <= |s| && s[|s| - |suffix|..] == suffix
  }

  /** `s` ends with `suffix` exactly when it is some string followed by `suffix`. */
  lemma EndsWithConcat(s: string, suffix: string)
    ensures EndsWith(s, suffix) <==> exists t :: s == t + suffix
  {
    if EndsWith(s, suffix) {
      assert s == s[..|s| - |suffix|] + suffix;
    }
    if exists t :: s == t + suffix {
      var t :| s == t + suffix;
      assert s[|t|..] == suffix;
    }
  }
}
