/** The string operations the application relies on: ASCII case folding (how SQLite's
    LIKE and `iexact` compare letters), prefixes, suffixes and substring search. */
module Text {

  /** ASCII lower-casing of one character; other characters are left alone. */
  function LowerChar(c: char): char {
    if 'A' <= c <= 'Z' then (c as int + 32) as char else c
  }

  /** ASCII lower-casing of a whole string. */
  function Lower(s: string): string {
    seq(|s|, i requires 0 <= i < |s| => LowerChar(s[i]))
  }

  /** Python's `s.startswith(prefix)`. */
  predicate StartsWith(s: string, prefix: string) {
    |prefix| <= |s| && s[..|prefix|] == prefix
  }

  /** Python's `s.endswith(suffix)`. */
  predicate EndsWith(s: string, suffix: string) {
    |suffix| <= |s| && s[|s| - |suffix|..] == suffix
  }

  /** `needle in hay` for strings: the needle occurs somewhere in the hay. */
  predicate Contains(hay: string, needle: string)
    decreases |hay|
  {
    StartsWith(hay, needle) || (|hay| > 0 && Contains(hay[1..], needle))
  }

  /** Django's `icontains` lookup on SQLite: substring search ignoring ASCII case. */
  predicate ContainsIgnoringCase(hay: string, needle: string) {
    Contains(Lower(hay), Lower(needle))
  }

  /** Django's `iexact` lookup on SQLite: equality ignoring ASCII case. */
  predicate EqualsIgnoringCase(a: string, b: string) {
    Lower(a) == Lower(b)
  }

  /** The needle occurs in the hay starting at position `k`. */
  predicate OccursAt(hay: string, needle: string, k: int) {
    0 <= k <= |hay| - |needle| && hay[k..k + |needle|] == needle
  }

  /** The recursive search agrees with the textbook definition of a substring:
      some window of the hay, as long as the needle, is the needle. */
  lemma {:induction false} ContainsIffWindow(hay: string, needle: string)
    ensures Contains(hay, needle) <==> exists k :: OccursAt(hay, needle, k)
    decreases |hay|
  {
    if StartsWith(hay, needle) {
      assert OccursAt(hay, needle, 0);
    } else if |hay| == 0 {
    } else {
      ContainsIffWindow(hay[1..], needle);
      if Contains(hay[1..], needle) {
        var k :| OccursAt(hay[1..], needle, k);
        assert hay[k + 1..k + 1 + |needle|] == hay[1..][k..k + |needle|];
        assert OccursAt(hay, needle, k + 1);
      } else {
        forall k | 0 < k <= |hay| - |needle| ensures !OccursAt(hay, needle, k) {
          assert hay[k..k + |needle|] == hay[1..][k - 1..k - 1 + |needle|];
          assert !OccursAt(hay[1..], needle, k - 1);
        }
      }
    }
  }

  /** The empty string occurs in every string (so `icontains ''` keeps every row). */
  lemma EmptyOccursEverywhere(hay: string)
    ensures Contains(hay, "")
  {
  }
}
