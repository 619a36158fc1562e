/**
  The two string operations the application relies on: Python's substring
  test `needle in hay` on `str` values, and `sep.join(items)`.
 */
module Text {

  /** Python's `needle in hay` for strings: `needle` occurs contiguously in `hay`. */
  predicate Contains(hay: string, needle: string) {
    exists i :: 0 <= i <= |hay| && OccursAt(hay, needle, i)
  }

  /** `needle` occurs in `hay` starting at position `i`. */
  predicate OccursAt(hay: string, needle: string, i: int) {
    0 <= i <= |hay| - |needle| && hay[i..i + |needle|] == needle
  }

  /** Python's `sep.join(items)`. */
  function Join(items: seq<string>, sep: string): string {
    if |items| == 0 then ""
    else if |items| == 1 then items[0]
    else items[0] + sep + Join(items[1..], sep)
  }

  /** A string occurs in any string that starts with it. */
  lemma ContainsPrefix(s: string, t: string)
    ensures Contains(s + t, s)
  {
    assert OccursAt(s + t, s, 0);
  }

  /** An occurrence in `t` is still an occurrence once something is put in front. */
  lemma ContainsAfter(s: string, t: string, needle: string)
    requires Contains(t, needle)
    ensures Contains(s + t, needle)
  {
    var i :| 0 <= i <= |t| && OccursAt(t, needle, i);
    assert 0 <= i <= |t| - |needle| && t[i..i + |needle|] == needle;
    assert (s + t)[|s| + i..|s| + i + |needle|] == t[i..i + |needle|];
    assert OccursAt(s + t, needle, |s| + i);
  }

  /** Every string contains the empty string (as in Python, `"" in s` holds). */
  lemma ContainsEmpty(s: string)
    ensures Contains(s, "")
  {
    assert OccursAt(s, "", 0);
  }

  /** A needle longer than `hay` does not occur in it. */
  lemma LongerNotContained(hay: string, needle: string)
    requires |hay| < |needle|
    ensures !Contains(hay, needle)
  {
  }

  /** A needle with a character that `hay` lacks does not occur in `hay`. */
  lemma MissingCharNotContained(hay: string, needle: string, k: nat)
    requires k < |needle| && forall i :: 0 <= i < |hay| ==> hay[i] != needle[k]
    ensures !Contains(hay, needle)
  {
    forall i | 0 <= i <= |hay|
      ensures !OccursAt(hay, needle, i)
    {
      if i <= |hay| - |needle| {
        assert hay[i..i + |needle|][k] == hay[i + k];
      }
    }
  }

  /** Each joined item occurs as a substring of the joined text. */
  lemma {:induction false} JoinContainsItems(items: seq<string>, sep: string)
    ensures forall x :: x in items ==> Contains(Join(items, sep), x)
  {
    if |items| == 1 {
      ContainsPrefix(items[0], "");
      assert items[0] + "" == items[0];
    } else if |items| > 1 {
      JoinContainsItems(items[1..], sep);
      forall x | x in items
        ensures Contains(Join(items, sep), x)
      {
        if x == items[0] {
          ContainsPrefix(items[0], sep + Join(items[1..], sep));
          assert items[0] + (sep + Join(items[1..], sep)) == Join(items, sep);
        } else {
          assert x in items[1..];
          ContainsAfter(items[0] + sep, Join(items[1..], sep), x);
        }
      }
    }
  }

  /** A character found in no item and not in the separator is not in the joined text. */
  lemma {:induction false} JoinAvoidsChar(items: seq<string>, sep: string, c: char)
    requires c !in sep
    requires forall x :: x in items ==> c !in x
    ensures c !in Join(items, sep)
  {
    if |items| > 1 {
      JoinAvoidsChar(items[1..], sep, c);
      assert Join(items, sep) == items[0] + sep + Join(items[1..], sep);
    }
  }
}
