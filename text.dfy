/** The text match behind the search route: `question ILIKE '%term%'`, read as a case-insensitive
    substring test. */
module Text {

  /** Lower-case for the ASCII letters; every other character is left as it is. */
  function LowerChar(c: char): char {
    if 'A' <= c <= 'Z' then (c as int - 'A' as int + 'a' as int) as char else c
  }

  function Lower(s: string): string {
    seq(|s|, i requires 0 <= i < |s| => LowerChar(s[i]))
  }

  lemma LowerConcat(a: string, b: string)
    ensures Lower(a + b) == Lower(a) + Lower(b)
  {
  }

  predicate StartsWith(s: string, prefix: string) {
    |prefix| <= |s| && s[..|prefix|] == prefix
  }

  /** `needle` occurs in `hay`: it is a prefix of `hay` or occurs in the rest of it. */
  predicate Occurs(needle: string, hay: string)
    decreases |hay|
  {
    StartsWith(hay, needle) || (hay != [] && Occurs(needle, hay[1..]))
  }

  /** The window of `hay` that starts at index `i` is `needle`. */
  predicate WindowAt(needle: string, hay: string, i: int) {
    0 <= i <= |hay| - |needle| && hay[i..i + |needle|] == needle
  }

  /** `Occurs` agrees with the positional reading of a substring: some window of `hay` of the
      needle's length equals the needle. */
  lemma {:induction false} OccursAt(needle: string, hay: string)
    ensures Occurs(needle, hay) <==> exists i :: WindowAt(needle, hay, i)
    decreases |hay|
  {
    if StartsWith(hay, needle) {
      assert WindowAt(needle, hay, 0);
    } else if hay != [] {
      var rest := hay[1..];
      OccursAt(needle, rest);
      if i :| WindowAt(needle, hay, i) {
        assert i > 0;
        assert rest[i - 1..i - 1 + |needle|] == needle;
        assert WindowAt(needle, rest, i - 1);
      }
      if i :| WindowAt(needle, rest, i) {
        assert hay[i + 1..i + 1 + |needle|] == needle;
        assert WindowAt(needle, hay, i + 1);
      }
    } else {
      assert forall i :: WindowAt(needle, hay, i) ==> i == 0 && StartsWith(hay, needle);
    }
  }

  /** `text ILIKE '%term%'` without wildcards in `term`: the term occurs in the text when both are
      lower-cased. */
  predicate ContainsIgnoringCase(text: string, term: string) {
    Occurs(Lower(term), Lower(text))
  }
}
