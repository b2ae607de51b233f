/** Strings as the summary uses them: Python's code-point order on `str`,
    `' '.join`, and whitespace-separated words. */
module Text {

  /** Python's `a <= b` on strings: lexicographic by code point, a proper
      prefix coming first. */
  predicate StrLe(a: string, b: string)
    decreases |a|
  {
    if a == [] then true
    else if b == [] then false
    else if a[0] != b[0] then a[0] < b[0]
    else StrLe(a[1..], b[1..])
  }

  lemma {:induction false} StrLeTotal(a: string, b: string)
    ensures StrLe(a, b) || StrLe(b, a)
    decreases |a|
  {
    if a != [] && b != [] && a[0] == b[0] {
      StrLeTotal(a[1..], b[1..]);
    }
  }

  lemma {:induction false} StrLeTransitive(a: string, b: string, c: string)
    requires StrLe(a, b) && StrLe(b, c)
    ensures StrLe(a, c)
    decreases |a|
  {
    if a != [] && b != [] && c != [] && a[0] == b[0] == c[0] {
      StrLeTransitive(a[1..], b[1..], c[1..]);
    }
  }

  /** `sep.join(parts)`. */
  function Join(sep: string, parts: seq<string>): (r: string)
  {
    if parts == [] then ""
    else if |parts| == 1 then parts[0]
    else parts[0] + sep + Join(sep, parts[1..])
  }

  function TotalLength(parts: seq<string>): nat
  {
    if parts == [] then 0 else |parts[0]| + TotalLength(parts[1..])
  }

  /** The ASCII characters `str.split()` separates words at: space, tab,
      line feed, carriage return, vertical tab, form feed, and the file,
      group, record and unit separators U+001C to U+001F. */
  predicate IsSpace(c: char)
  {
    c == ' ' || c == '\t' || c == '\n' || c == '\r' || c == '\U{0B}' || c == '\U{0C}'
    || ('\U{1C}' <= c <= '\U{1F}')
  }

  /** Number of words of `s` when the character before `s` was whitespace
      (`afterSpace`) or not: a word starts at every non-space character
      that follows whitespace. */
  function WordsFrom(s: string, afterSpace: bool): nat
  {
    if s == [] then 0
    else (if afterSpace && !IsSpace(s[0]) then 1 else 0) + WordsFrom(s[1..], IsSpace(s[0]))
  }

  /** `len(s.split())` for text whose whitespace is ASCII. */
  function WordCount(s: string): nat
  {
    WordsFrom(s, true)
  }

  function SumWordCounts(parts: seq<string>): nat
  {
    if parts == [] then 0 else WordCount(parts[0]) + SumWordCounts(parts[1..])
  }

  /** Gluing two strings with a space adds their word counts. */
  lemma {:induction false} WordsAcrossSpace(x: string, y: string, afterSpace: bool)
    ensures WordsFrom(x + " " + y, afterSpace) == WordsFrom(x, afterSpace) + WordCount(y)
    decreases |x|
  {
    if x == [] {
      assert x + " " + y == [' '] + y;
      assert ([' '] + y)[1..] == y;
    } else {
      assert (x + " " + y)[0] == x[0];
      assert (x + " " + y)[1..] == x[1..] + " " + y;
      WordsAcrossSpace(x[1..], y, IsSpace(x[0]));
    }
  }

  /** Joining with a single space keeps every word: the joined text has as
      many words as the parts together, and as many characters as the
      parts plus one separator between each neighbouring pair. */
  lemma {:induction false} JoinWithSpace(parts: seq<string>)
    ensures WordCount(Join(" ", parts)) == SumWordCounts(parts)
    ensures |parts| > 0 ==> |Join(" ", parts)| == TotalLength(parts) + |parts| - 1
  {
    if |parts| > 1 {
      JoinWithSpace(parts[1..]);
      WordsAcrossSpace(parts[0], Join(" ", parts[1..]), true);
    } else if |parts| == 1 {
      assert parts[1..] == [];
    }
  }

  /** Extending the joined text by one part appends a space and the part:
      the parts appear in the joined text in their order. */
  lemma {:induction false} JoinSnoc(parts: seq<string>, last: string)
    requires |parts| > 0
    ensures Join(" ", parts + [last]) == Join(" ", parts) + " " + last
    decreases |parts|
  {
    if |parts| == 1 {
      assert (parts + [last])[1..] == [last];
    } else {
      assert (parts + [last])[1..] == parts[1..] + [last];
      JoinSnoc(parts[1..], last);
    }
  }
}
