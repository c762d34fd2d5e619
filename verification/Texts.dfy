/** Text cut at every separator, and pieces joined with one: each undoes the other. */
module Texts {
  import opened Outcomes

  predicate StartsWith(s: string, prefix: string) {
    prefix <= s
  }

  function StripPrefix(s: string, prefix: string): Option<string> {
    if prefix <= s then Some(s[|prefix|..]) else None
  }

  predicate EndsWith(s: string, suffix: string) {
    |suffix| <= |s| && s[|s| - |suffix|..] == suffix
  }

  function StripSuffix(s: string, suffix: string): Option<string> {
    if EndsWith(s, suffix) then Some(s[..|s| - |suffix|]) else None
  }

  /** The pieces of `s` between every `sep`: one more than there are separators. */
  function Split(s: string, sep: char): (parts: seq<string>)
    ensures |parts| >= 1
  {
    if s == [] then [[]]
    else
      var rest := Split(s[1..], sep);
      if s[0] == sep then [[]] + rest else [[s[0]] + rest[0]] + rest[1..]
  }

  function Join(parts: seq<string>, sep: char): string
    requires parts != []
  {
    if |parts| == 1 then parts[0] else parts[0] + [sep] + Join(parts[1..], sep)
  }

  ghost predicate Free(parts: seq<string>, sep: char) {
    forall part | part in parts :: sep !in part
  }

  lemma {:induction false} SplitFree(s: string, sep: char)
    ensures Free(Split(s, sep), sep)
  {
    if s != [] {
      SplitFree(s[1..], sep);
    }
  }

  lemma {:induction false} JoinOfSplit(s: string, sep: char)
    ensures Join(Split(s, sep), sep) == s
  {
    if s != [] {
      JoinOfSplit(s[1..], sep);
      var rest := Split(s[1..], sep);
      if s[0] == sep {
        assert Split(s, sep)[1..] == rest;
      } else {
        assert Split(s, sep)[1..] == rest[1..];
      }
    }
  }

  lemma {:induction false} SplitOfFree(s: string, sep: char)
    requires sep !in s
    ensures Split(s, sep) == [s]
  {
    if s != [] {
      SplitOfFree(s[1..], sep);
      assert s == [s[0]] + s[1..];
    }
  }

  lemma SplitStep(s: string, sep: char)
    requires s != []
    ensures var rest := Split(s[1..], sep);
            Split(s, sep) == if s[0] == sep then [[]] + rest else [[s[0]] + rest[0]] + rest[1..]
  {
  }

  lemma {:induction false} SplitOfConcat(a: string, b: string, sep: char)
    ensures Split(a + [sep] + b, sep) == Split(a, sep) + Split(b, sep)
  {
    var whole := a + [sep] + b;
    SplitStep(whole, sep);
    if a == [] {
      assert whole[1..] == b;
    } else {
      SplitOfConcat(a[1..], b, sep);
      SplitStep(a, sep);
      assert whole[1..] == a[1..] + [sep] + b;
      SplitHead(whole[0], sep, Split(a[1..], sep), Split(b, sep));
    }
  }

  lemma SplitHead(c: char, sep: char, first: seq<string>, second: seq<string>)
    requires first != []
    ensures [[]] + (first + second) == ([[]] + first) + second
    ensures (first + second)[0] == first[0]
    ensures [[c] + first[0]] + (first + second)[1..] == ([[c] + first[0]] + first[1..]) + second
  {
  }

  lemma {:induction false} SplitOfJoin(parts: seq<string>, sep: char)
    requires parts != []
    requires Free(parts, sep)
    ensures Split(Join(parts, sep), sep) == parts
  {
    SplitOfFree(parts[0], sep);
    if |parts| > 1 {
      SplitOfJoin(parts[1..], sep);
      SplitOfConcat(parts[0], Join(parts[1..], sep), sep);
    }
  }

  lemma {:induction false} JoinOfConcat(a: seq<string>, b: seq<string>, sep: char)
    requires a != [] && b != []
    ensures Join(a + b, sep) == Join(a, sep) + [sep] + Join(b, sep)
  {
    assert (a + b)[0] == a[0];
    if |a| == 1 {
      assert (a + b)[1..] == b;
    } else {
      JoinOfConcat(a[1..], b, sep);
      assert (a + b)[1..] == a[1..] + b;
    }
  }

  /** A joined path lies beneath another exactly when its pieces properly extend the other's. */
  lemma Beneath(parts: seq<string>, above: string, sep: char)
    requires parts != [] && Free(parts, sep)
    ensures StartsWith(Join(parts, sep), above + [sep]) <==> Split(above, sep) < parts
  {
    var text := Join(parts, sep);
    if StartsWith(text, above + [sep]) {
      var rest := text[|above| + 1..];
      assert text == above + [sep] + rest;
      SplitOfConcat(above, rest, sep);
      SplitOfJoin(parts, sep);
    }
    if Split(above, sep) < parts {
      var over := Split(above, sep);
      var rest := parts[|over|..];
      assert parts == over + rest;
      JoinOfConcat(over, rest, sep);
      JoinOfSplit(above, sep);
      assert text == above + [sep] + Join(rest, sep);
    }
  }

  /** The text before the first `sep` and the text after it. */
  function SplitOnce(s: string, sep: char): (r: Option<(string, string)>)
    ensures r.None? <==> sep !in s
    ensures r.Some? ==> sep !in r.value.0 && s == r.value.0 + [sep] + r.value.1
  {
    if s == [] then None
    else if s[0] == sep then
      assert s == [] + [sep] + s[1..];
      Some(([], s[1..]))
    else
      match SplitOnce(s[1..], sep)
      case None => None
      case Some((before, after)) =>
        assert s == [s[0]] + s[1..];
        Some(([s[0]] + before, after))
  }

  /** The first separator is the only cut: text free of `sep` before it comes back whole. */
  lemma {:induction false} SplitOnceOf(before: string, after: string, sep: char)
    requires sep !in before
    ensures SplitOnce(before + [sep] + after, sep) == Some((before, after))
  {
    var whole := before + [sep] + after;
    if before == [] {
      assert whole[1..] == after;
    } else {
      SplitOnceOf(before[1..], after, sep);
      assert whole[1..] == before[1..] + [sep] + after;
      assert before == [before[0]] + before[1..];
    }
  }
}
