/**
 * Splitting a text at a separator, and finding its first occurrence.
 */
module Text {

  predicate Free(s: string, c: char) {
    forall i :: 0 <= i < |s| ==> s[i] != c
  }

  /** The pieces between the separators: always one more than there are separators. */
  function Split(s: string, separator: char): (r: seq<string>)
    ensures |r| > 0
  {
    if s == [] then [[]]
    else
      var rest := Split(s[1..], separator);
      if s[0] == separator then [[]] + rest else [[s[0]] + rest[0]] + rest[1..]
  }

  lemma {:induction false} SplitAfterField(field: string, separator: char, rest: string)
    requires Free(field, separator)
    ensures Split(field + [separator] + rest, separator) == [field] + Split(rest, separator)
  {
    var s := field + [separator] + rest;
    if field == [] {
      assert s[1..] == rest;
    } else {
      assert s[1..] == field[1..] + [separator] + rest;
      SplitAfterField(field[1..], separator, rest);
      assert field == [field[0]] + field[1..];
    }
  }

  lemma {:induction false} SplitAtSeparator(a: string, separator: char, b: string)
    ensures Split(a + [separator] + b, separator) == Split(a, separator) + Split(b, separator)
  {
    var s := a + [separator] + b;
    if a == [] {
      assert s[1..] == b;
    } else {
      assert s[1..] == a[1..] + [separator] + b;
      SplitAtSeparator(a[1..], separator, b);
    }
  }

  lemma {:induction false} SplitFree(s: string, separator: char)
    requires Free(s, separator)
    ensures Split(s, separator) == [s]
  {
    if s != [] {
      SplitFree(s[1..], separator);
      assert s == [s[0]] + s[1..];
    }
  }

  /** Where the character first stands, or the length when it does not occur. */
  function IndexOf(s: string, c: char): (i: nat)
    ensures i <= |s| && (i < |s| ==> s[i] == c)
    ensures Free(s[..i], c)
  {
    if s == [] || s[0] == c then 0 else 1 + IndexOf(s[1..], c)
  }

  lemma {:induction false} IndexOfFirst(before: string, c: char, after: string)
    requires Free(before, c)
    ensures IndexOf(before + [c] + after, c) == |before|
  {
    if before != [] {
      IndexOfFirst(before[1..], c, after);
      assert (before + [c] + after)[1..] == before[1..] + [c] + after;
    }
  }
}
