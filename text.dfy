/**
 * The two string operations the loader applies to each line, with Python's meaning:
 * `str.strip(chars)` and `str.split(sep)` for a one-character separator.
 */
module Text {

  /** The characters for which Python's `str.isspace()` holds; `str.strip()` with no argument removes these. */
  const Whitespace: set<char> := {
    '\t', '\n', '\U{000B}', '\U{000C}', '\r', '\U{001C}', '\U{001D}', '\U{001E}', '\U{001F}', ' ',
    '\U{0085}', '\U{00A0}', '\U{1680}', '\U{2000}', '\U{2001}', '\U{2002}', '\U{2003}', '\U{2004}',
    '\U{2005}', '\U{2006}', '\U{2007}', '\U{2008}', '\U{2009}', '\U{200A}', '\U{2028}', '\U{2029}',
    '\U{202F}', '\U{205F}', '\U{3000}'
  }

  /** The set `str.strip('()')` removes. */
  const Parentheses: set<char> := {'(', ')'}

  /** How many characters at the start of `s` are in `chars`: the prefix `lstrip` removes. */
  function LeadingCount(s: string, chars: set<char>): (n: nat)
    ensures n <= |s|
    ensures forall k :: 0 <= k < n ==> s[k] in chars
    ensures n < |s| ==> s[n] !in chars
  {
    if s != [] && s[0] in chars then
      var n := 1 + LeadingCount(s[1..], chars);
      assert forall k :: 1 <= k < n ==> s[k] == s[1..][k - 1];
      n
    else
      0
  }

  /** How many characters at the end of `s` are in `chars`: the suffix `rstrip` removes. */
  function TrailingCount(s: string, chars: set<char>): (n: nat)
    ensures n <= |s|
    ensures forall k :: |s| - n <= k < |s| ==> s[k] in chars
    ensures n < |s| ==> s[|s| - n - 1] !in chars
  {
    if s != [] && s[|s| - 1] in chars then 1 + TrailingCount(s[..|s| - 1], chars) else 0
  }

  /**
   * `r` is what remains of `s` once its first `i` characters and everything after
   * `r` are cut off, all of the cut characters are in `chars`, and `r` neither starts nor
   * ends with a character in `chars`.
   */
  ghost predicate StrippedAt(s: string, chars: set<char>, i: int, r: string)
  {
    && 0 <= i <= |s| - |r|
    && r == s[i..i + |r|]
    && (forall k :: 0 <= k < i ==> s[k] in chars)
    && (forall k :: i + |r| <= k < |s| ==> s[k] in chars)
    && (r != [] ==> r[0] !in chars && r[|r| - 1] !in chars)
  }

  /** Python's `s.strip(chars)`: `s` without its leading and trailing characters in `chars`. */
  function Strip(s: string, chars: set<char>): (r: string)
    ensures exists i :: StrippedAt(s, chars, i, r)
  {
    var i := LeadingCount(s, chars);
    var j := |s| - TrailingCount(s[i..], chars);
    assert forall k :: j <= k < |s| ==> s[k] == s[i..][k - i];
    assert StrippedAt(s, chars, i, s[i..j]);
    s[i..j]
  }

  /** Only one string can be cut out of `s` in the way `StrippedAt` describes, so it is `Strip`'s. */
  lemma StripIsUnique(s: string, chars: set<char>, i: int, r: string)
    requires StrippedAt(s, chars, i, r)
    ensures r == Strip(s, chars)
  {
    if r == [] {
      StripOfOnlyStrippedIsEmpty(s, chars);
    } else {
      // the first and last kept characters are the ones neither cut can have removed
      assert s[i] !in chars && s[i + |r| - 1] !in chars;
      assert LeadingCount(s, chars) == i;
      var m := TrailingCount(s[i..], chars);
      assert s[i..][|s[i..]| - m - 1] == s[|s| - m - 1];
      assert |s| - m == i + |r|;
    }
  }

  /** A string whose ends are not in `chars` is left alone by `Strip`. */
  lemma StripKeepsCleanEnds(s: string, chars: set<char>)
    requires s != [] ==> s[0] !in chars && s[|s| - 1] !in chars
    ensures Strip(s, chars) == s
  {
  }

  /** Stripping twice is stripping once. */
  lemma StripIsIdempotent(s: string, chars: set<char>)
    ensures Strip(Strip(s, chars), chars) == Strip(s, chars)
  {
    StripKeepsCleanEnds(Strip(s, chars), chars);
  }

  /** A string made only of characters in `chars` strips to the empty string. */
  lemma StripOfOnlyStrippedIsEmpty(s: string, chars: set<char>)
    requires forall k :: 0 <= k < |s| ==> s[k] in chars
    ensures Strip(s, chars) == []
  {
  }

  /** The inverse of `Split`: the fields glued back together with `sep` between neighbours. */
  function Join(fields: seq<string>, sep: char): string
  {
    if fields == [] then []
    else if |fields| == 1 then fields[0]
    else fields[0] + [sep] + Join(fields[1..], sep)
  }

  /**
   * Python's `s.split(sep)` for a single-character separator: the maximal runs of
   * non-separator characters, empty runs included. There is always at least one field,
   * no field holds `sep`, and joining the fields with `sep` gives back `s`.
   */
  function Split(s: string, sep: char): (fields: seq<string>)
    ensures |fields| >= 1
    ensures forall f :: f in fields ==> sep !in f
    ensures Join(fields, sep) == s
  {
    if s == [] then [[]]
    else
      var rest := Split(s[1..], sep);
      if s[0] == sep then [[]] + rest
      else
        assert rest == [rest[0]] + rest[1..];
        [[s[0]] + rest[0]] + rest[1..]
  }

  /** The number of occurrences of `ch` in `s`. */
  function Count(s: string, ch: char): nat
  {
    if s == [] then 0 else (if s[0] == ch then 1 else 0) + Count(s[1..], ch)
  }

  /** `s.split(sep)` has one field more than `s` has separators. */
  lemma {:induction false} SplitFieldCount(s: string, sep: char)
    ensures |Split(s, sep)| == Count(s, sep) + 1
  {
    if s != [] {
      SplitFieldCount(s[1..], sep);
    }
  }

  /** A string without the separator is its own single field. */
  lemma SplitWithoutSeparator(s: string, sep: char)
    requires sep !in s
    ensures Split(s, sep) == [s]
  {
    SplitFieldCount(s, sep);
    CountAbsent(s, sep);
  }

  lemma {:induction false} CountAbsent(s: string, ch: char)
    requires ch !in s
    ensures Count(s, ch) == 0
  {
    if s != [] {
      CountAbsent(s[1..], ch);
    }
  }

  /** Splitting the join of separator-free fields gives the fields back. */
  lemma {:induction false} SplitJoin(fields: seq<string>, sep: char)
    requires |fields| >= 1
    requires forall f :: f in fields ==> sep !in f
    ensures Split(Join(fields, sep), sep) == fields
  {
    if |fields| == 1 {
      SplitWithoutSeparator(fields[0], sep);
    } else {
      SplitJoin(fields[1..], sep);
      SplitPrefix(fields[0], Join(fields[1..], sep), sep);
    }
  }

  /** Putting a separator-free field and a separator in front of `t` adds that field in front of its split. */
  lemma {:induction false} SplitPrefix(f: string, t: string, sep: char)
    requires sep !in f
    ensures Split(f + [sep] + t, sep) == [f] + Split(t, sep)
  {
    if f == [] {
      assert f + [sep] + t == [sep] + t;
      assert ([sep] + t)[1..] == t;
    } else {
      SplitPrefix(f[1..], t, sep);
      assert (f + [sep] + t)[1..] == f[1..] + [sep] + t;
      assert [f[0]] + f[1..] == f;
    }
  }
}
