/** The Python string operations the quota parser is built from: `strip`
    with and without a character set, `replace(c, "")` and `split(sep)`. */
module QuotaText {
  import opened Common

  /** The characters `str.strip()` removes when given no argument: those
      Python classifies as whitespace. */
  const Whitespace: set<char> := {
    '\t', '\n', '\U{000B}', '\U{000C}', '\r', '\U{001C}', '\U{001D}', '\U{001E}', '\U{001F}', ' ',
    '\U{0085}', '\U{00A0}', '\U{1680}',
    '\U{2000}', '\U{2001}', '\U{2002}', '\U{2003}', '\U{2004}', '\U{2005}', '\U{2006}',
    '\U{2007}', '\U{2008}', '\U{2009}', '\U{200A}',
    '\U{2028}', '\U{2029}', '\U{202F}', '\U{205F}', '\U{3000}'}

  /** Leading characters in `cs` removed. */
  function StripLeft(s: string, cs: set<char>): (r: string)
    ensures |r| <= |s|
    ensures r == [] || r[0] !in cs
  {
    if s != [] && s[0] in cs then StripLeft(s[1..], cs) else s
  }

  /** `StripLeft` keeps the suffix of `s` that starts at its first character
      outside `cs`: everything it removes is in `cs`. */
  lemma {:induction false} StripLeftSuffix(s: string, cs: set<char>)
    ensures StripLeft(s, cs) == s[|s| - |StripLeft(s, cs)|..]
    ensures forall k :: 0 <= k < |s| - |StripLeft(s, cs)| ==> s[k] in cs
  {
    if s != [] && s[0] in cs {
      StripLeftSuffix(s[1..], cs);
      assert forall k :: 1 <= k < |s| ==> s[k] == s[1..][k - 1];
      assert s[1..][|s| - 1 - |StripLeft(s, cs)|..] == s[|s| - |StripLeft(s, cs)|..];
    }
  }

  /** Trailing characters in `cs` removed. */
  function StripRight(s: string, cs: set<char>): (r: string)
    ensures |r| <= |s|
    ensures r == [] || r[|r| - 1] !in cs
  {
    if s != [] && s[|s| - 1] in cs then StripRight(s[..|s| - 1], cs) else s
  }

  /** `StripRight` keeps the prefix of `s` that ends at its last character
      outside `cs`: everything it removes is in `cs`. */
  lemma {:induction false} StripRightPrefix(s: string, cs: set<char>)
    ensures StripRight(s, cs) == s[..|StripRight(s, cs)|]
    ensures forall k :: |StripRight(s, cs)| <= k < |s| ==> s[k] in cs
  {
    if s != [] && s[|s| - 1] in cs {
      StripRightPrefix(s[..|s| - 1], cs);
    }
  }

  /** `s.strip(cs)`. */
  function Strip(s: string, cs: set<char>): (r: string)
    ensures |r| <= |s|
    ensures r == [] || (r[0] !in cs && r[|r| - 1] !in cs)
  {
    var l := StripLeft(s, cs);
    StripRightPrefix(l, cs);
    StripRight(l, cs)
  }

  /** Stripping only removes characters. */
  lemma StripChars(s: string, cs: set<char>)
    ensures forall x :: x in Strip(s, cs) ==> x in s
  {
    var l := StripLeft(s, cs);
    StripLeftSuffix(s, cs);
    StripRightPrefix(l, cs);
    assert forall x :: x in l ==> x in s;
  }

  /** `s.strip(cs)` is the slice of `s` between the first and the last
      character outside `cs`: everything cut off on either side is in `cs`. */
  lemma StripSlice(s: string, cs: set<char>)
    ensures var i := |s| - |StripLeft(s, cs)|;
      && i + |Strip(s, cs)| <= |s|
      && Strip(s, cs) == s[i..i + |Strip(s, cs)|]
      && (forall k :: 0 <= k < i ==> s[k] in cs)
      && (forall k :: i + |Strip(s, cs)| <= k < |s| ==> s[k] in cs)
  {
    var l := StripLeft(s, cs);
    var i := |s| - |l|;
    StripLeftSuffix(s, cs);
    StripRightPrefix(l, cs);
    var r := Strip(s, cs);
    assert l == s[i..];
    assert r == l[..|r|];
    assert l[..|r|] == s[i..i + |r|];
    forall k | i + |r| <= k < |s| ensures s[k] in cs {
      assert s[k] == l[k - i];
    }
  }

  /** `s.strip()`. */
  function Trim(s: string): string
  {
    Strip(s, Whitespace)
  }

  /** `s.replace(c, "")`: every `c` deleted. */
  function DeleteAll(s: string, c: char): (r: string)
    ensures c !in r
  {
    if s == [] then []
    else
      var rest := DeleteAll(s[1..], c);
      if s[0] == c then rest else [s[0]] + rest
  }

  /** Everything but `c` is kept, in order. */
  lemma {:induction false} DeleteAllSpec(s: string, c: char)
    ensures multiset(DeleteAll(s, c)) == multiset(s)[c := 0]
    ensures IsSubsequence(DeleteAll(s, c), s)
  {
    if s != [] {
      var rest := DeleteAll(s[1..], c);
      DeleteAllSpec(s[1..], c);
      assert s == [s[0]] + s[1..];
      if s[0] == c {
        SubsequenceOfTail(rest, s);
      } else {
        assert ([s[0]] + rest)[1..] == rest;
      }
    }
  }

  /** Deleting distributes over concatenation. */
  lemma {:induction false} DeleteAllAppend(a: string, b: string, c: char)
    ensures DeleteAll(a + b, c) == DeleteAll(a, c) + DeleteAll(b, c)
  {
    if a == [] {
      assert a + b == b;
    } else {
      assert (a + b)[1..] == a[1..] + b;
      DeleteAllAppend(a[1..], b, c);
    }
  }

  /** A string without `c` is left alone. */
  lemma {:induction false} DeleteAllAbsent(s: string, c: char)
    requires c !in s
    ensures DeleteAll(s, c) == s
  {
    if s != [] {
      assert c !in s[1..] by {
        assert forall x :: x in s[1..] ==> x in s;
      }
      DeleteAllAbsent(s[1..], c);
      assert s == [s[0]] + s[1..];
    }
  }

  /** `sep.join(parts)`. */
  function Join(parts: seq<string>, sep: char): string
    requires |parts| >= 1
  {
    if |parts| == 1 then parts[0] else parts[0] + [sep] + Join(parts[1..], sep)
  }

  /** `s.split(sep)`: the pieces between the separators. */
  function Split(s: string, sep: char): (parts: seq<string>)
    ensures |parts| >= 1
  {
    if s == [] then [[]]
    else
      var rest := Split(s[1..], sep);
      if s[0] == sep then [[]] + rest
      else [[s[0]] + rest[0]] + rest[1..]
  }

  /** There is always one more piece than there are separators, no piece
      holds a separator, and every piece is made of characters of `s`. */
  lemma {:induction false} SplitShape(s: string, sep: char)
    ensures |Split(s, sep)| == multiset(s)[sep] + 1
    ensures forall k :: 0 <= k < |Split(s, sep)| ==> sep !in Split(s, sep)[k]
    ensures forall k :: 0 <= k < |Split(s, sep)| ==> forall x :: x in Split(s, sep)[k] ==> x in s
  {
    if s != [] {
      var rest := Split(s[1..], sep);
      SplitShape(s[1..], sep);
      assert s == [s[0]] + s[1..];
      if s[0] != sep {
        var parts := Split(s, sep);
        assert parts[0] == [s[0]] + rest[0];
        assert forall k :: 1 <= k < |parts| ==> parts[k] == rest[k];
      }
    }
  }

  /** Joining the pieces with the separator gives back the string. */
  lemma {:induction false} SplitJoin(s: string, sep: char)
    ensures Join(Split(s, sep), sep) == s
  {
    if s != [] {
      var rest := Split(s[1..], sep);
      SplitJoin(s[1..], sep);
      if s[0] == sep {
        assert ([[]] + rest)[1..] == rest;
      } else {
        var parts := [[s[0]] + rest[0]] + rest[1..];
        assert parts[1..] == rest[1..];
        if |rest| > 1 {
          assert Join(rest, sep) == rest[0] + [sep] + Join(rest[1..], sep);
        }
      }
    }
  }

  /** Splitting a join of separator-free pieces gives back the pieces. */
  lemma {:induction false} JoinSplit(parts: seq<string>, sep: char)
    requires |parts| >= 1
    requires forall k :: 0 <= k < |parts| ==> sep !in parts[k]
    ensures Split(Join(parts, sep), sep) == parts
  {
    if |parts| == 1 {
      SplitFree(parts[0], sep);
    } else {
      JoinSplit(parts[1..], sep);
      SplitAfterPiece(parts[0], sep, Join(parts[1..], sep));
      assert [parts[0]] + parts[1..] == parts;
    }
  }

  /** A separator-free piece followed by the separator splits off first. */
  lemma {:induction false} SplitAfterPiece(a: string, sep: char, b: string)
    requires sep !in a
    ensures Split(a + [sep] + b, sep) == [a] + Split(b, sep)
  {
    var s := a + [sep] + b;
    if a == [] {
      assert s == [sep] + b && s[1..] == b;
    } else {
      assert sep !in a[1..] by {
        assert forall x :: x in a[1..] ==> x in a;
      }
      SplitAfterPiece(a[1..], sep, b);
      assert s[0] == a[0] && s[1..] == a[1..] + [sep] + b;
      assert [a[0]] + a[1..] == a;
    }
  }

  /** A string without the separator is one piece. */
  lemma {:induction false} SplitFree(s: string, sep: char)
    requires sep !in s
    ensures Split(s, sep) == [s]
  {
    if s != [] {
      assert sep !in s[1..] by {
        assert forall x :: x in s[1..] ==> x in s;
      }
      SplitFree(s[1..], sep);
      assert s == [s[0]] + s[1..];
    }
  }

  /** Stripping is idempotent. */
  lemma StripIdempotent(s: string, cs: set<char>)
    ensures Strip(Strip(s, cs), cs) == Strip(s, cs)
  {
    StripNothing(Strip(s, cs), cs);
  }

  /** A string whose ends are outside `cs` is left alone. */
  lemma StripNothing(s: string, cs: set<char>)
    requires s == [] || (s[0] !in cs && s[|s| - 1] !in cs)
    ensures Strip(s, cs) == s
  {
  }

  /** Stripping the string but one leading whitespace character. */
  lemma TrimLeadingSpace(s: string)
    requires Trim(s) == s
    ensures Trim([' '] + s) == s
  {
    assert ' ' in Whitespace;
    StripLeadingMember(s, Whitespace, ' ');
  }

  /** A leading character that is stripped anyway makes no difference. */
  lemma StripLeadingMember(s: string, cs: set<char>, c: char)
    requires c in cs
    ensures Strip([c] + s, cs) == Strip(s, cs)
  {
    var t := [c] + s;
    assert t[1..] == s;
    assert StripLeft(t, cs) == StripLeft(s, cs);
  }
}
