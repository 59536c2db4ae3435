/// String helpers the views use: `Array.prototype.join`, splitting on one
/// character, the decimal digits of a whole number (`Number.toString`), and
/// the digit grouping that `formatAmount` performs with the regular expression
/// `/\B(?=(\d{3})+(?!\d))/g`.
module Text {

  /** `parts.join(sep)` */
  function Join(parts: seq<string>, sep: string): string
  {
    if |parts| == 0 then ""
    else if |parts| == 1 then parts[0]
    else Join(parts[..|parts| - 1], sep) + sep + parts[|parts| - 1]
  }

  /** `s.split(c)`: the maximal runs of `s` between occurrences of `c`. */
  function Split(s: string, c: char): (r: seq<string>)
    ensures |r| >= 1
  {
    if s == [] then [""]
    else
      var front := Split(s[..|s| - 1], c);
      if s[|s| - 1] == c then front + [""]
      else front[..|front| - 1] + [front[|front| - 1] + [s[|s| - 1]]]
  }

  /** `s` with every space removed. */
  function RemoveSpaces(s: string): (r: string)
    ensures ' ' !in r
  {
    if s == [] then ""
    else RemoveSpaces(s[..|s| - 1]) + (if s[|s| - 1] == ' ' then "" else [s[|s| - 1]])
  }

  predicate IsDigit(ch: char)
  {
    '0' <= ch <= '9'
  }

  predicate AllDigits(s: string)
  {
    forall i :: 0 <= i < |s| ==> IsDigit(s[i])
  }

  function DigitChar(d: nat): (ch: char)
    requires d < 10
    ensures IsDigit(ch)
  {
    (48 + d) as char
  }

  /** `n.toString()` for a whole number below JavaScript's exponent threshold. */
  function Digits(n: nat): (s: string)
    ensures |s| >= 1 && AllDigits(s)
    ensures |s| > 1 ==> s[0] != '0'
  {
    if n < 10 then [DigitChar(n)] else Digits(n / 10) + [DigitChar(n % 10)]
  }

  /** The number a string of decimal digits denotes. */
  function Value(s: string): nat
    requires AllDigits(s)
  {
    if s == [] then 0 else Value(s[..|s| - 1]) * 10 + ((s[|s| - 1] as int) - 48)
  }

  /** `Digits` is the decimal notation: reading it back gives the number. */
  lemma {:induction false} DigitsValue(n: nat)
    ensures Value(Digits(n)) == n
  {
    if n >= 10 {
      var s := Digits(n);
      assert s[..|s| - 1] == Digits(n / 10);
      DigitsValue(n / 10);
    }
  }

  /**
   * What the grouping regular expression does, position by position: a space
   * goes before the character at position `i` exactly when `i` is not the start
   * (`\B` between two digits) and the number of characters from `i` to the end
   * is a positive multiple of three (`(?=(\d{3})+(?!\d))`). This is the result
   * for the first `n` characters of `d`.
   */
  function RegexSpacedPrefix(d: string, n: nat): string
    requires n <= |d|
  {
    if n == 0 then ""
    else RegexSpacedPrefix(d, n - 1) + (if n - 1 > 0 && (|d| - (n - 1)) % 3 == 0 then " " else "") + [d[n - 1]]
  }

  /** `d.replace(/\B(?=(\d{3})+(?!\d))/g, " ")` for a string of digits `d`. */
  function RegexSpaced(d: string): string
  {
    RegexSpacedPrefix(d, |d|)
  }

  /** Groups of three digits counted from the right; the first group holds 1 to 3 digits. */
  function Chunks(d: string): (r: seq<string>)
    requires |d| >= 1
    ensures |r| >= 1
  {
    if |d| <= 3 then [d] else Chunks(d[..|d| - 3]) + [d[|d| - 3..]]
  }

  lemma {:induction false} ChunkSizes(d: string)
    requires |d| >= 1
    ensures 1 <= |Chunks(d)[0]| <= 3
    ensures forall i :: 1 <= i < |Chunks(d)| ==> |Chunks(d)[i]| == 3
    decreases |d|
  {
    if |d| > 3 {
      ChunkSizes(d[..|d| - 3]);
    }
  }

  /** Removing the character at `n` from `d` shifts nothing before it: one regex step. */
  lemma {:induction false} RegexSpacedPrefixDrop3(d: string, n: nat)
    requires |d| > 3 && n <= |d| - 3
    ensures RegexSpacedPrefix(d, n) == RegexSpacedPrefix(d[..|d| - 3], n)
  {
    if n > 0 {
      RegexSpacedPrefixDrop3(d, n - 1);
      assert (|d| - (n - 1)) % 3 == (|d| - 3 - (n - 1)) % 3;
    }
  }

  /** The regex result is the left part's result, a space, then the last three digits. */
  lemma RegexSpacedSplitsLastGroup(d: string)
    requires |d| > 3
    ensures RegexSpaced(d) == RegexSpaced(d[..|d| - 3]) + " " + d[|d| - 3..]
  {
    var m := |d| - 3;
    RegexSpacedPrefixDrop3(d, m);
    assert RegexSpacedPrefix(d, m + 1) == RegexSpaced(d[..m]) + " " + [d[m]];
    assert RegexSpacedPrefix(d, m + 2) == RegexSpaced(d[..m]) + " " + [d[m]] + [d[m + 1]];
    assert RegexSpacedPrefix(d, m + 3) == RegexSpaced(d[..m]) + " " + [d[m]] + [d[m + 1]] + [d[m + 2]];
    assert d[m..] == [d[m]] + [d[m + 1]] + [d[m + 2]];
  }

  /** The regex grouping is exactly the right-to-left groups of three, joined by spaces. */
  lemma {:induction false} RegexSpacedIsJoinedChunks(d: string)
    requires |d| >= 1
    ensures RegexSpaced(d) == Join(Chunks(d), " ")
    decreases |d|
  {
    if |d| <= 3 {
      if |d| == 1 {
        assert RegexSpaced(d) == [d[0]];
      } else if |d| == 2 {
        assert RegexSpacedPrefix(d, 1) == [d[0]];
        assert RegexSpaced(d) == [d[0]] + [d[1]];
      } else {
        assert RegexSpacedPrefix(d, 1) == [d[0]];
        assert RegexSpacedPrefix(d, 2) == [d[0]] + [d[1]];
        assert RegexSpaced(d) == [d[0]] + [d[1]] + [d[2]];
      }
    } else {
      RegexSpacedSplitsLastGroup(d);
      RegexSpacedIsJoinedChunks(d[..|d| - 3]);
      var cs := Chunks(d);
      assert cs[..|cs| - 1] == Chunks(d[..|d| - 3]);
    }
  }

  /** Appending a character other than the separator extends the last field. */
  lemma SplitSnocPlain(s: string, ch: char, c: char)
    requires ch != c
    ensures var f := Split(s, c); Split(s + [ch], c) == f[..|f| - 1] + [f[|f| - 1] + [ch]]
  {
    assert (s + [ch])[..|s|] == s;
  }

  /** Extending the last field of `f` by `ch`, where `f` is `fs` with its last field extended by `b`. */
  lemma ExtendLast(fs: seq<string>, f: seq<string>, b: string, ch: char)
    requires |fs| >= 1 && f == fs[..|fs| - 1] + [fs[|fs| - 1] + b]
    ensures f[..|f| - 1] + [f[|f| - 1] + [ch]] == fs[..|fs| - 1] + [fs[|fs| - 1] + (b + [ch])]
  {
    assert f[..|f| - 1] == fs[..|fs| - 1];
    assert f[|f| - 1] + [ch] == fs[|fs| - 1] + (b + [ch]);
  }

  /** Extending the last field by nothing changes nothing. */
  lemma ExtendLastEmpty(fs: seq<string>, b: string)
    requires |fs| >= 1 && b == []
    ensures fs[..|fs| - 1] + [fs[|fs| - 1] + b] == fs
  {
    assert fs[|fs| - 1] + b == fs[|fs| - 1];
  }

  /** `a + b` is `a` plus all of `b` but its last character, then that character. */
  lemma AppendSnoc(a: string, b: string)
    requires b != []
    ensures b == b[..|b| - 1] + [b[|b| - 1]]
    ensures a + b == (a + b[..|b| - 1]) + [b[|b| - 1]]
  {
    assert b == b[..|b| - 1] + [b[|b| - 1]];
  }

  /** Appending a separator-free string extends the last field of a split. */
  lemma {:induction false} SplitAppendPlain(a: string, b: string, c: char)
    requires c !in b
    ensures var sa := Split(a, c); Split(a + b, c) == sa[..|sa| - 1] + [sa[|sa| - 1] + b]
    decreases |b|
  {
    var sa := Split(a, c);
    if b == [] {
      assert a + b == a;
      ExtendLastEmpty(sa, b);
    } else {
      var b', ch := b[..|b| - 1], b[|b| - 1];
      AppendSnoc(a, b);
      SplitAppendPlain(a, b', c);
      SplitSnocPlain(a + b', ch, c);
      ExtendLast(sa, Split(a + b', c), b', ch);
    }
  }

  /** Appending the separator and a separator-free string adds one field. */
  lemma SplitAppendField(a: string, b: string, c: char)
    requires c !in b
    ensures Split(a + [c] + b, c) == Split(a, c) + [b]
  {
    SplitAppendPlain(a + [c], b, c);
    assert (a + [c])[..|a + [c]| - 1] == a;
    assert "" + b == b;
  }

  /** Splitting undoes joining when no part contains the separator. */
  lemma {:induction false} SplitJoin(parts: seq<string>, c: char)
    requires |parts| >= 1
    requires forall i :: 0 <= i < |parts| ==> c !in parts[i]
    ensures Split(Join(parts, [c]), c) == parts
    decreases |parts|
  {
    if |parts| == 1 {
      SplitAppendPlain("", parts[0], c);
      assert "" + parts[0] == parts[0];
    } else {
      var front := parts[..|parts| - 1];
      SplitJoin(front, c);
      SplitAppendField(Join(front, [c]), parts[|parts| - 1], c);
    }
  }

  /** Joining with a separator that `RemoveSpaces` deletes leaves the parts' concatenation. */
  lemma {:induction false} RemoveSpacesAppend(a: string, b: string)
    ensures RemoveSpaces(a + b) == RemoveSpaces(a) + RemoveSpaces(b)
    decreases |b|
  {
    if b == [] {
      assert a + b == a;
    } else {
      RemoveSpacesAppend(a, b[..|b| - 1]);
      assert (a + b)[..|a + b| - 1] == a + b[..|b| - 1];
    }
  }

  lemma RemoveSpacesAroundSpace(a: string, b: string)
    ensures RemoveSpaces(a + " " + b) == RemoveSpaces(a) + RemoveSpaces(b)
  {
    var sp := [' '];
    assert sp[..0] == [];
    assert RemoveSpaces(sp) == [];
    RemoveSpacesAppend(a + sp, b);
    RemoveSpacesAppend(a, sp);
  }

  lemma {:induction false} RemoveSpacesDigits(d: string)
    requires AllDigits(d)
    ensures RemoveSpaces(d) == d
    decreases |d|
  {
    if d != [] {
      RemoveSpacesDigits(d[..|d| - 1]);
      assert d[..|d| - 1] + [d[|d| - 1]] == d;
    }
  }

  /** Deleting the inserted spaces gives back the digits. */
  lemma {:induction false} RemoveSpacesOfChunks(d: string)
    requires |d| >= 1 && AllDigits(d)
    ensures RemoveSpaces(Join(Chunks(d), " ")) == d
    decreases |d|
  {
    if |d| <= 3 {
      RemoveSpacesDigits(d);
    } else {
      var front, last := d[..|d| - 3], d[|d| - 3..];
      assert AllDigits(front) && AllDigits(last);
      RemoveSpacesOfChunks(front);
      var cs := Chunks(d);
      var j := Join(Chunks(front), " ");
      assert cs[..|cs| - 1] == Chunks(front);
      assert Join(cs, " ") == j + " " + last;
      RemoveSpacesAroundSpace(j, last);
      RemoveSpacesDigits(last);
      assert front + last == d;
    }
  }

  /** Every group cut from a string of digits is itself a string of digits. */
  lemma {:induction false} ChunksOfDigits(d: string)
    requires |d| >= 1 && AllDigits(d)
    ensures forall i :: 0 <= i < |Chunks(d)| ==> AllDigits(Chunks(d)[i])
    decreases |d|
  {
    if |d| > 3 {
      var front, last := d[..|d| - 3], d[|d| - 3..];
      assert AllDigits(front) && AllDigits(last);
      ChunksOfDigits(front);
    }
  }

  lemma DigitsHaveNoSpace(s: string)
    requires AllDigits(s)
    ensures ' ' !in s
  {
    forall k | 0 <= k < |s| ensures s[k] != ' ' {
      assert IsDigit(s[k]);
    }
  }

  /**
   * The grouped digits: deleting the spaces gives the digits back, and
   * splitting at the spaces gives the right-to-left groups of three.
   */
  lemma RegexSpacedGroups(d: string)
    requires |d| >= 1 && AllDigits(d)
    ensures RemoveSpaces(RegexSpaced(d)) == d
    ensures Split(RegexSpaced(d), ' ') == Chunks(d)
  {
    RegexSpacedIsJoinedChunks(d);
    RemoveSpacesOfChunks(d);
    ChunksOfDigits(d);
    var cs := Chunks(d);
    forall i | 0 <= i < |cs| ensures ' ' !in cs[i] {
      DigitsHaveNoSpace(cs[i]);
    }
    SplitJoin(cs, ' ');
  }
}
