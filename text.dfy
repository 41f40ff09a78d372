/**
 * The QString and QStringList operations the frontend relies on, stated over
 * seq<char>. Case mapping is ASCII only: Qt's Unicode case folding is not modelled.
 */
module Text {

  import opened Wrappers

  // ---------------------------------------------------------------- case

  function LowerChar(c: char): char
  {
    if 'A' <= c <= 'Z' then (c as int + 32) as char else c
  }

  function UpperChar(c: char): char
  {
    if 'a' <= c <= 'z' then (c as int - 32) as char else c
  }

  /** QString::toLower, ASCII only. */
  function Lower(s: string): (r: string)
    ensures |r| == |s|
    ensures forall i :: 0 <= i < |s| ==> r[i] == LowerChar(s[i])
  {
    seq(|s|, i requires 0 <= i < |s| => LowerChar(s[i]))
  }

  /** QString::toUpper, ASCII only. */
  function Upper(s: string): (r: string)
    ensures |r| == |s|
    ensures forall i :: 0 <= i < |s| ==> r[i] == UpperChar(s[i])
  {
    seq(|s|, i requires 0 <= i < |s| => UpperChar(s[i]))
  }

  lemma LowerAppend(a: string, b: string)
    ensures Lower(a + b) == Lower(a) + Lower(b)
  {
  }

  // ---------------------------------------------------------------- affixes and containment

  predicate StartsWith(s: string, p: string)
  {
    |p| <= |s| && s[..|p|] == p
  }

  predicate EndsWith(s: string, p: string)
  {
    |p| <= |s| && s[|s| - |p|..] == p
  }

  /** QString::endsWith(p, Qt::CaseInsensitive), ASCII only. */
  predicate EndsWithIgnoringCase(s: string, p: string)
  {
    EndsWith(Lower(s), Lower(p))
  }

  /** QString::contains(n): n occurs in s at some position. */
  predicate Contains(s: string, n: string)
    decreases |s|
  {
    StartsWith(s, n) || (|s| > 0 && Contains(s[1..], n))
  }

  /** QString::contains(n, Qt::CaseInsensitive), ASCII only. */
  predicate ContainsIgnoringCase(s: string, n: string)
  {
    Contains(Lower(s), Lower(n))
  }

  /** An occurrence at a given position makes s contain n. */
  lemma {:induction false} ContainsAt(s: string, n: string, i: nat)
    requires i + |n| <= |s| && s[i..i + |n|] == n
    ensures Contains(s, n)
    decreases i
  {
    if i == 0 {
      assert s[..|n|] == n;
    } else {
      assert s[1..][i - 1..i - 1 + |n|] == s[i..i + |n|];
      ContainsAt(s[1..], n, i - 1);
    }
  }

  /** Containment always has a witness position. */
  lemma {:induction false} ContainsWitness(s: string, n: string) returns (i: nat)
    requires Contains(s, n)
    ensures i + |n| <= |s| && s[i..i + |n|] == n
    decreases |s|
  {
    if StartsWith(s, n) {
      i := 0;
    } else {
      var j := ContainsWitness(s[1..], n);
      assert s[1..][j..j + |n|] == s[j + 1..j + 1 + |n|];
      i := j + 1;
    }
  }

  /** No character of s is one of the letters. */
  predicate Avoids(s: string, letters: string)
  {
    forall i :: 0 <= i < |s| ==> s[i] !in letters
  }

  /** A needle holding a character the text lacks does not occur in it. */
  lemma MissingCharNotContained(s: string, n: string, k: nat)
    requires k < |n| && n[k] !in s
    ensures !Contains(s, n)
  {
    if Contains(s, n) {
      var i := ContainsWitness(s, n);
      assert false;
    }
  }

  /** A two-character needle whose characters are never adjacent in the text does not occur in it. */
  lemma {:induction false} PairNotContained(s: string, n: string)
    requires |n| == 2 && forall i :: 0 <= i < |s| - 1 ==> !(s[i] == n[0] && s[i + 1] == n[1])
    ensures !Contains(s, n)
    decreases |s|
  {
    if |s| >= 2 {
      assert s[..2][0] == s[0] && s[..2][1] == s[1];
    }
    if |s| > 0 {
      PairNotContained(s[1..], n);
    }
  }

  /** Containment is preserved by extending the haystack on either side. */
  lemma ContainsInside(a: string, s: string, b: string, n: string)
    requires Contains(s, n)
    ensures Contains(a + s + b, n)
  {
    var i := ContainsWitness(s, n);
    assert (a + s + b)[|a| + i..|a| + i + |n|] == s[i..i + |n|];
    ContainsAt(a + s + b, n, |a| + i);
  }

  // ---------------------------------------------------------------- searching

  /** QString::lastIndexOf(c): the last position holding c, or -1. */
  function LastIndexOf(s: string, c: char): (r: int)
    ensures -1 <= r < |s|
    ensures r >= 0 ==> s[r] == c && forall j :: r < j < |s| ==> s[j] != c
    ensures r == -1 ==> forall j :: 0 <= j < |s| ==> s[j] != c
  {
    if s == [] then -1
    else if s[|s| - 1] == c then |s| - 1
    else LastIndexOf(s[..|s| - 1], c)
  }

  /** A position holding c with no c after it is the last index of c. */
  lemma LastIndexOfAt(s: string, c: char, i: nat)
    requires i < |s| && s[i] == c && forall j :: i < j < |s| ==> s[j] != c
    ensures LastIndexOf(s, c) == i
  {
  }

  /** QString::indexOf(c, from): the first position at or after from holding c, or -1. */
  function IndexOfFrom(s: string, c: char, from: nat): (r: int)
    ensures r == -1 || (from <= r < |s| && s[r] == c)
    ensures r == -1 ==> forall j :: from <= j < |s| ==> s[j] != c
    ensures r >= 0 ==> forall j :: from <= j < r ==> s[j] != c
    decreases |s| - from
  {
    if from >= |s| then -1
    else if s[from] == c then from
    else IndexOfFrom(s, c, from + 1)
  }

  /** QString::left(n): the first n characters, or all of s when n is negative or too large. */
  function Left(s: string, n: int): (r: string)
    ensures 0 <= n <= |s| ==> r == s[..n]
    ensures (n < 0 || n > |s|) ==> r == s
  {
    if n < 0 || n >= |s| then s else s[..n]
  }

  // ---------------------------------------------------------------- removal and replacement

  /** QString::remove(QChar c). */
  function RemoveChar(s: string, c: char): (r: string)
    ensures forall i :: 0 <= i < |r| ==> r[i] != c
    ensures |r| <= |s|
  {
    if s == [] then []
    else if s[0] == c then RemoveChar(s[1..], c)
    else [s[0]] + RemoveChar(s[1..], c)
  }

  lemma {:induction false} RemoveCharAppend(a: string, b: string, c: char)
    ensures RemoveChar(a + b, c) == RemoveChar(a, c) + RemoveChar(b, c)
    decreases |a|
  {
    if a == [] {
      assert a + b == b;
    } else {
      assert (a + b)[1..] == a[1..] + b;
      RemoveCharAppend(a[1..], b, c);
    }
  }

  /** RemoveChar leaves a string without c untouched. */
  lemma {:induction false} RemoveCharAbsent(s: string, c: char)
    requires forall i :: 0 <= i < |s| ==> s[i] != c
    ensures RemoveChar(s, c) == s
    decreases |s|
  {
    if s != [] {
      RemoveCharAbsent(s[1..], c);
    }
  }

  /**
   * QString::replace(QChar before, QString after): every character whose code is
   * `code` becomes `rep`.
   */
  function ReplaceCode(s: string, code: int, rep: string): (r: string)
    ensures (forall i :: 0 <= i < |s| ==> s[i] as int != code) ==> r == s
  {
    if s == [] then []
    else (if s[0] as int == code then rep else [s[0]]) + ReplaceCode(s[1..], code, rep)
  }

  /**
   * QString::remove(const QString &pat): every occurrence of pat, scanning left to
   * right over the original text, is deleted.
   */
  function RemoveAll(s: string, pat: string): (r: string)
    requires |pat| > 0
    ensures |r| <= |s|
    decreases |s|
  {
    if s == [] then []
    else if StartsWith(s, pat) then RemoveAll(s[|pat|..], pat)
    else [s[0]] + RemoveAll(s[1..], pat)
  }

  /** A text in which pat does not occur is left unchanged by RemoveAll. */
  lemma {:induction false} RemoveAllAbsent(s: string, pat: string)
    requires |pat| > 0 && !Contains(s, pat)
    ensures RemoveAll(s, pat) == s
    decreases |s|
  {
    if s != [] {
      RemoveAllAbsent(s[1..], pat);
    }
  }

  // ---------------------------------------------------------------- decimal numbers

  predicate IsDigit(c: char)
  {
    '0' <= c <= '9'
  }

  predicate AllDigits(s: string)
  {
    forall i :: 0 <= i < |s| ==> IsDigit(s[i])
  }

  function DigitChar(d: nat): (c: char)
    requires d < 10
    ensures IsDigit(c)
  {
    (48 + d) as char
  }

  function DigitValue(c: char): (d: nat)
    requires IsDigit(c)
    ensures d < 10
  {
    c as int - 48
  }

  /** QString::number(n) for a non-negative n: decimal digits without leading zeros. */
  function NatToString(n: nat): (r: string)
    ensures |r| >= 1 && AllDigits(r)
    decreases n
  {
    if n < 10 then [DigitChar(n)] else NatToString(n / 10) + [DigitChar(n % 10)]
  }

  /** The value of a string of decimal digits. */
  function DigitsValue(s: string): nat
    requires AllDigits(s)
  {
    if s == [] then 0 else 10 * DigitsValue(s[..|s| - 1]) + DigitValue(s[|s| - 1])
  }

  /** Reading back the digits NatToString writes gives the number again. */
  lemma {:induction false} DigitsValueOfNatToString(n: nat)
    ensures DigitsValue(NatToString(n)) == n
    decreases n
  {
    var s := NatToString(n);
    if n >= 10 {
      assert s[..|s| - 1] == NatToString(n / 10);
      DigitsValueOfNatToString(n / 10);
    }
  }

  /** NatToString writes a leading zero only for zero itself. */
  lemma {:induction false} NatToStringNoLeadingZero(n: nat)
    ensures NatToString(n)[0] == '0' <==> n == 0
    decreases n
  {
    if n >= 10 {
      NatToStringNoLeadingZero(n / 10);
    }
  }

  /** QString::number(i) for any int: a minus sign for negative values, then the digits. */
  function IntToString(i: int): (r: string)
  {
    if i < 0 then "-" + NatToString(-i) else NatToString(i)
  }

  /** Parses an optionally signed decimal numeral. */
  function ParseInt(s: string): Option<int>
  {
    if |s| > 1 && s[0] == '-' && AllDigits(s[1..]) then Some(0 - (DigitsValue(s[1..]) as int))
    else if |s| > 0 && AllDigits(s) then Some(DigitsValue(s))
    else None
  }

  /** IntToString and ParseInt are a round trip. */
  lemma IntToStringRoundTrip(i: int)
    ensures ParseInt(IntToString(i)) == Some(i)
  {
    if i < 0 {
      var d := NatToString(-i);
      assert IntToString(i)[1..] == d;
      DigitsValueOfNatToString(-i);
    } else {
      DigitsValueOfNatToString(i);
    }
  }

  // ---------------------------------------------------------------- splitting and joining

  /** QString::split(sep) keeping empty parts: there is always at least one part. */
  function Split(s: string, sep: char): (parts: seq<string>)
    ensures |parts| >= 1
    decreases |s|
  {
    if s == [] then [[]]
    else
      var rest := Split(s[1..], sep);
      if s[0] == sep then [[]] + rest else [[s[0]] + rest[0]] + rest[1..]
  }

  /** QStringList::join(sep): the parts with sep between neighbours. */
  function Join(parts: seq<string>, sep: string): string
  {
    if |parts| == 0 then []
    else if |parts| == 1 then parts[0]
    else parts[0] + sep + Join(parts[1..], sep)
  }

  /** The concatenation of all parts. */
  function Concat(parts: seq<string>): string
  {
    if parts == [] then [] else parts[0] + Concat(parts[1..])
  }

  /** The parts that are not empty, in order (Qt::SkipEmptyParts). */
  function NonEmptyParts(parts: seq<string>): (r: seq<string>)
    ensures forall i :: 0 <= i < |r| ==> r[i] != [] && r[i] in parts
  {
    if parts == [] then []
    else if parts[0] == [] then NonEmptyParts(parts[1..])
    else [parts[0]] + NonEmptyParts(parts[1..])
  }

  /** Joining the parts of a split with the same separator gives the text back. */
  lemma {:induction false} JoinSplit(s: string, sep: char)
    ensures Join(Split(s, sep), [sep]) == s
    decreases |s|
  {
    if s != [] {
      var rest := Split(s[1..], sep);
      JoinSplit(s[1..], sep);
      if s[0] == sep {
        assert ([[]] + rest)[1..] == rest;
      } else if |rest| > 1 {
        assert ([[s[0]] + rest[0]] + rest[1..])[1..] == rest[1..];
      }
    }
  }

  /** A text without the separator splits into itself alone. */
  lemma {:induction false} SplitWithoutSeparator(t: string, sep: char)
    requires sep !in t
    ensures Split(t, sep) == [t]
    decreases |t|
  {
    if t != [] {
      assert sep !in t[1..];
      SplitWithoutSeparator(t[1..], sep);
      assert [t[0]] + t[1..] == t;
    }
  }

  /** Text before the first separator becomes the first part. */
  lemma {:induction false} SplitAtSeparator(t: string, sep: char, r: string)
    requires sep !in t
    ensures Split(t + [sep] + r, sep) == [t] + Split(r, sep)
    decreases |t|
  {
    var s := t + [sep] + r;
    if t == [] {
      assert s[1..] == r;
    } else {
      assert s[1..] == t[1..] + [sep] + r;
      SplitAtSeparator(t[1..], sep, r);
      assert [t[0]] + t[1..] == t;
    }
  }

  /** Splitting the join of separator-free parts gives the parts back. */
  lemma {:induction false} SplitJoin(parts: seq<string>, sep: char)
    requires |parts| >= 1
    requires forall i :: 0 <= i < |parts| ==> sep !in parts[i]
    ensures Split(Join(parts, [sep]), sep) == parts
    decreases |parts|
  {
    if |parts| == 1 {
      SplitWithoutSeparator(parts[0], sep);
    } else {
      SplitJoin(parts[1..], sep);
      SplitAtSeparator(parts[0], sep, Join(parts[1..], [sep]));
      assert [parts[0]] + parts[1..] == parts;
    }
  }

  /** Without empty parts, dropping the empty parts changes nothing. */
  lemma {:induction false} NonEmptyPartsKeepsAll(parts: seq<string>)
    requires forall i :: 0 <= i < |parts| ==> parts[i] != []
    ensures NonEmptyParts(parts) == parts
  {
    if parts != [] {
      NonEmptyPartsKeepsAll(parts[1..]);
      assert [parts[0]] + parts[1..] == parts;
    }
  }

  /** No part of a split contains the separator. */
  lemma {:induction false} SplitPartsLackSeparator(s: string, sep: char)
    ensures forall p, i :: p in Split(s, sep) && 0 <= i < |p| ==> p[i] != sep
    decreases |s|
  {
    if s != [] {
      SplitPartsLackSeparator(s[1..], sep);
    }
  }

  /** The parts of a split together hold exactly the non-separator characters. */
  lemma {:induction false} ConcatSplit(s: string, sep: char)
    ensures Concat(Split(s, sep)) == RemoveChar(s, sep)
    decreases |s|
  {
    if s != [] {
      var rest := Split(s[1..], sep);
      ConcatSplit(s[1..], sep);
      if s[0] == sep {
        assert ([[]] + rest)[1..] == rest;
      } else {
        var parts := [[s[0]] + rest[0]] + rest[1..];
        assert parts[1..] == rest[1..];
        assert Concat(rest) == rest[0] + Concat(rest[1..]);
      }
    }
  }

  /** Dropping empty parts does not change the concatenation. */
  lemma {:induction false} ConcatNonEmptyParts(parts: seq<string>)
    ensures Concat(NonEmptyParts(parts)) == Concat(parts)
  {
    if parts != [] {
      ConcatNonEmptyParts(parts[1..]);
    }
  }
}
