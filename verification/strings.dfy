/** The string operations the program takes from Python's library: ordering
    and `sorted`, `str.split`, `str(n)` and `str.zfill`. */
module Strings {
  import opened Seqs

  /** Python's `<` on `str`: lexicographic by code point, a proper prefix
      being the smaller. */
  predicate LexLess(a: string, b: string) {
    if a == [] then b != []
    else if b == [] then false
    else a[0] < b[0] || (a[0] == b[0] && LexLess(a[1..], b[1..]))
  }

  lemma {:induction false} LexLessIrreflexive(a: string)
    ensures !LexLess(a, a)
  {
    if a != [] { LexLessIrreflexive(a[1..]); }
  }

  lemma {:induction false} LexLessTransitive(a: string, b: string, c: string)
    requires LexLess(a, b) && LexLess(b, c)
    ensures LexLess(a, c)
  {
    if a != [] && b != [] && c != [] && a[0] == b[0] == c[0] {
      LexLessTransitive(a[1..], b[1..], c[1..]);
    }
  }

  lemma {:induction false} LexLessTotal(a: string, b: string)
    requires a != b
    ensures LexLess(a, b) || LexLess(b, a)
  {
    if a != [] && b != [] && a[0] == b[0] {
      assert a == [a[0]] + a[1..] && b == [b[0]] + b[1..];
      LexLessTotal(a[1..], b[1..]);
    }
  }

  lemma LexLessAsymmetric(a: string, b: string)
    requires LexLess(a, b)
    ensures !LexLess(b, a)
  {
    if LexLess(b, a) {
      LexLessTransitive(a, b, a);
      LexLessIrreflexive(a);
    }
  }

  /** Increasing without repetition: the shape of `sorted(set(xs))`. */
  ghost predicate StrictlySorted(s: seq<string>) {
    forall i, j :: 0 <= i < j < |s| ==> LexLess(s[i], s[j])
  }

  lemma StrictlySortedNoDup(s: seq<string>)
    requires StrictlySorted(s)
    ensures NoDup(s)
  {
    forall i, j | 0 <= i < j < |s| ensures s[i] != s[j] {
      LexLessIrreflexive(s[i]);
    }
  }

  /** Puts `x` into its place in the strictly sorted `s`, unless it is there. */
  function Insert(x: string, s: seq<string>): (r: seq<string>)
    requires StrictlySorted(s)
    ensures StrictlySorted(r)
    ensures forall y :: y in r <==> y == x || y in s
  {
    if s == [] then [x]
    else if x == s[0] then s
    else if LexLess(x, s[0]) then
      assert StrictlySorted([x] + s) by {
        forall j | 0 < j < |s| ensures LexLess(x, s[j]) {
          LexLessTransitive(x, s[0], s[j]);
        }
      }
      [x] + s
    else
      var t := Insert(x, s[1..]);
      LexLessTotal(x, s[0]);
      assert StrictlySorted([s[0]] + t) by {
        forall j | 0 <= j < |t| ensures LexLess(s[0], t[j]) {
          assert t[j] in t;
        }
      }
      [s[0]] + t
  }

  /** Python's `sorted(set(xs))`: the distinct elements of `xs` in increasing
      order. */
  function SortDistinct(xs: seq<string>): (r: seq<string>)
    ensures StrictlySorted(r)
    ensures forall y :: y in r <==> y in xs
  {
    if xs == [] then []
    else Insert(xs[|xs| - 1], SortDistinct(xs[..|xs| - 1]))
  }

  function FirstOr(s: seq<string>, default: string): string {
    if s == [] then default else s[0]
  }

  /** At most one strictly sorted list holds a given set of strings, so
      `sorted` of any duplicate-free arrangement of the same strings gives the
      same list. */
  lemma {:induction false} StrictlySortedUnique(a: seq<string>, b: seq<string>)
    requires StrictlySorted(a) && StrictlySorted(b)
    requires forall y :: y in a <==> y in b
    ensures a == b
  {
    if a == [] {
      assert b != [] ==> FirstOr(b, []) in b;
    } else {
      assert b != [] by { assert a[0] in b; }
      assert a[0] == b[0] by {
        assert a[0] in b && b[0] in a;
        if a[0] != b[0] {
          var i :| 0 <= i < |a| && a[i] == b[0];
          var j :| 0 <= j < |b| && b[j] == a[0];
          LexLessAsymmetric(a[0], a[i]);
        }
      }
      StrictlySortedNoDup(a);
      StrictlySortedNoDup(b);
      forall y ensures y in a[1..] <==> y in b[1..] {
        if y in a[1..] {
          assert y in b && y != b[0];
          assert b == [b[0]] + b[1..];
        }
        if y in b[1..] {
          assert y in a && y != a[0];
          assert a == [a[0]] + a[1..];
        }
      }
      StrictlySortedUnique(a[1..], b[1..]);
      assert a == [a[0]] + a[1..] && b == [b[0]] + b[1..];
    }
  }

  /** `sorted(xs)` for a list `xs` without duplicates is `sorted(set(xs))`. */
  lemma SortDistinctOfDedup(xs: seq<string>)
    ensures SortDistinct(Dedup(xs)) == SortDistinct(xs)
  {
    StrictlySortedUnique(SortDistinct(Dedup(xs)), SortDistinct(xs));
  }

  // ---------------------------------------------------------------------
  // str.split(sep) and its inverse, sep.join(parts)

  function IndexOf(s: string, c: char): (k: nat)
    requires c in s
    ensures k < |s| && s[k] == c && c !in s[..k]
  {
    if s[0] == c then 0 else 1 + IndexOf(s[1..], c)
  }

  /** Python's `s.split(sep)` for a one-character separator: the pieces
      between separators, empty pieces included. */
  function Split(s: string, sep: char): (parts: seq<string>)
    ensures |parts| >= 1
    ensures forall i :: 0 <= i < |parts| ==> sep !in parts[i]
    decreases |s|
  {
    if sep in s then
      var k := IndexOf(s, sep);
      [s[..k]] + Split(s[k + 1..], sep)
    else [s]
  }

  /** Python's `sep.join(parts)`. */
  function Join(parts: seq<string>, sep: char): string
    requires |parts| >= 1
  {
    if |parts| == 1 then parts[0] else parts[0] + [sep] + Join(parts[1..], sep)
  }

  lemma {:induction false} JoinSplit(s: string, sep: char)
    ensures Join(Split(s, sep), sep) == s
    decreases |s|
  {
    if sep in s {
      var k := IndexOf(s, sep);
      var rest := Split(s[k + 1..], sep);
      var parts := [s[..k]] + rest;
      assert Split(s, sep) == parts;
      assert parts[1..] == rest;
      assert Join(parts, sep) == s[..k] + [sep] + Join(rest, sep);
      JoinSplit(s[k + 1..], sep);
      assert s == s[..k] + [sep] + s[k + 1..];
    }
  }

  /** The first occurrence is the one with none before it. */
  lemma {:induction false} IndexOfUnique(s: string, c: char, j: nat)
    requires j < |s| && s[j] == c && c !in s[..j]
    ensures IndexOf(s, c) == j
  {
    if j > 0 {
      assert s[0] == s[..j][0];
      assert s[1..][..j - 1] == s[..j][1..];
      IndexOfUnique(s[1..], c, j - 1);
    }
  }

  /** Splitting at the first separator: a piece without separators, then
      the rest. */
  lemma SplitCons(a: string, sep: char, b: string)
    requires sep !in a
    ensures Split(a + [sep] + b, sep) == [a] + Split(b, sep)
  {
    var s := a + [sep] + b;
    assert s[..|a|] == a;
    assert s[|a| + 1..] == b;
    IndexOfUnique(s, sep, |a|);
  }

  lemma {:induction false} SplitJoin(parts: seq<string>, sep: char)
    requires |parts| >= 1
    requires forall i :: 0 <= i < |parts| ==> sep !in parts[i]
    ensures Split(Join(parts, sep), sep) == parts
  {
    if |parts| > 1 {
      var rest := Join(parts[1..], sep);
      SplitJoin(parts[1..], sep);
      SplitCons(parts[0], sep, rest);
      assert parts == [parts[0]] + parts[1..];
    }
  }

  // ---------------------------------------------------------------------
  // str(n) and str.zfill(width) for non-negative n

  function DigitChar(d: nat): (c: char)
    requires d < 10
  {
    ['0', '1', '2', '3', '4', '5', '6', '7', '8', '9'][d]
  }

  function DigitValue(c: char): nat {
    if '0' <= c <= '9' then (c as int - '0' as int) else 0
  }

  /** Python's `str(n)` for a natural number: decimal, no leading zero. */
  function Decimal(n: nat): (s: string)
    ensures |s| >= 1
    ensures n > 0 ==> s[0] != '0'
  {
    if n < 10 then [DigitChar(n)] else Decimal(n / 10) + [DigitChar(n % 10)]
  }

  /** The number a string of decimal digits denotes, leading zeros allowed. */
  function ParseDecimal(s: string): nat {
    if s == [] then 0 else 10 * ParseDecimal(s[..|s| - 1]) + DigitValue(s[|s| - 1])
  }

  lemma {:induction false} ParseDecimalOfDecimal(n: nat)
    ensures ParseDecimal(Decimal(n)) == n
  {
    if n >= 10 {
      ParseDecimalOfDecimal(n / 10);
      var s := Decimal(n);
      assert s[..|s| - 1] == Decimal(n / 10);
    }
  }

  /** Python's `s.zfill(width)` for a string without sign. */
  function ZFill(s: string, width: nat): (r: string)
    ensures |r| == if |s| >= width then |s| else width
    ensures r[|r| - |s|..] == s
    ensures forall i :: 0 <= i < |r| - |s| ==> r[i] == '0'
  {
    if |s| >= width then s else seq(width - |s|, _ => '0') + s
  }

  lemma {:induction false} ParseDecimalLeadingZeros(z: string, s: string)
    requires forall i :: 0 <= i < |z| ==> z[i] == '0'
    ensures ParseDecimal(z + s) == ParseDecimal(s)
    decreases |s|
  {
    if s == [] {
      ZerosParseToZero(z);
      assert z + s == z;
    } else {
      var t := z + s;
      assert t[..|t| - 1] == z + s[..|s| - 1];
      ParseDecimalLeadingZeros(z, s[..|s| - 1]);
    }
  }

  lemma {:induction false} ZerosParseToZero(z: string)
    requires forall i :: 0 <= i < |z| ==> z[i] == '0'
    ensures ParseDecimal(z) == 0
  {
    if z != [] { ZerosParseToZero(z[..|z| - 1]); }
  }

  /** The three-digit counter `str(y).zfill(3)` used in device names. */
  function Counter3(y: nat): string {
    ZFill(Decimal(y), 3)
  }

  /** The padded counter still denotes `y`, so distinct counters give
      distinct strings. */
  lemma Counter3RoundTrip(y: nat)
    ensures ParseDecimal(Counter3(y)) == y
  {
    var d := Decimal(y);
    var r := Counter3(y);
    ParseDecimalOfDecimal(y);
    assert r == r[..|r| - |d|] + d;
    ParseDecimalLeadingZeros(r[..|r| - |d|], d);
  }

  lemma Counter3Injective(y: nat, z: nat)
    requires Counter3(y) == Counter3(z)
    ensures y == z
  {
    Counter3RoundTrip(y);
    Counter3RoundTrip(z);
  }

  /** Counters 1 to 999 are exactly three characters long. */
  lemma Counter3Width(y: nat)
    requires y < 1000
    ensures |Counter3(y)| == 3
  {
    assert |Decimal(y)| <= 3 by {
      if y >= 10 {
        assert |Decimal(y)| == |Decimal(y / 10)| + 1;
        if y / 10 >= 10 {
          assert |Decimal(y / 10)| == |Decimal(y / 10 / 10)| + 1;
          assert y / 10 / 10 < 10;
        }
      }
    }
  }

  // ---------------------------------------------------------------------
  // Lines, each followed by a separator

  /** `lines[0] + sep + lines[1] + sep + ...`, every line followed by `sep`. */
  function Terminated(lines: seq<string>, sep: char): string {
    if lines == [] then [] else lines[0] + [sep] + Terminated(lines[1..], sep)
  }

  lemma {:induction false} TerminatedAppend(lines: seq<string>, line: string, sep: char)
    ensures Terminated(lines + [line], sep) == Terminated(lines, sep) + line + [sep]
  {
    if lines != [] {
      assert (lines + [line])[1..] == lines[1..] + [line];
      TerminatedAppend(lines[1..], line, sep);
    }
  }

  /** Every line followed by `sep` is `sep.join(lines + [""])`, so splitting
      it at `sep` gives the lines back, followed by one empty piece. */
  lemma {:induction false} SplitTerminated(lines: seq<string>, sep: char)
    requires forall i :: 0 <= i < |lines| ==> sep !in lines[i]
    ensures Split(Terminated(lines, sep), sep) == lines + [""]
  {
    JoinTerminated(lines, sep);
    SplitJoin(lines + [""], sep);
  }

  lemma {:induction false} JoinTerminated(lines: seq<string>, sep: char)
    ensures Join(lines + [""], sep) == Terminated(lines, sep)
  {
    if lines != [] {
      assert (lines + [""])[1..] == lines[1..] + [""];
      JoinTerminated(lines[1..], sep);
    }
  }
}
