/**
 * The string operations the modelled Python code relies on: `startswith`,
 * `endswith`, `in`, `split` on one character, `join`, `strip`, `lower`,
 * `replace`, `str(int)` and `int(str)`, and the path helpers
 * `os.path.basename` / `os.path.splitext`.
 */
module Strings {
  import opened Wrappers

  predicate StartsWith(s: string, prefix: string)
  {
    |prefix| <= |s| && s[..|prefix|] == prefix
  }

  predicate EndsWith(s: string, suffix: string)
  {
    |suffix| <= |s| && s[|s| - |suffix|..] == suffix
  }

  /** `sub` occurs in `s` starting at position `i`. */
  predicate OccursAt(s: string, sub: string, i: nat)
  {
    i + |sub| <= |s| && s[i..i + |sub|] == sub
  }

  /** Python's `sub in s`. */
  predicate Contains(s: string, sub: string)
  {
    exists i | 0 <= i <= |s| :: OccursAt(s, sub, i)
  }

  lemma StartsWithContains(s: string, prefix: string)
    requires StartsWith(s, prefix)
    ensures Contains(s, prefix)
  {
    assert OccursAt(s, prefix, 0);
  }

  /** Position of the first `c` in `s` (Python's `s.index(c)`). */
  function IndexOf(s: string, c: char): (k: nat)
    requires c in s
    ensures k < |s| && s[k] == c && c !in s[..k]
  {
    if s[0] == c then 0
    else
      var k := 1 + IndexOf(s[1..], c);
      assert s[..k] == [s[0]] + s[1..][..k - 1];
      k
  }

  lemma IndexOfAfter(a: string, c: char, b: string)
    requires c !in a
    ensures c in a + [c] + b && IndexOf(a + [c] + b, c) == |a|
  {
    var s := a + [c] + b;
    assert s[|a|] == c;
    var k := IndexOf(s, c);
    assert k <= |a| ==> s[..k] == a[..k];
  }

  /** Python's `s.split(sep)` for a one-character separator. */
  function Split(s: string, sep: char): (parts: seq<string>)
    ensures |parts| >= 1
    ensures forall i :: 0 <= i < |parts| ==> sep !in parts[i]
    decreases |s|
  {
    if sep !in s then [s]
    else
      var k := IndexOf(s, sep);
      [s[..k]] + Split(s[k + 1..], sep)
  }

  /** Python's `sep.join(parts)`. */
  function Join(parts: seq<string>, sep: char): string
  {
    if |parts| == 0 then ""
    else if |parts| == 1 then parts[0]
    else parts[0] + [sep] + Join(parts[1..], sep)
  }

  /** Joining what `split` produced gives back the original string. */
  lemma {:induction false} JoinSplit(s: string, sep: char)
    ensures Join(Split(s, sep), sep) == s
    decreases |s|
  {
    if sep in s {
      var k := IndexOf(s, sep);
      var head, rest := s[..k], s[k + 1..];
      JoinSplit(rest, sep);
      JoinCons(head, Split(rest, sep), sep);
      PartsAround(s, k);
    }
  }

  lemma PartsAround(s: string, k: nat)
    requires k < |s|
    ensures s == s[..k] + [s[k]] + s[k + 1..]
  {
  }

  lemma JoinCons(head: string, parts: seq<string>, sep: char)
    requires |parts| >= 1
    ensures Join([head] + parts, sep) == head + [sep] + Join(parts, sep)
  {
    assert ([head] + parts)[1..] == parts;
  }

  /** Splitting a join of separator-free parts gives back the parts. */
  lemma {:induction false} SplitJoin(parts: seq<string>, sep: char)
    requires |parts| >= 1
    requires forall i :: 0 <= i < |parts| ==> sep !in parts[i]
    ensures Split(Join(parts, sep), sep) == parts
  {
    if |parts| > 1 {
      var rest := Join(parts[1..], sep);
      IndexOfAfter(parts[0], sep, rest);
      var s := parts[0] + [sep] + rest;
      assert s[..|parts[0]|] == parts[0];
      assert s[|parts[0]| + 1..] == rest;
      SplitJoin(parts[1..], sep);
    }
  }

  /** Position of the last `c` in `s`, or -1 (Python's `s.rfind(c)`). */
  function LastIndexOf(s: string, c: char): (k: int)
    ensures -1 <= k < |s|
    ensures k >= 0 ==> s[k] == c
    ensures forall j | k < j < |s| :: s[j] != c
  {
    if |s| == 0 then -1
    else if s[|s| - 1] == c then |s| - 1
    else LastIndexOf(s[..|s| - 1], c)
  }

  /**
   * The last component of `s.split(sep)`, which is also what
   * `os.path.basename` returns for `sep == '/'`.
   */
  function LastPart(s: string, sep: char): (r: string)
    ensures sep !in r
    ensures EndsWith(s, r)
    ensures r == s || (|r| < |s| && s[|s| - |r| - 1] == sep)
    ensures sep !in s ==> r == s
  {
    s[LastIndexOf(s, sep) + 1..]
  }

  /** All but the last component, joined again: `sep.join(s.split(sep)[:-1])`. */
  function AllButLastPart(s: string, sep: char): (r: string)
    ensures sep in s ==> r + [sep] + LastPart(s, sep) == s
    ensures sep !in s ==> r == ""
  {
    var k := LastIndexOf(s, sep);
    if k < 0 then "" else s[..k]
  }

  /** The first component of `s.split(sep)`. */
  function FirstPart(s: string, sep: char): (r: string)
    ensures r == Split(s, sep)[0]
    ensures StartsWith(s, r) && sep !in r
    ensures r == s || s[|r|] == sep
  {
    if sep !in s then s else s[..IndexOf(s, sep)]
  }

  /** `s.split(sep)[1]`, which raises IndexError when `sep` is absent. */
  function SecondPart(s: string, sep: char): (r: Result<string>)
    ensures r.Err? <==> sep !in s
    ensures r.Ok? ==> |Split(s, sep)| >= 2 && r.value == Split(s, sep)[1]
  {
    if sep !in s then Err(IndexError)
    else
      var k := IndexOf(s, sep);
      Ok(FirstPart(s[k + 1..], sep))
  }

  /** `os.path.join(a, b)` on POSIX paths. */
  function PathJoin(a: string, b: string): (r: string)
    ensures StartsWith(b, "/") ==> r == b
    ensures !StartsWith(b, "/") ==> StartsWith(r, a)
  {
    if StartsWith(b, "/") then b
    else if a == "" || EndsWith(a, "/") then a + b
    else a + "/" + b
  }

  /** The joined path ends with its second part. */
  lemma PathJoinEndsWith(a: string, b: string)
    ensures EndsWith(PathJoin(a, b), b)
  {
    var r := PathJoin(a, b);
    assert r[|r| - |b|..] == b;
  }

  /** Python's `s.strip(chars)` for the set of characters `cs`. */
  function StripChars(s: string, cs: set<char>): (r: string)
    ensures |r| <= |s|
    ensures |r| > 0 ==> r[0] !in cs && r[|r| - 1] !in cs
    ensures (forall i | 0 <= i < |s| :: s[i] !in cs) ==> r == s
    decreases |s|
  {
    if |s| > 0 && s[0] in cs then StripChars(s[1..], cs)
    else if |s| > 0 && s[|s| - 1] in cs then StripChars(s[..|s| - 1], cs)
    else s
  }

  /** `s[a..b]` is what is left of `s` once a leading and a trailing run of characters of `cs` are cut off. */
  predicate CutRuns(s: string, cs: set<char>, a: int, b: int)
  {
    0 <= a <= b <= |s| && (forall i | 0 <= i < a :: s[i] in cs) && (forall i | b <= i < |s| :: s[i] in cs)
  }

  /**
   * `strip` keeps the middle of `s`: it removes a leading and a trailing run
   * of characters of `cs`, and (by the ensures of `StripChars`) runs that
   * are as long as possible.
   */
  lemma {:induction false} StripCharsInfix(s: string, cs: set<char>)
    ensures exists a, b | CutRuns(s, cs, a, b) :: StripChars(s, cs) == s[a..b]
    decreases |s|
  {
    if |s| > 0 && s[0] in cs {
      var t := s[1..];
      StripCharsInfix(t, cs);
      var a, b :| CutRuns(t, cs, a, b) && StripChars(t, cs) == t[a..b];
      assert t[a..b] == s[a + 1..b + 1];
      forall i | 0 <= i < a + 1 ensures s[i] in cs {
        if i > 0 { assert s[i] == t[i - 1]; }
      }
      forall i | b + 1 <= i < |s| ensures s[i] in cs {
        assert s[i] == t[i - 1];
      }
      assert CutRuns(s, cs, a + 1, b + 1);
    } else if |s| > 0 && s[|s| - 1] in cs {
      var t := s[..|s| - 1];
      StripCharsInfix(t, cs);
      var a, b :| CutRuns(t, cs, a, b) && StripChars(t, cs) == t[a..b];
      assert t[a..b] == s[a..b];
      forall i | b <= i < |s| ensures s[i] in cs {
        if i < |s| - 1 { assert s[i] == t[i]; }
      }
      assert CutRuns(s, cs, a, b);
    } else {
      assert s[0..|s|] == s;
      assert CutRuns(s, cs, 0, |s|);
    }
  }

  /**
   * The characters `str.isspace()` accepts, which `strip()` without
   * arguments and `int()` remove: the ASCII controls \t, \n, \v, \f, \r
   * and 0x1C-0x1F, the space, NEL, NO-BREAK SPACE and the Unicode space and
   * separator characters.
   */
  const Whitespace: set<char> := {
    '\t', '\n', '\U{0B}', '\U{0C}', '\r', '\U{1C}', '\U{1D}', '\U{1E}', '\U{1F}', ' ',
    '\U{85}', '\U{A0}', '\U{1680}',
    '\U{2000}', '\U{2001}', '\U{2002}', '\U{2003}', '\U{2004}', '\U{2005}',
    '\U{2006}', '\U{2007}', '\U{2008}', '\U{2009}', '\U{200A}',
    '\U{2028}', '\U{2029}', '\U{202F}', '\U{205F}', '\U{3000}'}

  /** Python's `s.lower()` on ASCII letters. */
  function Lower(s: string): (r: string)
    ensures |r| == |s|
    ensures forall i | 0 <= i < |s| :: r[i] == LowerChar(s[i])
  {
    seq(|s|, i requires 0 <= i < |s| => LowerChar(s[i]))
  }

  /** An upper-case ASCII letter becomes the lower-case letter at the same place in the alphabet. */
  function LowerChar(c: char): (r: char)
    ensures 'A' <= c <= 'Z' ==> 'a' <= r <= 'z' && r as int - 'a' as int == c as int - 'A' as int
    ensures !('A' <= c <= 'Z') ==> r == c
  {
    if 'A' <= c <= 'Z' then (c as int - 'A' as int + 'a' as int) as char else c
  }

  /** Python's `s.replace(c, '')` for one character. */
  function RemoveChar(s: string, c: char): (r: string)
    ensures c !in r
    ensures |r| <= |s|
    ensures c !in s ==> r == s
    ensures multiset(r) == multiset(s)[c := 0]
  {
    if |s| == 0 then ""
    else
      assert s == [s[0]] + s[1..];
      if s[0] == c then RemoveChar(s[1..], c)
      else [s[0]] + RemoveChar(s[1..], c)
  }

  /** Removal works piece by piece, so the kept characters stay in their order. */
  lemma {:induction false} RemoveCharAppend(s: string, t: string, c: char)
    ensures RemoveChar(s + t, c) == RemoveChar(s, c) + RemoveChar(t, c)
  {
    if |s| > 0 {
      assert (s + t)[1..] == s[1..] + t;
      RemoveCharAppend(s[1..], t, c);
    } else {
      assert s + t == t;
    }
  }

  /**
   * Python's `s.replace(pat, rep, count)`: the first `count` non-overlapping
   * occurrences of `pat`, scanned from the left, become `rep`.
   */
  function ReplaceFirst(s: string, pat: string, rep: string, count: nat): (r: string)
    requires |pat| > 0
    ensures count == 0 ==> r == s
    decreases |s|
  {
    if count == 0 || |s| == 0 then s
    else if StartsWith(s, pat) then rep + ReplaceFirst(s[|pat|..], pat, rep, count - 1)
    else [s[0]] + ReplaceFirst(s[1..], pat, rep, count)
  }

  /**
   * The leftmost occurrence is replaced first: in `a + pat + b`, when no
   * occurrence starts inside `a`, the text before it is kept, that
   * occurrence becomes `rep` and the remaining replacements go to `b`.
   */
  lemma {:induction false} ReplaceFirstLeftmost(a: string, pat: string, b: string, rep: string, count: nat)
    requires |pat| > 0 && count > 0
    requires forall i | 0 <= i < |a| :: !OccursAt(a + pat + b, pat, i)
    ensures ReplaceFirst(a + pat + b, pat, rep, count) == a + rep + ReplaceFirst(b, pat, rep, count - 1)
    decreases |a|
  {
    var s := a + pat + b;
    if |a| == 0 {
      assert s == pat + b;
      assert s[..|pat|] == pat;
      assert s[|pat|..] == b;
    } else {
      assert !OccursAt(s, pat, 0);
      assert s[1..] == a[1..] + pat + b;
      forall i | 0 <= i < |a| - 1 ensures !OccursAt(a[1..] + pat + b, pat, i) {
        assert !OccursAt(s, pat, i + 1);
        if i + |pat| <= |s| - 1 {
          assert s[1..][i..i + |pat|] == s[i + 1..i + 1 + |pat|];
        }
      }
      ReplaceFirstLeftmost(a[1..], pat, b, rep, count);
      assert a == [a[0]] + a[1..];
    }
  }

  lemma {:induction false} ReplaceFirstAbsent(s: string, pat: string, rep: string, count: nat)
    requires |pat| > 0 && !Contains(s, pat)
    ensures ReplaceFirst(s, pat, rep, count) == s
    decreases |s|
  {
    if count > 0 && |s| > 0 {
      assert !OccursAt(s, pat, 0);
      forall i | 0 <= i <= |s| - 1 ensures !OccursAt(s[1..], pat, i) {
        assert !OccursAt(s, pat, i + 1);
        if i + |pat| <= |s| - 1 {
          assert s[1..][i..i + |pat|] == s[i + 1..i + 1 + |pat|];
        }
      }
      ReplaceFirstAbsent(s[1..], pat, rep, count);
    }
  }

  // ---------------------------------------------------------------------
  // Decimal integers: `str(n)` and `int(s)`

  predicate IsDigit(c: char)
  {
    '0' <= c <= '9'
  }

  predicate AllDigits(s: string)
  {
    forall i | 0 <= i < |s| :: IsDigit(s[i])
  }

  function DigitChar(d: nat): (c: char)
    requires d < 10
    ensures IsDigit(c) && c as int - '0' as int == d
  {
    ('0' as int + d) as char
  }

  /** `str(n)` for a non-negative integer: shortest decimal form. */
  function NatToString(n: nat): (s: string)
    ensures |s| >= 1 && AllDigits(s)
    ensures |s| > 1 ==> s[0] != '0'
  {
    if n < 10 then [DigitChar(n)] else NatToString(n / 10) + [DigitChar(n % 10)]
  }

  /** The number a string of decimal digits denotes. */
  function DigitsValue(s: string): nat
    requires AllDigits(s)
  {
    if |s| == 0 then 0
    else 10 * DigitsValue(s[..|s| - 1]) + (s[|s| - 1] as int - '0' as int)
  }

  lemma {:induction false} DigitsValueOfNatToString(n: nat)
    ensures DigitsValue(NatToString(n)) == n
  {
    if n >= 10 {
      DigitsValueOfNatToString(n / 10);
      var s := NatToString(n);
      assert s[..|s| - 1] == NatToString(n / 10);
    }
  }

  /** `str(x)` for any integer. */
  function IntToString(x: int): (s: string)
    ensures |s| >= 1 && (x < 0 <==> s[0] == '-')
  {
    if x < 0 then "-" + NatToString(-x) else NatToString(x)
  }

  /**
   * Python's `int(s)` on a decimal literal: surrounding whitespace, an
   * optional sign, then at least one digit. Anything else raises ValueError.
   */
  function ParseInt(s: string): (r: Result<int>)
    ensures StripChars(s, Whitespace) == "" ==> r == Err(ValueError)
    ensures r.Err? ==> r.error == ValueError
  {
    var t := StripChars(s, Whitespace);
    if |t| >= 2 && t[0] == '-' && AllDigits(t[1..]) then Ok(-(DigitsValue(t[1..]) as int))
    else if |t| >= 2 && t[0] == '+' && AllDigits(t[1..]) then Ok(DigitsValue(t[1..]))
    else if |t| >= 1 && AllDigits(t) then Ok(DigitsValue(t))
    else Err(ValueError)
  }

  /** `str(x)` has no surrounding whitespace to strip. */
  lemma IntToStringStripped(x: int)
    ensures StripChars(IntToString(x), Whitespace) == IntToString(x)
  {
    var s := IntToString(x);
    if x < 0 {
      var d := NatToString(-x);
      assert s == "-" + d;
      forall i | 0 <= i < |s| ensures s[i] !in Whitespace {
        if i > 0 {
          assert s[i] == d[i - 1] && IsDigit(d[i - 1]);
        }
      }
    } else {
      forall i | 0 <= i < |s| ensures s[i] !in Whitespace {
        assert IsDigit(s[i]);
      }
    }
  }

  lemma ParseIntOfIntToString(x: int)
    ensures ParseInt(IntToString(x)) == Ok(x)
  {
    var s := IntToString(x);
    IntToStringStripped(x);
    if x < 0 {
      assert s[1..] == NatToString(-x);
      DigitsValueOfNatToString(-x);
    } else {
      DigitsValueOfNatToString(x);
    }
  }

  /** `[int(p) for p in s.split(',')]`, failing on the first bad element. */
  function ParseIntList(s: string): (r: Result<seq<int>>)
    ensures r.Ok? ==> |r.value| == |Split(s, ',')|
    ensures r.Err? ==> r.error == ValueError
  {
    ParseAll(Split(s, ','))
  }

  function ParseAll(parts: seq<string>): (r: Result<seq<int>>)
    ensures r.Ok? ==> |r.value| == |parts|
    ensures r.Ok? ==> forall i | 0 <= i < |parts| :: ParseInt(parts[i]) == Ok(r.value[i])
    ensures r.Err? <==> exists i | 0 <= i < |parts| :: ParseInt(parts[i]).Err?
    ensures r.Err? ==> r.error == ValueError
  {
    if |parts| == 0 then Ok([])
    else
      var x :- ParseInt(parts[0]);
      var xs :- ParseAll(parts[1..]);
      assert forall i | 1 <= i < |parts| :: parts[i] == parts[1..][i - 1];
      Ok([x] + xs)
  }

  /** A character that is neither a digit nor a minus sign never occurs in `str(x)`. */
  lemma SeparatorNotInIntToString(x: int, sep: char)
    requires !IsDigit(sep) && sep != '-'
    ensures sep !in IntToString(x)
  {
    var s := IntToString(x);
    if x < 0 {
      var d := NatToString(-x);
      assert s == "-" + d;
      assert forall j | 0 <= j < |d| :: d[j] != sep;
    }
  }

  /** `sep.join(str(x) for x in xs)`. */
  function JoinInts(xs: seq<int>, sep: char): string
  {
    Join(seq(|xs|, i requires 0 <= i < |xs| => IntToString(xs[i])), sep)
  }

  /**
   * Writing a non-empty list of integers with a separator and parsing the
   * parts back is lossless.
   */
  lemma ParseAllOfJoin(xs: seq<int>, sep: char)
    requires |xs| >= 1
    requires !IsDigit(sep) && sep != '-'
    ensures ParseAll(Split(JoinInts(xs, sep), sep)) == Ok(xs)
  {
    var parts := seq(|xs|, i requires 0 <= i < |xs| => IntToString(xs[i]));
    forall i | 0 <= i < |parts| ensures sep !in parts[i] {
      SeparatorNotInIntToString(xs[i], sep);
    }
    SplitJoin(parts, sep);
    assert Split(JoinInts(xs, sep), sep) == parts;
    forall i | 0 <= i < |parts| ensures ParseInt(parts[i]) == Ok(xs[i]) {
      ParseIntOfIntToString(xs[i]);
    }
    var r := ParseAll(parts);
    assert r.Ok?;
    assert r.value == xs;
  }

  /** `lr_epochs`-style lists: a comma-separated string parses back to its numbers. */
  lemma ParseIntListOfJoin(xs: seq<int>)
    requires |xs| >= 1
    ensures ParseIntList(JoinInts(xs, ',')) == Ok(xs)
  {
    ParseAllOfJoin(xs, ',');
  }
}
