/** Python `str` operations the search shells rely on, over `string` (a sequence of
    Unicode code points, as a Python `str` is). */
module PyText {

  datatype Option<+T> = None | Some(value: T)

  /** The code points for which Python's `str.isspace()` holds; `str.strip()` with no
      argument removes exactly these. */
  predicate IsSpace(c: char) {
    ('\t' <= c <= '\r') || ('\U{1C}' <= c <= '\U{1F}') || c == ' '
    || c == '\U{85}' || c == '\U{A0}' || c == '\U{1680}'
    || ('\U{2000}' <= c <= '\U{200A}') || c == '\U{2028}' || c == '\U{2029}'
    || c == '\U{202F}' || c == '\U{205F}' || c == '\U{3000}'
  }

  predicate AllSpace(s: string) {
    forall k :: 0 <= k < |s| ==> IsSpace(s[k])
  }

  /** `s.lstrip()` */
  function LStrip(s: string): (r: string)
    ensures |r| <= |s| && r == s[|s| - |r|..]
    ensures AllSpace(s[..|s| - |r|])
    ensures r == [] || !IsSpace(r[0])
  {
    if s != [] && IsSpace(s[0]) then
      var r := LStrip(s[1..]);
      var m := |s| - |r|;
      FrontParts(s, m);
      assert AllSpace(s[..m]) by {
        AllSpaceConcat([s[0]], s[1..][..m - 1]);
      }
      r
    else s
  }

  /** Cutting one character off the front of `s`, then splitting at `m - 1`, is
      splitting `s` at `m`. */
  lemma FrontParts(s: string, m: nat)
    requires 1 <= m <= |s|
    ensures s[..m] == [s[0]] + s[1..][..m - 1]
    ensures s[1..][m - 1..] == s[m..]
  {
  }

  /** Cutting one character off the back of `s`, then splitting at `m`, is splitting
      `s` at `m`. */
  lemma BackParts(s: string, m: nat)
    requires m < |s|
    ensures s[m..] == s[..|s| - 1][m..] + [s[|s| - 1]]
    ensures s[..|s| - 1][..m] == s[..m]
  {
  }

  lemma AllSpaceConcat(a: string, b: string)
    requires AllSpace(a) && AllSpace(b)
    ensures AllSpace(a + b)
  {
    forall k | 0 <= k < |a + b| ensures IsSpace((a + b)[k]) {
      if k >= |a| {
        assert (a + b)[k] == b[k - |a|];
      }
    }
  }

  /** `s.rstrip()` */
  function RStrip(s: string): (r: string)
    ensures |r| <= |s| && r == s[..|r|]
    ensures AllSpace(s[|r|..])
    ensures r == [] || !IsSpace(r[|r| - 1])
  {
    if s != [] && IsSpace(s[|s| - 1]) then
      var r := RStrip(s[..|s| - 1]);
      var m := |r|;
      BackParts(s, m);
      assert AllSpace(s[m..]) by {
        AllSpaceConcat(s[..|s| - 1][m..], [s[|s| - 1]]);
      }
      r
    else s
  }

  /** `s.strip()`: `s` without its leading and trailing whitespace. It is empty exactly
      when `s` is all whitespace, and otherwise neither starts nor ends with whitespace;
      `StripInfix` says where in `s` it sits. */
  function Strip(s: string): (r: string)
    ensures |r| <= |s|
    ensures r == [] <==> AllSpace(s)
    ensures r == [] || (!IsSpace(r[0]) && !IsSpace(r[|r| - 1]))
  {
    var l := LStrip(s);
    var r := RStrip(l);
    StripCases(s, l, r);
    assert r != [] ==> r[0] == l[0];
    r
  }

  lemma StripCases(s: string, l: string, r: string)
    requires l == LStrip(s) && r == RStrip(l)
    ensures r == [] <==> AllSpace(s)
  {
    if r == [] {
      assert l[0..] == l;
      assert l == [];
      assert s[..|s|] == s;
    }
  }

  /** `Strip(s)` is the infix of `s` starting at `StripStart(s)`, and everything cut
      off around it is whitespace. */
  lemma {:induction false} StripInfix(s: string)
    ensures StripStart(s) + |Strip(s)| <= |s|
    ensures Strip(s) == s[StripStart(s)..StripStart(s) + |Strip(s)|]
    ensures AllSpace(s[..StripStart(s)]) && AllSpace(s[StripStart(s) + |Strip(s)|..])
  {
    StripAt(s);
    StripAround(s);
  }

  lemma {:induction false} StripAt(s: string)
    ensures StripStart(s) + |Strip(s)| <= |s|
    ensures Strip(s) == s[StripStart(s)..StripStart(s) + |Strip(s)|]
  {
    var l := LStrip(s);
    var r := RStrip(l);
    assert r == Strip(s) && |s| - |l| == StripStart(s);
    InfixOfSuffix(s, l, r);
  }

  lemma {:induction false} StripAround(s: string)
    ensures StripStart(s) + |Strip(s)| <= |s|
    ensures AllSpace(s[..StripStart(s)]) && AllSpace(s[StripStart(s) + |Strip(s)|..])
  {
    var l := LStrip(s);
    var r := RStrip(l);
    SpaceAround(s, l, r);
    assert |Strip(s)| == |r|;
    assert StripStart(s) == |s| - |l|;
  }

  /** Whitespace cut from the front of `s` and then from the back of what is left is
      whitespace of `s` on either side of the result. */
  lemma SpaceAround(s: string, l: string, r: string)
    requires |l| <= |s| && l == s[|s| - |l|..] && AllSpace(s[..|s| - |l|])
    requires |r| <= |l| && r == l[..|r|] && AllSpace(l[|r|..])
    ensures AllSpace(s[|s| - |l| + |r|..])
  {
    InfixOfSuffix(s, l, r);
  }

  /** A prefix `r` of a suffix `l` of `s` is an infix of `s`, followed by the rest of `l`. */
  lemma InfixOfSuffix(s: string, l: string, r: string)
    requires |l| <= |s| && l == s[|s| - |l|..]
    requires |r| <= |l| && r == l[..|r|]
    ensures r == s[|s| - |l|..|s| - |l| + |r|]
    ensures s[|s| - |l| + |r|..] == l[|r|..]
  {
  }

  /** Where `Strip(s)` begins inside `s`. */
  function StripStart(s: string): (i: nat)
    ensures i <= |s|
  {
    |s| - |LStrip(s)|
  }

  /** Python's `not s.strip()`: the string is empty or whitespace only. */
  predicate IsBlank(s: string) {
    Strip(s) == []
  }

  /** Stripping a string that neither starts nor ends with whitespace changes nothing;
      in particular `Strip` is idempotent. */
  lemma StripStripped(s: string)
    requires s == [] || (!IsSpace(s[0]) && !IsSpace(s[|s| - 1]))
    ensures Strip(s) == s
  {
  }

  lemma {:induction false} StripIdempotent(s: string)
    ensures Strip(Strip(s)) == Strip(s)
  {
    StripStripped(Strip(s));
  }

  /** Stripping never introduces a character that was not there. */
  lemma StripKeepsOut(s: string, c: char)
    requires c !in s
    ensures c !in Strip(s)
  {
    StripInfix(s);
  }

  /** `s.startswith(p)` */
  predicate StartsWith(s: string, p: string) {
    |p| <= |s| && s[..|p|] == p
  }

  /** Number of occurrences of `c` in `s`. */
  function Count(s: string, c: char): (n: nat)
    ensures n <= |s|
    ensures n == 0 <==> c !in s
  {
    if s == [] then 0 else (if s[0] == c then 1 else 0) + Count(s[1..], c)
  }

  /** `s.split(sep)` for a one-character separator: the pieces between the
      occurrences of `sep`, one more piece than there are separators, none of them
      containing `sep`. */
  function Split(s: string, sep: char): (parts: seq<string>)
    ensures |parts| == Count(s, sep) + 1
    ensures forall k :: 0 <= k < |parts| ==> sep !in parts[k]
  {
    if s == [] then [[]]
    else
      var rest := Split(s[1..], sep);
      if s[0] == sep then [[]] + rest
      else [[s[0]] + rest[0]] + rest[1..]
  }

  /** `sep.join(parts)` */
  function Join(sep: string, parts: seq<string>): (r: string)
    ensures parts == [] ==> r == []
    ensures |parts| == 1 ==> r == parts[0]
  {
    if parts == [] then []
    else if |parts| == 1 then parts[0]
    else parts[0] + sep + Join(sep, parts[1..])
  }

  lemma JoinCons(sep: string, x: string, y: string, ys: seq<string>)
    ensures Join(sep, [x + y] + ys) == x + Join(sep, [y] + ys)
  {
    if ys != [] {
      assert ([x + y] + ys)[1..] == ys == ([y] + ys)[1..];
    }
  }

  /** Joining the pieces of a split with the same separator gives the string back. */
  lemma {:induction false} JoinSplit(s: string, sep: char)
    ensures Join([sep], Split(s, sep)) == s
  {
    if s != [] {
      var rest := Split(s[1..], sep);
      JoinSplit(s[1..], sep);
      if s[0] == sep {
        assert ([[]] + rest)[1..] == rest;
      } else {
        assert rest == [rest[0]] + rest[1..];
        JoinCons([sep], [s[0]], rest[0], rest[1..]);
      }
    }
  }

  /** Splitting a string whose first part holds no separator. */
  lemma {:induction false} SplitAfterPlain(a: string, t: string, sep: char)
    requires sep !in a
    ensures Split(a + t, sep) == [a + Split(t, sep)[0]] + Split(t, sep)[1..]
  {
    var st := Split(t, sep);
    if a != [] {
      FrontOfConcat(a, t);
      FrontOfConcat(a, st[0]);
      assert a[0] != sep by {
        assert a[0] in a;
      }
      NotInTail(a, sep);
      SplitAfterPlain(a[1..], t, sep);
      var rest := Split(a[1..] + t, sep);
      ConsParts(a[1..] + st[0], st[1..]);
      assert Split(a + t, sep) == [[a[0]] + rest[0]] + rest[1..];
    } else {
      assert a + t == t;
      assert a + st[0] == st[0];
      ConsParts(st[0], st[1..]);
    }
  }

  lemma FrontOfConcat(a: string, t: string)
    requires a != []
    ensures (a + t)[0] == a[0] && (a + t)[1..] == a[1..] + t
    ensures [a[0]] + (a[1..] + t) == a + t
  {
  }

  lemma NotInTail(a: string, c: char)
    requires a != [] && c !in a
    ensures c !in a[1..]
  {
    forall k | 0 <= k < |a| - 1 ensures a[1..][k] != c {
      assert a[1..][k] == a[k + 1];
    }
  }

  lemma ConsParts<T>(x: T, y: seq<T>)
    ensures ([x] + y)[0] == x && ([x] + y)[1..] == y && |[x] + y| == |y| + 1
  {
  }

  /** Splitting joined pieces that hold no separator gives the pieces back. */
  lemma {:induction false} SplitJoin(parts: seq<string>, sep: char)
    requires |parts| >= 1
    requires forall k :: 0 <= k < |parts| ==> sep !in parts[k]
    ensures Split(Join([sep], parts), sep) == parts
  {
    if |parts| == 1 {
      SplitAfterPlain(parts[0], [], sep);
      assert parts[0] + [] == parts[0];
    } else {
      var tail := Join([sep], parts[1..]);
      SplitJoin(parts[1..], sep);
      assert Join([sep], parts) == parts[0] + ([sep] + tail);
      SplitAfterPlain(parts[0], [sep] + tail, sep);
      assert ([sep] + tail)[1..] == tail;
      assert Split([sep] + tail, sep) == [[]] + parts[1..];
      assert parts[0] + [] == parts[0];
    }
  }

  /** A join is empty exactly when there is at most one piece and every piece is empty. */
  lemma {:induction false} JoinEmpty(sep: string, parts: seq<string>)
    requires sep != []
    ensures Join(sep, parts) == [] <==> |parts| <= 1 && forall k :: 0 <= k < |parts| ==> parts[k] == []
  {
    if |parts| > 1 {
      assert |Join(sep, parts)| >= |sep|;
    }
  }

  /** `c * n` in Python: `n` copies of `c`. */
  function Repeat(c: char, n: nat): (r: string)
    ensures |r| == n
    ensures forall k :: 0 <= k < n ==> r[k] == c
  {
    if n == 0 then [] else [c] + Repeat(c, n - 1)
  }

  /** `s[:n]` for a non-negative `n`: the longest prefix of `s` of length at most `n`. */
  function Take(s: string, n: nat): (r: string)
    ensures |r| <= n && r <= s
    ensures |s| <= n ==> r == s
    ensures |s| >= n ==> |r| == n
  {
    if |s| <= n then s else s[..n]
  }

  // ---- int() ----------------------------------------------------------------

  predicate IsDigit(c: char) {
    '0' <= c <= '9'
  }

  /** The digit part of a base-10 literal as Python's `int()` accepts it: ASCII digits,
      with single underscores allowed between two digits. */
  predicate IsDigitGroup(s: string) {
    && s != []
    && IsDigit(s[0]) && IsDigit(s[|s| - 1])
    && (forall k :: 0 <= k < |s| ==> IsDigit(s[k]) || s[k] == '_')
    && (forall k :: 0 <= k < |s| - 1 ==> s[k] == '_' ==> s[k + 1] != '_')
  }

  /** The value of a digit group, underscores ignored. */
  function DigitsValue(s: string): nat {
    if s == [] then 0
    else if IsDigit(s[|s| - 1]) then 10 * DigitsValue(s[..|s| - 1]) + (s[|s| - 1] as int - '0' as int)
    else DigitsValue(s[..|s| - 1])
  }

  /** Holds one of the information separators U+001C to U+001F. `str.isspace` counts
      them as whitespace, but `int()` skips only ASCII whitespace among the code points
      below U+0080, so they are never stripped before a literal. */
  predicate HasInfoSeparator(s: string) {
    exists k :: 0 <= k < |s| && '\U{1C}' <= s[k] <= '\U{1F}'
  }

  /** Python's `int(s)` for base 10: surrounding whitespace is stripped, one optional
      sign, then a digit group; anything else is a `ValueError` (`None`). An information
      separator is refused wherever it is: not stripped at the ends, and neither a
      sign, a digit nor an underscore inside. */
  function ParseInt(s: string): (r: Option<int>)
    ensures IsBlank(s) ==> r == None
    ensures HasInfoSeparator(s) ==> r == None
  {
    if HasInfoSeparator(s) then None
    else
    var t := Strip(s);
    if t != [] && (t[0] == '+' || t[0] == '-') then
      if IsDigitGroup(t[1..]) then
        var v: int := DigitsValue(t[1..]);
        Some(if t[0] == '-' then -v else v)
      else None
    else if IsDigitGroup(t) then Some(DigitsValue(t))
    else None
  }

  /** Decimal rendering of a natural number, as `str(n)` gives it. */
  function NatToString(n: nat): (s: string)
    ensures s != [] && forall k :: 0 <= k < |s| ==> IsDigit(s[k])
  {
    var d := ['0' + (n % 10) as char];
    if n < 10 then d else NatToString(n / 10) + d
  }

  /** `str(n)` for any integer. */
  function IntToString(n: int): (s: string) {
    if n < 0 then "-" + NatToString(-n) else NatToString(n)
  }

  lemma {:induction false} NatToStringValue(n: nat)
    ensures DigitsValue(NatToString(n)) == n
  {
    var s := NatToString(n);
    if n >= 10 {
      NatToStringValue(n / 10);
      assert s[..|s| - 1] == NatToString(n / 10);
    }
  }

  lemma DigitsAreGroup(s: string)
    requires s != [] && forall k :: 0 <= k < |s| ==> IsDigit(s[k])
    ensures IsDigitGroup(s)
  {
  }

  /** `int(str(n)) == n`: parsing undoes printing. */
  lemma {:induction false} IntRoundTrip(n: int)
    ensures ParseInt(IntToString(n)) == Some(n)
  {
    var m: nat := if n < 0 then -n else n;
    var digits := NatToString(m);
    NatToStringValue(m);
    DigitsAreGroup(digits);
    if n < 0 {
      ParseNegative(digits);
    } else {
      ParseUnsigned(digits);
    }
  }

  lemma {:induction false} ParseUnsigned(t: string)
    requires IsDigitGroup(t)
    ensures ParseInt(t) == Some(DigitsValue(t))
  {
    StripStripped(t);
    assert t[0] != '+' && t[0] != '-';
    assert !HasInfoSeparator(t);
  }

  lemma {:induction false} ParseNegative(t: string)
    requires IsDigitGroup(t)
    ensures ParseInt("-" + t) == Some(-(DigitsValue(t) as int))
  {
    var s := "-" + t;
    assert |s| == |t| + 1 && s[0] == '-';
    assert s[1..] == t;
    assert s[|s| - 1] == t[|t| - 1];
    assert IsDigit(s[|s| - 1]);
    StripStripped(s);
    assert Strip(s) == s;
    assert !HasInfoSeparator(s) by {
      forall k | 1 <= k < |s|
        ensures s[k] == t[k - 1]
      {
      }
    }
  }

  /** Python's `s.lower() == 'true'`. Only ASCII letters are case-folded here; no other
      code point lowers to one of the letters of "true". */
  predicate LowerIsTrue(s: string) {
    Lower(s) == "true"
  }

  function LowerChar(c: char): char {
    if 'A' <= c <= 'Z' then (c as int + 32) as char else c
  }

  function Lower(s: string): (r: string)
    ensures |r| == |s|
  {
    if s == [] then [] else [LowerChar(s[0])] + Lower(s[1..])
  }
}
