/** Option type shared by every module. */
module Wrappers {
  datatype Option<T> = None | Some(value: T)
  {
    predicate IsSome() { Some? }

    function GetOr(default: T): T
    {
      match this
      case None => default
      case Some(v) => v
    }
  }
}

/**
 * Character and string helpers: whitespace, stripping, ASCII case mapping,
 * splitting on a separator, decimal rendering and a lexicographic order.
 */
module Numbers {
  function Max(a: int, b: int): int { if a >= b then a else b }

  function Min(a: int, b: int): int { if a <= b then a else b }
}

module Text {

  /** The characters Python's `str.isspace` accepts (ASCII and the Unicode separators). */
  predicate IsSpace(c: char)
  {
    c == ' ' || ('\t' <= c <= '\r') || ('\U{1C}' <= c <= '\U{1F}') || c == '\U{85}' || c == '\U{A0}'
    || c == '\U{1680}' || ('\U{2000}' <= c <= '\U{200A}') || c == '\U{2028}' || c == '\U{2029}'
    || c == '\U{202F}' || c == '\U{205F}' || c == '\U{3000}'
  }

  /** The characters JavaScript's `trim` removes: white space and line terminators. */
  predicate IsJsSpace(c: char)
  {
    c == ' ' || ('\t' <= c <= '\r') || c == '\U{A0}' || c == '\U{FEFF}'
    || c == '\U{1680}' || ('\U{2000}' <= c <= '\U{200A}') || c == '\U{2028}' || c == '\U{2029}'
    || c == '\U{202F}' || c == '\U{205F}' || c == '\U{3000}'
  }

  predicate IsDigit(c: char) { '0' <= c <= '9' }

  predicate IsLowerAlnum(c: char) { ('a' <= c <= 'z') || IsDigit(c) }

  predicate AllDigits(s: string) { forall i :: 0 <= i < |s| ==> IsDigit(s[i]) }

  // ---------------------------------------------------------------- stripping

  /** Drops the longest prefix whose characters satisfy `drop`. */
  function TrimStart(s: string, drop: char -> bool): (r: string)
    ensures |r| <= |s|
    decreases |s|
  {
    if s != [] && drop(s[0]) then TrimStart(s[1..], drop) else s
  }

  /** Drops the longest suffix whose characters satisfy `drop`. */
  function TrimEnd(s: string, drop: char -> bool): (r: string)
    ensures |r| <= |s|
    decreases |s|
  {
    if s != [] && drop(s[|s| - 1]) then TrimEnd(s[..|s| - 1], drop) else s
  }

  /** `TrimStart` keeps a suffix, every character it drops satisfies `drop`, and the first one it keeps does not. */
  lemma {:induction false} TrimStartSpec(s: string, drop: char -> bool)
    ensures var r := TrimStart(s, drop);
      r == s[|s| - |r|..] && (r == [] || !drop(r[0]))
      && forall i :: 0 <= i < |s| - |r| ==> drop(s[i])
    decreases |s|
  {
    if s != [] && drop(s[0]) {
      TrimStartSpec(s[1..], drop);
      var r := TrimStart(s, drop);
      forall i | 0 <= i < |s| - |r| ensures drop(s[i]) {
        if i > 0 { assert s[i] == s[1..][i - 1]; }
      }
    }
  }

  /** `TrimEnd` keeps a prefix, every character it drops satisfies `drop`, and the last one it keeps does not. */
  lemma {:induction false} TrimEndSpec(s: string, drop: char -> bool)
    ensures var r := TrimEnd(s, drop);
      r == s[..|r|] && (r == [] || !drop(r[|r| - 1]))
      && forall i :: |r| <= i < |s| ==> drop(s[i])
    decreases |s|
  {
    if s != [] && drop(s[|s| - 1]) {
      TrimEndSpec(s[..|s| - 1], drop);
      var r := TrimEnd(s, drop);
      forall i | |r| <= i < |s| ensures drop(s[i]) {
        if i < |s| - 1 { assert s[i] == s[..|s| - 1][i]; }
      }
    }
  }

  function Trim(s: string, drop: char -> bool): string
  {
    TrimEnd(TrimStart(s, drop), drop)
  }

  /** JavaScript's `String.prototype.trim`. */
  function JsTrim(s: string): string
  {
    Trim(s, IsJsSpace)
  }

  /** Python `str.strip()` with no argument. */
  function Strip(s: string): string
  {
    Trim(s, IsSpace)
  }

  /** A string that `Strip` leaves alone: no whitespace at either end. */
  predicate IsStripped(s: string)
  {
    s == [] || (!IsSpace(s[0]) && !IsSpace(s[|s| - 1]))
  }

  lemma TrimStartFixed(s: string, drop: char -> bool)
    requires s == [] || !drop(s[0])
    ensures TrimStart(s, drop) == s
  {
  }

  lemma TrimEndFixed(s: string, drop: char -> bool)
    requires s == [] || !drop(s[|s| - 1])
    ensures TrimEnd(s, drop) == s
  {
  }

  /** `Strip` removes exactly the whitespace at both ends and keeps the middle. */
  lemma StripSpec(s: string)
    ensures IsStripped(Strip(s))
    ensures exists a, b :: 0 <= a <= b <= |s| && Strip(s) == s[a..b]
                           && (forall i :: 0 <= i < a ==> IsSpace(s[i]))
                           && (forall i :: b <= i < |s| ==> IsSpace(s[i]))
  {
    var t := TrimStart(s, IsSpace);
    var r := TrimEnd(t, IsSpace);
    TrimStartSpec(s, IsSpace);
    TrimEndSpec(t, IsSpace);
    var a := |s| - |t|;
    var b := a + |r|;
    assert r == s[a..b];
    if r != [] {
      assert r[0] == t[0];
    }
    forall i | b <= i < |s| ensures IsSpace(s[i]) {
      assert s[i] == t[i - a];
    }
  }

  /** `Strip(s)` is the slice of `s` that starts after the leading whitespace. */
  lemma StripIsSlice(s: string)
    ensures var a := |s| - |TrimStart(s, IsSpace)|;
      a + |Strip(s)| <= |s| && Strip(s) == s[a..a + |Strip(s)|]
  {
    TrimStartSpec(s, IsSpace);
    TrimEndSpec(TrimStart(s, IsSpace), IsSpace);
  }

  lemma StripOfStripped(s: string)
    requires IsStripped(s)
    ensures Strip(s) == s
  {
    TrimStartFixed(s, IsSpace);
    TrimEndFixed(s, IsSpace);
  }

  lemma {:induction false} TrimStartSkips(before: string, s: string, drop: char -> bool)
    requires forall k :: 0 <= k < |before| ==> drop(before[k])
    ensures TrimStart(before + s, drop) == TrimStart(s, drop)
  {
    if before != [] {
      assert (before + s)[1..] == before[1..] + s;
      TrimStartSkips(before[1..], s, drop);
    } else {
      assert before + s == s;
    }
  }

  lemma {:induction false} TrimEndSkips(s: string, after: string, drop: char -> bool)
    requires forall k :: 0 <= k < |after| ==> drop(after[k])
    ensures TrimEnd(s + after, drop) == TrimEnd(s, drop)
  {
    if after != [] {
      var a := after[..|after| - 1];
      assert (s + after)[..|s + after| - 1] == s + a;
      TrimEndSkips(s, a, drop);
    } else {
      assert s + after == s;
    }
  }

  lemma TrimAround(before: string, t: string, after: string, drop: char -> bool)
    requires forall k :: 0 <= k < |before| ==> drop(before[k])
    requires forall k :: 0 <= k < |after| ==> drop(after[k])
    requires t == [] || (!drop(t[0]) && !drop(t[|t| - 1]))
    ensures Trim(before + t + after, drop) == t
  {
    assert before + t + after == before + (t + after);
    TrimStartSkips(before, t + after, drop);
    if t != [] {
      assert (t + after)[0] == t[0];
      TrimStartFixed(t + after, drop);
      TrimEndSkips(t, after, drop);
      TrimEndFixed(t, drop);
    } else {
      assert t + after == after + [];
      TrimStartSkips(after, [], drop);
    }
  }

  /** A prefix of droppable characters is removed by `TrimStart`. */
  lemma {:induction false} TrimStartDropsPrefix(s: string, n: nat, drop: char -> bool)
    requires n <= |s|
    requires forall k :: 0 <= k < n ==> drop(s[k])
    ensures |TrimStart(s, drop)| <= |s| - n
  {
    if n > 0 {
      TrimStartDropsPrefix(s[1..], n - 1, drop);
    }
  }

  /** Whitespace around a stripped string is exactly what `Strip` removes. */
  lemma StripAround(before: string, t: string, after: string)
    requires forall k :: 0 <= k < |before| ==> IsSpace(before[k])
    requires forall k :: 0 <= k < |after| ==> IsSpace(after[k])
    requires IsStripped(t)
    ensures Strip(before + t + after) == t
  {
    TrimAround(before, t, after, IsSpace);
  }

  /** Stripping twice is stripping once. */
  lemma StripIdempotent(s: string)
    ensures Strip(Strip(s)) == Strip(s)
  {
    StripSpec(s);
    StripOfStripped(Strip(s));
  }

  /** A string strips to nothing exactly when it is all whitespace. */
  lemma StripEmptyIff(s: string)
    ensures Strip(s) == [] <==> forall i :: 0 <= i < |s| ==> IsSpace(s[i])
  {
    var t := TrimStart(s, IsSpace);
    TrimStartSpec(s, IsSpace);
    TrimEndSpec(t, IsSpace);
    if t != [] {
      assert !IsSpace(t[0]);
      assert s[|s| - |t|] == t[0];
    }
  }

  // --------------------------------------------------------------- case maps

  function LowerChar(c: char): char
  {
    if 'A' <= c <= 'Z' then (c as int + 32) as char else c
  }

  function UpperChar(c: char): char
  {
    if 'a' <= c <= 'z' then (c as int - 32) as char else c
  }

  /** ASCII lower-casing, character by character. */
  function Lower(s: string): (r: string)
    ensures |r| == |s| && forall i :: 0 <= i < |s| ==> r[i] == LowerChar(s[i])
  {
    seq(|s|, i requires 0 <= i < |s| => LowerChar(s[i]))
  }

  /** ASCII upper-casing, character by character. */
  function Upper(s: string): (r: string)
    ensures |r| == |s| && forall i :: 0 <= i < |s| ==> r[i] == UpperChar(s[i])
  {
    seq(|s|, i requires 0 <= i < |s| => UpperChar(s[i]))
  }

  lemma LowerIdempotent(s: string)
    ensures Lower(Lower(s)) == Lower(s)
  {
  }

  // ------------------------------------------------------------- substrings

  predicate IsPrefix(p: string, s: string) { |p| <= |s| && s[..|p|] == p }

  /** Python `p in s` / JavaScript `s.includes(p)` for strings. */
  predicate Contains(s: string, p: string)
    decreases |s|
  {
    IsPrefix(p, s) || (s != [] && Contains(s[1..], p))
  }

  // ---------------------------------------------------------------- splitting

  /** Index of the first `c` in `s`, or `|s|` when there is none. */
  function IndexOf(s: string, c: char): (i: nat)
    ensures i <= |s|
    ensures i < |s| ==> s[i] == c
    ensures forall k :: 0 <= k < i ==> s[k] != c
  {
    if s == [] then 0
    else if s[0] == c then 0
    else 1 + IndexOf(s[1..], c)
  }

  /** Python `s.split(sep)` / JavaScript `s.split(sep)` for a one-character separator. */
  function Split(s: string, sep: char): (r: seq<string>)
    ensures |r| >= 1
    ensures forall k :: 0 <= k < |r| ==> sep !in r[k]
    decreases |s|
  {
    var i := IndexOf(s, sep);
    if i == |s| then [s] else [s[..i]] + Split(s[i + 1..], sep)
  }

  /** Joins the pieces with one `sep` between neighbours. */
  function Join(parts: seq<string>, sep: char): string
  {
    if parts == [] then []
    else if |parts| == 1 then parts[0]
    else parts[0] + [sep] + Join(parts[1..], sep)
  }

  /** `parts.join(sep)` with a separator of any length. */
  function JoinWith(parts: seq<string>, sep: string): string
  {
    if parts == [] then "" else if |parts| == 1 then parts[0] else parts[0] + sep + JoinWith(parts[1..], sep)
  }

  /** A camelCase key spaced out: a space before each capital letter. */
  function Spaced(key: string): string
  {
    if key == [] then []
    else (if 'A' <= key[0] <= 'Z' then [' ', key[0]] else [key[0]]) + Spaced(key[1..])
  }

  /** A camelCase key as a title: spaced out, first letter upper-cased. */
  function Label(key: string): string
  {
    var s := Spaced(key);
    if s == [] then [] else [UpperChar(s[0])] + s[1..]
  }

  function Count(s: string, c: char): nat
  {
    if s == [] then 0 else (if s[0] == c then 1 else 0) + Count(s[1..], c)
  }

  lemma CountAppend(a: string, b: string, c: char)
    ensures Count(a + b, c) == Count(a, c) + Count(b, c)
  {
    if a == [] {
      assert a + b == b;
    } else {
      assert (a + b)[1..] == a[1..] + b;
      CountAppend(a[1..], b, c);
    }
  }

  lemma CountAbsent(s: string, c: char)
    requires c !in s
    ensures Count(s, c) == 0
  {
  }

  /** Joining the pieces of a split gives back the string. */
  lemma {:induction false} JoinSplit(s: string, sep: char)
    ensures Join(Split(s, sep), sep) == s
    decreases |s|
  {
    var i := IndexOf(s, sep);
    if i < |s| {
      JoinSplit(s[i + 1..], sep);
      JoinSplitStep(s, sep, i);
    } else {
      assert Split(s, sep) == [s];
    }
  }

  /** The step of JoinSplit: the first piece, the separator, and the joined rest. */
  lemma JoinSplitStep(s: string, sep: char, i: nat)
    requires i == IndexOf(s, sep) && i < |s|
    requires Join(Split(s[i + 1..], sep), sep) == s[i + 1..]
    ensures Join(Split(s, sep), sep) == s
  {
    SplitAt(s, sep, i);
    JoinCons(s[..i], Split(s[i + 1..], sep), sep);
    Around(s, i);
  }

  lemma SplitAt(s: string, sep: char, i: nat)
    requires i == IndexOf(s, sep) && i < |s|
    ensures Split(s, sep) == [s[..i]] + Split(s[i + 1..], sep)
  {
  }

  /** A string is what comes before index `i`, the character there, and what follows. */
  lemma Around<T>(s: seq<T>, i: nat)
    requires i < |s|
    ensures s == s[..i] + [s[i]] + s[i + 1..]
  {
    assert s == s[..i] + s[i..] && s[i..] == [s[i]] + s[i + 1..];
  }

  /** Joining one more piece in front adds it and a separator. */
  lemma JoinCons(head: string, tail: seq<string>, sep: char)
    requires |tail| >= 1
    ensures Join([head] + tail, sep) == head + [sep] + Join(tail, sep)
  {
    assert ([head] + tail)[1..] == tail;
  }

  /** Splitting a join of separator-free pieces gives back the pieces. */
  lemma {:induction false} SplitJoin(parts: seq<string>, sep: char)
    requires |parts| >= 1
    requires forall k :: 0 <= k < |parts| ==> sep !in parts[k]
    ensures Split(Join(parts, sep), sep) == parts
  {
    var p := parts[0];
    if |parts| == 1 {
      assert IndexOf(p, sep) == |p|;
    } else {
      JoinCons(p, parts[1..], sep);
      assert parts == [p] + parts[1..];
      SplitCons(p, Join(parts[1..], sep), sep);
      SplitJoin(parts[1..], sep);
    }
  }

  /** A separator-free piece, a separator and the rest split into the piece and the split rest. */
  lemma SplitCons(p: string, rest: string, sep: char)
    requires sep !in p
    ensures Split(p + [sep] + rest, sep) == [p] + Split(rest, sep)
  {
    var s := p + [sep] + rest;
    assert s[|p|] == sep;
    assert IndexOf(s, sep) == |p| by {
      forall k | 0 <= k < |p| ensures s[k] != sep {
        assert s[k] == p[k];
      }
      IndexOfFirst(s, sep, |p|);
    }
    assert s[..|p|] == p;
    assert s[|p| + 1..] == rest;
  }

  lemma IndexOfFirst(s: string, c: char, i: nat)
    requires i < |s| && s[i] == c
    requires forall k :: 0 <= k < i ==> s[k] != c
    ensures IndexOf(s, c) == i
  {
    if i > 0 {
      IndexOfFirst(s[1..], c, i - 1);
    }
  }

  /** A split yields one piece more than there are separators. */
  lemma {:induction false} SplitCount(s: string, sep: char)
    ensures |Split(s, sep)| == Count(s, sep) + 1
    decreases |s|
  {
    var i := IndexOf(s, sep);
    if i == |s| {
      CountAbsent(s, sep);
    } else {
      SplitCount(s[i + 1..], sep);
      assert s == s[..i] + ([sep] + s[i + 1..]);
      CountAppend(s[..i], [sep] + s[i + 1..], sep);
      CountAbsent(s[..i], sep);
      assert ([sep] + s[i + 1..])[1..] == s[i + 1..];
    }
  }

  // ----------------------------------------------------------------- decimals

  function DigitChar(d: nat): (c: char)
    requires d < 10
    ensures IsDigit(c)
  {
    "0123456789"[d]
  }

  function DigitValue(c: char): (d: nat)
    requires IsDigit(c)
    ensures d < 10
  {
    c as int - '0' as int
  }

  /** Decimal rendering of a natural number, as JavaScript's `String(n)` and Python's `str(n)`. */
  function NatToString(n: nat): (r: string)
    ensures |r| >= 1 && AllDigits(r)
    ensures r[0] == '0' ==> n == 0
  {
    if n < 10 then [DigitChar(n)] else NatToString(n / 10) + [DigitChar(n % 10)]
  }

  /** The value of a string of decimal digits (leading zeros allowed, empty is 0). */
  function DigitsValue(s: string): nat
    requires AllDigits(s)
  {
    if s == [] then 0 else DigitsValue(s[..|s| - 1]) * 10 + DigitValue(s[|s| - 1])
  }

  /** Reading back a rendered natural number gives the number. */
  lemma {:induction false} NatToStringRoundTrip(n: nat)
    ensures DigitsValue(NatToString(n)) == n
  {
    if n >= 10 {
      var r := NatToString(n);
      assert r[..|r| - 1] == NatToString(n / 10);
      NatToStringRoundTrip(n / 10);
    }
  }

  lemma NatToStringInjective(m: nat, n: nat)
    requires NatToString(m) == NatToString(n)
    ensures m == n
  {
    NatToStringRoundTrip(m);
    NatToStringRoundTrip(n);
  }

  /** A run of z '0' characters. */
  function Zeros(z: nat): (r: string)
    ensures |r| == z && AllDigits(r)
  {
    if z == 0 then [] else Zeros(z - 1) + ['0']
  }

  /** Leading zeros do not change the value of a digit string. */
  lemma {:induction false} LeadingZerosValue(z: nat, d: string)
    requires AllDigits(d)
    ensures DigitsValue(Zeros(z) + d) == DigitsValue(d)
    decreases |d|, z
  {
    if d == [] {
      assert Zeros(z) + d == Zeros(z);
      if z > 0 {
        assert Zeros(z)[..z - 1] == Zeros(z - 1);
        LeadingZerosValue(z - 1, []);
        assert Zeros(z - 1) + [] == Zeros(z - 1);
      }
    } else {
      var s := Zeros(z) + d;
      assert s[..|s| - 1] == Zeros(z) + d[..|d| - 1];
      LeadingZerosValue(z, d[..|d| - 1]);
    }
  }

  /** Signed decimal rendering: a leading '-' for negative numbers. */
  function IntToString(i: int): (r: string)
    ensures |r| >= 1
  {
    if i < 0 then "-" + NatToString(-i) else NatToString(i)
  }

  // --------------------------------------------------------------- ordering

  /**
   * Character-by-character lexicographic order, the order JavaScript's default
   * `sort` and `localeCompare` are modelled by.
   */
  predicate LexLe(a: string, b: string)
  {
    a == [] || (b != [] && (a[0] < b[0] || (a[0] == b[0] && LexLe(a[1..], b[1..]))))
  }

  lemma {:induction false} LexTotal(a: string, b: string)
    ensures LexLe(a, b) || LexLe(b, a)
  {
    if a != [] && b != [] && a[0] == b[0] {
      LexTotal(a[1..], b[1..]);
    }
  }

  lemma {:induction false} LexAntisymmetric(a: string, b: string)
    requires LexLe(a, b) && LexLe(b, a)
    ensures a == b
  {
    if a != [] && b != [] {
      LexAntisymmetric(a[1..], b[1..]);
      assert a == [a[0]] + a[1..];
      assert b == [b[0]] + b[1..];
    }
  }

  lemma {:induction false} LexTransitive(a: string, b: string, c: string)
    requires LexLe(a, b) && LexLe(b, c)
    ensures LexLe(a, c)
  {
    if a != [] && b != [] && c != [] && a[0] == b[0] && b[0] == c[0] {
      LexTransitive(a[1..], b[1..], c[1..]);
    }
  }

  // ------------------------------------------------------------------ sorting

  /** Ascending (or, with `desc`, descending) order on the keys of two elements. */
  predicate InOrder<T>(x: T, y: T, key: T -> string, desc: bool)
  {
    if desc then LexLe(key(y), key(x)) else LexLe(key(x), key(y))
  }

  predicate SortedBy<T>(s: seq<T>, key: T -> string, desc: bool)
  {
    forall i, j :: 0 <= i < j < |s| ==> InOrder(s[i], s[j], key, desc)
  }

  function InsertBy<T>(x: T, s: seq<T>, key: T -> string, desc: bool): (r: seq<T>)
    ensures multiset(r) == multiset(s) + multiset{x}
    ensures |r| == |s| + 1
  {
    if s == [] then [x]
    else if InOrder(x, s[0], key, desc) then [x] + s
    else
      assert s == [s[0]] + s[1..];
      [s[0]] + InsertBy(x, s[1..], key, desc)
  }

  lemma InOrderTransitive<T>(x: T, y: T, z: T, key: T -> string, desc: bool)
    requires InOrder(x, y, key, desc) && InOrder(y, z, key, desc)
    ensures InOrder(x, z, key, desc)
  {
    if desc {
      LexTransitive(key(z), key(y), key(x));
    } else {
      LexTransitive(key(x), key(y), key(z));
    }
  }

  lemma ConsSorted<T>(y: T, t: seq<T>, key: T -> string, desc: bool)
    requires SortedBy(t, key, desc)
    requires forall j :: 0 <= j < |t| ==> InOrder(y, t[j], key, desc)
    ensures SortedBy([y] + t, key, desc)
  {
    var r := [y] + t;
    forall i, j | 0 <= i < j < |r| ensures InOrder(r[i], r[j], key, desc) {
      assert r[j] == t[j - 1];
      if i > 0 { assert r[i] == t[i - 1]; }
    }
  }

  lemma HeadBeforeAll<T>(s: seq<T>, key: T -> string, desc: bool)
    requires s != [] && SortedBy(s, key, desc)
    ensures forall j :: 0 <= j < |s[1..]| ==> InOrder(s[0], s[1..][j], key, desc)
  {
    forall j | 0 <= j < |s[1..]| ensures InOrder(s[0], s[1..][j], key, desc) {
      assert s[1..][j] == s[j + 1];
    }
  }

  lemma {:induction false} InsertBySorted<T>(x: T, s: seq<T>, key: T -> string, desc: bool)
    requires SortedBy(s, key, desc)
    ensures SortedBy(InsertBy(x, s, key, desc), key, desc)
  {
    if s == [] {
    } else if InOrder(x, s[0], key, desc) {
      forall j | 0 <= j < |s| ensures InOrder(x, s[j], key, desc) {
        if j > 0 { InOrderTransitive(x, s[0], s[j], key, desc); }
      }
      ConsSorted(x, s, key, desc);
    } else {
      var t := InsertBy(x, s[1..], key, desc);
      assert SortedBy(s[1..], key, desc) by {
        forall i, j | 0 <= i < j < |s[1..]| ensures InOrder(s[1..][i], s[1..][j], key, desc) {
          assert s[1..][i] == s[i + 1] && s[1..][j] == s[j + 1];
        }
      }
      InsertBySorted(x, s[1..], key, desc);
      LexTotal(key(x), key(s[0]));
      HeadBeforeAll(s, key, desc);
      forall j | 0 <= j < |t| ensures InOrder(s[0], t[j], key, desc) {
        assert t[j] in multiset(s[1..]) + multiset{x} by { assert t[j] in multiset(t); }
        if t[j] != x {
          var m :| 0 <= m < |s[1..]| && s[1..][m] == t[j];
        }
      }
      ConsSorted(s[0], t, key, desc);
    }
  }

  /** Insertion sort: a sorted permutation of its input. */
  function SortBy<T>(s: seq<T>, key: T -> string, desc: bool): (r: seq<T>)
    ensures |r| == |s| && multiset(r) == multiset(s)
  {
    if s == [] then []
    else
      assert s == [s[0]] + s[1..];
      InsertBy(s[0], SortBy(s[1..], key, desc), key, desc)
  }

  lemma {:induction false} SortBySorted<T>(s: seq<T>, key: T -> string, desc: bool)
    ensures SortedBy(SortBy(s, key, desc), key, desc)
  {
    if s != [] {
      SortBySorted(s[1..], key, desc);
      InsertBySorted(s[0], SortBy(s[1..], key, desc), key, desc);
    }
  }
}
