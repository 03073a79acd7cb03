/**
 * The pieces of `java.lang.String` and `java.lang.Integer` that the logging
 * code leans on, stated over `seq<char>`: `trim`, `split` with a
 * one-character separator, `replace`, `toLowerCase` on ASCII letters,
 * `Integer.parseInt`, `String.valueOf` of a possibly-null string, and the
 * wrap-around of 32-bit `int` arithmetic.
 */
module JavaText {
  import opened Wrappers

  // ---------------------------------------------------------------------
  // 32-bit int

  const MinInt: int := -0x8000_0000
  const MaxInt: int := 0x7fff_ffff

  predicate IsInt32(x: int)
  {
    MinInt <= x <= MaxInt
  }

  /** The value a Java `int` expression holds once `x` has wrapped around. */
  function Wrap32(x: int): (r: int)
    ensures IsInt32(r)
    ensures (r - x) % 0x1_0000_0000 == 0
    ensures IsInt32(x) ==> r == x
  {
    (x - MinInt) % 0x1_0000_0000 + MinInt
  }

  // ---------------------------------------------------------------------
  // trim and blankness

  /** `String.trim` removes every leading and trailing character at or below U+0020. */
  predicate IsTrimmable(c: char)
  {
    c <= ' '
  }

  predicate AllTrimmable(s: string)
  {
    forall i :: 0 <= i < |s| ==> IsTrimmable(s[i])
  }

  function TrimEnd(s: string): (r: string)
    ensures |r| <= |s| && r == s[..|r|]
    ensures AllTrimmable(s[|r|..])
    ensures r != [] ==> !IsTrimmable(r[|r| - 1])
    decreases |s|
  {
    if s != [] && IsTrimmable(s[|s| - 1]) then TrimEnd(s[..|s| - 1]) else s
  }

  /** How many trimmable characters `s` starts with. */
  function LeadingTrimmable(s: string): (n: nat)
    ensures n <= |s| && AllTrimmable(s[..n])
    ensures n < |s| ==> !IsTrimmable(s[n])
    decreases |s|
  {
    if s != [] && IsTrimmable(s[0]) then
      var n := 1 + LeadingTrimmable(s[1..]);
      assert forall k :: 1 <= k < n ==> s[k] == s[1..][..n - 1][k - 1];
      n
    else 0
  }

  /**
   * `r` is the part of `s` after its leading trimmable run, followed in `s`
   * only by trimmable characters.
   */
  predicate TrimmedSlice(s: string, r: string)
  {
    var i := LeadingTrimmable(s);
    i + |r| <= |s| && r == s[i..i + |r|] && AllTrimmable(s[i + |r|..])
  }

  /**
   * `String.trim`: leading characters dropped one by one, then the trailing
   * ones. The result is the slice of `s` after its leading trimmable run
   * and before its trailing one.
   */
  function Trim(s: string): (r: string)
    ensures |r| <= |s|
    ensures r != [] ==> !IsTrimmable(r[0]) && !IsTrimmable(r[|r| - 1])
    ensures r == [] <==> AllTrimmable(s)
    ensures s != [] && !IsTrimmable(s[0]) && !IsTrimmable(s[|s| - 1]) ==> r == s
    ensures TrimmedSlice(s, r)
    decreases |s|
  {
    if s != [] && IsTrimmable(s[0]) then
      var r := Trim(s[1..]);
      TrimmableTail(s);
      TailSlices(s, LeadingTrimmable(s[1..]), LeadingTrimmable(s[1..]) + |r|);
      r
    else
      var r := TrimEnd(s);
      assert r != [] ==> r[0] == s[0];
      r
  }

  /** A string whose first character is trimmable is all trimmable when its tail is. */
  lemma TrimmableTail(s: string)
    requires s != [] && IsTrimmable(s[0])
    ensures AllTrimmable(s[1..]) ==> AllTrimmable(s)
  {
    if AllTrimmable(s[1..]) {
      forall i | 1 <= i < |s| ensures IsTrimmable(s[i]) {
        assert s[1..][i - 1] == s[i];
      }
    }
  }

  /** Slices of the tail are the slices of the string shifted by one. */
  lemma TailSlices(s: string, a: int, b: int)
    requires 0 <= a <= b <= |s| - 1
    ensures s[1..][a..b] == s[a + 1..b + 1] && s[1..][b..] == s[b + 1..]
  {
  }

  /**
   * `s.trim().isEmpty()`, stated as "every character is at or below
   * U+0020"; `Trim` proves the two the same.
   */
  predicate IsBlankText(s: string)
  {
    AllTrimmable(s)
  }

  // ---------------------------------------------------------------------
  // split and join with a one-character separator

  /** The pieces between separators, before Java drops trailing empty strings. */
  function SplitRaw(s: string, c: char): (parts: seq<string>)
    ensures |parts| >= 1
    ensures forall i :: 0 <= i < |parts| ==> c !in parts[i]
    decreases |s|
  {
    if s == [] then [[]]
    else
      var rest := SplitRaw(s[1..], c);
      if s[0] == c then [[]] + rest else [[s[0]] + rest[0]] + rest[1..]
  }

  function DropTrailingEmpty(parts: seq<string>): (r: seq<string>)
    ensures |r| <= |parts| && r == parts[..|r|]
    ensures r != [] ==> r[|r| - 1] != []
    ensures forall i :: |r| <= i < |parts| ==> parts[i] == []
    decreases |parts|
  {
    if parts != [] && parts[|parts| - 1] == [] then DropTrailingEmpty(parts[..|parts| - 1]) else parts
  }

  /**
   * `String.split` with a one-character, non-special separator: the whole
   * string when the separator does not occur, else the pieces with trailing
   * empty strings removed.
   */
  function Split(s: string, c: char): (parts: seq<string>)
    ensures c !in s ==> parts == [s]
    ensures forall i :: 0 <= i < |parts| ==> c !in parts[i]
    ensures c in s && parts != [] ==> parts[|parts| - 1] != []
  {
    if c !in s then [s] else DropTrailingEmpty(SplitRaw(s, c))
  }

  /** The pieces glued back with the separator between neighbours. */
  function Join(parts: seq<string>, sep: char): string
  {
    if parts == [] then []
    else if |parts| == 1 then parts[0]
    else parts[0] + [sep] + Join(parts[1..], sep)
  }

  /** Joining the raw pieces gives the input back. */
  lemma {:induction false} JoinSplitRaw(s: string, c: char)
    ensures Join(SplitRaw(s, c), c) == s
    decreases |s|
  {
    if s != [] {
      var rest := SplitRaw(s[1..], c);
      JoinSplitRaw(s[1..], c);
      if s[0] == c {
        assert SplitRaw(s, c) == [[]] + rest;
      } else if |rest| == 1 {
        assert SplitRaw(s, c) == [[s[0]] + rest[0]];
      } else {
        assert SplitRaw(s, c) == [[s[0]] + rest[0]] + rest[1..];
        assert Join(rest, c) == rest[0] + [c] + Join(rest[1..], c);
      }
    }
  }

  lemma {:induction false} SplitRawFreePrefix(p: string, t: string, c: char)
    requires c !in p
    ensures SplitRaw(p + t, c) == [p + SplitRaw(t, c)[0]] + SplitRaw(t, c)[1..]
    decreases |p|
  {
    if p != [] {
      assert (p + t)[1..] == p[1..] + t;
      SplitRawFreePrefix(p[1..], t, c);
      var rest := SplitRaw(t, c);
      assert (p + t)[0] == p[0];
      assert [p[0]] + (p[1..] + rest[0]) == p + rest[0];
    } else {
      var rest := SplitRaw(t, c);
      assert p + t == t;
      assert p + rest[0] == rest[0];
      assert [rest[0]] + rest[1..] == rest;
    }
  }

  /** Splitting a join of separator-free pieces gives the pieces back. */
  lemma {:induction false} SplitRawJoin(parts: seq<string>, c: char)
    requires parts != []
    requires forall i :: 0 <= i < |parts| ==> c !in parts[i]
    ensures SplitRaw(Join(parts, c), c) == parts
    decreases |parts|
  {
    if |parts| == 1 {
      SplitRawFreePrefix(parts[0], [], c);
      assert parts[0] + [] == parts[0];
    } else {
      var tail := Join(parts[1..], c);
      SplitRawJoin(parts[1..], c);
      assert Join(parts, c) == parts[0] + ([c] + tail);
      SplitRawFreePrefix(parts[0], [c] + tail, c);
      assert ([c] + tail)[1..] == tail;
      assert SplitRaw([c] + tail, c) == [[]] + parts[1..];
      assert parts[0] + [] == parts[0];
    }
  }

  /** `String.split` on a join of non-empty, separator-free pieces gives the pieces back. */
  lemma SplitJoin(parts: seq<string>, c: char)
    requires parts != []
    requires forall i :: 0 <= i < |parts| ==> parts[i] != [] && c !in parts[i]
    ensures Split(Join(parts, c), c) == parts
  {
    SplitRawJoin(parts, c);
    var s := Join(parts, c);
    if |parts| > 1 {
      assert s == parts[0] + [c] + Join(parts[1..], c);
      assert s[|parts[0]|] == c;
    }
  }

  // ---------------------------------------------------------------------
  // replace

  predicate OccursAt(s: string, t: string, i: nat)
  {
    i + |t| <= |s| && s[i..i + |t|] == t
  }

  /**
   * `String.replace(target, replacement)`: every occurrence of a non-empty
   * target, scanning left to right without overlap.
   */
  function Replace(s: string, t: string, r: string): string
    requires t != []
    decreases |s|
  {
    if |s| < |t| then s
    else if s[..|t|] == t then r + Replace(s[|t|..], t, r)
    else [s[0]] + Replace(s[1..], t, r)
  }

  /** A string in which the target never occurs comes back unchanged. */
  lemma {:induction false} ReplaceAbsent(s: string, t: string, r: string)
    requires t != []
    requires forall i: nat :: !OccursAt(s, t, i)
    ensures Replace(s, t, r) == s
    decreases |s|
  {
    if |s| >= |t| {
      assert !OccursAt(s, t, 0);
      forall i: nat ensures !OccursAt(s[1..], t, i) {
        assert !OccursAt(s, t, i + 1);
        if i + |t| <= |s| - 1 {
          assert s[1..][i..i + |t|] == s[i + 1..i + 1 + |t|];
        }
      }
      ReplaceAbsent(s[1..], t, r);
    }
  }

  /** Text before the first character of the target passes through untouched. */
  lemma {:induction false} ReplaceSkipsPrefix(p: string, s: string, t: string, r: string)
    requires t != [] && t[0] !in p
    ensures Replace(p + s, t, r) == p + Replace(s, t, r)
    decreases |p|
  {
    if p != [] {
      var ps := p + s;
      if |ps| < |t| {
        assert Replace(s, t, r) == s;
      } else {
        assert ps[..|t|] != t by { assert ps[0] == p[0]; }
        assert ps[1..] == p[1..] + s;
        ReplaceSkipsPrefix(p[1..], s, t, r);
      }
    } else {
      assert p + s == s;
    }
  }

  /** For a one-character target, replacing distributes over concatenation. */
  lemma {:induction false} ReplaceCharConcat(a: string, b: string, c: char, r: string)
    ensures Replace(a + b, [c], r) == Replace(a, [c], r) + Replace(b, [c], r)
    decreases |a|
  {
    if a != [] {
      assert (a + b)[1..] == a[1..] + b;
      assert (a + b)[..1] == a[..1];
      ReplaceCharConcat(a[1..], b, c, r);
    } else {
      assert a + b == b;
    }
  }

  // ---------------------------------------------------------------------
  // toLowerCase

  function ToLowerChar(c: char): char
  {
    if 'A' <= c <= 'Z' then (c as int + 32) as char else c
  }

  /** `String.toLowerCase` restricted to ASCII letters. */
  function ToLower(s: string): (r: string)
    ensures |r| == |s|
    ensures forall i :: 0 <= i < |s| ==> r[i] == ToLowerChar(s[i])
    ensures forall i :: 0 <= i < |r| ==> !('A' <= r[i] <= 'Z')
  {
    seq(|s|, i requires 0 <= i < |s| => ToLowerChar(s[i]))
  }

  /** `s.toLowerCase().equals(t)`, compared one character at a time. */
  predicate LowerCaseEquals(s: string, t: string)
  {
    |s| == |t| && forall i :: 0 <= i < |s| ==> ToLowerChar(s[i]) == t[i]
  }

  lemma LowerCaseEqualsToLower(s: string, t: string)
    ensures LowerCaseEquals(s, t) <==> ToLower(s) == t
  {
  }

  /** Lower-casing twice is lower-casing once. */
  lemma ToLowerIdempotent(s: string)
    ensures ToLower(ToLower(s)) == ToLower(s)
  {
  }

  // ---------------------------------------------------------------------
  // Integer.parseInt and decimal text

  predicate IsAsciiDigit(c: char)
  {
    '0' <= c <= '9'
  }

  predicate AllDigits(s: string)
  {
    forall i :: 0 <= i < |s| ==> IsAsciiDigit(s[i])
  }

  function DigitChar(d: int): (c: char)
    requires 0 <= d <= 9
    ensures IsAsciiDigit(c)
  {
    (d + '0' as int) as char
  }

  /** The number a run of decimal digits denotes. */
  function DigitsValue(ds: string): nat
    requires AllDigits(ds)
    decreases |ds|
  {
    if ds == [] then 0
    else DigitsValue(ds[..|ds| - 1]) * 10 + (ds[|ds| - 1] as int - '0' as int)
  }

  /** Decimal text of a natural number, without sign or leading zeros. */
  function DecimalString(n: nat): (s: string)
    ensures s != [] && AllDigits(s)
    decreases n
  {
    if n < 10 then [DigitChar(n)] else DecimalString(n / 10) + [DigitChar(n % 10)]
  }

  lemma {:induction false} DecimalStringValue(n: nat)
    ensures DigitsValue(DecimalString(n)) == n
    decreases n
  {
    if n >= 10 {
      var s := DecimalString(n);
      DecimalStringValue(n / 10);
      assert s[..|s| - 1] == DecimalString(n / 10);
    }
  }

  datatype NumberFormatError = NumberFormatException(input: string)

  /**
   * `Integer.parseInt`: an optional `+` or `-`, then at least one decimal
   * digit, with the value inside the `int` range; anything else throws.
   */
  function ParseInt(s: string): (r: Result<int, NumberFormatError>)
    ensures s == [] ==> r.Err?
    ensures r.Err? ==> r.error.input == s
    ensures r.Ok? ==> IsInt32(r.value)
    ensures r.Ok? ==> |s| > 0 && (IsAsciiDigit(s[0]) || (|s| > 1 && (s[0] == '-' || s[0] == '+')))
    ensures r.Ok? ==> forall i :: 0 < i < |s| ==> IsAsciiDigit(s[i])
    ensures s != [] && AllDigits(s) ==>
      (r.Ok? <==> DigitsValue(s) <= MaxInt) && (r.Ok? ==> r.value == DigitsValue(s))
    ensures |s| > 1 && s[0] == '+' && AllDigits(s[1..]) ==>
      (r.Ok? <==> DigitsValue(s[1..]) <= MaxInt) && (r.Ok? ==> r.value == DigitsValue(s[1..]))
    ensures |s| > 1 && s[0] == '-' && AllDigits(s[1..]) ==>
      (r.Ok? <==> DigitsValue(s[1..]) <= -MinInt) && (r.Ok? ==> r.value == -(DigitsValue(s[1..]) as int))
  {
    if s == [] then Err(NumberFormatException(s))
    else
      var signed := s[0] == '-' || s[0] == '+';
      var digits := if signed then s[1..] else s;
      if digits == [] || !AllDigits(digits) then Err(NumberFormatException(s))
      else
        var v: int := if s[0] == '-' then -(DigitsValue(digits) as int) else DigitsValue(digits);
        if IsInt32(v) then Ok(v) else Err(NumberFormatException(s))
  }

  /** `parseInt` reads back the decimal text of every non-negative `int`. */
  lemma ParseIntDecimal(n: nat)
    requires n <= MaxInt
    ensures ParseInt(DecimalString(n)) == Ok(n)
  {
    DecimalStringValue(n);
  }

  /** What `String.valueOf` and `%s` print for a possibly-null string. */
  function ValueOf(s: Option<string>): string
  {
    match s
    case Some(v) => v
    case None => "null"
  }
}
