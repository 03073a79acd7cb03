/**
 * `IndexPatternResolver`: turns an index-name pattern such as
 * `app-logs-%{yyyy-MM-dd}` into a concrete index name by replacing the
 * date placeholders it recognises. The current date-time is a parameter.
 */
module IndexPatternResolver {
  import opened Wrappers
  import opened JavaText
  import opened Time

  /** What a null or blank pattern resolves to. */
  const DefaultIndex: string := "app-logs"

  /** The keys `resolvePlaceholder` knows, in lower case. */
  const RecognisedKeys: set<string> := {"yyyy.mm.dd", "yyyy-mm-dd", "yyyy_mm_dd", "date", "month", "day", "hour"}

  // ---------------------------------------------------------------------
  // The regular expression %\{([^}]+)\}

  /** The first `}` at or after `from`. */
  function ClosingBrace(s: string, from: nat): (r: Option<nat>)
    ensures r.Some? ==> from <= r.value < |s| && s[r.value] == '}'
    decreases |s| - from
  {
    if from >= |s| then None
    else if s[from] == '}' then Some(from)
    else ClosingBrace(s, from + 1)
  }

  /** `ClosingBrace` finds the first `}`, and finds none only when there is none. */
  lemma {:induction false} ClosingBraceFirst(s: string, from: nat)
    ensures ClosingBrace(s, from).Some? ==>
      forall i :: from <= i < ClosingBrace(s, from).value ==> s[i] != '}'
    ensures ClosingBrace(s, from).None? ==> forall i :: from <= i < |s| ==> s[i] != '}'
    decreases |s| - from
  {
    if from < |s| && s[from] != '}' {
      ClosingBraceFirst(s, from + 1);
    }
  }

  /** The end (exclusive) of the match that starts at `j`, if one does. */
  function MatchAt(s: string, j: nat): (r: Option<nat>)
    ensures r.Some? ==> j + 4 <= r.value <= |s| && s[j] == '%'
  {
    if j + 2 < |s| && s[j] == '%' && s[j + 1] == '{' && s[j + 2] != '}' then
      match ClosingBrace(s, j + 3)
      case Some(k) => Some(k + 1)
      case None => None
    else None
  }

  /**
   * `s[j..e]` is a match of `%\{([^}]+)\}` exactly when it is `%{`, one
   * or more characters other than `}`, then `}`.
   */
  lemma MatchAtIsRegex(s: string, j: nat, e: nat)
    ensures MatchAt(s, j) == Some(e) <==>
      && j + 4 <= e <= |s|
      && s[j] == '%' && s[j + 1] == '{' && s[e - 1] == '}'
      && forall i :: j + 2 <= i < e - 1 ==> s[i] != '}'
  {
    ClosingBraceFirst(s, j + 3);
    if MatchAt(s, j) == Some(e) {
      assert s[e - 1] == '}';
    }
  }

  /** A match `s[start..end]`; its group 1 is `s[start + 2..end - 1]`. */
  datatype Match = Match(start: nat, end: nat)

  /** `Matcher.find()` from position `from`. */
  function FindFrom(s: string, from: nat): (r: Option<Match>)
    ensures r.Some? ==> from <= r.value.start && MatchAt(s, r.value.start) == Some(r.value.end)
    decreases |s| - from
  {
    if from >= |s| then None
    else match MatchAt(s, from)
      case Some(e) => Some(Match(from, e))
      case None => FindFrom(s, from + 1)
  }

  /** `find` returns the leftmost match at or after `from`, and none only when there is none. */
  lemma {:induction false} FindFromLeftmost(s: string, from: nat)
    ensures FindFrom(s, from).Some? ==>
      forall j :: from <= j < FindFrom(s, from).value.start ==> MatchAt(s, j).None?
    ensures FindFrom(s, from).None? ==> forall j :: from <= j ==> MatchAt(s, j).None?
    decreases |s| - from
  {
    if from < |s| && MatchAt(s, from).None? {
      FindFromLeftmost(s, from + 1);
    }
  }

  // ---------------------------------------------------------------------
  // resolvePlaceholder

  /**
   * The strings `resolvePlaceholder` formats from the clock: the date with
   * `.`, `-` and `_` separators, `ISO_LOCAL_DATE`, `yyyy-MM`, `dd` and `HH`.
   */
  datatype DateStamps = DateStamps(
    dotted: string, dashed: string, underscored: string,
    isoDate: string, yearMonth: string, day: string, hour: string)
  {
    /** No stamp is empty or holds a `%`. */
    predicate Valid()
    {
      && dotted != [] && '%' !in dotted
      && dashed != [] && '%' !in dashed
      && underscored != [] && '%' !in underscored
      && isoDate != [] && '%' !in isoDate
      && yearMonth != [] && '%' !in yearMonth
      && day != [] && '%' !in day
      && hour != [] && '%' !in hour
    }
  }

  /** The stamps for one reading of the clock. */
  function StampsAt(now: LocalDateTime): (st: DateStamps)
    requires now.Valid()
    ensures st.Valid()
    ensures |st.dashed| == 10 && |st.day| == 2 && |st.hour| == 2
  {
    var st := DateStamps(
      FormatDate(now, '.'), FormatDate(now, '-'), FormatDate(now, '_'),
      IsoLocalDate(now), FormatYearMonth(now), Pad(now.day, 2), Pad(now.hour, 2));
    DigitsHaveNoPercent(Pad(now.year, 4));
    DigitsHaveNoPercent(Pad(now.month, 2));
    DigitsHaveNoPercent(st.day);
    DigitsHaveNoPercent(st.hour);
    st
  }

  lemma DigitsHaveNoPercent(s: string)
    requires AllDigits(s)
    ensures '%' !in s
  {
  }

  /** The `switch` of `resolvePlaceholder` matches the key in lower case. */
  predicate IsRecognisedKey(key: string)
  {
    || LowerCaseEquals(key, "yyyy.mm.dd")
    || LowerCaseEquals(key, "yyyy-mm-dd")
    || LowerCaseEquals(key, "yyyy_mm_dd")
    || LowerCaseEquals(key, "date")
    || LowerCaseEquals(key, "month")
    || LowerCaseEquals(key, "day")
    || LowerCaseEquals(key, "hour")
  }

  /** The keys recognised are those whose lower-case form is in the table. */
  lemma RecognisedKeyLowerCase(key: string)
    ensures IsRecognisedKey(key) <==> ToLower(key) in RecognisedKeys
  {
    LowerCaseEqualsToLower(key, "yyyy.mm.dd");
    LowerCaseEqualsToLower(key, "yyyy-mm-dd");
    LowerCaseEqualsToLower(key, "yyyy_mm_dd");
    LowerCaseEqualsToLower(key, "date");
    LowerCaseEqualsToLower(key, "month");
    LowerCaseEqualsToLower(key, "day");
    LowerCaseEqualsToLower(key, "hour");
  }

  /**
   * The replacement for one key, compared case-insensitively, or `None`
   * (Java `null`) for a key it does not know.
   */
  function ResolvePlaceholder(key: string, st: DateStamps): (r: Option<string>)
    ensures r.Some? <==> IsRecognisedKey(key)
    ensures r.Some? && st.Valid() ==> r.value != [] && '%' !in r.value
    ensures ToLower(key) == "yyyy.mm.dd" ==> r == Some(st.dotted)
    ensures ToLower(key) == "yyyy-mm-dd" ==> r == Some(st.dashed)
    ensures ToLower(key) == "yyyy_mm_dd" ==> r == Some(st.underscored)
    ensures ToLower(key) == "date" ==> r == Some(st.isoDate)
    ensures ToLower(key) == "month" ==> r == Some(st.yearMonth)
    ensures ToLower(key) == "day" ==> r == Some(st.day)
    ensures ToLower(key) == "hour" ==> r == Some(st.hour)
    ensures ToLower(key) !in RecognisedKeys ==> r == None
  {
    RecognisedKeyLowerCase(key);
    LowerCaseEqualsToLower(key, "date");
    LowerCaseEqualsToLower(key, "hour");
    LowerCaseEqualsToLower(key, "yyyy.mm.dd");
    LowerCaseEqualsToLower(key, "yyyy-mm-dd");
    LowerCaseEqualsToLower(key, "yyyy_mm_dd");
    assert "date"[0] != "hour"[0];
    assert "yyyy.mm.dd"[4] != "yyyy-mm-dd"[4] && "yyyy-mm-dd"[4] != "yyyy_mm_dd"[4] && "yyyy_mm_dd"[4] != "yyyy.mm.dd"[4];
    if LowerCaseEquals(key, "yyyy.mm.dd") then Some(st.dotted)
    else if LowerCaseEquals(key, "yyyy-mm-dd") then Some(st.dashed)
    else if LowerCaseEquals(key, "yyyy_mm_dd") then Some(st.underscored)
    else if LowerCaseEquals(key, "date") then Some(st.isoDate)
    else if LowerCaseEquals(key, "month") then Some(st.yearMonth)
    else if LowerCaseEquals(key, "day") then Some(st.day)
    else if LowerCaseEquals(key, "hour") then Some(st.hour)
    else None
  }

  /**
   * The stamps of one clock reading: `yyyy-MM-dd` and `ISO_LOCAL_DATE`
   * agree, the three dated forms differ only in their separator, `yyyy-MM`
   * is a prefix of the date, and `dd` and `HH` are two digits.
   */
  lemma StampFormats(now: LocalDateTime)
    requires now.Valid()
    ensures var st := StampsAt(now);
      && st.dashed == st.isoDate
      && |st.dashed| == |st.dotted| == |st.underscored| == 10
      && st.dashed[4] == st.dashed[7] == '-'
      && st.dotted[4] == st.dotted[7] == '.'
      && st.underscored[4] == st.underscored[7] == '_'
      && (forall i :: 0 <= i < 10 && i != 4 && i != 7 ==>
            st.dashed[i] == st.dotted[i] == st.underscored[i])
      && DigitsValue(st.dashed[..4]) == now.year
      && DigitsValue(st.dashed[5..7]) == now.month
      && DigitsValue(st.dashed[8..]) == now.day
      && st.yearMonth == st.dashed[..7]
      && |st.day| == 2 && AllDigits(st.day) && DigitsValue(st.day) == now.day
      && |st.hour| == 2 && AllDigits(st.hour) && DigitsValue(st.hour) == now.hour
  {
    FormatDateReadsBack(now, '-');
  }

  // ---------------------------------------------------------------------
  // resolve

  /** `resolvePlaceholder` for one clock reading, as a function of the key. */
  function Lookup(st: DateStamps): string -> Option<string>
  {
    key => ResolvePlaceholder(key, st)
  }

  /**
   * The `while (matcher.find())` loop of `resolve`, from matcher position
   * `from`, with `acc` the result so far and `lookup` giving each key's
   * replacement. Matches are found in the pattern `p`, but each one with a
   * replacement is replaced, everywhere, in `acc`.
   */
  function RewriteFrom(p: string, from: nat, acc: string, lookup: string -> Option<string>): string
    decreases |p| - from
  {
    match FindFrom(p, from)
    case None => acc
    case Some(m) =>
      var next :=
        match lookup(p[m.start + 2..m.end - 1])
        case Some(v) => Replace(acc, p[m.start..m.end], v)
        case None => acc;
      RewriteFrom(p, m.end, next, lookup)
  }

  /** The index name `resolve` returns for `pattern` when the clock gives the stamps `st`. */
  function Resolved(pattern: Option<string>, st: DateStamps): string
  {
    if pattern.None? || IsBlankText(pattern.value) then DefaultIndex
    else RewriteFrom(pattern.value, 0, pattern.value, Lookup(st))
  }

  /**
   * `resolve`. A null or blank pattern gives `app-logs`; a pattern
   * without any placeholder comes back as it is, untrimmed.
   */
  method Resolve(pattern: Option<string>, now: LocalDateTime) returns (r: string)
    requires now.Valid()
    ensures r == Resolved(pattern, StampsAt(now))
    ensures pattern.None? || AllTrimmable(pattern.value) ==> r == DefaultIndex
    ensures pattern.Some? && !AllTrimmable(pattern.value) && FindFrom(pattern.value, 0).None?
      ==> r == pattern.value
  {
    r := ResolveAt(pattern, StampsAt(now));
  }

  /** `resolve` once the clock reading has been formatted into `st`. */
  method ResolveAt(pattern: Option<string>, st: DateStamps) returns (r: string)
    ensures r == Resolved(pattern, st)
    ensures pattern.None? || AllTrimmable(pattern.value) ==> r == DefaultIndex
    ensures pattern.Some? && !AllTrimmable(pattern.value) && FindFrom(pattern.value, 0).None?
      ==> r == pattern.value
  {
    if pattern.None? || IsBlankText(pattern.value) {
      return DefaultIndex;
    }
    r := ReplacePlaceholders(pattern.value, Lookup(st));
  }

  /** The matcher loop of `resolve` over a non-blank pattern. */
  method ReplacePlaceholders(p: string, lookup: string -> Option<string>) returns (r: string)
    ensures r == RewriteFrom(p, 0, p, lookup)
  {
    r := p;
    var pos := 0;
    var found := FindFrom(p, pos);
    while found.Some?
      invariant pos <= |p|
      invariant found == FindFrom(p, pos)
      invariant RewriteFrom(p, pos, r, lookup) == RewriteFrom(p, 0, p, lookup)
      decreases |p| - pos
    {
      var m := found.value;
      RewriteStep(p, pos, r, lookup);
      ghost var before := r;
      var placeholder := p[m.start..m.end];
      var key := p[m.start + 2..m.end - 1];
      var replacement := lookup(key);
      if replacement.Some? {
        r := Replace(r, placeholder, replacement.value);
      }
      assert r == StepResult(p, m, before, lookup);
      pos := m.end;
      found := FindFrom(p, pos);
    }
  }

  /** The accumulated text after the loop body handles match `m`. */
  function StepResult(p: string, m: Match, acc: string, lookup: string -> Option<string>): string
    requires m.start + 4 <= m.end <= |p|
  {
    match lookup(p[m.start + 2..m.end - 1])
    case Some(v) => Replace(acc, p[m.start..m.end], v)
    case None => acc
  }

  /** One turn of the matcher loop. */
  lemma RewriteStep(p: string, from: nat, acc: string, lookup: string -> Option<string>)
    requires FindFrom(p, from).Some?
    ensures var m := FindFrom(p, from).value;
      && from < m.end <= |p|
      && m.start + 4 <= m.end
      && RewriteFrom(p, from, acc, lookup) == RewriteFrom(p, m.end, StepResult(p, m, acc, lookup), lookup)
  {
  }

  /** One turn of the loop at a match whose key has a replacement. */
  lemma RewriteStepAt(p: string, from: nat, acc: string, lookup: string -> Option<string>, j: nat, e: nat, v: string)
    requires FindFrom(p, from) == Some(Match(j, e))
    requires lookup(p[j + 2..e - 1]) == Some(v)
    ensures RewriteFrom(p, from, acc, lookup) == RewriteFrom(p, e, Replace(acc, p[j..e], v), lookup)
  {
    RewriteStep(p, from, acc, lookup);
  }

  /**
   * When the first match is at `j` and replacing it leaves no `%`, the loop
   * ends with that one replacement.
   */
  lemma RewriteFirstMatch(p: string, j: nat, e: nat, v: string, lookup: string -> Option<string>)
    requires MatchAt(p, j) == Some(e) && lookup(p[j + 2..e - 1]) == Some(v)
    requires forall i :: 0 <= i < j ==> p[i] != '%'
    requires '%' !in Replace(p, p[j..e], v)
    ensures RewriteFrom(p, 0, p, lookup) == Replace(p, p[j..e], v)
  {
    FindSkipsPercentFree(p, 0, j);
    RewriteStepAt(p, 0, p, lookup, j, e, v);
    RewriteWithoutPercent(p, e, Replace(p, p[j..e], v), lookup);
  }

  // ---------------------------------------------------------------------
  // Properties of resolve

  /** Placeholders whose keys all have no replacement leave the text as it is. */
  lemma {:induction false} UnknownKeysKeepText(p: string, from: nat, acc: string, lookup: string -> Option<string>)
    requires forall j :: from <= j && MatchAt(p, j).Some? ==>
      lookup(p[j + 2..MatchAt(p, j).value - 1]).None?
    ensures RewriteFrom(p, from, acc, lookup) == acc
    decreases |p| - from
  {
    match FindFrom(p, from)
    case None =>
    case Some(m) =>
      UnknownKeysKeepText(p, m.end, acc, lookup);
  }

  /** A non-blank pattern whose placeholders are all unknown resolves to itself. */
  lemma UnknownKeysResolveToPattern(p: string, st: DateStamps)
    requires !AllTrimmable(p)
    requires forall j :: MatchAt(p, j).Some? ==>
      !IsRecognisedKey(p[j + 2..MatchAt(p, j).value - 1])
    ensures Resolved(Some(p), st) == p
  {
    UnknownKeysKeepText(p, 0, p, Lookup(st));
  }

  /** Once no `%` is left in the text, no later placeholder can change it. */
  lemma {:induction false} RewriteWithoutPercent(p: string, from: nat, acc: string, lookup: string -> Option<string>)
    requires '%' !in acc
    ensures RewriteFrom(p, from, acc, lookup) == acc
    decreases |p| - from
  {
    match FindFrom(p, from)
    case None =>
    case Some(m) =>
      var t := p[m.start..m.end];
      assert t[0] == '%';
      match lookup(p[m.start + 2..m.end - 1])
      case Some(v) =>
        ReplaceWithoutTarget(acc, t, v);
        RewriteWithoutPercent(p, m.end, acc, lookup);
      case None =>
        RewriteWithoutPercent(p, m.end, acc, lookup);
  }

  lemma ReplaceWithoutTarget(s: string, t: string, v: string)
    requires t != [] && t[0] !in s
    ensures Replace(s, t, v) == s
  {
    ReplaceSkipsPrefix(s, [], t, v);
    assert s + [] == s;
  }

  /** `find` passes over text that holds no `%`. */
  lemma {:induction false} FindSkipsPercentFree(s: string, from: nat, to: nat)
    requires from <= to <= |s|
    requires forall i :: from <= i < to ==> s[i] != '%'
    ensures FindFrom(s, from) == FindFrom(s, to)
    decreases |s| - from
  {
    if from < to {
      FindSkipsPercentFree(s, from + 1, to);
    }
  }

  /** `%{key}` at `j` is a match when the key is non-empty and free of `}`. */
  lemma PlaceholderMatches(s: string, j: nat, key: string)
    requires key != [] && '}' !in key
    requires j + |key| + 3 <= |s| && s[j..j + |key| + 3] == "%{" + key + "}"
    ensures MatchAt(s, j) == Some(j + |key| + 3)
    ensures s[j + 2..j + |key| + 2] == key
  {
    var w := s[j..j + |key| + 3];
    var k := j + |key| + 2;
    assert s[k] == w[|key| + 2];
    forall i | j + 2 <= i < k
      ensures s[i] == key[i - j - 2]
    {
      assert s[i] == w[i - j];
    }
    assert s[j] == w[0] && s[j + 1] == w[1];
    ClosingBraceFirst(s, j + 3);
    var c := ClosingBrace(s, j + 3);
    assert c == Some(k);
  }

  /** `segs[0] + sep + segs[1] + sep + ... + segs[n - 1]`. */
  function Interleave(segs: seq<string>, sep: string): string
    requires |segs| >= 1
  {
    if |segs| == 1 then segs[0] else segs[0] + sep + Interleave(segs[1..], sep)
  }

  predicate PercentFree(segs: seq<string>)
  {
    forall i :: 0 <= i < |segs| ==> '%' !in segs[i]
  }

  lemma {:induction false} InterleavePercentFree(segs: seq<string>, sep: string)
    requires |segs| >= 1 && PercentFree(segs) && '%' !in sep
    ensures '%' !in Interleave(segs, sep)
  {
    if |segs| > 1 {
      InterleavePercentFree(segs[1..], sep);
    }
  }

  /** Replacing a `%`-led text between `%`-free segments replaces every copy of it. */
  lemma {:induction false} ReplaceInterleave(segs: seq<string>, t: string, v: string)
    requires |segs| >= 1 && PercentFree(segs) && t != [] && t[0] == '%'
    ensures Replace(Interleave(segs, t), t, v) == Interleave(segs, v)
  {
    if |segs| == 1 {
      ReplaceSkipsPrefix(segs[0], [], t, v);
      assert segs[0] + [] == segs[0];
    } else {
      var rest := Interleave(segs[1..], t);
      assert Interleave(segs, t) == segs[0] + (t + rest);
      ReplaceSkipsPrefix(segs[0], t + rest, t, v);
      assert (t + rest)[..|t|] == t && (t + rest)[|t|..] == rest;
      ReplaceInterleave(segs[1..], t, v);
    }
  }

  /**
   * The matcher loop replaces every occurrence of a recognised placeholder:
   * `%`-free segments joined by one `%{key}` become the same segments
   * joined by the key's value.
   */
  lemma RewriteEveryOccurrence(segs: seq<string>, key: string, lookup: string -> Option<string>)
    requires |segs| >= 2 && PercentFree(segs)
    requires key != [] && '}' !in key
    requires lookup(key).Some? && '%' !in lookup(key).value
    ensures var p := Interleave(segs, "%{" + key + "}");
      RewriteFrom(p, 0, p, lookup) == Interleave(segs, lookup(key).value)
  {
    var t := "%{" + key + "}";
    var p := Interleave(segs, t);
    var v := lookup(key).value;
    var j := |segs[0]|;
    var e := j + |t|;
    assert e <= |p| && p[j..e] == t && forall i :: 0 <= i < j ==> p[i] != '%' by {
      assert p == segs[0] + t + Interleave(segs[1..], t);
      forall i | 0 <= i < j ensures p[i] != '%' {
        assert p[i] == segs[0][i];
      }
    }
    PlaceholderMatches(p, j, key);
    ReplaceInterleave(segs, t, v);
    InterleavePercentFree(segs, v);
    RewriteFirstMatch(p, j, e, v, lookup);
  }

  /** `resolve` replaces every occurrence of a recognised placeholder. */
  lemma ResolveEveryOccurrence(segs: seq<string>, key: string, st: DateStamps)
    requires st.Valid()
    requires |segs| >= 2 && PercentFree(segs)
    requires key != [] && '}' !in key && IsRecognisedKey(key)
    ensures Resolved(Some(Interleave(segs, "%{" + key + "}")), st)
      == Interleave(segs, ResolvePlaceholder(key, st).value)
  {
    var t := "%{" + key + "}";
    var p := Interleave(segs, t);
    assert !AllTrimmable(p) by {
      assert p == segs[0] + t + Interleave(segs[1..], t);
      assert p[|segs[0]|] == '%';
    }
    RewriteEveryOccurrence(segs, key, Lookup(st));
  }

  /** `%{}` is not a placeholder: with no other `%` around it, it stays literal. */
  lemma EmptyBracesStayLiteral(pre: string, post: string, st: DateStamps)
    requires '%' !in pre && '%' !in post
    ensures Resolved(Some(pre + "%{}" + post), st) == pre + "%{}" + post
  {
    var p := pre + "%{}" + post;
    var j := |pre|;
    assert p[j] == '%' && p[j + 1] == '{' && p[j + 2] == '}';
    assert !AllTrimmable(p);
    forall i | 0 <= i < j ensures p[i] != '%' {
      assert p[i] == pre[i];
    }
    forall i | j + 1 <= i < |p| ensures p[i] != '%' {
      if i >= j + 3 {
        assert p[i] == post[i - j - 3];
      }
    }
    FindSkipsPercentFree(p, 0, j);
    assert MatchAt(p, j).None?;
    FindSkipsPercentFree(p, j + 1, |p|);
    assert FindFrom(p, 0) == None;
  }

  /** `app-logs-%{key}` resolves to `app-logs-` and the key's value. */
  lemma AppLogsExample(key: string, st: DateStamps)
    requires st.Valid() && key != [] && '}' !in key && IsRecognisedKey(key)
    ensures Resolved(Some("app-logs-%{" + key + "}"), st)
      == "app-logs-" + ResolvePlaceholder(key, st).value
  {
    var segs := ["app-logs-", ""];
    assert PercentFree(segs);
    assert Interleave(segs, "%{" + key + "}") == "app-logs-%{" + key + "}";
    ResolveEveryOccurrence(segs, key, st);
    var v := ResolvePlaceholder(key, st).value;
    assert Interleave(segs, v) == "app-logs-" + v;
  }

  /**
   * `yyyy.MM.dd` selects the dotted date. With `AppLogsExample` this gives
   * the documented result: `app-logs-%{yyyy.MM.dd}` resolves to `app-logs-`
   * followed by the dotted date.
   */
  lemma DottedDateKey(st: DateStamps)
    ensures ResolvePlaceholder("yyyy.MM.dd", st) == Some(st.dotted)
  {
    assert LowerCaseEquals("yyyy.MM.dd", "yyyy.mm.dd");
  }

  /** `yyyy-MM-dd` selects the dashed date; it differs from the dotted key at its separator. */
  lemma DashedDateKey(st: DateStamps)
    ensures ResolvePlaceholder("yyyy-MM-dd", st) == Some(st.dashed)
  {
    assert ToLowerChar("yyyy-MM-dd"[4]) != "yyyy.mm.dd"[4];
  }

  /** `yyyy_MM_dd` selects the underscored date. */
  lemma UnderscoredDateKey(st: DateStamps)
    ensures ResolvePlaceholder("yyyy_MM_dd", st) == Some(st.underscored)
  {
    assert ToLowerChar("yyyy_MM_dd"[4]) != "yyyy.mm.dd"[4];
    assert ToLowerChar("yyyy_MM_dd"[4]) != "yyyy-mm-dd"[4];
  }

  /** Which stamp each documented single-field key selects. */
  lemma DocumentedFieldKeys(st: DateStamps)
    ensures ResolvePlaceholder("date", st) == Some(st.isoDate)
    ensures ResolvePlaceholder("month", st) == Some(st.yearMonth)
    ensures ResolvePlaceholder("day", st) == Some(st.day)
    ensures ResolvePlaceholder("hour", st) == Some(st.hour)
  {
    assert ToLowerChar("hour"[0]) != "date"[0];
  }

  /** Keys are compared without regard to letter case. */
  lemma MixedCaseKeys(st: DateStamps)
    ensures ResolvePlaceholder("YYYY-MM-DD", st) == Some(st.dashed)
    ensures ResolvePlaceholder("Date", st) == Some(st.isoDate)
    ensures ResolvePlaceholder("HOUR", st) == Some(st.hour)
  {
    assert ToLowerChar("YYYY-MM-DD"[4]) != "yyyy.mm.dd"[4];
    assert ToLowerChar("HOUR"[0]) != "date"[0];
  }

  /** Keys outside the table, such as `year` or `yyyyMMdd`, have no replacement. */
  lemma UnknownKeys(st: DateStamps)
    ensures ResolvePlaceholder("year", st) == None
    ensures ResolvePlaceholder("yyyyMMdd", st) == None
  {
    assert ToLowerChar("year"[0]) != "date"[0];
    assert ToLowerChar("year"[0]) != "hour"[0];
  }

  /** Patterns without placeholders, as in the class documentation. */
  lemma DocumentedLiteralPatterns(st: DateStamps)
    ensures Resolved(Some("app-logs"), st) == "app-logs"
    ensures Resolved(Some(""), st) == "app-logs"
    ensures Resolved(Some(" \t "), st) == "app-logs"
    ensures Resolved(None, st) == "app-logs"
  {
    assert !AllTrimmable("app-logs") by { assert !IsTrimmable("app-logs"[0]); }
    FindSkipsPercentFree("app-logs", 0, 8);
  }
}
