/** `Utils.isBlank` and `Utils.escapeJson` of the logging starter. */
module Utils {
  import opened Wrappers
  import opened JavaText

  /** `isBlank`: the string is null, or `trim()` leaves nothing. */
  function IsBlank(s: Option<string>): (b: bool)
    ensures b <==> s.None? || Trim(s.value) == []
  {
    s.None? || IsBlankText(s.value)
  }

  /** The characters `escapeJson` rewrites. */
  predicate IsEscaped(c: char)
  {
    c == '\\' || c == '"' || c == '\n' || c == '\r' || c == '\t'
  }

  /** What one input character turns into. */
  function EscapeChar(c: char): string
  {
    match c
    case '\\' => "\\\\"
    case '"' => "\\\""
    case '\n' => "\\n"
    case '\r' => "\\r"
    case '\t' => "\\t"
    case _ => [c]
  }

  function CountEscaped(s: string): nat
  {
    if s == [] then 0 else (if IsEscaped(s[0]) then 1 else 0) + CountEscaped(s[1..])
  }

  /**
   * Escaping one character at a time. The output holds no raw newline,
   * carriage return or tab, every `"` in it directly follows a backslash,
   * and it grows by one character per escaped input character.
   */
  function EscapeChars(s: string): (r: string)
    ensures |r| == |s| + CountEscaped(s)
    ensures forall i :: 0 <= i < |r| ==> r[i] != '\n' && r[i] != '\r' && r[i] != '\t'
    ensures forall i :: 0 <= i < |r| && r[i] == '"' ==> 0 < i && r[i - 1] == '\\'
    ensures (forall i :: 0 <= i < |s| ==> !IsEscaped(s[i])) ==> r == s
    decreases |s|
  {
    if s == [] then []
    else
      var head := EscapeChar(s[0]);
      var tail := EscapeChars(s[1..]);
      var r := head + tail;
      assert forall i :: |head| <= i < |r| ==> r[i] == tail[i - |head|];
      r
  }

  /** The five `String.replace` calls of `escapeJson`, in source order. */
  function ReplaceChain(s: string): string
  {
    Replace(Replace(Replace(Replace(Replace(s, "\\", "\\\\"), "\"", "\\\""), "\n", "\\n"), "\r", "\\r"), "\t", "\\t")
  }

  lemma ReplaceChainConcat(a: string, b: string)
    ensures ReplaceChain(a + b) == ReplaceChain(a) + ReplaceChain(b)
  {
    ReplaceCharConcat(a, b, '\\', "\\\\");
    var a1, b1 := Replace(a, "\\", "\\\\"), Replace(b, "\\", "\\\\");
    ReplaceCharConcat(a1, b1, '"', "\\\"");
    var a2, b2 := Replace(a1, "\"", "\\\""), Replace(b1, "\"", "\\\"");
    ReplaceCharConcat(a2, b2, '\n', "\\n");
    var a3, b3 := Replace(a2, "\n", "\\n"), Replace(b2, "\n", "\\n");
    ReplaceCharConcat(a3, b3, '\r', "\\r");
    var a4, b4 := Replace(a3, "\r", "\\r"), Replace(b3, "\r", "\\r");
    ReplaceCharConcat(a4, b4, '\t', "\\t");
  }

  lemma ReplaceSingle(x: char, c: char, r: string)
    ensures Replace([x], [c], r) == if x == c then r else [x]
  {
    assert [x][1..] == [];
    assert r + [] == r;
  }

  lemma ReplaceFree(s: string, c: char, r: string)
    requires c !in s
    ensures Replace(s, [c], r) == s
  {
    ReplaceSkipsPrefix(s, [], [c], r);
    assert s + [] == s;
  }

  lemma ReplaceChainChar(c: char)
    ensures ReplaceChain([c]) == EscapeChar(c)
  {
    ReplaceSingle(c, '\\', "\\\\");
    if c == '\\' {
      ReplaceFree("\\\\", '"', "\\\"");
      ReplaceFree("\\\\", '\n', "\\n");
      ReplaceFree("\\\\", '\r', "\\r");
      ReplaceFree("\\\\", '\t', "\\t");
    } else {
      ReplaceSingle(c, '"', "\\\"");
      if c == '"' {
        ReplaceFree("\\\"", '\n', "\\n");
        ReplaceFree("\\\"", '\r', "\\r");
        ReplaceFree("\\\"", '\t', "\\t");
      } else {
        ReplaceSingle(c, '\n', "\\n");
        if c == '\n' {
          ReplaceFree("\\n", '\r', "\\r");
          ReplaceFree("\\n", '\t', "\\t");
        } else {
          ReplaceSingle(c, '\r', "\\r");
          if c == '\r' {
            ReplaceFree("\\r", '\t', "\\t");
          } else {
            ReplaceSingle(c, '\t', "\\t");
          }
        }
      }
    }
  }

  /**
   * Because backslashes are doubled first, the chain of replacements is the
   * same as escaping each character once: no escape sequence it produces
   * is escaped again.
   */
  lemma {:induction false} ReplaceChainIsEscapeChars(s: string)
    ensures ReplaceChain(s) == EscapeChars(s)
    decreases |s|
  {
    if s != [] {
      assert s == [s[0]] + s[1..];
      ReplaceChainConcat([s[0]], s[1..]);
      ReplaceChainChar(s[0]);
      ReplaceChainIsEscapeChars(s[1..]);
    }
  }

  /** `escapeJson`: `""` for null, else the five replacements in order. */
  function EscapeJson(input: Option<string>): (r: string)
    ensures input.None? ==> r == ""
    ensures input.Some? ==> r == EscapeChars(input.value)
  {
    match input
    case None => ""
    case Some(s) =>
      ReplaceChainIsEscapeChars(s);
      ReplaceChain(s)
  }

  /** A left-to-right reader of the escapes `\\`, `\"`, `\n`, `\r`, `\t`. */
  function Unescape(e: string): string
    decreases |e|
  {
    if e == [] then []
    else if e[0] == '\\' && |e| >= 2 then
      var c := match e[1]
        case 'n' => '\n'
        case 'r' => '\r'
        case 't' => '\t'
        case x => x;
      [c] + Unescape(e[2..])
    else [e[0]] + Unescape(e[1..])
  }

  /** Reading the escaped text back gives the original input. */
  lemma {:induction false} UnescapeEscapeJson(s: string)
    ensures Unescape(EscapeJson(Some(s))) == s
  {
    UnescapeEscapeChars(s);
  }

  lemma {:induction false} UnescapeEscapeChars(s: string)
    ensures Unescape(EscapeChars(s)) == s
    decreases |s|
  {
    if s != [] {
      var head := EscapeChar(s[0]);
      var tail := EscapeChars(s[1..]);
      var e := head + tail;
      UnescapeEscapeChars(s[1..]);
      if IsEscaped(s[0]) {
        assert e[2..] == tail;
      } else {
        assert e[1..] == tail;
      }
    }
  }
}
