/**
 How the policy preview writes a string as a YAML scalar, and how YAML 1.2.2 reads it back:
 double-quoted scalars by sections 5.7 and 7.3.1, plain ones by section 7.3.3.
 */
module YamlScalar {
  import opened Options
  import opened Text
  import opened Decimal

  const SPECIAL := "\":{}[],&*?|<>=!%@`#\n\r\t\\"

  predicate NeedsQuotes(s: string) {
    (exists k :: 0 <= k < |s| && s[k] in SPECIAL) || Trim(s) != s || s == ""
  }

  /** `s.replace(/c/g, by)`. */
  function ReplaceAll(s: string, c: char, sub: string): string {
    if s == "" then "" else (if s[0] == c then sub else [s[0]]) + ReplaceAll(s[1..], c, sub)
  }

  function YamlEscape(s: string): string {
    if NeedsQuotes(s) then
      "\"" + ReplaceAll(ReplaceAll(ReplaceAll(s, '\\', "\\\\"), '"', "\\\""), '\n', "\\n") + "\""
    else s
  }

  // ---------------------------------------------------------------- one pass

  function EscapeChar(c: char): string {
    if c == '\\' then "\\\\" else if c == '"' then "\\\"" else if c == '\n' then "\\n" else [c]
  }

  function Escape(s: string): string {
    if s == "" then "" else EscapeChar(s[0]) + Escape(s[1..])
  }

  lemma {:induction false} ReplaceConcat(a: string, b: string, c: char, sub: string)
    ensures ReplaceAll(a + b, c, sub) == ReplaceAll(a, c, sub) + ReplaceAll(b, c, sub)
  {
    if a == "" {
      assert a + b == b;
    } else {
      assert (a + b)[1..] == a[1..] + b;
      ReplaceConcat(a[1..], b, c, sub);
    }
  }

  lemma ReplaceOne(c: char, d: char, sub: string)
    ensures ReplaceAll([c], d, sub) == if c == d then sub else [c]
  {
    assert ReplaceAll([c][1..], d, sub) == "";
  }

  lemma ReplaceTwo(c: char, e: char, d: char, sub: string)
    ensures ReplaceAll([c, e], d, sub) == ReplaceAll([c], d, sub) + ReplaceAll([e], d, sub)
  {
    assert [c, e] == [c] + [e];
    ReplaceConcat([c], [e], d, sub);
  }

  function ThreePasses(s: string): string {
    ReplaceAll(ReplaceAll(ReplaceAll(s, '\\', "\\\\"), '"', "\\\""), '\n', "\\n")
  }

  lemma ThreePassesOnChar(c: char)
    ensures ThreePasses([c]) == EscapeChar(c)
  {
    ReplaceOne(c, '\\', "\\\\");
    ReplaceOne(c, '"', "\\\"");
    ReplaceOne(c, '\n', "\\n");
    if c == '\\' {
      ReplaceTwo('\\', '\\', '"', "\\\"");
      ReplaceTwo('\\', '\\', '\n', "\\n");
    } else if c == '"' {
      ReplaceTwo('\\', '"', '\n', "\\n");
      ReplaceOne('\\', '\n', "\\n");
    }
  }

  /** The three sequential replacements never see each other's output: they are one pass. */
  lemma {:induction false} ThreePassesAreOne(s: string)
    ensures ThreePasses(s) == Escape(s)
  {
    if s != "" {
      var c, rest := [s[0]], s[1..];
      assert s == c + rest;
      ReplaceConcat(c, rest, '\\', "\\\\");
      ReplaceConcat(ReplaceAll(c, '\\', "\\\\"), ReplaceAll(rest, '\\', "\\\\"), '"', "\\\"");
      var c2, r2 := ReplaceAll(ReplaceAll(c, '\\', "\\\\"), '"', "\\\""), ReplaceAll(ReplaceAll(rest, '\\', "\\\\"), '"', "\\\"");
      ReplaceConcat(c2, r2, '\n', "\\n");
      ThreePassesOnChar(s[0]);
      ThreePassesAreOne(rest);
    }
  }

  // ---------------------------------------------------------------- reading back

  /** A character a double-quoted scalar may hold as it stands (nb-json of section 5.1). */
  predicate QuotedLiteral(c: char) {
    c == '\t' || c >= ' '
  }

  /**
   A one-line double-quoted scalar from behind its opening quote: its value and the text
   behind its closing quote.  Of the escape sequences it knows those the printer writes.
   */
  function ScanQuoted(s: string): Option<(string, string)> {
    if s == "" then None
    else if s[0] == '"' then Some(("", s[1..]))
    else if s[0] == '\\' then
      if |s| < 2 || (s[1] != '\\' && s[1] != '"' && s[1] != 'n') then None
      else Prepend(if s[1] == 'n' then '\n' else s[1], ScanQuoted(s[2..]))
    else if QuotedLiteral(s[0]) then Prepend(s[0], ScanQuoted(s[1..]))
    else None
  }

  function Prepend(c: char, r: Option<(string, string)>): Option<(string, string)> {
    match r
    case Some((value, rest)) => Some(([c] + value, rest))
    case None => None
  }

  /** No control character but tab and line feed. */
  predicate Quotable(s: string) {
    forall k :: 0 <= k < |s| ==> QuotedLiteral(s[k]) || s[k] == '\n'
  }

  /**
   Scanning the escaped text stops exactly at the quote put behind it and gives the string
   back, if and only if the string holds no control character but tabs and line feeds.
   */
  lemma {:induction false} QuotedRoundTripExactly(s: string, rest: string)
    ensures Quotable(s) ==> ScanQuoted(Escape(s) + "\"" + rest) == Some((s, rest))
    ensures !Quotable(s) ==> ScanQuoted(Escape(s) + "\"" + rest) == None
  {
    var out := Escape(s) + "\"" + rest;
    if s == "" {
      assert out == "\"" + rest;
    } else {
      QuotedRoundTripExactly(s[1..], rest);
      var tail := Escape(s[1..]) + "\"" + rest;
      assert out == EscapeChar(s[0]) + tail;
      assert Quotable(s) <==> (QuotedLiteral(s[0]) || s[0] == '\n') && Quotable(s[1..]) by {
        assert forall k :: 0 < k < |s| ==> s[k] == s[1..][k - 1];
      }
      if |EscapeChar(s[0])| == 2 {
        assert out[2..] == tail;
      } else {
        assert out[1..] == tail;
      }
      assert s == [s[0]] + s[1..];
    }
  }

  /** nb-char of section 5.4: printable, and no line break or byte order mark. */
  predicate Printable(c: char) {
    c == '\t' || ' ' <= c <= '~' || c == '\U{85}' || ('\U{A0}' <= c && c != '\U{FEFF}' && c != '\U{FFFE}' && c != '\U{FFFF}')
  }

  predicate IsWhite(c: char) {
    c == ' ' || c == '\t'
  }

  const INDICATORS := "-?:,[]{}#&*!|>'\"%@`"

  /** A character a plain scalar may start with, `next` being what follows it on its line. */
  predicate PlainFirst(c: char, next: string) {
    Printable(c) && !IsWhite(c)
    && (c in INDICATORS ==> c in "-?:" && next != "" && Printable(next[0]) && !IsWhite(next[0]))
  }

  /** A one-line plain scalar in block context, all of `s` being it (section 7.3.3). */
  predicate PlainScalar(s: string) {
    && s != ""
    && PlainFirst(s[0], s[1..])
    && !IsWhite(s[|s| - 1])
    && forall k :: 0 <= k < |s| ==>
         && Printable(s[k])
         && (s[k] == ':' ==> k + 1 < |s| && !IsWhite(s[k + 1]))
         && (s[k] == '#' ==> k > 0 && !IsWhite(s[k - 1]))
  }

  // ---------------------------------------------------------------- what a plain scalar stands for

  /** A plain scalar by the core schema (section 10.3.2): its kind, and its text. */
  datatype Scalar = Str(text: string) | Null | Bool(b: bool) | Number(text: string)

  predicate NullText(s: string) {
    s == "null" || s == "Null" || s == "NULL" || s == "~"
  }

  predicate TrueText(s: string) {
    s == "true" || s == "True" || s == "TRUE"
  }

  predicate FalseText(s: string) {
    s == "false" || s == "False" || s == "FALSE"
  }

  function Unsigned(s: string): string {
    if s != "" && (s[0] == '+' || s[0] == '-') then s[1..] else s
  }

  predicate Digits(s: string) {
    s != "" && AllDigits(s)
  }

  predicate OctalOrHex(s: string) {
    && |s| > 2 && s[0] == '0'
    && ((s[1] == 'o' && forall k :: 2 <= k < |s| ==> '0' <= s[k] <= '7')
        || (s[1] == 'x' && forall k :: 2 <= k < |s| ==> IsDigit(s[k]) || 'a' <= s[k] <= 'f' || 'A' <= s[k] <= 'F'))
  }

  /** Digits, or digits around a point, of which those before or those behind it may be missing. */
  predicate Mantissa(s: string) {
    Digits(s) || exists k :: 0 <= k < |s| && s[k] == '.' && |s| > 1 && AllDigits(s[..k]) && AllDigits(s[k + 1..])
  }

  predicate Exponent(s: string) {
    s == "" || ((s[0] == 'e' || s[0] == 'E') && Digits(Unsigned(s[1..])))
  }

  predicate DecimalText(s: string) {
    exists k :: 0 <= k <= |s| && Mantissa(s[..k]) && Exponent(s[k..])
  }

  predicate NumberText(s: string) {
    || OctalOrHex(s) || DecimalText(Unsigned(s))
    || Unsigned(s) == ".inf" || Unsigned(s) == ".Inf" || Unsigned(s) == ".INF"
    || s == ".nan" || s == ".NaN" || s == ".NAN"
  }

  function Resolve(s: string): Scalar {
    if NullText(s) then Null
    else if TrueText(s) then Bool(true)
    else if FalseText(s) then Bool(false)
    else if NumberText(s) then Number(s)
    else Str(s)
  }

  /** Text that the core schema takes for something other than a string. */
  predicate Typed(s: string) {
    NullText(s) || TrueText(s) || FalseText(s) || NumberText(s)
  }

  /** The value of a scalar that is the whole of `out`. */
  function Read(out: string): Option<Scalar> {
    if out != "" && out[0] == '"' then
      match ScanQuoted(out[1..])
      case Some((value, rest)) => if rest == "" then Some(Str(value)) else None
      case None => None
    else if PlainScalar(out) then Some(Resolve(out))
    else None
  }

  /** What may be left unquoted: printable, not opening like a single-quoted scalar or a list item. */
  predicate PlainSafe(s: string) {
    && s != "" && s[0] != '\''
    && (s[0] == '-' ==> |s| > 1 && s[1] != ' ')
    && forall k :: 0 <= k < |s| ==> Printable(s[k])
  }

  lemma {:induction false} TrimmedEnds(s: string)
    requires Trim(s) == s && s != ""
    ensures !IsSpace(s[0]) && !IsSpace(s[|s| - 1])
  {
    TrimStartShortens(s);
    TrimEndShortens(TrimStart(s));
  }

  lemma {:induction false} TrimStartShortens(s: string)
    ensures |TrimStart(s)| <= |s|
    ensures s != "" && IsSpace(s[0]) ==> |TrimStart(s)| < |s|
  {
    if s != "" && IsSpace(s[0]) {
      TrimStartShortens(s[1..]);
    }
  }

  lemma {:induction false} TrimEndShortens(s: string)
    ensures |TrimEnd(s)| <= |s|
    ensures s != "" && IsSpace(s[|s| - 1]) ==> |TrimEnd(s)| < |s|
  {
    if s != "" && IsSpace(s[|s| - 1]) {
      TrimEndShortens(s[..|s| - 1]);
    }
  }

  predicate Marked(c: char) {
    || c == '"' || c == ':' || c == '{' || c == '}' || c == '[' || c == ']' || c == ',' || c == '&' || c == '*' || c == '?'
    || c == '|' || c == '<' || c == '>' || c == '=' || c == '!' || c == '%' || c == '@' || c == '`' || c == '#'
    || c == '\n' || c == '\r' || c == '\t' || c == '\\'
  }

  lemma SpecialIsMarked(c: char)
    ensures c in SPECIAL <==> Marked(c)
  {
    assert SPECIAL == ['"', ':', '{', '}', '[', ']', ',', '&', '*', '?', '|', '<', '>', '=', '!', '%', '@', '`', '#', '\n', '\r', '\t', '\\'];
  }

  /** Not empty, no white space at either end, and no marked character. */
  predicate Unmarked(s: string) {
    s != "" && Bare(s) && forall k :: 0 <= k < |s| ==> !Marked(s[k])
  }

  lemma BareIsTrimmed(s: string)
    ensures Trim(s) == s <==> Bare(s)
  {
    if s != "" && Trim(s) == s {
      TrimmedEnds(s);
    }
    if Bare(s) {
      TrimExactly("", s, "");
      assert "" + s + "" == s;
    }
  }

  lemma UnmarkedExactly(s: string)
    ensures Unmarked(s) <==> !NeedsQuotes(s)
  {
    BareIsTrimmed(s);
    forall k | 0 <= k < |s| ensures s[k] in SPECIAL <==> Marked(s[k]) {
      SpecialIsMarked(s[k]);
    }
  }

  /** A text is left as it is when it is unmarked, and else is quoted whole. */
  lemma QuotedExactly(s: string)
    ensures YamlEscape(s) == if Unmarked(s) then s else "\"" + Escape(s) + "\""
  {
    ThreePassesAreOne(s);
    UnmarkedExactly(s);
  }

  lemma IndicatorsLeft(c: char)
    requires c !in SPECIAL
    ensures c != ':' && c != '#' && c != '\t' && c != '"' && c != '?'
    ensures c in INDICATORS <==> c == '-' || c == '\''
  {
    assert forall d :: d in INDICATORS ==> d == '-' || d == '\'' || d in SPECIAL;
  }

  lemma PlainIffSafe(s: string)
    requires s != "" && !IsSpace(s[0]) && !IsSpace(s[|s| - 1])
    requires forall k :: 0 <= k < |s| ==> s[k] !in SPECIAL
    ensures PlainScalar(s) <==> PlainSafe(s)
  {
    forall k | 0 <= k < |s| ensures s[k] != ':' && s[k] != '#' && s[k] != '\t' {
      IndicatorsLeft(s[k]);
    }
    IndicatorsLeft(s[0]);
    assert |s| > 1 ==> s[1..][0] == s[1];
  }

  /** An unquoted output opens with no double quote, holds no line break and is plain exactly when safe. */
  lemma UnquotedIsPlain(s: string)
    requires !NeedsQuotes(s)
    ensures YamlEscape(s) == s && s != "" && s[0] != '"'
    ensures forall k :: 0 <= k < |s| ==> s[k] != '\n'
    ensures PlainScalar(s) <==> PlainSafe(s)
  {
    TrimmedEnds(s);
    PlainIffSafe(s);
    IndicatorsLeft(s[0]);
  }

  /**
   Reading the printed scalar gives the string back, as a string, if and only if it was quoted
   and has no control character but tabs and line feeds, or was left unquoted, is plain-safe and
   does not look like a null, a boolean or a number.
   */
  lemma ReadsBackExactly(s: string)
    ensures Read(YamlEscape(s)) == Some(Str(s)) <==>
              if NeedsQuotes(s) then Quotable(s) else PlainSafe(s) && !Typed(s)
  {
    if NeedsQuotes(s) {
      QuotedIsRead(s);
    } else {
      UnquotedIsPlain(s);
    }
  }

  lemma QuotedIsRead(s: string)
    requires NeedsQuotes(s)
    ensures Read(YamlEscape(s)) == if Quotable(s) then Some(Str(s)) else None
  {
    ThreePassesAreOne(s);
    QuotedRoundTripExactly(s, "");
    assert YamlEscape(s)[1..] == Escape(s) + "\"" + "";
  }

  predicate BareChar(c: char) {
    IsDigit(c) || IsLower(c) || IsUpper(c) || c == '~'
  }

  lemma BareCharIsPlain(c: char)
    requires BareChar(c)
    ensures c !in SPECIAL && !IsSpace(c) && Printable(c) && c != '\'' && c != '-'
  {
  }

  /** Text of letters, digits and tildes is left as it stands, and stands for what the core schema says. */
  lemma BareTextIsResolved(s: string)
    requires s != "" && forall k :: 0 <= k < |s| ==> BareChar(s[k])
    ensures YamlEscape(s) == s && Read(YamlEscape(s)) == Some(Resolve(s))
  {
    forall k | 0 <= k < |s|
      ensures s[k] !in SPECIAL && !IsSpace(s[k]) && Printable(s[k]) && s[k] != '\'' && s[k] != '-'
    {
      BareCharIsPlain(s[k]);
    }
    assert TrimStart(s) == s && TrimEnd(s) == s;
    UnquotedIsPlain(s);
  }

  lemma TwelveIsANumber()
    ensures Resolve("12") == Number("12")
  {
    var s := "12";
    assert s[..2] == s && s[2..] == "";
    assert Mantissa(s[..2]) && Exponent(s[2..]);
  }

  /** A label value typed as `true`, `~` or `12` comes back as a boolean, a null or a number. */
  lemma TypedTextIsLost()
    ensures Read(YamlEscape("true")) == Some(Bool(true))
    ensures Read(YamlEscape("~")) == Some(Null)
    ensures Read(YamlEscape("12")) == Some(Number("12"))
  {
    BareTextIsResolved("true");
    BareTextIsResolved("~");
    BareTextIsResolved("12");
    TwelveIsANumber();
  }

  /** An apostrophe in front is one string the preview prints wrongly. */
  lemma ApostropheIsLost()
    ensures YamlEscape("'a") == "'a" && Read("'a") == None
  {
    var s := "'a";
    assert s[0] == '\'' && s[1] == 'a' && |s| == 2;
    assert TrimStart(s) == s && TrimEnd(s) == s;
    assert !NeedsQuotes(s);
    UnquotedIsPlain(s);
  }

  lemma {:induction false} EscapeInjective(s: string, t: string)
    requires Escape(s) == Escape(t)
    ensures s == t
  {
    if s == "" || t == "" {
    } else {
      var a, b := EscapeChar(s[0]), EscapeChar(t[0]);
      assert Escape(s)[0] == a[0] && Escape(t)[0] == b[0];
      if |a| == 2 { assert Escape(s)[1] == a[1]; }
      if |b| == 2 { assert Escape(t)[1] == b[1]; }
      assert s[0] == t[0];
      assert Escape(s)[|a|..] == Escape(s[1..]) && Escape(t)[|b|..] == Escape(t[1..]);
      EscapeInjective(s[1..], t[1..]);
    }
  }

  /** No two strings are ever printed alike. */
  lemma YamlEscapeInjective(s: string, t: string)
    requires YamlEscape(s) == YamlEscape(t)
    ensures s == t
  {
    if NeedsQuotes(s) && NeedsQuotes(t) {
      ThreePassesAreOne(s);
      ThreePassesAreOne(t);
      assert YamlEscape(s)[1..|YamlEscape(s)| - 1] == Escape(s);
      assert YamlEscape(t)[1..|YamlEscape(t)| - 1] == Escape(t);
      EscapeInjective(s, t);
    } else if !NeedsQuotes(s) {
      UnquotedIsPlain(s);
    } else {
      UnquotedIsPlain(t);
    }
  }
}
