/** Strings as sequences of characters, with the few JavaScript operations the islands use. */
module Text {

  /** White space and line terminators (sections 12.2 and 12.3 of ECMA-262, 2024 edition). */
  predicate IsSpace(c: char) {
    c == ' ' || '\t' <= c <= '\r' || c == '\U{A0}' || c == '\U{1680}' || '\U{2000}' <= c <= '\U{200A}'
    || c == '\U{2028}' || c == '\U{2029}' || c == '\U{202F}' || c == '\U{205F}' || c == '\U{3000}' || c == '\U{FEFF}'
  }

  function TrimStart(s: string): string {
    if s != "" && IsSpace(s[0]) then TrimStart(s[1..]) else s
  }

  function TrimEnd(s: string): string {
    if s != "" && IsSpace(s[|s| - 1]) then TrimEnd(s[..|s| - 1]) else s
  }

  /** `String.prototype.trim`. */
  function Trim(s: string): string {
    TrimEnd(TrimStart(s))
  }

  lemma {:induction false} TrimStartBare(s: string)
    ensures TrimStart(s) == "" || !IsSpace(TrimStart(s)[0])
  {
    if s != "" && IsSpace(s[0]) {
      TrimStartBare(s[1..]);
    }
  }

  lemma {:induction false} TrimEndBare(s: string)
    ensures var t := TrimEnd(s); t == "" || (s != "" && t[0] == s[0] && !IsSpace(t[|t| - 1]))
  {
    if s != "" && IsSpace(s[|s| - 1]) {
      TrimEndBare(s[..|s| - 1]);
    }
  }

  /** A trimmed string has nothing left to trim. */
  lemma TrimTwice(s: string)
    ensures Trim(Trim(s)) == Trim(s)
  {
    TrimStartBare(s);
    TrimEndBare(TrimStart(s));
    assert TrimStart(Trim(s)) == Trim(s);
  }

  predicate AllSpace(s: string) {
    forall k :: 0 <= k < |s| ==> IsSpace(s[k])
  }

  /** No white space at either end. */
  predicate Bare(s: string) {
    s != "" ==> !IsSpace(s[0]) && !IsSpace(s[|s| - 1])
  }

  lemma {:induction false} TrimStartParts(s: string) returns (a: string)
    ensures AllSpace(a) && s == a + TrimStart(s)
  {
    a := "";
    if s != "" && IsSpace(s[0]) {
      var rest := TrimStartParts(s[1..]);
      a := [s[0]] + rest;
      assert s == [s[0]] + s[1..];
    }
  }

  lemma {:induction false} TrimEndParts(s: string) returns (b: string)
    ensures AllSpace(b) && s == TrimEnd(s) + b
  {
    b := "";
    if s != "" && IsSpace(s[|s| - 1]) {
      var rest := TrimEndParts(s[..|s| - 1]);
      b := rest + [s[|s| - 1]];
      assert s == s[..|s| - 1] + [s[|s| - 1]];
    }
  }

  /** What is trimmed off is white space, and all of it at both ends. */
  lemma TrimParts(s: string) returns (a: string, b: string)
    ensures AllSpace(a) && AllSpace(b) && s == a + Trim(s) + b && Bare(Trim(s))
  {
    a := TrimStartParts(s);
    b := TrimEndParts(TrimStart(s));
    TrimStartBare(s);
    TrimEndBare(TrimStart(s));
  }

  lemma {:induction false} TrimStartSkips(a: string, s: string)
    requires AllSpace(a)
    ensures TrimStart(a + s) == TrimStart(s)
  {
    if a == "" {
      assert a + s == s;
    } else {
      TrimStartSkips(a[1..], s);
      assert (a + s)[1..] == a[1..] + s;
    }
  }

  lemma {:induction false} TrimEndSkips(s: string, b: string)
    requires AllSpace(b)
    ensures TrimEnd(s + b) == TrimEnd(s)
  {
    if b == "" {
      assert s + b == s;
    } else {
      TrimEndSkips(s, b[..|b| - 1]);
      assert (s + b)[..|s + b| - 1] == s + b[..|b| - 1];
    }
  }

  /** Trimming is taking off outer white space, whatever that is. */
  lemma TrimExactly(a: string, t: string, b: string)
    requires AllSpace(a) && AllSpace(b) && Bare(t)
    ensures Trim(a + t + b) == t
  {
    assert a + t + b == a + (t + b);
    TrimStartSkips(a, t + b);
    if t == "" {
      assert t + b == b == b + "";
      TrimStartSkips(b, "");
    } else {
      assert TrimStart(t + b) == t + b;
      TrimEndSkips(t, b);
    }
  }

  /** `length`: UTF-16 code units, two for a character beyond the basic plane. */
  function Units(s: string): nat {
    if s == "" then 0 else Units(s[1..]) + if s[0] > '\U{FFFF}' then 2 else 1
  }

  /** Lengths add up. */
  lemma {:induction false} UnitsAdd(a: string, b: string)
    ensures Units(a + b) == Units(a) + Units(b)
  {
    if a == "" {
      assert a + b == b;
    } else {
      UnitsAdd(a[1..], b);
      assert (a + b)[1..] == a[1..] + b;
    }
  }

  /** One unit for each character, and one more for each beyond the basic plane. */
  lemma {:induction false} UnitsOfText(s: string)
    ensures |s| <= Units(s) <= 2 * |s|
    ensures Units(s) == |s| <==> forall k :: 0 <= k < |s| ==> s[k] <= '\U{FFFF}'
    ensures Units(s) == 2 * |s| <==> forall k :: 0 <= k < |s| ==> s[k] > '\U{FFFF}'
  {
    if s != "" {
      UnitsOfText(s[1..]);
      assert s == [s[0]] + s[1..];
    }
  }

  predicate IsDigit(c: char) {
    '0' <= c <= '9'
  }

  predicate IsLower(c: char) {
    'a' <= c <= 'z'
  }

  predicate IsUpper(c: char) {
    'A' <= c <= 'Z'
  }

  // ---------------------------------------------------------------- two shapes of pattern

  predicate AllOf(s: string, inside: char -> bool) {
    forall k :: 0 <= k < |s| ==> inside(s[k])
  }

  /** `oi{0,most}o`, with these two ends and this middle. */
  predicate Ends(s: string, outer: char -> bool, inner: char -> bool, most: nat, c: char, mid: string, d: char) {
    s == [c] + mid + [d] && outer(c) && outer(d) && |mid| <= most && AllOf(mid, inner)
  }

  /** The pattern `^o(i{0,most}o)?$` over the classes `outer` and `inner`. */
  ghost predicate Enclosed(s: string, outer: char -> bool, inner: char -> bool, most: nat) {
    || (|s| == 1 && outer(s[0]))
    || exists c, mid, d :: Ends(s, outer, inner, most, c, mid, d)
  }

  predicate ByPosition(s: string, outer: char -> bool, inner: char -> bool, most: nat) {
    1 <= |s| <= most + 2 && outer(s[0]) && outer(s[|s| - 1]) && AllOf(s, inner)
  }

  lemma PositionsMakePattern(s: string, outer: char -> bool, inner: char -> bool, most: nat)
    requires ByPosition(s, outer, inner, most)
    ensures Enclosed(s, outer, inner, most)
  {
    if |s| > 1 {
      var mid := s[1..|s| - 1];
      assert s == [s[0]] + mid + [s[|s| - 1]];
      assert AllOf(mid, inner);
      assert Ends(s, outer, inner, most, s[0], mid, s[|s| - 1]);
    }
  }

  lemma PatternGivesPositions(s: string, outer: char -> bool, inner: char -> bool, most: nat,
                              c: char, mid: string, d: char)
    requires forall x :: outer(x) ==> inner(x)
    requires Ends(s, outer, inner, most, c, mid, d)
    ensures ByPosition(s, outer, inner, most)
  {
    forall k | 0 <= k < |s| ensures inner(s[k]) {
      if 1 <= k < |s| - 1 {
        assert s[k] == mid[k - 1];
      }
    }
  }

  /** The same, by position. */
  lemma EnclosedAt(s: string, outer: char -> bool, inner: char -> bool, most: nat)
    requires forall c :: outer(c) ==> inner(c)
    ensures Enclosed(s, outer, inner, most) <==> ByPosition(s, outer, inner, most)
  {
    if ByPosition(s, outer, inner, most) {
      PositionsMakePattern(s, outer, inner, most);
    }
    if c, mid, d :| Ends(s, outer, inner, most, c, mid, d) {
      PatternGivesPositions(s, outer, inner, most, c, mid, d);
    }
  }
}
