/**
 The printer-column path walker: a path text is split at dots and bracketed numbers, and the
 parts are followed through a JSON value.
 */
module JsonPath {
  import opened Options
  import opened Text
  import opened Decimal

  // ---------------------------------------------------------------- the tokenizer

  function DigitRun(s: string): (n: nat)
    ensures n <= |s|
    ensures forall k :: 0 <= k < n ==> IsDigit(s[k])
    ensures n < |s| ==> !IsDigit(s[n])
  {
    if s != "" && IsDigit(s[0]) then 1 + DigitRun(s[1..]) else 0
  }

  /** The length of a bracketed number at the front of `s`, or 0. */
  function Bracketed(s: string): (n: nat)
    ensures n <= |s|
    ensures n > 0 ==> n >= 3 && s[0] == '[' && s[n - 1] == ']' && AllDigits(s[1..n - 1])
  {
    if s == "" || s[0] != '[' then 0
    else
      var d := DigitRun(s[1..]);
      if d > 0 && 1 + d < |s| && s[1 + d] == ']' then d + 2 else 0
  }

  function StripDots(s: string): string {
    if s != "" && s[0] == '.' then StripDots(s[1..]) else s
  }

  /**
   `split(/\.|\[(\d+)\]/)` from a point where `piece` has been read since the last separator:
   the pieces, each followed by the captured number, or by "" where nothing was captured.
   */
  function Split(s: string, piece: string): seq<string>
    decreases |s|
  {
    if s == "" then [piece]
    else if s[0] == '.' then [piece, ""] + Split(s[1..], "")
    else if Bracketed(s) > 0 then [piece, s[1..Bracketed(s) - 1]] + Split(s[Bracketed(s)..], "")
    else Split(s[1..], piece + [s[0]])
  }

  /** `filter(Boolean)`. */
  function NonEmpty(ss: seq<string>): seq<string> {
    if ss == [] then [] else Keep(ss[0]) + NonEmpty(ss[1..])
  }

  function Keep(t: string): seq<string> {
    if t == "" then [] else [t]
  }

  function Parts(path: string): seq<string> {
    NonEmpty(Split(StripDots(path), ""))
  }

  // ---------------------------------------------------------------- printing a path

  datatype Part = Name(name: string) | Index(n: nat)

  function PartText(p: Part): string {
    match p
    case Name(name) => name
    case Index(n) => Dec(n)
  }

  function Texts(ps: seq<Part>): (r: seq<string>)
    ensures |r| == |ps| && forall k :: 0 <= k < |ps| ==> r[k] == PartText(ps[k])
  {
    seq(|ps|, k requires 0 <= k < |ps| => PartText(ps[k]))
  }

  function Print(ps: seq<Part>): string {
    if ps == [] then ""
    else (match ps[0] case Name(name) => "." + name case Index(n) => "[" + Dec(n) + "]") + Print(ps[1..])
  }

  function Dots(n: nat): string {
    if n == 0 then "" else "." + Dots(n - 1)
  }

  /** A dot, or a bracketed number, stands at `k`. */
  predicate SeparatorAt(s: string, k: nat)
    requires k < |s|
  {
    s[k] == '.' || Bracketed(s[k..]) > 0
  }

  /** No separator starts among the first `n` characters, whatever stands behind them. */
  predicate Unbroken(s: string, n: nat)
    requires n <= |s|
  {
    forall k :: 0 <= k < n ==> !SeparatorAt(s, k)
  }

  /** A name the tokenizer leaves whole: no dot, and no bracketed number inside. */
  predicate Plain(s: string) {
    Unbroken(s, |s|)
  }

  /** What may come after a name in a printed path. */
  predicate Boundary(s: string) {
    s == "" || s[0] == '.' || s[0] == '['
  }

  lemma {:induction false} DigitRunAppend(a: string, b: string)
    ensures DigitRun(a) < |a| ==> DigitRun(a + b) == DigitRun(a)
    ensures DigitRun(a) == |a| && (b == "" || !IsDigit(b[0])) ==> DigitRun(a + b) == |a|
  {
    if a != "" && IsDigit(a[0]) {
      assert (a + b)[1..] == a[1..] + b;
      DigitRunAppend(a[1..], b);
    } else if a == "" {
      assert a + b == b;
    }
  }

  lemma BracketedAppend(a: string, b: string)
    requires a != ""
    ensures Bracketed(a) > 0 ==> Bracketed(a + b) == Bracketed(a)
    ensures Boundary(b) ==> Bracketed(a + b) == Bracketed(a)
  {
    assert (a + b)[1..] == a[1..] + b;
    DigitRunAppend(a[1..], b);
  }

  lemma SeparatorAtTail(s: string, k: nat)
    requires 0 < k < |s|
    ensures SeparatorAt(s[1..], k - 1) == SeparatorAt(s, k)
  {
    assert s[1..][k - 1..] == s[k..];
  }

  lemma UnbrokenTail(s: string, n: nat)
    requires 0 < n <= |s| && Unbroken(s, n)
    ensures s[0] != '.' && Bracketed(s) == 0 && Unbroken(s[1..], n - 1)
  {
    assert !SeparatorAt(s, 0) && s[0..] == s;
    forall k | 0 <= k < n - 1 ensures !SeparatorAt(s[1..], k) {
      SeparatorAtTail(s, k + 1);
    }
  }

  lemma CutInTwo(s: string, n: nat, piece: string)
    requires 0 < n <= |s|
    ensures s[1..][n - 1..] == s[n..] && piece + [s[0]] + s[1..][..n - 1] == piece + s[..n]
  {
  }

  /** The unbroken front of a text passes whole into the piece. */
  lemma {:induction false} SplitRun(s: string, n: nat, piece: string)
    requires n <= |s| && Unbroken(s, n)
    ensures Split(s, piece) == Split(s[n..], piece + s[..n])
    decreases n
  {
    if n == 0 {
      assert s[0..] == s && piece + s[..0] == piece;
    } else {
      UnbrokenTail(s, n);
      SplitRun(s[1..], n - 1, piece + [s[0]]);
      CutInTwo(s, n, piece);
    }
  }

  lemma PlainStays(name: string, rest: string)
    requires Plain(name) && Boundary(rest)
    ensures Unbroken(name + rest, |name|)
  {
    var s := name + rest;
    forall k | 0 <= k < |name| ensures !SeparatorAt(s, k) {
      assert !SeparatorAt(name, k);
      assert s[k..] == name[k..] + rest;
      BracketedAppend(name[k..], rest);
    }
  }

  lemma SplitName(name: string, rest: string, piece: string)
    requires Plain(name) && Boundary(rest)
    ensures Split(name + rest, piece) == Split(rest, piece + name)
  {
    var s, n := name + rest, |name|;
    PlainStays(name, rest);
    SplitRun(s, n, piece);
    assert s[n..] == rest && s[..n] == name;
  }

  lemma SplitIndex(n: nat, rest: string, piece: string)
    ensures Split("[" + Dec(n) + "]" + rest, piece) == [piece, Dec(n)] + Split(rest, "")
  {
    var s := "[" + Dec(n) + "]" + rest;
    assert s[1..] == Dec(n) + ("]" + rest);
    DigitRunAppend(Dec(n), "]" + rest);
    AllDigitsRun(Dec(n));
    assert Bracketed(s) == |Dec(n)| + 2;
    assert s[1..|Dec(n)| + 1] == Dec(n);
    assert s[|Dec(n)| + 2..] == rest;
  }

  lemma {:induction false} AllDigitsRun(s: string)
    requires AllDigits(s)
    ensures DigitRun(s) == |s|
  {
    if s != "" {
      AllDigitsRun(s[1..]);
    }
  }

  ghost predicate GoodNames(ps: seq<Part>) {
    forall p :: p in ps && p.Name? ==> p.name != "" && Plain(p.name)
  }

  lemma PrintedName(name: string, rest: string, piece: string, texts: seq<string>)
    requires Split(name + rest, "") == Split(rest, name)
    requires NonEmpty(Split(rest, name)) == [name] + texts
    ensures NonEmpty(Split("." + name + rest, piece)) == Keep(piece) + ([name] + texts)
  {
    var s := "." + name + rest;
    assert s[1..] == name + rest;
    assert Split(s, piece) == [piece, ""] + Split(s[1..], "");
    NonEmptyTwo(piece, "", Split(rest, name));
  }

  lemma PrintedIndex(n: nat, rest: string, piece: string, texts: seq<string>)
    requires NonEmpty(Split(rest, "")) == texts
    ensures NonEmpty(Split("[" + Dec(n) + "]" + rest, piece)) == Keep(piece) + ([Dec(n)] + texts)
  {
    SplitIndex(n, rest, piece);
    NonEmptyTwo(piece, Dec(n), Split(rest, ""));
  }

  lemma PrintBoundary(ps: seq<Part>)
    ensures Boundary(Print(ps))
  {
  }

  lemma {:induction false} PrintedParts(ps: seq<Part>, piece: string)
    requires GoodNames(ps)
    ensures NonEmpty(Split(Print(ps), piece)) == Keep(piece) + Texts(ps)
  {
    if ps == [] {
      assert NonEmpty([piece]) == Keep(piece);
    } else {
      var p, rest, texts := ps[0], ps[1..], Texts(ps[1..]);
      assert p in ps;
      assert GoodNames(rest);
      assert Texts(ps) == [PartText(p)] + texts;
      PrintBoundary(rest);
      if p.Name? {
        PrintedParts(rest, p.name);
        SplitName(p.name, Print(rest), "");
        assert "" + p.name == p.name;
        PrintedName(p.name, Print(rest), piece, texts);
      } else {
        PrintedParts(rest, "");
        PrintedIndex(p.n, Print(rest), piece, texts);
      }
    }
  }

  lemma NonEmptyTwo(a: string, b: string, rest: seq<string>)
    ensures NonEmpty([a, b] + rest) == Keep(a) + Keep(b) + NonEmpty(rest)
  {
    assert ([a, b] + rest)[1..] == [b] + rest;
    assert ([b] + rest)[1..] == rest;
  }

  /** Leading dots contribute only empty pieces. */
  lemma {:induction false} DotsVanish(s: string)
    ensures NonEmpty(Split(StripDots(s), "")) == NonEmpty(Split(s, ""))
  {
    if s != "" && s[0] == '.' {
      DotsVanish(s[1..]);
      NonEmptyTwo("", "", Split(s[1..], ""));
    }
  }

  lemma {:induction false} AnyLeadingDots(n: nat, s: string)
    ensures Parts(Dots(n) + s) == Parts(s)
  {
    if n == 0 {
      assert Dots(0) + s == s;
    } else {
      assert (Dots(n) + s)[1..] == Dots(n - 1) + s;
      AnyLeadingDots(n - 1, s);
    }
  }

  /** A separator at the front closes the piece and begins anew. */
  function Closed(s: string, piece: string): seq<string>
    requires s != "" && SeparatorAt(s, 0)
  {
    if s[0] == '.' then Keep(piece) else Keep(piece) + Keep(s[1..Bracketed(s) - 1])
  }

  function Behind(s: string): (t: string)
    requires s != "" && SeparatorAt(s, 0)
    ensures |t| < |s|
  {
    if s[0] == '.' then s[1..] else s[Bracketed(s)..]
  }

  lemma SplitAtFront(s: string, piece: string)
    requires s != "" && SeparatorAt(s, 0)
    ensures NonEmpty(Split(s, piece)) == Closed(s, piece) + NonEmpty(Split(Behind(s), ""))
  {
    assert s[0..] == s;
    if s[0] == '.' {
      NonEmptyTwo(piece, "", Split(s[1..], ""));
    } else {
      var n := Bracketed(s);
      NonEmptyTwo(piece, s[1..n - 1], Split(s[n..], ""));
    }
  }

  lemma FrontStays(a: string, b: string, piece: string)
    requires a != "" && SeparatorAt(a, 0)
    ensures SeparatorAt(a + b, 0) && Closed(a + b, piece) == Closed(a, piece) && Behind(a + b) == Behind(a) + b
  {
    var s := a + b;
    assert a[0..] == a && s[0..] == s;
    if a[0] == '.' {
      assert s[1..] == a[1..] + b;
    } else {
      BracketedAppend(a, b);
      var n := Bracketed(a);
      assert s[n..] == a[n..] + b && s[1..n - 1] == a[1..n - 1];
    }
  }

  lemma Associates(x: seq<string>, y: seq<string>, z: seq<string>)
    ensures x + (y + z) == x + y + z
  {
  }

  lemma CutsBehind(a: string, b: string, piece: string)
    requires a != "" && SeparatorAt(a, 0)
    requires NonEmpty(Split(Behind(a) + b, "")) == NonEmpty(Split(Behind(a), "")) + NonEmpty(Split(b, ""))
    ensures NonEmpty(Split(a + b, piece)) == NonEmpty(Split(a, piece)) + NonEmpty(Split(b, ""))
  {
    var s := a + b;
    FrontStays(a, b, piece);
    SplitAtFront(s, piece);
    SplitAtFront(a, piece);
    Associates(Closed(a, piece), NonEmpty(Split(Behind(a), "")), NonEmpty(Split(b, "")));
  }

  lemma ClosedAfter(b: string, piece: string, rest: seq<string>)
    requires b != "" && SeparatorAt(b, 0)
    ensures Closed(b, piece) + rest == Keep(piece) + (Closed(b, "") + rest)
  {
  }

  lemma ClosedKeeps(b: string, piece: string)
    requires b != "" && SeparatorAt(b, 0)
    ensures NonEmpty(Split(b, piece)) == Keep(piece) + NonEmpty(Split(b, ""))
  {
    SplitAtFront(b, piece);
    SplitAtFront(b, "");
    ClosedAfter(b, piece, NonEmpty(Split(Behind(b), "")));
  }

  lemma PassesOn(a: string, b: string, piece: string)
    requires a != "" && !SeparatorAt(a, 0) && b != "" && SeparatorAt(b, 0)
    ensures Split(a + b, piece) == Split(a[1..] + b, piece + [a[0]])
    ensures Split(a, piece) == Split(a[1..], piece + [a[0]])
  {
    assert a[0..] == a && b[0..] == b && (a + b)[1..] == a[1..] + b;
    BracketedAppend(a, b);
  }

  lemma {:induction false} CutsAtSeparator(a: string, b: string, piece: string)
    requires b != "" && SeparatorAt(b, 0)
    ensures NonEmpty(Split(a + b, piece)) == NonEmpty(Split(a, piece)) + NonEmpty(Split(b, ""))
    decreases |a|
  {
    if a == "" {
      assert a + b == b && NonEmpty([piece]) == Keep(piece);
      ClosedKeeps(b, piece);
    } else if SeparatorAt(a, 0) {
      CutsAtSeparator(Behind(a), b, "");
      CutsBehind(a, b, piece);
    } else {
      CutsAtSeparator(a[1..], b, piece + [a[0]]);
      PassesOn(a, b, piece);
    }
  }

  /** A path may be cut before any separator: the parts of the two pieces make up its parts. */
  lemma PartsAtSeparator(a: string, b: string)
    requires b != "" && SeparatorAt(b, 0)
    ensures Parts(a + b) == Parts(a) + Parts(b)
  {
    DotsVanish(a + b);
    DotsVanish(a);
    DotsVanish(b);
    CutsAtSeparator(a, b, "");
  }

  lemma UnbrokenIsPlain(piece: string, s: string)
    requires Unbroken(piece + s, |piece|)
    ensures Plain(piece)
  {
    forall k | 0 <= k < |piece| ensures !SeparatorAt(piece, k) {
      assert !SeparatorAt(piece + s, k);
      assert (piece + s)[k..] == piece[k..] + s;
      BracketedAppend(piece[k..], s);
    }
  }

  lemma UnbrokenGrows(piece: string, s: string)
    requires Unbroken(piece + s, |piece|) && s != "" && s[0] != '.' && Bracketed(s) == 0
    ensures Unbroken(piece + [s[0]] + s[1..], |piece| + 1)
  {
    assert piece + [s[0]] + s[1..] == piece + s;
    assert (piece + s)[|piece|..] == s;
  }

  lemma DigitsArePlain(d: string)
    requires AllDigits(d)
    ensures Plain(d)
  {
  }

  lemma ClosedIsPlain(s: string, piece: string, t: string)
    requires s != "" && SeparatorAt(s, 0) && Plain(piece) && t in Closed(s, piece)
    ensures t != "" && Plain(t)
  {
    if t !in Keep(piece) {
      DigitsArePlain(t);
    }
  }

  /** Every part of every path is a non-empty plain text. */
  lemma {:induction false} PartsArePlain(s: string, piece: string, t: string)
    requires Unbroken(piece + s, |piece|)
    requires t in NonEmpty(Split(s, piece))
    ensures t != "" && Plain(t)
    decreases |s|
  {
    UnbrokenIsPlain(piece, s);
    if s == "" {
      assert NonEmpty([piece]) == Keep(piece);
    } else if SeparatorAt(s, 0) {
      SplitAtFront(s, piece);
      if t in Closed(s, piece) {
        ClosedIsPlain(s, piece, t);
      } else {
        PartsArePlain(Behind(s), "", t);
      }
    } else {
      assert s[0..] == s;
      UnbrokenGrows(piece, s);
      PartsArePlain(s[1..], piece + [s[0]], t);
    }
  }

  /**
   Printing a list of names and indices and tokenizing it again, behind any number of dots,
   gives the list back if and only if every name is non-empty, dot-free and without a
   bracketed number.
   */
  lemma RoundTripExactly(n: nat, ps: seq<Part>)
    ensures Parts(Dots(n) + Print(ps)) == Texts(ps) <==> GoodNames(ps)
  {
    AnyLeadingDots(n, Print(ps));
    DotsVanish(Print(ps));
    if GoodNames(ps) {
      PrintedParts(ps, "");
    }
    if Parts(Print(ps)) == Texts(ps) {
      forall p | p in ps && p.Name? ensures p.name != "" && Plain(p.name) {
        var k :| 0 <= k < |ps| && ps[k] == p;
        assert Texts(ps)[k] == p.name;
        PartsArePlain(Print(ps), "", p.name);
      }
    }
  }

  lemma BracketsHoldDigits(digits: string)
    requires digits != "" && AllDigits(digits)
    ensures Bracketed("[" + digits + "]") == |digits| + 2 && Parts("[" + digits + "]") == [digits]
  {
    var s := "[" + digits + "]";
    assert s[1..] == digits + "]";
    AllDigitsRun(digits);
    DigitRunAppend(digits, "]");
    assert s[1..|digits| + 1] == digits && s[|digits| + 2..] == "";
    assert StripDots(s) == s;
    assert Split(s, "") == ["", digits] + Split("", "");
    NonEmptyTwo("", digits, Split("", ""));
  }

  /** Between separators: a dot gives nothing, a bracketed number its digits, and any other text itself. */
  lemma PartsOfPiece(text: string, digits: string)
    requires Plain(text) && digits != "" && AllDigits(digits)
    ensures Parts("") == [] && (text != "" ==> Parts(text) == [text]) && Parts("." + text) == Parts(text)
    ensures Bracketed("[" + digits + "]") == |digits| + 2 && Parts("[" + digits + "]") == [digits]
  {
    SplitName(text, "", "");
    assert text + "" == text && "" + text == text;
    DotsVanish(text);
    AnyLeadingDots(1, text);
    assert Dots(1) == ".";
    BracketsHoldDigits(digits);
  }

  // ---------------------------------------------------------------- the walk

  datatype Json =
    | Null
    | Bool(b: bool)
    | Num(x: real)
    | Str(s: string)
    | Arr(elements: seq<Json>)
    | Obj(members: map<string, Json>)

  /** `typeof v === "object"` and not null; None is `undefined`. */
  predicate IsObject(v: Option<Json>) {
    v.Some? && (v.value.Arr? || v.value.Obj?)
  }

  /** Own properties: object members, array elements by canonical index, and `length`. */
  function Property(v: Json, key: string): Option<Json>
    requires IsObject(Some(v))
  {
    match v
    case Obj(m) => if key in m then Some(m[key]) else None
    case Arr(a) =>
      if Canonical(key) then (if Value(key) < |a| then Some(a[Value(key)]) else None)
      else if key == "length" then Some(Num(|a| as real))
      else None
  }

  function Walk(v: Option<Json>, parts: seq<string>): Option<Json>
    decreases |parts|
  {
    if parts == [] then v
    else if !IsObject(v) then None
    else Walk(Property(v.value, parts[0]), parts[1..])
  }

  method ExtractJsonPath(obj: map<string, Json>, path: string) returns (r: Option<Json>)
    ensures r == Walk(Some(Obj(obj)), Parts(path))
  {
    var parts := Parts(path);
    var current := Some(Obj(obj));
    for i := 0 to |parts|
      invariant Walk(current, parts[i..]) == Walk(Some(Obj(obj)), parts)
    {
      if !IsObject(current) {
        return None;
      }
      current := Property(current.value, parts[i]);
      assert parts[i..][1..] == parts[i + 1..];
    }
    r := current;
  }

  /** The element, among the first `n`, whose position prints as `name`. */
  function ElementNamed(a: seq<Json>, name: string, n: nat): Option<Json>
    requires n <= |a|
  {
    if n == 0 then None else if Dec(n - 1) == name then Some(a[n - 1]) else ElementNamed(a, name, n - 1)
  }

  lemma {:induction false} NamedByPosition(a: seq<Json>, name: string, n: nat)
    requires n <= |a|
    ensures ElementNamed(a, name, n) == if Canonical(name) && Value(name) < n then Some(a[Value(name)]) else None
  {
    if n > 0 {
      NamedByPosition(a, name, n - 1);
      DecValue(n - 1);
      if Canonical(name) {
        ValueDec(name);
      }
    }
  }

  /** One typed step: a member by name, an array element by position. */
  function Child(v: Json, p: Part): Option<Json> {
    match (v, p)
    case (Obj(m), Name(name)) => if name in m then Some(m[name]) else None
    case (Obj(m), Index(n)) => if Dec(n) in m then Some(m[Dec(n)]) else None
    case (Arr(a), Index(n)) => if n < |a| then Some(a[n]) else None
    case (Arr(a), Name(name)) =>
      if name == "length" then Some(Num(|a| as real))
      else ElementNamed(a, name, |a|)
    case (_, _) => None
  }

  function Descend(v: Json, ps: seq<Part>): Option<Json>
    decreases |ps|
  {
    if ps == [] then Some(v)
    else match Child(v, ps[0])
      case None => None
      case Some(w) => Descend(w, ps[1..])
  }

  lemma {:induction false} WalkDescends(v: Json, ps: seq<Part>)
    ensures Walk(Some(v), Texts(ps)) == Descend(v, ps)
    decreases |ps|
  {
    if ps != [] {
      assert Texts(ps)[1..] == Texts(ps[1..]);
      if ps[0].Index? {
        DecValue(ps[0].n);
      }
      if v.Arr? && ps[0].Name? {
        NamedByPosition(v.elements, ps[0].name, |v.elements|);
      }
      if IsObject(Some(v)) {
        assert Property(v, PartText(ps[0])) == Child(v, ps[0]);
        match Child(v, ps[0]) {
          case Some(w) => WalkDescends(w, ps[1..]);
          case None =>
        }
      }
    }
  }

  /** So extraction along a printed path is the typed descent, however many dots lead it. */
  lemma ExtractFollowsPrintedPath(obj: map<string, Json>, n: nat, ps: seq<Part>)
    requires GoodNames(ps)
    ensures Walk(Some(Obj(obj)), Parts(Dots(n) + Print(ps))) == Descend(Obj(obj), ps)
  {
    RoundTripExactly(n, ps);
    WalkDescends(Obj(obj), ps);
  }

  /** A walk that has met something that is not an object stays undefined. */
  lemma {:induction false} WalkStopsAtNonObject(v: Option<Json>, parts: seq<string>, k: nat)
    requires k < |parts| && !IsObject(Walk(v, parts[..k]))
    ensures Walk(v, parts) == None
    decreases |parts|
  {
    if k > 0 && IsObject(v) {
      assert parts[..k][1..] == parts[1..][..k - 1];
      WalkStopsAtNonObject(Property(v.value, parts[0]), parts[1..], k - 1);
    }
  }
}
