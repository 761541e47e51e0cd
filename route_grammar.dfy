/** The router's path grammar, the anchored regular expression

      ^/([[:alpha:]]+)/(NUM)/(NUM)$
      NUM = -?(?:0|[1-9]\d*)(?:\.\d+)?(?:[eE][+-]?\d+)?

    written out as a hand-made recogniser. A number token is described by a
    `NumberLit` (its sign, integer part, optional fraction, optional exponent)
    and `Render` spells one out; `ScanNumber` reads a token back, and the two
    are proved inverse, so the recogniser accepts exactly the rendered
    well-formed literals. The path matcher is related in the same way to
    `RoutePath`, which puts three captured segments between slashes. */
module RouteGrammar {
  import opened Wrappers

  // ---------------------------------------------------------------------
  // Character classes

  /** `[[:alpha:]]`, an ASCII class in the regex dialect of the source. */
  predicate IsAsciiAlpha(c: char) {
    'A' <= c <= 'Z' || 'a' <= c <= 'z'
  }

  /** `\d`, read as the ASCII digits. */
  predicate IsDigit(c: char) {
    '0' <= c <= '9'
  }

  predicate AllDigits(s: string) {
    forall i | 0 <= i < |s| :: IsDigit(s[i])
  }

  /** `\d+`: one or more digits. */
  predicate IsDigitRun(s: string) {
    |s| > 0 && AllDigits(s)
  }

  /** The first capture group: one or more ASCII letters. */
  predicate IsName(s: string) {
    |s| > 0 && forall i | 0 <= i < |s| :: IsAsciiAlpha(s[i])
  }

  /** `0|[1-9]\d*`: zero, or digits without a leading zero. */
  predicate IsIntegerPart(s: string) {
    s == "0" || (|s| > 0 && '1' <= s[0] <= '9' && AllDigits(s[1..]))
  }

  /** `s` does not contain the character `x`. */
  predicate Lacks(s: string, x: char) {
    forall i | 0 <= i < |s| :: s[i] != x
  }

  // ---------------------------------------------------------------------
  // Number literals and their spelling

  datatype ExponentSign = NoSign | PlusSign | MinusSign

  /** `[eE][+-]?\d+`: which letter, which sign, and the digits. */
  datatype Exponent = Exponent(capital: bool, sign: ExponentSign, digits: string)

  datatype NumberLit = NumberLit(
    negative: bool,
    integer: string,
    fraction: Option<string>,
    exponent: Option<Exponent>)

  /** The literals the number pattern describes. */
  predicate WellFormed(n: NumberLit) {
    && IsIntegerPart(n.integer)
    && (n.fraction.Some? ==> IsDigitRun(n.fraction.value))
    && (n.exponent.Some? ==> IsDigitRun(n.exponent.value.digits))
  }

  function SignText(s: ExponentSign): string {
    match s
    case NoSign => ""
    case PlusSign => "+"
    case MinusSign => "-"
  }

  function ExponentMark(capital: bool): string {
    if capital then "E" else "e"
  }

  function FractionText(f: Option<string>): string {
    match f
    case None => ""
    case Some(d) => "." + d
  }

  function ExponentText(e: Option<Exponent>): string {
    match e
    case None => ""
    case Some(x) => ExponentMark(x.capital) + SignText(x.sign) + x.digits
  }

  function SignPrefix(negative: bool): string {
    if negative then "-" else ""
  }

  /** The text of a literal, part by part in the order of the pattern. */
  function Render(n: NumberLit): string {
    SignPrefix(n.negative) + n.integer + FractionText(n.fraction) + ExponentText(n.exponent)
  }

  // ---------------------------------------------------------------------
  // The number recogniser

  /** Length of the run of digits at the front of `s`. */
  function DigitSpan(s: string): (k: nat)
    ensures k <= |s|
    ensures forall i | 0 <= i < k :: IsDigit(s[i])
    ensures k < |s| ==> !IsDigit(s[k])
  {
    if s == [] || !IsDigit(s[0]) then 0 else 1 + DigitSpan(s[1..])
  }

  /** A part read from the front of a string, and what is left after it. */
  datatype Scanned<T> = Scanned(part: T, rest: string)

  /** `\d+` at the front of `s`: the longest run of digits, which must
      not be empty. */
  function ScanDigits(s: string): (r: Option<Scanned<string>>)
    ensures r.Some? ==> r.value.part + r.value.rest == s && IsDigitRun(r.value.part)
    ensures r.Some? ==> r.value.rest == [] || !IsDigit(r.value.rest[0])
    ensures r.None? <==> s == [] || !IsDigit(s[0])
  {
    var k := DigitSpan(s);
    if k == 0 then None
    else
      assert s == s[..k] + s[k..];
      Some(Scanned(s[..k], s[k..]))
  }

  /** `(?:\.\d+)?` at the front of `s`. A point without a digit after it can
      never be followed by the rest of a token, so it fails at once. */
  function ScanFraction(s: string): (r: Option<Scanned<Option<string>>>)
    ensures r.Some? ==> FractionText(r.value.part) + r.value.rest == s
    ensures r.Some? && r.value.part.Some? ==> IsDigitRun(r.value.part.value)
  {
    if |s| > 0 && s[0] == '.' then
      match ScanDigits(s[1..])
      case None => None
      case Some(d) =>
        assert s == "." + (d.part + d.rest);
        Some(Scanned(Some(d.part), d.rest))
    else
      Some(Scanned(None, s))
  }

  /** `[+-]?` at the front of `s`. */
  function ScanExponentSign(s: string): (r: Scanned<ExponentSign>)
    ensures SignText(r.part) + r.rest == s
  {
    if |s| > 0 && s[0] == '+' then
      assert s == "+" + s[1..];
      Scanned(PlusSign, s[1..])
    else if |s| > 0 && s[0] == '-' then
      assert s == "-" + s[1..];
      Scanned(MinusSign, s[1..])
    else
      Scanned(NoSign, s)
  }

  /** `(?:[eE][+-]?\d+)?` at the front of `s`. */
  function ScanExponent(s: string): (r: Option<Scanned<Option<Exponent>>>)
    ensures r.Some? ==> ExponentText(r.value.part) + r.value.rest == s
    ensures r.Some? && r.value.part.Some? ==> IsDigitRun(r.value.part.value.digits)
  {
    if |s| > 0 && (s[0] == 'e' || s[0] == 'E') then
      var sign := ScanExponentSign(s[1..]);
      match ScanDigits(sign.rest)
      case None => None
      case Some(d) =>
        var mark := ExponentMark(s[0] == 'E');
        assert s == mark + (SignText(sign.part) + (d.part + d.rest));
        Regroup(mark, SignText(sign.part), d.part, d.rest);
        Some(Scanned(Some(Exponent(s[0] == 'E', sign.part, d.part)), d.rest))
    else
      Some(Scanned(None, s))
  }

  /** `-?` at the front of `s`. */
  function ScanSign(s: string): (r: Scanned<bool>)
    ensures SignPrefix(r.part) + r.rest == s
    ensures r.part <==> |s| > 0 && s[0] == '-'
  {
    if |s| > 0 && s[0] == '-' then
      assert s == "-" + s[1..];
      Scanned(true, s[1..])
    else
      Scanned(false, s)
  }

  /** `0|[1-9]\d*` at the front of `s`: the longest run of digits, which
      must then be a valid integer part. */
  function ScanInteger(s: string): (r: Option<Scanned<string>>)
    ensures r.Some? ==> r.value.part + r.value.rest == s && IsIntegerPart(r.value.part)
  {
    var k := DigitSpan(s);
    if !IsIntegerPart(s[..k]) then None
    else
      assert s == s[..k] + s[k..];
      Some(Scanned(s[..k], s[k..]))
  }

  /** One number segment of the path, which must be consumed entirely.
      Whatever it accepts is the spelling of a well-formed literal. */
  function ScanNumber(s: string): (r: Option<NumberLit>)
    ensures r.Some? ==> WellFormed(r.value) && Render(r.value) == s
  {
    var sign := ScanSign(s);
    match ScanInteger(sign.rest)
    case None => None
    case Some(i) =>
      match ScanFraction(i.rest)
      case None => None
      case Some(f) =>
        match ScanExponent(f.rest)
        case None => None
        case Some(e) =>
          if e.rest != [] then None
          else
            var n := NumberLit(sign.part, i.part, f.part, e.part);
            assert f.rest == ExponentText(e.part);
            Regroup(SignPrefix(sign.part), i.part, FractionText(f.part), ExponentText(e.part));
            Some(n)
  }

  lemma Regroup(a: string, b: string, c: string, d: string)
    ensures a + (b + (c + d)) == a + b + c + d
  {
  }

  predicate IsNumberToken(t: string) {
    ScanNumber(t).Some?
  }

  lemma DigitSpanOf(digits: string, rest: string)
    requires AllDigits(digits)
    requires rest == [] || !IsDigit(rest[0])
    ensures DigitSpan(digits + rest) == |digits|
  {
    var s := digits + rest;
    assert forall i | 0 <= i < |digits| :: IsDigit(s[i]);
    assert |digits| < |s| ==> !IsDigit(s[|digits|]);
  }

  lemma ScanDigitsComplete(digits: string, rest: string)
    requires IsDigitRun(digits)
    requires rest == [] || !IsDigit(rest[0])
    ensures ScanDigits(digits + rest) == Some(Scanned(digits, rest))
  {
    var s := digits + rest;
    DigitSpanOf(digits, rest);
    assert s[..|digits|] == digits && s[|digits|..] == rest;
  }

  lemma ScanFractionComplete(f: Option<string>, rest: string)
    requires f.Some? ==> IsDigitRun(f.value)
    requires rest == [] || (!IsDigit(rest[0]) && rest[0] != '.')
    ensures ScanFraction(FractionText(f) + rest) == Some(Scanned(f, rest))
  {
    var s := FractionText(f) + rest;
    match f
    case None =>
      assert s == rest;
    case Some(d) =>
      assert s == "." + (d + rest);
      assert s[0] == '.' && s[1..] == d + rest;
      ScanDigitsComplete(d, rest);
  }

  lemma ScanExponentSignComplete(sign: ExponentSign, digits: string)
    requires IsDigitRun(digits)
    ensures ScanExponentSign(SignText(sign) + digits) == Scanned(sign, digits)
  {
    var s := SignText(sign) + digits;
    assert IsDigit(digits[0]);
    match sign
    case NoSign =>
      assert s == digits;
    case PlusSign =>
      assert s[0] == '+' && s[1..] == digits;
    case MinusSign =>
      assert s[0] == '-' && s[1..] == digits;
  }

  lemma ScanExponentComplete(e: Option<Exponent>)
    requires e.Some? ==> IsDigitRun(e.value.digits)
    ensures ScanExponent(ExponentText(e)) == Some(Scanned(e, []))
  {
    match e
    case None =>
    case Some(x) =>
      var s := ExponentText(e);
      var afterMark := SignText(x.sign) + x.digits;
      assert s == ExponentMark(x.capital) + afterMark;
      assert s[0] == ExponentMark(x.capital)[0] && s[1..] == afterMark;
      ScanExponentSignComplete(x.sign, x.digits);
      assert x.digits + [] == x.digits;
      ScanDigitsComplete(x.digits, []);
  }

  lemma ScanSignComplete(negative: bool, rest: string)
    requires |rest| > 0 && rest[0] != '-'
    ensures ScanSign(SignPrefix(negative) + rest) == Scanned(negative, rest)
  {
    var s := SignPrefix(negative) + rest;
    if negative {
      assert s[0] == '-' && s[1..] == rest;
    } else {
      assert s == rest;
    }
  }

  lemma ScanIntegerComplete(integer: string, rest: string)
    requires IsIntegerPart(integer)
    requires rest == [] || !IsDigit(rest[0])
    ensures ScanInteger(integer + rest) == Some(Scanned(integer, rest))
  {
    var s := integer + rest;
    assert AllDigits(integer);
    DigitSpanOf(integer, rest);
    assert s[..|integer|] == integer && s[|integer|..] == rest;
  }

  /** Every well-formed literal is read back from its spelling: the
      recogniser accepts all the tokens the number pattern describes. */
  lemma {:induction false} ScanNumberComplete(n: NumberLit)
    requires WellFormed(n)
    ensures ScanNumber(Render(n)) == Some(n)
  {
    var ex := ExponentText(n.exponent);
    var fe := FractionText(n.fraction) + ex;
    var unsigned := n.integer + fe;
    assert ScanSign(Render(n)) == Scanned(n.negative, unsigned) by {
      Regroup(SignPrefix(n.negative), n.integer, FractionText(n.fraction), ex);
      assert unsigned[0] == n.integer[0];
      ScanSignComplete(n.negative, unsigned);
    }
    assert ScanInteger(unsigned) == Some(Scanned(n.integer, fe)) by {
      FractionExponentStart(n);
      ScanIntegerComplete(n.integer, fe);
    }
    assert ScanFraction(fe) == Some(Scanned(n.fraction, ex)) by {
      ExponentStart(n.exponent);
      ScanFractionComplete(n.fraction, ex);
    }
    ScanExponentComplete(n.exponent);
    ScanNumberSteps(Render(n), n, unsigned, fe, ex);
  }

  /** How the four scanners compose into `ScanNumber`. */
  lemma ScanNumberSteps(s: string, n: NumberLit, unsigned: string, fe: string, ex: string)
    requires ScanSign(s) == Scanned(n.negative, unsigned)
    requires ScanInteger(unsigned) == Some(Scanned(n.integer, fe))
    requires ScanFraction(fe) == Some(Scanned(n.fraction, ex))
    requires ScanExponent(ex) == Some(Scanned(n.exponent, []))
    ensures ScanNumber(s) == Some(n)
  {
  }

  lemma ExponentStart(e: Option<Exponent>)
    ensures ExponentText(e) == [] || ExponentText(e)[0] == 'e' || ExponentText(e)[0] == 'E'
  {
  }

  /** The recogniser and the grammar agree in both directions. */
  lemma NumberTokenIsRendering(t: string)
    ensures IsNumberToken(t) <==> exists n :: WellFormed(n) && Render(n) == t
  {
    if exists n :: WellFormed(n) && Render(n) == t {
      var n :| WellFormed(n) && Render(n) == t;
      ScanNumberComplete(n);
    }
  }

  // ---------------------------------------------------------------------
  // What a number token looks like

  lemma LacksConcat(a: string, b: string, x: char)
    requires Lacks(a, x) && Lacks(b, x)
    ensures Lacks(a + b, x)
  {
  }

  /** The sign and integer part hold only `-` and digits. */
  lemma SignedIntegerLacks(n: NumberLit, x: char)
    requires WellFormed(n) && !IsDigit(x) && x != '-'
    ensures Lacks(SignPrefix(n.negative) + n.integer, x)
  {
    assert AllDigits(n.integer);
  }

  /** The fraction holds only `.` and digits. */
  lemma FractionLacks(f: Option<string>, x: char)
    requires f.Some? ==> IsDigitRun(f.value)
    requires !IsDigit(x) && x != '.'
    ensures Lacks(FractionText(f), x)
  {
  }

  /** The exponent holds only its letter, its sign and digits. */
  lemma ExponentLacks(e: Option<Exponent>, x: char)
    requires e.Some? ==> IsDigitRun(e.value.digits)
    requires !IsDigit(x) && x != 'e' && x != 'E' && x != '+' && x != '-'
    ensures Lacks(ExponentText(e), x)
  {
    if e.Some? {
      var v := e.value;
      assert ExponentText(e) == ExponentMark(v.capital) + (SignText(v.sign) + v.digits);
    }
  }

  /** A token is never empty; it starts with `-` or a digit, never with `+`. */
  lemma TokenStart(t: string)
    requires IsNumberToken(t)
    ensures |t| > 0 && (t[0] == '-' || IsDigit(t[0]))
  {
    var n := ScanNumber(t).value;
    assert t == SignPrefix(n.negative) + n.integer + FractionText(n.fraction) + ExponentText(n.exponent);
    if !n.negative {
      assert t[0] == n.integer[0];
    }
  }

  /** No leading zero before other digits of the integer part. */
  lemma NoLeadingZero(t: string)
    requires IsNumberToken(t)
    ensures var j := if t[0] == '-' then 1 else 0;
            j < |t| && (t[j] == '0' ==> j + 1 == |t| || !IsDigit(t[j + 1]))
  {
    TokenStart(t);
    var n := ScanNumber(t).value;
    RenderNoLeadingZero(n);
    assert t[0] == '-' <==> n.negative by {
      assert IsDigit(n.integer[0]);
    }
  }

  lemma RenderNoLeadingZero(n: NumberLit)
    requires WellFormed(n)
    ensures var t := Render(n);
            var j := |SignPrefix(n.negative)|;
            && j < |t| && t[j] == n.integer[0]
            && (n.negative <==> t[0] == '-')
            && (t[j] == '0' ==> j + 1 == |t| || !IsDigit(t[j + 1]))
  {
    var p := SignPrefix(n.negative);
    var fe := FractionText(n.fraction) + ExponentText(n.exponent);
    Regroup(p, n.integer, FractionText(n.fraction), ExponentText(n.exponent));
    var t := p + (n.integer + fe);
    assert t[|p|] == n.integer[0];
    assert IsDigit(n.integer[0]);
    assert t[0] == (if n.negative then '-' else n.integer[0]);
    if n.integer[0] == '0' && |p| + 1 < |t| {
      assert n.integer == "0";
      FractionExponentStart(n);
      assert t[|p| + 1] == fe[0];
    }
  }

  /** What may follow the integer part: nothing, a point or an exponent
      letter. */
  lemma FractionExponentStart(n: NumberLit)
    ensures var fe := FractionText(n.fraction) + ExponentText(n.exponent);
            fe == [] || fe[0] == '.' || fe[0] == 'e' || fe[0] == 'E'
  {
    ExponentStart(n.exponent);
    if n.fraction.Some? {
      assert (FractionText(n.fraction) + ExponentText(n.exponent))[0] == '.';
    }
  }

  /** A decimal point is always followed by a digit. */
  lemma PointFollowedByDigit(t: string, i: int)
    requires IsNumberToken(t) && 0 <= i < |t| && t[i] == '.'
    ensures i + 1 < |t| && IsDigit(t[i + 1])
  {
    RenderPointFollowedByDigit(ScanNumber(t).value, i);
  }

  lemma RenderPointFollowedByDigit(n: NumberLit, i: int)
    requires WellFormed(n)
    requires var t := Render(n); 0 <= i < |t| && t[i] == '.'
    ensures var t := Render(n); i + 1 < |t| && IsDigit(t[i + 1])
  {
    var head := SignPrefix(n.negative) + n.integer;
    var ex := ExponentText(n.exponent);
    SignedIntegerLacks(n, '.');
    ExponentLacks(n.exponent, '.');
    if n.fraction.None? {
      LacksConcat(head, FractionText(n.fraction), '.');
      LacksConcat(head + FractionText(n.fraction), ex, '.');
    } else {
      PointTail(head, n.fraction.value, ex, i);
    }
  }

  /** The only point around a fraction is its own first character. */
  lemma PointTail(head: string, d: string, ex: string, i: int)
    requires Lacks(head, '.') && IsDigitRun(d) && Lacks(ex, '.')
    requires var t := head + FractionText(Some(d)) + ex; 0 <= i < |t| && t[i] == '.'
    ensures var t := head + FractionText(Some(d)) + ex; i + 1 < |t| && IsDigit(t[i + 1])
  {
    var t := head + FractionText(Some(d)) + ex;
    PointPositions(head, d, ex);
    assert t[i + 1] == d[0];
  }

  lemma PointPositions(head: string, d: string, ex: string)
    requires Lacks(head, '.') && AllDigits(d) && Lacks(ex, '.')
    ensures var t := head + FractionText(Some(d)) + ex;
            forall j | 0 <= j < |t| && t[j] == '.' :: j == |head|
  {
    var t := head + FractionText(Some(d)) + ex;
    assert t == head + ("." + d) + ex;
    assert forall j | |head| < j <= |head| + |d| :: t[j] == d[j - |head| - 1];
    assert forall j | |head| + 1 + |d| <= j < |t| :: t[j] == ex[j - |head| - 1 - |d|];
  }

  /** An exponent letter is always followed by a digit, or by a sign and a
      digit. */
  lemma ExponentFollowedByDigit(t: string, i: int)
    requires IsNumberToken(t) && 0 <= i < |t| && (t[i] == 'e' || t[i] == 'E')
    ensures || (i + 1 < |t| && IsDigit(t[i + 1]))
            || (i + 2 < |t| && (t[i + 1] == '+' || t[i + 1] == '-') && IsDigit(t[i + 2]))
  {
    RenderExponentFollowedByDigit(ScanNumber(t).value, i);
  }

  lemma RenderExponentFollowedByDigit(n: NumberLit, i: int)
    requires WellFormed(n)
    requires var t := Render(n); 0 <= i < |t| && (t[i] == 'e' || t[i] == 'E')
    ensures var t := Render(n);
            || (i + 1 < |t| && IsDigit(t[i + 1]))
            || (i + 2 < |t| && (t[i + 1] == '+' || t[i + 1] == '-') && IsDigit(t[i + 2]))
  {
    var head := SignPrefix(n.negative) + n.integer + FractionText(n.fraction);
    ExponentMarkPosition(n, 'e');
    ExponentMarkPosition(n, 'E');
    if n.exponent.None? {
      LacksConcat(head, ExponentText(n.exponent), 'e');
      LacksConcat(head, ExponentText(n.exponent), 'E');
    } else {
      ExponentTail(n.exponent.value, head, i);
    }
  }

  /** An exponent letter can only be the first character of the exponent. */
  lemma ExponentMarkPosition(n: NumberLit, x: char)
    requires WellFormed(n) && (x == 'e' || x == 'E')
    ensures Lacks(SignPrefix(n.negative) + n.integer + FractionText(n.fraction), x)
  {
    SignedIntegerLacks(n, x);
    FractionLacks(n.fraction, x);
    LacksConcat(SignPrefix(n.negative) + n.integer, FractionText(n.fraction), x);
  }

  lemma ExponentTail(x: Exponent, head: string, i: int)
    requires IsDigitRun(x.digits)
    requires Lacks(head, 'e') && Lacks(head, 'E')
    requires var t := head + ExponentText(Some(x)); 0 <= i < |t| && (t[i] == 'e' || t[i] == 'E')
    ensures var t := head + ExponentText(Some(x));
            || (i + 1 < |t| && IsDigit(t[i + 1]))
            || (i + 2 < |t| && (t[i + 1] == '+' || t[i + 1] == '-') && IsDigit(t[i + 2]))
  {
    var t := head + ExponentText(Some(x));
    ExponentMarkPositions(head, x);
    var sign := SignText(x.sign);
    assert t == head + ExponentMark(x.capital) + sign + x.digits;
    assert t[|head| + 1 + |sign|] == x.digits[0];
    assert |sign| == 1 ==> t[|head| + 1] == sign[0];
  }

  /** Past a head without exponent letters, the only one is the mark. */
  lemma ExponentMarkPositions(head: string, x: Exponent)
    requires Lacks(head, 'e') && Lacks(head, 'E') && AllDigits(x.digits)
    ensures var t := head + ExponentText(Some(x));
            forall j | 0 <= j < |t| && (t[j] == 'e' || t[j] == 'E') :: j == |head|
  {
    var t := head + ExponentText(Some(x));
    var rest := SignText(x.sign) + x.digits;
    assert t == head + ExponentMark(x.capital) + rest;
    assert Lacks(rest, 'e') && Lacks(rest, 'E');
    assert forall j | |head| < j < |t| :: t[j] == rest[j - |head| - 1];
  }

  /** A token never contains a slash, so it cannot span two path segments. */
  lemma TokenHasNoSlash(t: string)
    requires IsNumberToken(t)
    ensures Lacks(t, '/')
  {
    var n := ScanNumber(t).value;
    SignedIntegerLacks(n, '/');
    FractionLacks(n.fraction, '/');
    ExponentLacks(n.exponent, '/');
    LacksConcat(SignPrefix(n.negative) + n.integer, FractionText(n.fraction), '/');
    LacksConcat(SignPrefix(n.negative) + n.integer + FractionText(n.fraction), ExponentText(n.exponent), '/');
  }

  // ---------------------------------------------------------------------
  // The path matcher

  /** The three capture groups of a match. */
  datatype Captures = Captures(name: string, first: string, second: string)

  predicate ValidCaptures(c: Captures) {
    IsName(c.name) && IsNumberToken(c.first) && IsNumberToken(c.second)
  }

  /** The path that consists of exactly the three segments. */
  function RoutePath(c: Captures): string {
    "/" + c.name + "/" + c.first + "/" + c.second
  }

  lemma RoutePathNested(c: Captures)
    ensures RoutePath(c) == "/" + (c.name + "/" + (c.first + "/" + c.second))
  {
  }

  /** Index of the first slash in `s`, or `|s|` when there is none. */
  function SlashIndex(s: string): (k: nat)
    ensures k <= |s|
    ensures forall i | 0 <= i < k :: s[i] != '/'
    ensures k < |s| ==> s[k] == '/'
  {
    if s == [] || s[0] == '/' then 0 else 1 + SlashIndex(s[1..])
  }

  lemma SplitAtSlash(s: string, k: int)
    requires 0 <= k < |s| && s[k] == '/'
    ensures s == s[..k] + "/" + s[k + 1..]
  {
  }

  /** Cuts a path at its first three slashes: the text before the first
      must be empty, and the last segment runs to the end. */
  function SplitPath(path: string): (r: Option<Captures>)
    ensures r.Some? ==> RoutePath(r.value) == path
  {
    if |path| == 0 || path[0] != '/' then None
    else
      var afterRoot := path[1..];
      var i := SlashIndex(afterRoot);
      if i == |afterRoot| then None
      else
        var afterName := afterRoot[i + 1..];
        var j := SlashIndex(afterName);
        if j == |afterName| then None
        else
          var c := Captures(afterRoot[..i], afterName[..j], afterName[j + 1..]);
          SplitAtSlash(afterName, j);
          SplitAtSlash(afterRoot, i);
          assert path == "/" + afterRoot;
          RoutePathNested(c);
          Some(c)
  }

  /** The anchored match of the router's pattern against a request path:
      the segments between the slashes must be a name and two number
      tokens. Whatever it accepts is the route path of its captures. */
  function MatchPath(path: string): (r: Option<Captures>)
    ensures r.Some? ==> ValidCaptures(r.value) && RoutePath(r.value) == path
  {
    match SplitPath(path)
    case None => None
    case Some(c) => if ValidCaptures(c) then Some(c) else None
  }

  /** Cutting `s + "/" + rest` at its first slash gives back `s` and `rest`. */
  lemma SlashIndexOf(s: string, rest: string)
    requires Lacks(s, '/')
    ensures var t := s + "/" + rest;
            SlashIndex(t) == |s| && t[..|s|] == s && t[|s| + 1..] == rest
  {
    var t := s + "/" + rest;
    assert forall i | 0 <= i < |s| :: t[i] != '/';
    assert t[|s|] == '/';
    assert t[..|s|] == s && t[|s| + 1..] == rest;
  }

  lemma NameHasNoSlash(name: string)
    requires IsName(name)
    ensures Lacks(name, '/')
  {
  }

  lemma {:induction false} SplitPathComplete(c: Captures)
    requires Lacks(c.name, '/') && Lacks(c.first, '/')
    ensures SplitPath(RoutePath(c)) == Some(c)
  {
    var path := RoutePath(c);
    var afterName := c.first + "/" + c.second;
    var afterRoot := c.name + "/" + afterName;
    RoutePathNested(c);
    assert path[0] == '/' && path[1..] == afterRoot;
    SlashIndexOf(c.name, afterName);
    SlashIndexOf(c.first, c.second);
  }

  /** Every path made of a name and two number tokens is matched, with
      exactly those segments captured. */
  lemma {:induction false} MatchPathComplete(c: Captures)
    requires ValidCaptures(c)
    ensures MatchPath(RoutePath(c)) == Some(c)
  {
    NameHasNoSlash(c.name);
    TokenHasNoSlash(c.first);
    SplitPathComplete(c);
  }

  /** The matcher accepts exactly the route paths of valid captures. */
  lemma MatchPathExactly(path: string, c: Captures)
    ensures MatchPath(path) == Some(c) <==> ValidCaptures(c) && RoutePath(c) == path
  {
    if ValidCaptures(c) && RoutePath(c) == path {
      MatchPathComplete(c);
    }
  }

  /** The slashes of a route path stand only in front of its three segments. */
  lemma SlashPositions(c: Captures, k: int)
    requires ValidCaptures(c) && 0 <= k < |RoutePath(c)| && RoutePath(c)[k] == '/'
    ensures k == 0 || k == 1 + |c.name| || k == 2 + |c.name| + |c.first|
  {
    NameHasNoSlash(c.name);
    TokenHasNoSlash(c.first);
    TokenHasNoSlash(c.second);
    SeparatorPositions(c);
  }

  lemma SeparatorPositions(c: Captures)
    requires Lacks(c.name, '/') && Lacks(c.first, '/') && Lacks(c.second, '/')
    ensures var p := RoutePath(c);
            forall k | 0 <= k < |p| && p[k] == '/' ::
              k == 0 || k == 1 + |c.name| || k == 2 + |c.name| + |c.first|
  {
    var p := RoutePath(c);
    var a := 1 + |c.name|;
    var b := a + 1 + |c.first|;
    assert forall j | 0 < j < a :: p[j] == c.name[j - 1];
    assert forall j | a < j < b :: p[j] == c.first[j - a - 1];
    assert forall j | b < j < |p| :: p[j] == c.second[j - b - 1];
  }

  /** A path with an empty segment (two adjacent slashes) is not matched. */
  lemma EmptySegmentUnmatched(path: string, i: int)
    requires 0 <= i < |path| - 1 && path[i] == '/' && path[i + 1] == '/'
    ensures MatchPath(path).None?
  {
    if MatchPath(path).Some? {
      var c := MatchPath(path).value;
      TokenStart(c.first);
      SlashPositions(c, i);
      SlashPositions(c, i + 1);
    }
  }

  /** A path ending in a slash is not matched. */
  lemma TrailingSlashUnmatched(path: string)
    requires |path| > 0 && path[|path| - 1] == '/'
    ensures MatchPath(path).None?
  {
    if MatchPath(path).Some? {
      var c := MatchPath(path).value;
      TokenStart(c.second);
      TokenHasNoSlash(c.second);
    }
  }

  /** Number of occurrences of `x` in `s`. */
  function Occurrences(x: char, s: string): nat {
    if s == [] then 0 else (if s[0] == x then 1 else 0) + Occurrences(x, s[1..])
  }

  lemma {:induction false} OccurrencesConcat(x: char, a: string, b: string)
    ensures Occurrences(x, a + b) == Occurrences(x, a) + Occurrences(x, b)
  {
    if a != [] {
      assert (a + b)[1..] == a[1..] + b;
      OccurrencesConcat(x, a[1..], b);
    } else {
      assert a + b == b;
    }
  }

  lemma {:induction false} OccurrencesOfAbsent(x: char, s: string)
    requires Lacks(s, x)
    ensures Occurrences(x, s) == 0
  {
    if s != [] {
      OccurrencesOfAbsent(x, s[1..]);
    }
  }

  /** A matched path has exactly three slashes: no segment is missing and
      none is extra. */
  lemma MatchedPathHasThreeSlashes(path: string)
    requires MatchPath(path).Some?
    ensures Occurrences('/', path) == 3
  {
    var c := MatchPath(path).value;
    NameHasNoSlash(c.name);
    TokenHasNoSlash(c.first);
    TokenHasNoSlash(c.second);
    OccurrencesOfAbsent('/', c.name);
    OccurrencesOfAbsent('/', c.first);
    OccurrencesOfAbsent('/', c.second);
    OccurrencesConcat('/', "/", c.name);
    OccurrencesConcat('/', "/" + c.name, "/");
    OccurrencesConcat('/', "/" + c.name + "/", c.first);
    OccurrencesConcat('/', "/" + c.name + "/" + c.first, "/");
    OccurrencesConcat('/', "/" + c.name + "/" + c.first + "/", c.second);
  }
}
