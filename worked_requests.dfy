/** Worked requests: concrete tokens and paths, with the outcome the
    grammar and the router give each, proved from the general lemmas. */
module WorkedRequests {
  import opened Wrappers
  import opened RouteGrammar
  import opened Responses
  import opened Operations
  import opened Registry
  import opened Operands
  import opened Server

  /** Integer literals without sign, fraction or exponent. */
  function Plain(digits: string): NumberLit {
    NumberLit(false, digits, None, None)
  }

  lemma PlainToken(digits: string)
    requires IsIntegerPart(digits)
    ensures IsNumberToken(digits)
  {
    ScanNumberComplete(Plain(digits));
    assert Render(Plain(digits)) == digits;
  }

  lemma TokenOf(n: NumberLit, t: string)
    requires WellFormed(n) && Render(n) == t
    ensures IsNumberToken(t)
  {
    ScanNumberComplete(n);
  }

  /** Tokens of each shape the pattern allows: a minus sign, a fraction,
      an exponent, a capital exponent letter with a sign. */
  lemma MinusZeroAccepted()
    ensures IsNumberToken("-0")
  {
    TokenOf(NumberLit(true, "0", None, None), "-0");
  }

  lemma FractionAccepted()
    ensures IsNumberToken("0.5")
  {
    TokenOf(NumberLit(false, "0", Some("5"), None), "0.5");
  }

  lemma ExponentAccepted()
    ensures IsNumberToken("1e9")
  {
    TokenOf(NumberLit(false, "1", None, Some(Exponent(false, NoSign, "9"))), "1e9");
  }

  lemma SignedExponentAccepted()
    ensures IsNumberToken("2E-3")
  {
    TokenOf(NumberLit(false, "2", None, Some(Exponent(true, MinusSign, "3"))), "2E-3");
  }

  lemma TwoBillionAccepted()
    ensures IsNumberToken("2e9")
  {
    TokenOf(NumberLit(false, "2", None, Some(Exponent(false, NoSign, "9"))), "2e9");
  }

  lemma TenAccepted()
    ensures IsNumberToken("10")
  {
    PlainToken("10");
  }

  lemma OneAccepted()
    ensures IsNumberToken("1")
  {
    PlainToken("1");
  }

  lemma TwoAccepted()
    ensures IsNumberToken("2")
  {
    PlainToken("2");
  }

  lemma ThreeAccepted()
    ensures IsNumberToken("3")
  {
    PlainToken("3");
  }

  lemma ZeroAccepted()
    ensures IsNumberToken("0")
  {
    PlainToken("0");
  }

  /** The operation names the examples use are made of letters. */
  lemma ExampleNames()
    ensures IsName("plus") && IsName("Plus") && IsName("div") && IsName("foo")
  {
  }

  /** Tokens the pattern refuses: a plus sign, a leading zero, a point
      with no digit after it, an exponent with no digits. */
  lemma PlusSignRejected()
    ensures !IsNumberToken("+1")
  {
    if IsNumberToken("+1") {
      TokenStart("+1");
    }
  }

  lemma LeadingZeroRejected()
    ensures !IsNumberToken("01")
  {
    if IsNumberToken("01") {
      NoLeadingZero("01");
    }
  }

  lemma BarePointRejected()
    ensures !IsNumberToken("1.")
  {
    if IsNumberToken("1.") {
      PointFollowedByDigit("1.", 1);
    }
  }

  lemma BareExponentRejected()
    ensures !IsNumberToken("1e")
  {
    if IsNumberToken("1e") {
      ExponentFollowedByDigit("1e", 1);
    }
  }

  /** Paths with a segment missing, one too many, or a trailing slash are
      not matched. */
  lemma MissingSegmentUnmatched()
    ensures MatchPath("/plus/1").None?
  {
    if MatchPath("/plus/1").Some? {
      MatchedPathHasThreeSlashes("/plus/1");
    }
  }

  lemma ExtraSegmentUnmatched()
    ensures MatchPath("/plus/1/2/3").None?
  {
    if MatchPath("/plus/1/2/3").Some? {
      MatchedPathHasThreeSlashes("/plus/1/2/3");
    }
  }

  lemma TrailingSlashExample()
    ensures MatchPath("/plus/1/2/").None?
  {
    TrailingSlashUnmatched("/plus/1/2/");
  }

  /** `/plus/2/3` gives 5. */
  lemma AddTwoAndThree(parse: Parser, order: seq<string>)
    requires IsKeyOrder(order)
    requires parse("2") == Some(2.0) && parse("3") == Some(3.0)
    ensures Router("/plus/2/3", parse, order) == HttpResponse(Ok200, OpBody(OpResponse(0, Finite(5.0))))
  {
    var c := Captures("plus", "2", "3");
    AddCaptures();
    AddCapturesPath();
    PlusFound();
    RouterSuccess(c, parse, order, Plus, 2.0, 3.0);
  }

  lemma AddCaptures()
    ensures ValidCaptures(Captures("plus", "2", "3"))
  {
    TwoAccepted();
    ThreeAccepted();
    ExampleNames();
  }

  lemma AddCapturesPath()
    ensures RoutePath(Captures("plus", "2", "3")) == "/plus/2/3"
  {
  }

  /** `/Plus/-1/1`: the name is matched whatever its case. */
  lemma CapitalisedName(parse: Parser, order: seq<string>)
    requires IsKeyOrder(order)
    requires parse("-1") == Some(-1.0) && parse("1") == Some(1.0)
    ensures Router("/Plus/-1/1", parse, order) == HttpResponse(Ok200, OpBody(OpResponse(0, Finite(0.0))))
  {
    var c := Captures("Plus", "-1", "1");
    CapitalCaptures();
    CapitalCapturesPath();
    CapitalPlusLowered();
    RouterSuccess(c, parse, order, Plus, -1.0, 1.0);
  }

  lemma CapitalCaptures()
    ensures ValidCaptures(Captures("Plus", "-1", "1"))
  {
    MinusOneAccepted();
    OneAccepted();
    ExampleNames();
  }

  lemma MinusOneAccepted()
    ensures IsNumberToken("-1")
  {
    TokenOf(NumberLit(true, "1", None, None), "-1");
  }

  lemma CapitalCapturesPath()
    ensures RoutePath(Captures("Plus", "-1", "1")) == "/Plus/-1/1"
  {
  }

  /** `/foo/1/2`: 405 and the list of names. */
  lemma UnknownName(parse: Parser, order: seq<string>)
    requires IsKeyOrder(order)
    ensures Router("/foo/1/2", parse, order) == CreateError(MethodErrorMessage(order), MethodNotAllowed)
  {
    var c := Captures("foo", "1", "2");
    FooCaptures();
    FooCapturesPath();
    FooUnknown();
    RouterUnknownMethod(c, parse, parse, order);
  }

  lemma FooCapturesPath()
    ensures RoutePath(Captures("foo", "1", "2")) == "/foo/1/2"
  {
  }

  lemma FooCaptures()
    ensures ValidCaptures(Captures("foo", "1", "2"))
  {
    OneAccepted();
    TwoAccepted();
    ExampleNames();
  }

  /** The names the examples use, as the table sees them. */
  lemma FooUnknown()
    ensures CheckMethod("foo").None?
  {
    assert Lower("foo") == "foo";
  }

  lemma PlusFound()
    ensures CheckMethod("plus") == Some(Plus) && Lower("plus") == "plus"
  {
    assert Lower("plus") == "plus";
  }

  lemma CapitalPlusLowered()
    ensures Lower("Plus") == "plus"
  {
    assert Lower("Plus") == [LowerChar('P')] + Lower("lus");
  }

  lemma DivLowered()
    ensures Lower("div") == "div"
  {
  }

  /** `/plus/2e9/1`: the first operand is above the bound. */
  lemma FirstOperandTooLarge(parse: Parser, order: seq<string>)
    requires IsKeyOrder(order)
    requires parse("2e9") == Some(2000000000.0)
    ensures Router("/plus/2e9/1", parse, order)
              == CreateError(FirstPrefix + ErrorText(TooLarge), MethodNotAllowed)
  {
    var c := Captures("plus", "2e9", "1");
    TooLargeCaptures();
    TooLargeCapturesPath();
    PlusFound();
    assert CheckNumber(parse, "2e9") == Err(TooLarge) by {
      assert parse("2e9").value > Limit;
    }
    RouterFirstArgument(c, parse, order, TooLarge);
  }

  lemma TooLargeCapturesPath()
    ensures RoutePath(Captures("plus", "2e9", "1")) == "/plus/2e9/1"
  {
  }

  lemma TooLargeCaptures()
    ensures ValidCaptures(Captures("plus", "2e9", "1"))
  {
    TwoBillionAccepted();
    OneAccepted();
    ExampleNames();
  }

  /** `/div/10/0`: division by zero has no finite result. */
  lemma DivideByZero(parse: Parser, order: seq<string>)
    requires IsKeyOrder(order)
    requires parse("10") == Some(10.0) && parse("0") == Some(0.0)
    ensures Router("/div/10/0", parse, order) == HttpResponse(Ok200, OpBody(OpResponse(0, NonFinite)))
  {
    var c := Captures("div", "10", "0");
    DivCaptures();
    DivCapturesPath();
    DivLowered();
    assert Apply(Div, 10.0, 0.0) == NonFinite;
    RouterSuccess(c, parse, order, Div, 10.0, 0.0);
  }

  lemma DivCapturesPath()
    ensures RoutePath(Captures("div", "10", "0")) == "/div/10/0"
  {
  }

  lemma DivCaptures()
    ensures ValidCaptures(Captures("div", "10", "0"))
  {
    TenAccepted();
    ZeroAccepted();
    ExampleNames();
  }
}
