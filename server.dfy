/** `router`, the request handler: match the path, look up the operation,
    check both operands (first, then second), compute. Each failure ends
    the request with an error response; the lemmas below pin down which
    error wins and what each outcome looks like. */
module Server {
  import opened Wrappers
  import opened RouteGrammar
  import opened Responses
  import opened Operations
  import opened Registry
  import opened Operands

  const NotFound: int := 404
  const MethodNotAllowed: int := 405

  const InvalidUrl: string := "Invalid url"
  const MethodPrefix: string := "Invalid method. Possible methods: "
  const FirstPrefix: string := "Invalid first argument: "
  const SecondPrefix: string := "Invalid second argument: "

  /** The order in which the table hands out its keys. The source's table
      is a hash map whose order is fixed per process but not specified, so
      the order is an input: any arrangement of the four names. */
  predicate IsKeyOrder(order: seq<string>) {
    multiset(order) == multiset(MethodNames)
  }

  function Quote(s: string): string {
    "\"" + s + "\""
  }

  /** The names, each in double quotes, separated by `, `. */
  function QuotedList(names: seq<string>): string {
    if names == [] then ""
    else if |names| == 1 then Quote(names[0])
    else Quote(names[0]) + ", " + QuotedList(names[1..])
  }

  /** The debug listing of the table's keys: `["plus", "div", ...]`. */
  function KeyListing(order: seq<string>): string {
    "[" + QuotedList(order) + "]"
  }

  function MethodErrorMessage(order: seq<string>): string {
    MethodPrefix + KeyListing(order)
  }

  /** `router`. Its answer always has the shape of `WellShaped`, with one
      of three statuses, and it is 404, reading "Invalid url", exactly when
      the path does not match. */
  function Router(path: string, parse: Parser, order: seq<string>): (resp: HttpResponse)
    requires IsKeyOrder(order)
    ensures WellShaped(resp)
    ensures resp.httpStatus == Ok200 || resp.httpStatus == NotFound || resp.httpStatus == MethodNotAllowed
    ensures resp.httpStatus == NotFound <==> MatchPath(path).None?
    ensures resp.httpStatus == NotFound ==> resp.body.error.errorMessage == InvalidUrl
  {
    match MatchPath(path)
    case None => CreateError(InvalidUrl, NotFound)
    case Some(args) => Dispatch(args, parse, order)
  }

  /** What `router` does once the path has matched: look up the operation,
      check the first operand, then the second, then compute. Every answer
      is 200 or 405. */
  function Dispatch(args: Captures, parse: Parser, order: seq<string>): (resp: HttpResponse)
    requires IsKeyOrder(order)
    ensures WellShaped(resp)
    ensures resp.httpStatus == Ok200 || resp.httpStatus == MethodNotAllowed
    ensures resp.httpStatus == Ok200 <==>
              && CheckMethod(args.name).Some?
              && CheckNumber(parse, args.first).Ok?
              && CheckNumber(parse, args.second).Ok?
  {
    match CheckMethod(args.name)
    case None => CreateError(MethodErrorMessage(order), MethodNotAllowed)
    case Some(op) =>
      match (CheckNumber(parse, args.first), CheckNumber(parse, args.second))
      case (Ok(a), Ok(b)) => Compute(op, a, b)
      case (Err(e), _) => CreateError(FirstPrefix + ErrorText(e), MethodNotAllowed)
      case (_, Err(e)) => CreateError(SecondPrefix + ErrorText(e), MethodNotAllowed)
  }

  /** The three outcomes of `router`: 200 exactly when the path matches,
      the name is registered and both operands pass their checks; 404
      exactly when the path does not match; 405 in every other case. */
  lemma RouterOutcomes(path: string, parse: Parser, order: seq<string>)
    requires IsKeyOrder(order)
    ensures var status := Router(path, parse, order).httpStatus;
            status == Ok200 <==>
              && MatchPath(path).Some?
              && CheckMethod(MatchPath(path).value.name).Some?
              && CheckNumber(parse, MatchPath(path).value.first).Ok?
              && CheckNumber(parse, MatchPath(path).value.second).Ok?
    ensures var status := Router(path, parse, order).httpStatus;
            status == MethodNotAllowed <==>
              && MatchPath(path).Some?
              && (|| CheckMethod(MatchPath(path).value.name).None?
                  || CheckNumber(parse, MatchPath(path).value.first).Err?
                  || CheckNumber(parse, MatchPath(path).value.second).Err?)
  {
    if MatchPath(path).Some? {
      assert Router(path, parse, order) == Dispatch(MatchPath(path).value, parse, order);
    }
  }

  /** A path of the right shape whose name is no registered operation is
      refused with 405 and the list of names, before either operand is
      looked at: the parser makes no difference. */
  lemma RouterUnknownMethod(c: Captures, parse: Parser, other: Parser, order: seq<string>)
    requires IsKeyOrder(order) && ValidCaptures(c)
    requires CheckMethod(c.name).None?
    ensures Router(RoutePath(c), parse, order) == CreateError(MethodErrorMessage(order), MethodNotAllowed)
    ensures Router(RoutePath(c), parse, order) == Router(RoutePath(c), other, order)
  {
    MatchPathComplete(c);
  }

  /** A first operand that fails its check decides the answer, whatever
      the second operand is. */
  lemma RouterFirstArgument(c: Captures, parse: Parser, order: seq<string>, e: OperandError)
    requires IsKeyOrder(order) && ValidCaptures(c)
    requires CheckMethod(c.name).Some?
    requires CheckNumber(parse, c.first) == Err(e)
    ensures Router(RoutePath(c), parse, order) == CreateError(FirstPrefix + ErrorText(e), MethodNotAllowed)
  {
    MatchPathComplete(c);
  }

  /** The second operand is blamed when the first one passes. */
  lemma RouterSecondArgument(c: Captures, parse: Parser, order: seq<string>, e: OperandError)
    requires IsKeyOrder(order) && ValidCaptures(c)
    requires CheckMethod(c.name).Some?
    requires CheckNumber(parse, c.first).Ok?
    requires CheckNumber(parse, c.second) == Err(e)
    ensures Router(RoutePath(c), parse, order) == CreateError(SecondPrefix + ErrorText(e), MethodNotAllowed)
  {
    MatchPathComplete(c);
  }

  /** A path of the right shape, with a registered name in any case and
      two operands that parse within the bounds, gets HTTP 200 and the
      result of the operation on the parsed values. */
  lemma RouterSuccess(c: Captures, parse: Parser, order: seq<string>, op: OpType, a: real, b: real)
    requires IsKeyOrder(order) && ValidCaptures(c)
    requires Lower(c.name) == OpName(op)
    requires parse(c.first) == Some(a) && InRange(a)
    requires parse(c.second) == Some(b) && InRange(b)
    ensures Router(RoutePath(c), parse, order) == HttpResponse(Ok200, OpBody(OpResponse(0, Apply(op, a, b))))
  {
    MatchPathComplete(c);
  }

  predicate HasPrefix(s: string, prefix: string) {
    |prefix| <= |s| && s[..|prefix|] == prefix
  }

  /** `sub` stands in `s` at index `i`. */
  predicate OccursAt(s: string, sub: string, i: int) {
    0 <= i && i + |sub| <= |s| && s[i..i + |sub|] == sub
  }

  ghost predicate Contains(s: string, sub: string) {
    exists i :: OccursAt(s, sub, i)
  }

  /** Two prefixes that differ at some index cannot both start a string. */
  lemma PrefixesExclude(s: string, p: string, q: string, k: int)
    requires HasPrefix(s, p) && 0 <= k < |p| && k < |q| && p[k] != q[k]
    ensures !HasPrefix(s, q)
  {
    assert s[k] == p[k];
  }

  /** What the error message of each failing stage after the match
      says, stage by stage. */
  lemma DispatchErrorStages(args: Captures, parse: Parser, order: seq<string>)
    requires IsKeyOrder(order)
    ensures CheckMethod(args.name).None? ==>
              Dispatch(args, parse, order) == CreateError(MethodErrorMessage(order), MethodNotAllowed)
    ensures CheckMethod(args.name).Some? && CheckNumber(parse, args.first).Err? ==>
              Dispatch(args, parse, order)
                == CreateError(FirstPrefix + ErrorText(CheckNumber(parse, args.first).error), MethodNotAllowed)
    ensures CheckMethod(args.name).Some? && CheckNumber(parse, args.first).Ok? && CheckNumber(parse, args.second).Err? ==>
              Dispatch(args, parse, order)
                == CreateError(SecondPrefix + ErrorText(CheckNumber(parse, args.second).error), MethodNotAllowed)
  {
  }

  /** After the match, "Invalid second argument" is only ever reported
      for a registered operation whose first operand passed its check. */
  lemma DispatchSecondBlame(args: Captures, parse: Parser, order: seq<string>)
    requires IsKeyOrder(order)
    requires Dispatch(args, parse, order).body.ErrorBody?
    requires HasPrefix(Dispatch(args, parse, order).body.error.errorMessage, SecondPrefix)
    ensures CheckMethod(args.name).Some?
    ensures CheckNumber(parse, args.first).Ok?
  {
    DispatchErrorStages(args, parse, order);
    var m := Dispatch(args, parse, order).body.error.errorMessage;
    if CheckMethod(args.name).None? {
      assert HasPrefix(m, MethodPrefix);
      PrefixesExclude(m, MethodPrefix, SecondPrefix, 8);
    } else if CheckNumber(parse, args.first).Err? {
      assert HasPrefix(m, FirstPrefix);
      PrefixesExclude(m, FirstPrefix, SecondPrefix, 8);
    }
  }

  /** "Invalid second argument" is only ever reported for a matched path
      with a registered operation whose first operand passed its check. */
  lemma SecondArgumentBlamedOnlyAfterFirst(path: string, parse: Parser, order: seq<string>)
    requires IsKeyOrder(order)
    requires Router(path, parse, order).body.ErrorBody?
    requires HasPrefix(Router(path, parse, order).body.error.errorMessage, SecondPrefix)
    ensures MatchPath(path).Some?
    ensures CheckMethod(MatchPath(path).value.name).Some?
    ensures CheckNumber(parse, MatchPath(path).value.first).Ok?
  {
    if MatchPath(path).Some? {
      DispatchSecondBlame(MatchPath(path).value, parse, order);
    }
  }

  /** An occurrence stays one when text is put before or after it. */
  lemma OccursInFront(front: string, s: string, sub: string, i: int)
    requires OccursAt(s, sub, i)
    ensures OccursAt(front + s, sub, |front| + i)
  {
    var t := front + s;
    assert t[|front| + i..|front| + i + |sub|] == s[i..i + |sub|];
  }

  lemma OccursBehind(s: string, back: string, sub: string, i: int)
    requires OccursAt(s, sub, i)
    ensures OccursAt(s + back, sub, i)
  {
    var t := s + back;
    assert t[i..i + |sub|] == s[i..i + |sub|];
  }

  /** Each name of the list appears, quoted, in its listing. */
  lemma {:induction false} QuotedListContains(names: seq<string>, k: int)
    requires 0 <= k < |names|
    ensures Contains(QuotedList(names), Quote(names[k]))
  {
    var q := Quote(names[k]);
    if |names| == 1 {
      assert OccursAt(QuotedList(names), q, 0);
    } else if k == 0 {
      assert OccursAt(q, q, 0);
      OccursBehind(q, ", " + QuotedList(names[1..]), q, 0);
      assert QuotedList(names) == q + (", " + QuotedList(names[1..]));
    } else {
      QuotedListContains(names[1..], k - 1);
      assert names[1..][k - 1] == names[k];
      var rest := QuotedList(names[1..]);
      var i :| OccursAt(rest, q, i);
      OccursInFront(Quote(names[0]) + ", ", rest, q, i);
    }
  }

  /** The method error lists every registered name, in double quotes. */
  lemma MethodErrorListsEveryName(order: seq<string>, op: OpType)
    requires IsKeyOrder(order)
    ensures HasPrefix(MethodErrorMessage(order), MethodPrefix)
    ensures Contains(MethodErrorMessage(order), Quote(OpName(op)))
  {
    var k := NamePosition(order, op);
    QuotedListContains(order, k);
    ListingContains(order, Quote(order[k]));
    var m := MethodErrorMessage(order);
    assert m[..|MethodPrefix|] == MethodPrefix;
  }

  /** Where a name stands in an order of the table's keys. */
  lemma NamePosition(order: seq<string>, op: OpType) returns (k: int)
    requires IsKeyOrder(order)
    ensures 0 <= k < |order| && order[k] == OpName(op)
  {
    assert OpName(op) in multiset(MethodNames);
    assert OpName(op) in order;
    k :| 0 <= k < |order| && order[k] == OpName(op);
  }

  lemma ListingContains(order: seq<string>, q: string)
    requires Contains(QuotedList(order), q)
    ensures Contains(MethodErrorMessage(order), q)
  {
    var list := QuotedList(order);
    var i :| OccursAt(list, q, i);
    OccursInFront("[", list, q, i);
    OccursBehind("[" + list, "]", q, 1 + i);
    OccursInFront(MethodPrefix, "[" + list + "]", q, 1 + i);
  }
}
