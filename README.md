# calc_rest_server, modelled in Dafny

`calc_rest_server` is a small HTTP calculator. A request path of the form
`/<operation>/<first>/<second>` names one of four operations (`plus`,
`minus`, `div`, `mul`, in any letter case) and two JSON numbers. The server
answers with a JSON record: `{"status": 0, "result": ...}` with HTTP 200 on
success, or `{"status": -1, "error_message": ..., "error_code": ...}` with
HTTP 404 (the path does not have the right shape) or 405 (unknown
operation, or an operand that does not parse or lies outside
[-1e9, 1e9]).

The model covers the request handler `router` and everything it calls:

- `route_grammar.dfy` (module `RouteGrammar`): the anchored regular
  expression of the router, written out as a recogniser. A number token is
  described by a `NumberLit` (sign, integer part, optional fraction,
  optional exponent) and `Render` spells one out; `ScanNumber` reads a
  token back and the two are proved inverse. `MatchPath` splits a path at
  its slashes and checks the three segments; it is proved to accept
  exactly the paths `RoutePath(c)` of valid captures `c`.
- `registry.dfy` (module `Registry`): the table of operation names and
  `check_method`, a case-insensitive lookup.
- `operands.dfy` (module `Operands`): `check_number`, which parses an
  operand and applies the two bounds.
- `operations.dfy` (module `Operations`): `OpType::compute`.
- `responses.dfy` (module `Responses`): the two response records and their
  constructors.
- `server.dfy` (module `Server`): `router`, its outcomes, which error wins
  when several stages would fail, and the text of the unknown-method
  message.
- `worked_requests.dfy` (module `WorkedRequests`): concrete tokens and
  requests, with the outcome of each proved from the general lemmas.
- `wrappers.dfy` (module `Wrappers`): `Option` and `Result`.

Two things the handler depends on are inputs of the model rather than
parts of it, and one is an abstraction:

- `parse: Parser` is an input. It stands for parsing a token as a JSON
  number into an `f32`, a library call that returns a value or `None`. A
  value beyond the `f32` range but inside the `f64` range becomes an
  infinity in the source; any real beyond the bound stands for it here,
  since it fails the same check. A token beyond the `f64` range (such as
  `1e309`) is refused by the library, which is `None` here and gives the
  "Invalid number format" message.
- `order: seq<string>` is an input: the order in which the hash map hands
  out its keys. It is fixed per process but not specified, so the model
  takes any arrangement of the four names (`IsKeyOrder`).
- Results are an abstraction: exact reals wrapped in `Float`. `NonFinite`
  stands for an infinity or NaN, which the JSON writer prints as `null`.

## Model

| member | source | states |
|---|---|---|
| RouteGrammar.ScanNumber | src/main.rs:125 | every token the number pattern accepts is the spelling of a well-formed literal: optional `-`, `0` or digits without a leading zero, optional `.` and digits, optional `e`/`E`, sign and digits |
| RouteGrammar.ScanNumberComplete | src/main.rs:125 | every well-formed literal is accepted and read back as exactly that literal |
| RouteGrammar.NumberTokenIsRendering | src/main.rs:125 | a token is accepted if and only if it is the spelling of some well-formed literal |
| RouteGrammar.TokenStart | src/main.rs:125 | an accepted token is non-empty and starts with `-` or a digit, never `+` |
| RouteGrammar.NoLeadingZero | src/main.rs:125 | in an accepted token, a `0` that starts the integer part is not followed by another digit |
| RouteGrammar.PointFollowedByDigit | src/main.rs:125 | in an accepted token every `.` is followed by a digit |
| RouteGrammar.ExponentFollowedByDigit | src/main.rs:125 | in an accepted token every `e`/`E` is followed by a digit, or by a sign and then a digit |
| RouteGrammar.TokenHasNoSlash | src/main.rs:125 | an accepted token contains no `/` |
| RouteGrammar.MatchPath | src/main.rs:125-128 | a matched path is `/name/first/second` with its three captures: the name is one or more ASCII letters and both operands are number tokens |
| RouteGrammar.MatchPathComplete | src/main.rs:125-128 | every path built from a letter name and two number tokens is matched, with exactly those captures |
| RouteGrammar.MatchPathExactly | src/main.rs:125-128 | `MatchPath(path) == Some(c)` if and only if `c` is valid and `path` is its route path |
| RouteGrammar.SlashPositions | src/main.rs:125 | a matched path has slashes only at the start and just before each of the two operands |
| RouteGrammar.EmptySegmentUnmatched | src/main.rs:125 | a path with two adjacent slashes is not matched |
| RouteGrammar.TrailingSlashUnmatched | src/main.rs:125 | a path that ends in a slash is not matched |
| RouteGrammar.MatchedPathHasThreeSlashes | src/main.rs:125 | a matched path has exactly three slashes, so a missing or extra segment is refused |
| Registry.MethodsMapByName | src/main.rs:92-103 | the table holds exactly the four names, each mapped to its own operation |
| Registry.Lower | src/main.rs:106 | lower-casing keeps the length, maps each capital to its small letter and leaves every other character alone |
| Registry.LowerIdempotent | src/main.rs:106 | lower-casing twice gives the same as lower-casing once |
| Registry.CheckMethod | src/main.rs:105-109 | the answer is `op` exactly when the lower-cased name is `op`'s name, and none exactly when the lower-cased name is not one of the four |
| Registry.CheckMethodIgnoresCase | src/main.rs:105-109 | looking up a name and its lower-cased form give the same answer |
| Operands.CheckNumber | src/main.rs:111-121 | the token is accepted exactly when it parses to a value in [-1e9, 1e9], and the value is returned unchanged; it is refused as badly formatted exactly when it does not parse, as too small exactly below -1e9, and as too large exactly above 1e9 |
| Operands.ErrorTextsDiffer | src/main.rs:112-117 | the three operand messages are pairwise different |
| Operations.Apply | src/main.rs:35-40 | plus, minus and mul are undone by the opposite operation; div by a non-zero divisor is undone by multiplying; div by zero is the only non-finite result |
| Operations.Compute | src/main.rs:31-44 | the answer is HTTP 200 with a result record of status 0 holding the operation's result |
| Responses.CreateError | src/main.rs:60-71 | the HTTP status is the given code; the record has status -1, the given message and the code repeated as error code |
| Responses.CreateOp | src/main.rs:81-88 | a result record with status 0 and the given result, which travels with HTTP 200 |
| Server.Router | src/main.rs:123-148 | every answer keeps the record shape; its status is 200, 404 or 405; it is 404 exactly when the path does not match, and the message is then "Invalid url" |
| Server.Dispatch | src/main.rs:131-142 | after a match the status is 200 or 405, and 200 exactly when the name is registered and both operands pass |
| Server.RouterOutcomes | src/main.rs:123-148 | 200 exactly when the path matches, the name is registered and both operands pass; 405 exactly when the path matches and one of those checks fails |
| Server.RouterUnknownMethod | src/main.rs:132-141 | for a matched path with an unregistered name the answer is 405 with the list of names, whatever the operands and the parser |
| Server.RouterFirstArgument | src/main.rs:134-137 | for a registered name, a failing first operand gives 405 "Invalid first argument: " and its reason, whatever the second operand is |
| Server.RouterSecondArgument | src/main.rs:134-138 | for a registered name and a passing first operand, a failing second operand gives 405 "Invalid second argument: " and its reason |
| Server.RouterSuccess | src/main.rs:132-136 | a registered name in any case with two passing operands gives 200 and the operation applied to the parsed values |
| Server.DispatchErrorStages | src/main.rs:132-141 | after a match, each failing stage yields its own error response: the method error first, then the first operand, then the second |
| Server.DispatchSecondBlame | src/main.rs:134-138 | after a match, a second-argument error means the name was registered and the first operand passed |
| Server.SecondArgumentBlamedOnlyAfterFirst | src/main.rs:128-145 | any answer that blames the second argument came from a matched path, a registered name and a first operand that passed |
| Server.QuotedListContains | src/main.rs:141 | each name of a list appears, in double quotes, in the debug listing of the list |
| Server.MethodErrorListsEveryName | src/main.rs:141 | the unknown-method message starts with "Invalid method. Possible methods: " and names all four operations, each in double quotes, whatever the key order |
| WorkedRequests.MinusZeroAccepted | src/main.rs:125 | `-0` is a number token |
| WorkedRequests.FractionAccepted | src/main.rs:125 | `0.5` is a number token |
| WorkedRequests.ExponentAccepted | src/main.rs:125 | `1e9` is a number token |
| WorkedRequests.SignedExponentAccepted | src/main.rs:125 | `2E-3` is a number token |
| WorkedRequests.PlusSignRejected | src/main.rs:125 | `+1` is not a number token |
| WorkedRequests.LeadingZeroRejected | src/main.rs:125 | `01` is not a number token |
| WorkedRequests.BarePointRejected | src/main.rs:125 | `1.` is not a number token |
| WorkedRequests.BareExponentRejected | src/main.rs:125 | `1e` is not a number token |
| WorkedRequests.MissingSegmentUnmatched | src/main.rs:125-128 | `/plus/1` is not matched |
| WorkedRequests.ExtraSegmentUnmatched | src/main.rs:125-128 | `/plus/1/2/3` is not matched |
| WorkedRequests.TrailingSlashExample | src/main.rs:125-128 | `/plus/1/2/` is not matched |
| WorkedRequests.AddTwoAndThree | src/main.rs:123-136 | `/plus/2/3` answers 200 with result 5 |
| WorkedRequests.CapitalisedName | src/main.rs:105-136 | `/Plus/-1/1` answers 200 with result 0 |
| WorkedRequests.UnknownName | src/main.rs:141 | `/foo/1/2` answers 405 with the list of names |
| WorkedRequests.FirstOperandTooLarge | src/main.rs:116-137 | `/plus/2e9/1` answers 405 with "Invalid first argument: Number should not be greater than 1e9" |
| WorkedRequests.DivideByZero | src/main.rs:31-41 | `/div/10/0` answers 200 with a non-finite result |

## Left out

- `main` (src/main.rs:150-163) binds a socket and runs the hyper server. That is I/O. The model starts from the request path, which is all `router` reads.
- The `debug!` log line in `OpType::compute` (src/main.rs:32) has no effect on the answer.
- `lazy_static` builds the table and the regular expression once. The model uses a constant and a function instead.
- The JSON text of a body (`IntoJson`, serde_json) is not modelled. A body is the record it serialises, so field order and number formatting are not captured.
- Operands.CheckNumber: parsing a token as a JSON number into an `f32` is the input `parse`, so rounding to `f32` is not modelled. For example, `1000000001` rounds to 1e9 and passes in the source.
- Operations.Apply: computes on exact reals, not `f32`. It does not capture rounding, a finite quotient that overflows to infinity (a large number divided by a tiny one), the difference between infinity and NaN, or the sign of zero.
- RouteGrammar.MatchPath: reads `\d` as the ASCII digits. The source's regex engine reads `\d` as any Unicode decimal digit. A path whose operand holds a non-ASCII digit would be matched by the source and then fail the number parse (405). The model answers 404. Clients percent-encode non-ASCII characters, so such a path does not normally arrive.
- Registry.Lower: lower-cases ASCII only. The source lower-cases Unicode, but the pattern lets through only ASCII letters as a name, so the two agree on every name that reaches the lookup.
- Server.Router: the order of names in the unknown-method message is the input `order`. The model proves which names appear, not the order the hash map happens to produce.
- Responses.CreateError: requires a code from 100 to 999. The HTTP builder refuses any other code, and the source then panics. The server only passes 404 and 405.
