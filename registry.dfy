/** `METHODS_MAP` and `check_method`: the fixed table from lower-case
    operation names to operations, consulted after lower-casing the name
    taken from the path. */
module Registry {
  import opened Wrappers
  import opened Operations

  /** The name each operation is registered under. */
  function OpName(op: OpType): string {
    match op
    case Plus => "plus"
    case Minus => "minus"
    case Div => "div"
    case Mul => "mul"
  }

  /** The table, built once with four insertions, one per operation under
      its name. */
  const MethodsMap: map<string, OpType> :=
    map[OpName(Plus) := Plus, OpName(Minus) := Minus, OpName(Div) := Div, OpName(Mul) := Mul]

  /** The table's keys, in the order they are inserted. The order in which
      the table hands its keys out is any arrangement of these. */
  const MethodNames: seq<string> := [OpName(Plus), OpName(Minus), OpName(Div), OpName(Mul)]

  /** The table holds exactly one entry per operation, under its name. */
  lemma MethodsMapByName()
    ensures MethodsMap.Keys == set op: OpType :: OpName(op)
    ensures forall op: OpType :: MethodsMap[OpName(op)] == op
    ensures MethodsMap.Keys == set k | k in MethodNames
  {
    assert OpName(Plus) in MethodsMap.Keys && OpName(Minus) in MethodsMap.Keys;
    assert OpName(Div) in MethodsMap.Keys && OpName(Mul) in MethodsMap.Keys;
  }

  /** ASCII lower-casing of one character. */
  function LowerChar(c: char): (d: char)
    ensures !('A' <= d <= 'Z')
    ensures 'A' <= c <= 'Z' ==> d as int == c as int + 32
    ensures !('A' <= c <= 'Z') ==> d == c
  {
    if 'A' <= c <= 'Z' then (c as int + 32) as char else c
  }

  /** ASCII lower-casing of a string. */
  function Lower(s: string): (r: string)
    ensures |r| == |s|
    ensures forall i | 0 <= i < |s| :: r[i] == LowerChar(s[i])
  {
    if s == [] then [] else [LowerChar(s[0])] + Lower(s[1..])
  }

  /** Lower-casing twice changes nothing more. */
  lemma LowerIdempotent(s: string)
    ensures Lower(Lower(s)) == Lower(s)
  {
  }

  /** `check_method`: the operation registered under the lower-cased name,
      if any. It answers for exactly the names that lower-case to one of
      the four, and gives the operation registered under that name. */
  function CheckMethod(name: string): (r: Option<OpType>)
    ensures forall op: OpType :: r == Some(op) <==> Lower(name) == OpName(op)
    ensures r.None? <==> Lower(name) !in MethodNames
  {
    var clean := Lower(name);
    if clean in MethodsMap then Some(MethodsMap[clean]) else None
  }

  /** Case does not matter to the lookup. */
  lemma CheckMethodIgnoresCase(name: string)
    ensures CheckMethod(Lower(name)) == CheckMethod(name)
  {
    LowerIdempotent(name);
  }
}
