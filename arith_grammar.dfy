/**
  The older, arithmetic-only parser of src/parser/parser.rs as functions of
  the token list and the cursor, with its own tree and operator types.

  Two tiers: `addsub` joins products with `+` and `-`, `muldiv` joins primaries
  with `*` and `/`, and a primary is a Number only. Its `unary` is never called
  from `parse`; it is modelled all the same. The cursor primitives
  (`next_token`, `matches`) behave as `advance` and `matches` of mod.rs, so the
  Grammar versions are reused.
*/
module ArithGrammar {
  import opened Wrappers
  import Ast
  import opened Tokens
  import opened Grammar

  datatype Operator = Mult | Div | Sub | Add

  datatype Node =
    | Binary(op: Operator, left: Node, right: Node)
    | Unary(op: Operator, operand: Node)
    | Value(number: nat)

  /**
    `Token::operator` yields the operator type of mod.rs; this parser's tree
    holds its own. The two share the arithmetic names, and this is the
    conversion by name.
  */
  function ToArith(op: Ast.Operator): (r: Option<Operator>)
    ensures r.Some? <==> op in {Ast.Mult, Ast.Div, Ast.Sub, Ast.Add}
  {
    match op
    case Mult => Some(Mult)
    case Div => Some(Div)
    case Sub => Some(Sub)
    case Add => Some(Add)
    case _ => None
  }

  /** The mod.rs operator of the same name. */
  function FromArith(op: Operator): (r: Ast.Operator)
    ensures ToArith(r) == Some(op)
  {
    match op
    case Mult => Ast.Mult
    case Div => Ast.Div
    case Sub => Ast.Sub
    case Add => Ast.Add
  }

  /** `previous_token().operator()`, read as this parser's operator. */
  function ArithOf(t: Token): (r: Option<Operator>)
    ensures r.Some? <==> t in {ForwardSlash, Asterisk, Plus, Hyphen}
  {
    match OperatorOf(t)
    case None => None
    case Some(op) => ToArith(op)
  }

  const MulDivPattern: set<Token> := {Asterisk, ForwardSlash}
  const AddSubPattern: set<Token> := {Plus, Hyphen}

  /** `primary`: the token `next_token` returns must be a Number. */
  function PrimaryAt(toks: seq<Token>, p: nat): (r: Result<Parsed<Node>, ParseError>)
    requires p <= |toks|
    ensures r.Ok? ==> p <= r.value.next <= |toks| && r.value.result.Value?
  {
    match AdvanceAt(toks, p)
    case Err(e) => Err(e)
    case Ok(Parsed(t, q)) =>
      if t.Number? then Ok(Parsed(Value(t.value), q)) else Err(NotAPrimary(t))
  }

  /** `unary`: an optional `-` in front of one primary (no caller in the source). */
  function UnaryAt(toks: seq<Token>, p: nat): (r: Result<Parsed<Node>, ParseError>)
    requires p <= |toks|
    ensures r.Ok? ==> p <= r.value.next <= |toks|
  {
    if MatchesAt(toks, p, {Hyphen}) then
      match PrimaryAt(toks, p + 1)
      case Err(e) => Err(e)
      case Ok(Parsed(right, q)) => Ok(Parsed(Unary(ArithOf(toks[p]).value, right), q))
    else
      PrimaryAt(toks, p)
  }

  /** The loop of `muldiv` from cursor p with the product built so far. */
  function MulDivLoop(toks: seq<Token>, acc: Node, p: nat): (r: Result<Parsed<Node>, ParseError>)
    requires p <= |toks|
    ensures r.Ok? ==> p <= r.value.next <= |toks|
    decreases |toks| - p
  {
    if MatchesAt(toks, p, MulDivPattern) then
      match PrimaryAt(toks, p + 1)
      case Err(e) => Err(e)
      case Ok(Parsed(right, q)) => MulDivLoop(toks, Binary(ArithOf(toks[p]).value, acc, right), q)
    else
      Ok(Parsed(acc, p))
  }

  /** `muldiv`: one primary, then the loop. */
  function MulDivAt(toks: seq<Token>, p: nat): (r: Result<Parsed<Node>, ParseError>)
    requires p <= |toks|
    ensures r.Ok? ==> p <= r.value.next <= |toks|
  {
    match PrimaryAt(toks, p)
    case Err(e) => Err(e)
    case Ok(Parsed(node, q)) => MulDivLoop(toks, node, q)
  }

  /** The loop of `addsub` from cursor p with the sum built so far. */
  function AddSubLoop(toks: seq<Token>, acc: Node, p: nat): (r: Result<Parsed<Node>, ParseError>)
    requires p <= |toks|
    ensures r.Ok? ==> p <= r.value.next <= |toks|
    decreases |toks| - p
  {
    if MatchesAt(toks, p, AddSubPattern) then
      match MulDivAt(toks, p + 1)
      case Err(e) => Err(e)
      case Ok(Parsed(right, q)) => AddSubLoop(toks, Binary(ArithOf(toks[p]).value, acc, right), q)
    else
      Ok(Parsed(acc, p))
  }

  /** `addsub`, which is also what `parse` does: one product, then the loop. */
  function AddSubAt(toks: seq<Token>, p: nat): (r: Result<Parsed<Node>, ParseError>)
    requires p <= |toks|
    ensures r.Ok? ==> p <= r.value.next <= |toks|
  {
    match MulDivAt(toks, p)
    case Err(e) => Err(e)
    case Ok(Parsed(node, q)) => AddSubLoop(toks, node, q)
  }
}
