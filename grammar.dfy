/**
  The recursive-descent parser of src/parser/mod.rs as functions of the token
  list and the cursor position. Each function returns what the corresponding
  `Parser` method builds together with the cursor position after it, or the
  error the source would panic with.

  The four binary tiers (`conditional`, `compare`, `term`, `factor`) share one
  shape, so they are one pair of functions indexed by `Tier`; `Parser` in
  parser.dfy keeps one method per tier, as the source does.
*/
module Grammar {
  import opened Wrappers
  import opened Ast
  import opened Tokens

  datatype ParseError =
    | NoPreviousToken           // `previous` with the cursor at 0: the token list is empty
    | NoTokenAt(index: nat)     // `peek_token` past the end of the token list
    | NotAName(found: Token)    // `declare_var`: the token after `var` is not a Literal
    | NotAPrimary(found: Token) // `primary`: the `unreachable!()` arm

  /** A parsed value and the cursor position after it. */
  datatype Parsed<T> = Parsed(result: T, next: nat)

  /**
    A parser method's outcome and its cursor afterwards agree with the result
    of the function that specifies it.
  */
  predicate Agrees<T(==)>(r: Result<T, ParseError>, counter: nat, spec: Result<Parsed<T>, ParseError>) {
    match spec
    case Ok(Parsed(v, q)) => r == Ok(v) && counter == q
    case Err(e) => r == Err(e)
  }

  /** The binary tiers, loosest first: conditional, compare, term, factor. */
  datatype Tier = EqualityTier | ComparisonTier | TermTier | FactorTier

  function Rank(tier: Tier): nat {
    match tier
    case EqualityTier => 3
    case ComparisonTier => 2
    case TermTier => 1
    case FactorTier => 0
  }

  /** The tier whose result is the operand of `tier`'s operators. */
  function Below(tier: Tier): (b: Tier)
    requires tier != FactorTier
    ensures Rank(b) + 1 == Rank(tier)
  {
    match tier
    case EqualityTier => ComparisonTier
    case ComparisonTier => TermTier
    case TermTier => FactorTier
  }

  /** The tokens each tier's loop matches. */
  function Pattern(tier: Tier): set<Token> {
    match tier
    case EqualityTier => {Token.NotEquals, Token.EqualsEquals}
    case ComparisonTier => {Gre, GreEq, LesEq, Token.Less}
    case TermTier => {Plus, Hyphen}
    case FactorTier => {Asterisk, ForwardSlash}
  }

  /** The operators the nodes built by each tier's loop carry. */
  function TierOps(tier: Tier): set<Operator> {
    match tier
    case EqualityTier => {Operator.NotEquals, Operator.EqualsEquals}
    case ComparisonTier => {Greater, GreaterEqual, LessEqual, Operator.Less}
    case TermTier => {Add, Sub}
    case FactorTier => {Mult, Div}
  }

  /**
    The rank of the tier whose loop goes on at token t, or 4, above every
    tier, for a token no loop matches.
  */
  function LoopRank(t: Token): (r: nat)
    ensures r <= 4
  {
    match t
    case Asterisk | ForwardSlash => 0
    case Plus | Hyphen => 1
    case Gre | GreEq | LesEq | Less => 2
    case NotEquals | EqualsEquals => 3
    case _ => 4
  }

  // ---------------------------------------------------------------------------
  // The cursor primitives

  /** `matches`: the cursor is not at the end and its token is in the pattern. */
  predicate MatchesAt(toks: seq<Token>, p: nat, pattern: set<Token>) {
    p < |toks| && toks[p] in pattern
  }

  /** `advance`: step unless at the end, then return the token before the cursor. */
  function AdvanceAt(toks: seq<Token>, p: nat): (r: Result<Parsed<Token>, ParseError>)
    requires p <= |toks|
    ensures r.Err? <==> toks == []
    ensures r.Ok? ==> r.value.next == (if p < |toks| then p + 1 else p)
    ensures r.Ok? ==> r.value.result == toks[r.value.next - 1]
  {
    var q := if p < |toks| then p + 1 else p;
    if q == 0 then Err(NoPreviousToken) else Ok(Parsed(toks[q - 1], q))
  }

  /** `step_back`: step back unless at 0, then return the token after the cursor. */
  function StepBackAt(toks: seq<Token>, p: nat): (r: Result<Parsed<Token>, ParseError>)
    requires p <= |toks|
    ensures r.Ok? <==> (if p != 0 then p else 1) < |toks|
    ensures r.Ok? ==> r.value.next == (if p != 0 then p - 1 else 0) && r.value.result == toks[r.value.next + 1]
    ensures r.Err? ==> r.error == NoTokenAt(if p != 0 then p else 1)
  {
    var q := if p != 0 then p - 1 else p;
    if q + 1 < |toks| then Ok(Parsed(toks[q + 1], q)) else Err(NoTokenAt(q + 1))
  }

  // ---------------------------------------------------------------------------
  // The grammar

  /** `primary`: a Literal or a Number, read with `advance`. */
  function PrimaryAt(toks: seq<Token>, p: nat): (r: Result<Parsed<Node>, ParseError>)
    requires p <= |toks|
    ensures r.Ok? ==> p <= r.value.next <= |toks|
  {
    match AdvanceAt(toks, p)
    case Err(e) => Err(e)
    case Ok(Parsed(t, q)) =>
      match t
      case Literal(x) => Ok(Parsed(Value(StringT(x)), q))
      case Number(x) => Ok(Parsed(Value(Float(x)), q))
      case _ => Err(NotAPrimary(t))
  }

  /** `unary`: an optional Hyphen, then one primary. */
  function UnaryAt(toks: seq<Token>, p: nat): (r: Result<Parsed<Node>, ParseError>)
    requires p <= |toks|
    ensures r.Ok? ==> p <= r.value.next <= |toks|
  {
    if MatchesAt(toks, p, {Hyphen}) then
      var op := OperatorOf(toks[p]).value;
      match PrimaryAt(toks, p + 1)
      case Err(e) => Err(e)
      case Ok(Parsed(right, q)) => Ok(Parsed(Unary(op, right), q))
    else
      PrimaryAt(toks, p)
  }

  /** The operand parser of a tier: the next tier down, or `unary` below `factor`. */
  function OperandAt(tier: Tier, toks: seq<Token>, p: nat): (r: Result<Parsed<Node>, ParseError>)
    requires p <= |toks|
    ensures r.Ok? ==> p <= r.value.next <= |toks|
    decreases Rank(tier), |toks| - p, 0
  {
    if tier == FactorTier then UnaryAt(toks, p) else TierAt(Below(tier), toks, p)
  }

  /** A tier method: one operand, then the loop. */
  function TierAt(tier: Tier, toks: seq<Token>, p: nat): (r: Result<Parsed<Node>, ParseError>)
    requires p <= |toks|
    ensures r.Ok? ==> p <= r.value.next <= |toks|
    decreases Rank(tier), |toks| - p, 2
  {
    match OperandAt(tier, toks, p)
    case Err(e) => Err(e)
    case Ok(Parsed(node, q)) => TierLoop(tier, toks, node, q)
  }

  /**
    The `while self.matches(..)` loop of a tier from cursor p, with `acc` the
    node built so far: each matched operator folds `acc` and the next operand
    into a new Binary node.
  */
  function TierLoop(tier: Tier, toks: seq<Token>, acc: Node, p: nat): (r: Result<Parsed<Node>, ParseError>)
    requires p <= |toks|
    ensures r.Ok? ==> p <= r.value.next <= |toks|
    decreases Rank(tier), |toks| - p, 1
  {
    if MatchesAt(toks, p, Pattern(tier)) then
      var op := OperatorOf(toks[p]).value;
      match OperandAt(tier, toks, p + 1)
      case Err(e) => Err(e)
      case Ok(Parsed(right, q)) => TierLoop(tier, toks, Binary(op, acc, right), q)
    else
      Ok(Parsed(acc, p))
  }

  /**
    `declare_var`: skip `var`, take the name, skip one more token without
    looking at it, parse a conditional, and only then check the name.
  */
  function DeclareVarAt(toks: seq<Token>, p: nat): (r: Result<Parsed<Node>, ParseError>)
    requires p <= |toks|
    ensures r.Ok? ==> p <= r.value.next <= |toks| && r.value.result.Define?
    ensures r.Ok? && p < |toks| ==> p < r.value.next
  {
    match AdvanceAt(toks, p)
    case Err(e) => Err(e)
    case Ok(Parsed(_, p1)) =>
      match AdvanceAt(toks, p1)
      case Err(e) => Err(e)
      case Ok(Parsed(name, p2)) =>
        match AdvanceAt(toks, p2)
        case Err(e) => Err(e)
        case Ok(Parsed(_, p3)) =>
          match TierAt(EqualityTier, toks, p3)
          case Err(e) => Err(e)
          case Ok(Parsed(expr, q)) =>
            if name.Literal? then Ok(Parsed(Define(name.text, expr), q)) else Err(NotAName(name))
  }

  /**
    The loop of `parse` from cursor p with the statements collected so far:
    while the cursor is on `var`, step back onto it and declare a variable.
  */
  function ParseLoop(toks: seq<Token>, p: nat, acc: seq<Node>): (r: Result<Parsed<Node>, ParseError>)
    requires p <= |toks|
    ensures r.Ok? ==> p <= r.value.next <= |toks|
    ensures r.Ok? ==> r.value.next == |toks| || toks[r.value.next] != Var
    decreases |toks| - p
  {
    if MatchesAt(toks, p, {Var}) then
      match StepBackAt(toks, p + 1)
      case Err(e) => Err(e)
      case Ok(Parsed(_, q)) =>
        match DeclareVarAt(toks, q)
        case Err(e) => Err(e)
        case Ok(Parsed(d, q')) => ParseLoop(toks, q', acc + [d])
    else
      Ok(Parsed(Statements(acc), p))
  }

  /** `parse` from cursor p. */
  function ParseAt(toks: seq<Token>, p: nat): (r: Result<Parsed<Node>, ParseError>)
    requires p <= |toks|
    ensures r.Ok? ==> p <= r.value.next <= |toks| && (r.value.next == |toks| || toks[r.value.next] != Var)
  {
    ParseLoop(toks, p, [])
  }
}
