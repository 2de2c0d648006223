/** The closed set of lexical tokens and their precedence and operator maps (src/parser/token.rs). */
module Tokens {
  import Ast
  import opened Wrappers

  datatype Token =
    | Equals
    | Var
    | Literal(text: string)
    | OpenParen
    | CloseParen
    | ForwardSlash
    | Asterisk
    | Plus
    | Hyphen
    | Number(value: nat)
    | Bang
    | NotEquals
    | EqualsEquals
    | GreEq
    | Gre
    | LesEq
    | Less

  /** Binding strength: multiplicative 3, additive 2, everything else 0. */
  function Precedence(t: Token): (r: nat)
    ensures r in {0, 2, 3}
    ensures r > 0 ==> t in OperatorTokens
  {
    match t
    case ForwardSlash => 3
    case Asterisk => 3
    case Plus => 2
    case Hyphen => 2
    case _ => 0
  }

  /** The ten tokens that name an operator. */
  const OperatorTokens: set<Token> :=
    {ForwardSlash, Asterisk, Plus, Hyphen, NotEquals, EqualsEquals, LesEq, Less, Gre, GreEq}

  /** The token that spells an operator; the inverse of OperatorOf. */
  function Spelling(op: Ast.Operator): (t: Token)
    ensures t in OperatorTokens
  {
    match op
    case Div => ForwardSlash
    case Mult => Asterisk
    case Add => Plus
    case Sub => Hyphen
    case NotEquals => Token.NotEquals
    case EqualsEquals => Token.EqualsEquals
    case LessEqual => LesEq
    case Less => Token.Less
    case Greater => Gre
    case GreaterEqual => GreEq
  }

  /**
    The operator a token stands for. The source panics on any other token;
    here that is `None`.
  */
  function OperatorOf(t: Token): (r: Option<Ast.Operator>)
    ensures r.Some? <==> t in OperatorTokens
    ensures r.Some? ==> Spelling(r.value) == t
  {
    match t
    case ForwardSlash => Some(Ast.Div)
    case Asterisk => Some(Ast.Mult)
    case Plus => Some(Ast.Add)
    case Hyphen => Some(Ast.Sub)
    case NotEquals => Some(Ast.NotEquals)
    case EqualsEquals => Some(Ast.EqualsEquals)
    case LesEq => Some(Ast.LessEqual)
    case Less => Some(Ast.Less)
    case Gre => Some(Ast.Greater)
    case GreEq => Some(Ast.GreaterEqual)
    case _ => None
  }

  /** Every operator is reached, from its own spelling: OperatorOf is onto. */
  lemma {:induction false} OperatorOfSpelling(op: Ast.Operator)
    ensures OperatorOf(Spelling(op)) == Some(op)
  {
  }

  /** OperatorOf is one-to-one on the tokens where it is defined. */
  lemma {:induction false} OperatorOfInjective(t: Token, u: Token)
    requires OperatorOf(t).Some? && OperatorOf(t) == OperatorOf(u)
    ensures t == u
  {
  }

  /** Multiplicative tokens bind strictly tighter than additive ones. */
  lemma {:induction false} MultiplicativeBindsTighter(m: Token, a: Token)
    requires m == ForwardSlash || m == Asterisk
    requires a == Plus || a == Hyphen
    ensures Precedence(m) > Precedence(a) > 0
  {
  }

  /** A token with nonzero precedence is an arithmetic operator token. */
  lemma {:induction false} PrecedenceOnlyArithmetic(t: Token)
    requires Precedence(t) > 0
    ensures OperatorOf(t).Some?
    ensures OperatorOf(t).value in {Ast.Add, Ast.Sub, Ast.Mult, Ast.Div}
  {
  }

  /** Comparison and equality tokens have an operator but precedence 0. */
  lemma {:induction false} ComparisonsHaveNoPrecedence(t: Token)
    requires OperatorOf(t).Some?
    requires OperatorOf(t).value !in {Ast.Add, Ast.Sub, Ast.Mult, Ast.Div}
    ensures Precedence(t) == 0
  {
  }
}
