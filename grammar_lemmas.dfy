/**
  What the parser of src/parser/mod.rs accepts and builds.

  `IsTierNode` describes the trees each tier can build: a tier's operators
  take a left operand from the same tier and a right operand from the tier
  below. That is left-associativity and precedence in one definition.
  `Unparse` spells a tree back as tokens. The two directions proved here:
  parsing the spelling of a tier-shaped tree gives that tree back
  (`TierRoundTrip`), and whatever a tier parses from a non-empty remainder is
  tier-shaped and is exactly the spelling of the tokens it consumed
  (`TierSound`).
*/
module GrammarLemmas {
  import opened Wrappers
  import opened Ast
  import opened Tokens
  import opened Grammar

  // ---------------------------------------------------------------------------
  // Tree shapes and spelling

  /** What `primary` builds: a string or a number leaf. */
  predicate IsPrimaryNode(n: Node) {
    n.Value? && (n.literal.StringT? || n.literal.Float?)
  }

  /** What `unary` builds: a primary, or one negation of a primary. */
  predicate IsUnaryNode(n: Node) {
    IsPrimaryNode(n) || (n.Unary? && n.op == Sub && IsPrimaryNode(n.operand))
  }

  /** What a tier builds: its operators over a left tier node and a right operand node. */
  predicate IsTierNode(tier: Tier, n: Node)
    decreases Rank(tier), n, 1
  {
    || IsOperandNode(tier, n)
    || (n.Binary? && n.op in TierOps(tier) && IsTierNode(tier, n.left) && IsOperandNode(tier, n.right))
  }

  /** What a tier's operands are: nodes of the tier below, or unary nodes below `factor`. */
  predicate IsOperandNode(tier: Tier, n: Node)
    decreases Rank(tier), n, 0
  {
    if tier == FactorTier then IsUnaryNode(n) else IsTierNode(Below(tier), n)
  }

  /** The one token that spells a leaf. */
  function LeafToken(lit: Literal): Token {
    match lit
    case Name(s) => Token.Literal(s)
    case StringT(s) => Token.Literal(s)
    case Float(x) => Number(x)
  }

  /** The tokens that spell a tree. */
  function Unparse(n: Node): seq<Token>
    decreases n
  {
    match n
    case Binary(op, l, r) => Unparse(l) + [Spelling(op)] + Unparse(r)
    case Unary(op, e) => [Spelling(op)] + Unparse(e)
    case Value(lit) => [LeafToken(lit)]
    case Define(x, e) => [Var, Token.Literal(x), Equals] + Unparse(e)
    case Statements(ss) => UnparseAll(ss)
  }

  function UnparseAll(ss: seq<Node>): seq<Token>
    decreases ss
  {
    if ss == [] then [] else Unparse(ss[0]) + UnparseAll(ss[1..])
  }

  /**
    The tokens from position p on begin with the spelling of n, read piece by
    piece; `SpellsIsSlice` shows that this is toks[p..p + |Unparse(n)|] == Unparse(n).
  */
  predicate Spells(toks: seq<Token>, p: nat, n: Node)
    ensures Spells(toks, p, n) ==> p + |Unparse(n)| <= |toks|
    decreases n
  {
    match n
    case Binary(op, l, r) =>
      && Spells(toks, p, l)
      && p + |Unparse(l)| < |toks| && toks[p + |Unparse(l)|] == Spelling(op)
      && Spells(toks, p + |Unparse(l)| + 1, r)
    case Unary(op, e) => p < |toks| && toks[p] == Spelling(op) && Spells(toks, p + 1, e)
    case Value(lit) => p < |toks| && toks[p] == LeafToken(lit)
    case Define(x, e) =>
      && p + 3 <= |toks| && toks[p] == Var && toks[p + 1] == Token.Literal(x) && toks[p + 2] == Equals
      && Spells(toks, p + 3, e)
    case Statements(ss) => SpellsAll(toks, p, ss)
  }

  /** The tokens from position p on begin with the spellings of ss, one after the other. */
  predicate SpellsAll(toks: seq<Token>, p: nat, ss: seq<Node>)
    ensures SpellsAll(toks, p, ss) ==> p + |UnparseAll(ss)| <= |toks|
    decreases ss
  {
    if ss == [] then p <= |toks| else Spells(toks, p, ss[0]) && SpellsAll(toks, p + |Unparse(ss[0])|, ss[1..])
  }

  /** At q, no loop of `tier` or of a tighter tier goes on. */
  predicate StopsAt(tier: Tier, toks: seq<Token>, q: nat) {
    q >= |toks| || LoopRank(toks[q]) > Rank(tier)
  }

  /** At q, no loop of a tier tighter than `tier` goes on. */
  predicate OperandStops(tier: Tier, toks: seq<Token>, q: nat) {
    q >= |toks| || LoopRank(toks[q]) >= Rank(tier)
  }

  // ---------------------------------------------------------------------------
  // Facts about the tiers' token and operator sets

  lemma {:induction false} PatternFacts(tier: Tier, t: Token)
    requires t in Pattern(tier)
    ensures OperatorOf(t).Some? && OperatorOf(t).value in TierOps(tier)
    ensures LoopRank(t) == Rank(tier)
  {
  }

  /** A tier's loop matches exactly the tokens of its rank. */
  lemma {:induction false} PatternIsRank(tier: Tier, t: Token)
    ensures t in Pattern(tier) <==> LoopRank(t) == Rank(tier)
  {
  }

  lemma {:induction false} SpellingInPattern(tier: Tier, op: Operator)
    requires op in TierOps(tier)
    ensures Spelling(op) in Pattern(tier)
  {
  }

  /** The tokens from position p on begin with u. */
  predicate HoldsAt(toks: seq<Token>, p: nat, u: seq<Token>) {
    p + |u| <= |toks| && toks[p..p + |u|] == u
  }

  /** The spelling of a binary node is its left operand's, the operator, then its right operand's. */
  lemma {:induction false} BinaryLength(n: Node)
    requires n.Binary?
    ensures |Unparse(n)| == |Unparse(n.left)| + 1 + |Unparse(n.right)|
  {
  }

  /** Every token list begins with itself. */
  lemma {:induction false} HoldsWhole(toks: seq<Token>)
    ensures HoldsAt(toks, 0, toks)
  {
    assert toks[0..|toks|] == toks;
  }

  /** A slice holds a join exactly when its two parts hold the join's two parts. */
  lemma {:induction false} SliceIsJoin<T>(s: seq<T>, p: nat, a: seq<T>, b: seq<T>)
    requires p + |a| + |b| <= |s|
    ensures s[p..p + |a| + |b|] == a + b <==> s[p..p + |a|] == a && s[p + |a|..p + |a| + |b|] == b
  {
    var q, e := p + |a|, p + |a| + |b|;
    assert s[p..e] == s[p..q] + s[q..e];
    if s[p..e] == a + b {
      assert s[p..q] == (a + b)[..|a|] && s[q..e] == (a + b)[|a|..];
    }
  }

  /** The tokens hold a + b at p exactly when they hold a at p and b right after it. */
  lemma {:induction false} JoinHolds(toks: seq<Token>, p: nat, a: seq<Token>, b: seq<Token>, holdsA: bool, holdsB: bool)
    requires holdsA <==> HoldsAt(toks, p, a)
    requires holdsB <==> HoldsAt(toks, p + |a|, b)
    ensures holdsA && holdsB <==> HoldsAt(toks, p, a + b)
  {
    if p + |a| + |b| <= |toks| {
      SliceIsJoin(toks, p, a, b);
    }
  }

  /** The tokens hold one token at p exactly when it is the one under p. */
  lemma {:induction false} OneHolds(toks: seq<Token>, p: nat, t: Token)
    ensures p < |toks| && toks[p] == t <==> HoldsAt(toks, p, [t])
  {
    if p < |toks| {
      assert toks[p..p + 1] == [toks[p]];
    }
  }

  /** Reading a tree's spelling piece by piece is finding it whole in the slice it covers. */
  lemma {:induction false} SpellsIsSlice(toks: seq<Token>, p: nat, n: Node)
    ensures Spells(toks, p, n) <==> HoldsAt(toks, p, Unparse(n))
    decreases n
  {
    match n
    case Binary(op, l, r) =>
      SpellsIsSlice(toks, p, l);
      SpellsIsSlice(toks, p + |Unparse(l)| + 1, r);
      BinaryIsSlice(toks, p, op, l, r);
    case Unary(op, x) =>
      SpellsIsSlice(toks, p + 1, x);
      OneHolds(toks, p, Spelling(op));
      JoinHolds(toks, p, [Spelling(op)], Unparse(x), p < |toks| && toks[p] == Spelling(op), Spells(toks, p + 1, x));
    case Value(lit) =>
      OneHolds(toks, p, LeafToken(lit));
    case Define(name, x) =>
      SpellsIsSlice(toks, p + 3, x);
      DefineIsSlice(toks, p, name, x);
    case Statements(ss) =>
      SpellsAllIsSlice(toks, p, ss);
  }

  /** The tokens hold a, then t, then b at p exactly when each part is at its place. */
  lemma {:induction false} Join3Holds(toks: seq<Token>, p: nat, a: seq<Token>, t: Token, b: seq<Token>, holdsA: bool, holdsB: bool)
    requires holdsA <==> HoldsAt(toks, p, a)
    requires holdsB <==> HoldsAt(toks, p + |a| + 1, b)
    ensures holdsA && p + |a| < |toks| && toks[p + |a|] == t && holdsB <==> HoldsAt(toks, p, a + [t] + b)
  {
    var q := p + |a|;
    OneHolds(toks, q, t);
    JoinHolds(toks, p, a, [t], holdsA, q < |toks| && toks[q] == t);
    JoinHolds(toks, p, a + [t], b, holdsA && q < |toks| && toks[q] == t, holdsB);
  }

  lemma {:induction false} BinaryIsSlice(toks: seq<Token>, p: nat, op: Operator, l: Node, r: Node)
    requires Spells(toks, p, l) <==> HoldsAt(toks, p, Unparse(l))
    requires Spells(toks, p + |Unparse(l)| + 1, r) <==> HoldsAt(toks, p + |Unparse(l)| + 1, Unparse(r))
    ensures Spells(toks, p, Binary(op, l, r)) <==> HoldsAt(toks, p, Unparse(Binary(op, l, r)))
  {
    assert Unparse(Binary(op, l, r)) == Unparse(l) + [Spelling(op)] + Unparse(r);
    Join3Holds(toks, p, Unparse(l), Spelling(op), Unparse(r), Spells(toks, p, l), Spells(toks, p + |Unparse(l)| + 1, r));
  }

  lemma {:induction false} DefineIsSlice(toks: seq<Token>, p: nat, name: string, x: Node)
    requires Spells(toks, p + 3, x) <==> HoldsAt(toks, p + 3, Unparse(x))
    ensures Spells(toks, p, Define(name, x)) <==> HoldsAt(toks, p, Unparse(Define(name, x)))
  {
    var head := [Var, Token.Literal(name), Equals];
    if p + 3 <= |toks| {
      assert toks[p..p + 3] == [toks[p], toks[p + 1], toks[p + 2]];
    }
    JoinHolds(toks, p, head, Unparse(x),
      p + 3 <= |toks| && toks[p] == Var && toks[p + 1] == Token.Literal(name) && toks[p + 2] == Equals,
      Spells(toks, p + 3, x));
  }

  lemma {:induction false} SpellsAllIsSlice(toks: seq<Token>, p: nat, ss: seq<Node>)
    ensures SpellsAll(toks, p, ss) <==> HoldsAt(toks, p, UnparseAll(ss))
    decreases ss
  {
    if ss != [] {
      var q := p + |Unparse(ss[0])|;
      SpellsIsSlice(toks, p, ss[0]);
      SpellsAllIsSlice(toks, q, ss[1..]);
      JoinHolds(toks, p, Unparse(ss[0]), UnparseAll(ss[1..]), Spells(toks, p, ss[0]), SpellsAll(toks, q, ss[1..]));
    }
  }

  // ---------------------------------------------------------------------------
  // Parsing the spelling of a tree gives the tree back

  lemma {:induction false} UnaryRoundTrip(n: Node, toks: seq<Token>, p: nat)
    requires IsUnaryNode(n) && Spells(toks, p, n)
    ensures UnaryAt(toks, p) == Ok(Parsed(n, p + |Unparse(n)|))
  {
  }

  lemma {:induction false} OperandRoundTrip(tier: Tier, n: Node, toks: seq<Token>, p: nat)
    requires IsOperandNode(tier, n) && Spells(toks, p, n)
    requires OperandStops(tier, toks, p + |Unparse(n)|)
    ensures OperandAt(tier, toks, p) == Ok(Parsed(n, p + |Unparse(n)|))
    decreases Rank(tier), n, 0
  {
    if tier == FactorTier {
      UnaryRoundTrip(n, toks, p);
    } else {
      TierRoundTrip(Below(tier), n, toks, p);
    }
  }

  /** A tier starts its loop after its first operand. */
  lemma {:induction false} TierOfOperand(tier: Tier, toks: seq<Token>, p: nat, n: Node, e: nat)
    requires p <= |toks| && OperandAt(tier, toks, p) == Ok(Parsed(n, e))
    ensures TierAt(tier, toks, p) == TierLoop(tier, toks, n, e)
  {
  }

  /** One turn of a tier's loop over an operator and an operand. */
  lemma {:induction false} TierLoopStep(tier: Tier, toks: seq<Token>, n: Node, q: nat, e: nat)
    requires n.Binary? && n.op in TierOps(tier)
    requires q < |toks| && toks[q] == Spelling(n.op)
    requires OperandAt(tier, toks, q + 1) == Ok(Parsed(n.right, e))
    ensures TierLoop(tier, toks, n.left, q) == TierLoop(tier, toks, n, e)
  {
    SpellingInPattern(tier, n.op);
    OperatorOfSpelling(n.op);
  }

  /** A tier's own operator ends the operand before it. */
  lemma {:induction false} OperatorStopsOperand(tier: Tier, toks: seq<Token>, q: nat, op: Operator)
    requires op in TierOps(tier) && q < |toks| && toks[q] == Spelling(op)
    ensures OperandStops(tier, toks, q)
  {
    SpellingInPattern(tier, op);
    PatternFacts(tier, Spelling(op));
  }

  /** After the spelling of a tier node, the tier's loop is where it would be after building it. */
  lemma {:induction false} TierPrefix(tier: Tier, n: Node, toks: seq<Token>, p: nat)
    requires IsTierNode(tier, n) && Spells(toks, p, n)
    requires OperandStops(tier, toks, p + |Unparse(n)|)
    ensures TierAt(tier, toks, p) == TierLoop(tier, toks, n, p + |Unparse(n)|)
    decreases Rank(tier), n, 2
  {
    if IsOperandNode(tier, n) {
      OperandRoundTrip(tier, n, toks, p);
      TierOfOperand(tier, toks, p, n, p + |Unparse(n)|);
    } else {
      BinaryLength(n);
      TierPrefixBinary(tier, n, toks, p, p + |Unparse(n.left)|, p + |Unparse(n)|);
    }
  }

  /** TierPrefix for a node built by the tier's own loop, its spelling taken apart at q. */
  lemma {:induction false} TierPrefixBinary(tier: Tier, n: Node, toks: seq<Token>, p: nat, q: nat, e: nat)
    requires n.Binary? && n.op in TierOps(tier) && IsTierNode(tier, n.left) && IsOperandNode(tier, n.right)
    requires q == p + |Unparse(n.left)| && e == q + 1 + |Unparse(n.right)|
    requires Spells(toks, p, n.left) && q < |toks| && toks[q] == Spelling(n.op)
    requires Spells(toks, q + 1, n.right) && OperandStops(tier, toks, e)
    ensures TierAt(tier, toks, p) == TierLoop(tier, toks, n, e)
    decreases Rank(tier), n, 1
  {
    OperatorStopsOperand(tier, toks, q, n.op);
    TierPrefix(tier, n.left, toks, p);
    TierLoopStepOperand(tier, toks, n, q, e);
  }

  /** One turn of a tier's loop over an operator and the spelling of an operand. */
  lemma {:induction false} TierLoopStepOperand(tier: Tier, toks: seq<Token>, n: Node, q: nat, e: nat)
    requires n.Binary? && n.op in TierOps(tier) && IsOperandNode(tier, n.right)
    requires q < |toks| && toks[q] == Spelling(n.op) && Spells(toks, q + 1, n.right)
    requires e == q + 1 + |Unparse(n.right)| && OperandStops(tier, toks, e)
    ensures TierLoop(tier, toks, n.left, q) == TierLoop(tier, toks, n, e)
    decreases Rank(tier), n, 0
  {
    OperandRoundTrip(tier, n.right, toks, q + 1);
    TierLoopStep(tier, toks, n, q, e);
  }

  /** Parsing the spelling of a tier-shaped tree, up to a stopping token, gives the tree back. */
  lemma {:induction false} TierRoundTrip(tier: Tier, n: Node, toks: seq<Token>, p: nat)
    requires IsTierNode(tier, n) && Spells(toks, p, n)
    requires StopsAt(tier, toks, p + |Unparse(n)|)
    ensures TierAt(tier, toks, p) == Ok(Parsed(n, p + |Unparse(n)|))
    decreases Rank(tier), n, 3
  {
    TierPrefix(tier, n, toks, p);
    LoopStops(tier, toks, n, p + |Unparse(n)|);
  }

  /** A tier's loop ends where its stopping condition holds. */
  lemma {:induction false} LoopStops(tier: Tier, toks: seq<Token>, acc: Node, e: nat)
    requires e <= |toks| && StopsAt(tier, toks, e)
    ensures TierLoop(tier, toks, acc, e) == Ok(Parsed(acc, e))
  {
    if e < |toks| {
      PatternIsRank(tier, toks[e]);
    }
  }

  // ---------------------------------------------------------------------------
  // Whatever a tier parses is tier-shaped and is the spelling of what it consumed

  /**
    `primary` reads one token with `advance`: a Number becomes a Float leaf and
    a Literal a StringT leaf, each spelled by that token, and any other token
    is the error naming it.
  */
  lemma {:induction false} PrimaryReadsLeaf(toks: seq<Token>, p: nat)
    requires p < |toks|
    ensures PrimaryAt(toks, p).Ok? <==> toks[p].Number? || toks[p].Literal?
    ensures PrimaryAt(toks, p).Ok? ==>
      var r := PrimaryAt(toks, p).value;
      IsPrimaryNode(r.result) && LeafToken(r.result.literal) == toks[p] && r.next == p + 1
    ensures PrimaryAt(toks, p).Err? ==> PrimaryAt(toks, p).error == NotAPrimary(toks[p])
  {
  }

  /** At the end, `primary` re-reads the last token; after an operator that is an error. */
  lemma {:induction false} OperandAtEndFails(tier: Tier, toks: seq<Token>)
    requires |toks| > 0 && !toks[|toks| - 1].Number? && !toks[|toks| - 1].Literal?
    ensures OperandAt(tier, toks, |toks|).Err?
    decreases Rank(tier)
  {
    if tier != FactorTier {
      OperandAtEndFails(Below(tier), toks);
    }
  }

  lemma {:induction false} UnarySound(toks: seq<Token>, p: nat)
    requires p < |toks| && UnaryAt(toks, p).Ok?
    ensures var r := UnaryAt(toks, p).value;
      IsUnaryNode(r.result) && Spells(toks, p, r.result) && r.next == p + |Unparse(r.result)|
  {
  }

  lemma {:induction false} OperandSound(tier: Tier, toks: seq<Token>, p: nat)
    requires p < |toks| && OperandAt(tier, toks, p).Ok?
    ensures var r := OperandAt(tier, toks, p).value;
      && IsOperandNode(tier, r.result) && Spells(toks, p, r.result)
      && r.next == p + |Unparse(r.result)| && OperandStops(tier, toks, r.next)
    decreases Rank(tier), |toks| - p, 0
  {
    if tier == FactorTier {
      UnarySound(toks, p);
    } else {
      TierSound(Below(tier), toks, p);
    }
  }

  /** The parse of a non-empty remainder by a tier is a tier-shaped tree spelled by the consumed tokens. */
  lemma {:induction false} TierSound(tier: Tier, toks: seq<Token>, p: nat)
    requires p < |toks| && TierAt(tier, toks, p).Ok?
    ensures var r := TierAt(tier, toks, p).value;
      && IsTierNode(tier, r.result) && Spells(toks, p, r.result)
      && r.next == p + |Unparse(r.result)| && StopsAt(tier, toks, r.next)
    decreases Rank(tier), |toks| - p, 2
  {
    var first := OperandAt(tier, toks, p).value;
    OperandSound(tier, toks, p);
    LoopSound(tier, toks, first.result, p, first.next);
  }

  /** One turn of a tier's loop extends the tree and its spelling by an operator and an operand. */
  lemma {:induction false} LoopSoundStep(tier: Tier, toks: seq<Token>, acc: Node, s: nat, p: nat) returns (n: Node, q: nat)
    requires p <= |toks| && TierLoop(tier, toks, acc, p).Ok? && MatchesAt(toks, p, Pattern(tier))
    requires IsTierNode(tier, acc) && Spells(toks, s, acc) && p == s + |Unparse(acc)|
    ensures p < q <= |toks| && TierLoop(tier, toks, n, q) == TierLoop(tier, toks, acc, p)
    ensures IsTierNode(tier, n) && Spells(toks, s, n) && q == s + |Unparse(n)| && OperandStops(tier, toks, q)
    decreases Rank(tier), |toks| - p, 0
  {
    PatternFacts(tier, toks[p]);
    if p + 1 == |toks| {
      OperandAtEndFails(tier, toks);
    }
    var right := OperandAt(tier, toks, p + 1).value;
    OperandSound(tier, toks, p + 1);
    n, q := Binary(OperatorOf(toks[p]).value, acc, right.result), right.next;
  }

  lemma {:induction false} LoopSound(tier: Tier, toks: seq<Token>, acc: Node, s: nat, p: nat)
    requires p <= |toks| && TierLoop(tier, toks, acc, p).Ok?
    requires IsTierNode(tier, acc) && Spells(toks, s, acc) && p == s + |Unparse(acc)|
    requires OperandStops(tier, toks, p)
    ensures var r := TierLoop(tier, toks, acc, p).value;
      && IsTierNode(tier, r.result) && Spells(toks, s, r.result)
      && r.next == s + |Unparse(r.result)| && StopsAt(tier, toks, r.next)
    decreases Rank(tier), |toks| - p, 1
  {
    if MatchesAt(toks, p, Pattern(tier)) {
      var n, q := LoopSoundStep(tier, toks, acc, s, p);
      LoopSound(tier, toks, n, s, q);
    } else if p < |toks| {
      PatternIsRank(tier, toks[p]);
    }
  }

  // ---------------------------------------------------------------------------
  // Consequences

  /** Each tier's loop builds only the tier's own operators over tighter operands. */
  lemma {:induction false} TierBuildsOwnOperators(tier: Tier, toks: seq<Token>, p: nat)
    requires p < |toks| && TierAt(tier, toks, p).Ok?
    ensures var n := TierAt(tier, toks, p).value.result;
      n.Binary? && !IsOperandNode(tier, n) ==> n.op in TierOps(tier) && IsOperandNode(tier, n.right)
  {
    TierSound(tier, toks, p);
  }

  /** Each tier reads back a tree of its shape from exactly the tree's spelling. */
  lemma {:induction false} TierReadsSpelling(tier: Tier, n: Node)
    requires IsTierNode(tier, n)
    ensures TierAt(tier, Unparse(n), 0) == Ok(Parsed(n, |Unparse(n)|))
  {
    var toks := Unparse(n);
    HoldsWhole(toks);
    SpellsIsSlice(toks, 0, n);
    TierRoundTrip(tier, n, toks, 0);
  }

  /** `2 + 3 * 4` parses with the product as the right operand of the sum. */
  lemma {:induction false} ProductBindsTighter(toks: seq<Token>)
    requires toks == [Number(2), Plus, Number(3), Asterisk, Number(4)]
    ensures TierAt(EqualityTier, toks, 0)
         == Ok(Parsed(Binary(Add, Value(Float(2)), Binary(Mult, Value(Float(3)), Value(Float(4)))), 5))
  {
    var n := Binary(Add, Value(Float(2)), Binary(Mult, Value(Float(3)), Value(Float(4))));
    assert IsTierNode(EqualityTier, n);
    assert Unparse(n) == toks;
    TierReadsSpelling(EqualityTier, n);
  }

  /** `8 - 3 - 2` folds to the left. */
  lemma {:induction false} SubtractionFoldsLeft(toks: seq<Token>)
    requires toks == [Number(8), Hyphen, Number(3), Hyphen, Number(2)]
    ensures TierAt(EqualityTier, toks, 0)
         == Ok(Parsed(Binary(Sub, Binary(Sub, Value(Float(8)), Value(Float(3))), Value(Float(2))), 5))
  {
    var n := Binary(Sub, Binary(Sub, Value(Float(8)), Value(Float(3))), Value(Float(2)));
    assert IsTierNode(EqualityTier, n);
    assert Unparse(n) == toks;
    TierReadsSpelling(EqualityTier, n);
  }

  /** `unary` negates a primary only: `- - 3` is an error. */
  lemma {:induction false} DoubleNegationFails()
    ensures UnaryAt([Hyphen, Hyphen, Number(3)], 0) == Err(NotAPrimary(Hyphen))
  {
  }

  // ---------------------------------------------------------------------------
  // Statements

  /** A declaration as `parse` builds it from a well-formed `var` statement. */
  predicate IsDeclaration(d: Node) {
    d.Define? && IsTierNode(EqualityTier, d.expr)
  }

  /** The statement loop only appends, and only declarations. */
  lemma {:induction false} ParseLoopDeclares(toks: seq<Token>, p: nat, acc: seq<Node>)
    requires p <= |toks| && ParseLoop(toks, p, acc).Ok?
    ensures var r := ParseLoop(toks, p, acc).value.result;
      && r.Statements? && acc <= r.statements
      && forall i :: |acc| <= i < |r.statements| ==> r.statements[i].Define?
    decreases |toks| - p
  {
    if MatchesAt(toks, p, {Var}) {
      var q := StepBackAt(toks, p + 1).value.next;
      var d := DeclareVarAt(toks, q).value;
      ParseLoopDeclares(toks, d.next, acc + [d.result]);
    }
  }

  /** At q, neither a tier loop nor the statement loop of `parse` goes on. */
  predicate StatementStops(toks: seq<Token>, q: nat) {
    q >= |toks| || (toks[q] != Var && LoopRank(toks[q]) > Rank(EqualityTier))
  }

  lemma {:induction false} DeclareVarRoundTrip(d: Node, toks: seq<Token>, p: nat)
    requires IsDeclaration(d) && Spells(toks, p, d)
    requires StopsAt(EqualityTier, toks, p + |Unparse(d)|)
    ensures DeclareVarAt(toks, p) == Ok(Parsed(d, p + |Unparse(d)|))
  {
    TierRoundTrip(EqualityTier, d.expr, toks, p + 3);
  }

  /** One turn of the statement loop reads back one declaration. */
  lemma {:induction false} ParseLoopStep(d: Node, toks: seq<Token>, p: nat, acc: seq<Node>)
    requires IsDeclaration(d) && Spells(toks, p, d)
    requires StopsAt(EqualityTier, toks, p + |Unparse(d)|)
    ensures ParseLoop(toks, p, acc) == ParseLoop(toks, p + |Unparse(d)|, acc + [d])
  {
    DeclareVarRoundTrip(d, toks, p);
  }

  /** The statement loop reads back the spelling of a list of declarations. */
  lemma {:induction false} ParseLoopRoundTrip(defs: seq<Node>, toks: seq<Token>, p: nat, acc: seq<Node>)
    requires forall i :: 0 <= i < |defs| ==> IsDeclaration(defs[i])
    requires SpellsAll(toks, p, defs) && StatementStops(toks, p + |UnparseAll(defs)|)
    ensures ParseLoop(toks, p, acc) == Ok(Parsed(Statements(acc + defs), p + |UnparseAll(defs)|))
    decreases |defs|, 1
  {
    if defs == [] {
      assert acc + defs == acc;
      ParseLoopStops(toks, p, acc);
    } else {
      var d, rest := defs[0], defs[1..];
      forall i | 0 <= i < |rest| ensures IsDeclaration(rest[i]) {
        assert rest[i] == defs[i + 1];
      }
      UnparseAllLength(defs);
      ParseLoopRoundTripCons(d, rest, toks, p, p + |Unparse(d)|, acc);
      assert acc + [d] + rest == acc + defs;
    }
  }

  /** The spelling of a list is the spelling of its head, then that of its tail. */
  lemma {:induction false} UnparseAllLength(ss: seq<Node>)
    requires ss != []
    ensures |UnparseAll(ss)| == |Unparse(ss[0])| + |UnparseAll(ss[1..])|
  {
  }

  /** ParseLoopRoundTrip for a first declaration d spelled from p to q, then the rest. */
  lemma {:induction false} ParseLoopRoundTripCons(d: Node, rest: seq<Node>, toks: seq<Token>, p: nat, q: nat, acc: seq<Node>)
    requires IsDeclaration(d) && forall i :: 0 <= i < |rest| ==> IsDeclaration(rest[i])
    requires q == p + |Unparse(d)| && Spells(toks, p, d) && SpellsAll(toks, q, rest)
    requires StatementStops(toks, q + |UnparseAll(rest)|)
    ensures ParseLoop(toks, p, acc) == Ok(Parsed(Statements(acc + [d] + rest), q + |UnparseAll(rest)|))
    decreases |rest| + 1, 0
  {
    NextStatementStops(rest, toks, q);
    ParseLoopStep(d, toks, p, acc);
    ParseLoopRoundTrip(rest, toks, q, acc + [d]);
  }

  /** Where one declaration ends, the next begins with `var` or the statements stop. */
  lemma {:induction false} NextStatementStops(rest: seq<Node>, toks: seq<Token>, q: nat)
    requires rest != [] ==> rest[0].Define?
    requires SpellsAll(toks, q, rest) && StatementStops(toks, q + |UnparseAll(rest)|)
    ensures StopsAt(EqualityTier, toks, q)
  {
  }

  /** The statement loop stops where no `var` follows. */
  lemma {:induction false} ParseLoopStops(toks: seq<Token>, p: nat, acc: seq<Node>)
    requires p <= |toks| && (p == |toks| || toks[p] != Var)
    ensures ParseLoop(toks, p, acc) == Ok(Parsed(Statements(acc), p))
  {
  }

  /** `parse` reads back the spelling of any program of declarations. */
  lemma {:induction false} ParseRoundTrip(defs: seq<Node>)
    requires forall i :: 0 <= i < |defs| ==> IsDeclaration(defs[i])
    ensures ParseAt(UnparseAll(defs), 0) == Ok(Parsed(Statements(defs), |UnparseAll(defs)|))
  {
    var toks := UnparseAll(defs);
    assert toks[0..|toks|] == toks;
    SpellsAllIsSlice(toks, 0, defs);
    ParseLoopRoundTrip(defs, toks, 0, []);
    assert [] + defs == defs;
  }

  /** `var x = 3 + 4` declares x as the sum. */
  lemma {:induction false} DeclarationExample()
    ensures ParseAt([Var, Token.Literal("x"), Equals, Number(3), Plus, Number(4)], 0)
         == Ok(Parsed(Statements([Define("x", Binary(Add, Value(Float(3)), Value(Float(4))))]), 6))
  {
    var d := Define("x", Binary(Add, Value(Float(3)), Value(Float(4))));
    var toks := [Var, Token.Literal("x"), Equals, Number(3), Plus, Number(4)];
    assert IsDeclaration(d);
    assert Unparse(d) == toks;
    assert UnparseAll([d]) == toks by { assert [d][1..] == []; }
    ParseRoundTrip([d]);
  }

  /** `declare_var` skips the token after the name without checking that it is `=`. */
  lemma {:induction false} EqualsIsNotChecked()
    ensures DeclareVarAt([Var, Token.Literal("x"), Plus, Number(3)], 0)
         == Ok(Parsed(Define("x", Value(Float(3))), 4))
  {
    var toks := [Var, Token.Literal("x"), Plus, Number(3)];
    TierRoundTrip(EqualityTier, Value(Float(3)), toks, 3);
  }

  /**
    At the end of the tokens `advance` does not move and returns the last token
    again, so `var x` alone declares x as the string "x".
  */
  lemma {:induction false} TrailingNameIsReread()
    ensures ParseAt([Var, Token.Literal("x")], 0)
         == Ok(Parsed(Statements([Define("x", Value(StringT("x")))]), 2))
  {
    var toks := [Var, Token.Literal("x")];
    assert TierAt(TermTier, toks, 2) == Ok(Parsed(Value(StringT("x")), 2));
    assert TierAt(ComparisonTier, toks, 2) == Ok(Parsed(Value(StringT("x")), 2));
    assert TierAt(EqualityTier, toks, 2) == Ok(Parsed(Value(StringT("x")), 2));
    var d := Define("x", Value(StringT("x")));
    assert DeclareVarAt(toks, 0) == Ok(Parsed(d, 2));
    assert StepBackAt(toks, 1) == Ok(Parsed(Token.Literal("x"), 0));
    assert ParseLoop(toks, 2, [d]) == Ok(Parsed(Statements([d]), 2));
    assert [] + [d] == [d];
    assert ParseLoop(toks, 0, []) == ParseLoop(toks, 2, [d]);
  }

  /**
    Whenever `parse` calls it, with a token after `var`, `declare_var`
    succeeds exactly when that token is a Literal and a conditional follows
    the skipped token, read from the end when the list runs out there; the
    declared name is that Literal's text. Otherwise, once the conditional has
    parsed, it fails naming the token it found.
  */
  lemma {:induction false} DeclareVarNeedsName(toks: seq<Token>, p: nat)
    requires p + 1 < |toks|
    ensures var c := if p + 3 <= |toks| then p + 3 else |toks|;
      DeclareVarAt(toks, p).Ok? <==> toks[p + 1].Literal? && TierAt(EqualityTier, toks, c).Ok?
    ensures DeclareVarAt(toks, p).Ok? ==> DeclareVarAt(toks, p).value.result.name == toks[p + 1].text
    ensures var c := if p + 3 <= |toks| then p + 3 else |toks|;
      !toks[p + 1].Literal? && TierAt(EqualityTier, toks, c).Ok? ==>
      DeclareVarAt(toks, p) == Err(NotAName(toks[p + 1]))
  {
  }

  /**
    A `var` as the last token makes `step_back` look past the end, whatever
    came before it.
  */
  lemma {:induction false} TrailingVarFails(toks: seq<Token>, acc: seq<Node>)
    requires |toks| > 0 && toks[|toks| - 1] == Var
    ensures ParseLoop(toks, |toks| - 1, acc) == Err(NoTokenAt(|toks|))
  {
  }

  /** `var` alone fails in `step_back`; a leading token other than `var` gives no statements. */
  lemma {:induction false} TrailingVarExamples()
    ensures ParseAt([Var], 0) == Err(NoTokenAt(1))
    ensures ParseAt([Number(1), Var], 0) == Ok(Parsed(Statements([]), 0))
  {
    TrailingVarFails([Var], []);
  }
}
