/**
  What the parser of src/parser/parser.rs accepts and builds.

  A product is a left-leaning chain of `*` and `/` over numbers; a sum is a
  left-leaning chain of `+` and `-` whose right operands are products.
  Parsing the spelling of a sum gives it back (`SumRoundTrip`); whatever
  `addsub` parses from a non-empty remainder is a sum spelled by exactly the
  tokens it consumed (`SumSound`); and on the spelling of any sum this parser
  and the term tier of mod.rs build the same tree up to the renaming of
  operators (`SameTreeAsTermTier`).
*/
module ArithLemmas {
  import opened Wrappers
  import Ast
  import opened Tokens
  import opened Grammar
  import opened ArithGrammar
  import GrammarLemmas

  // ---------------------------------------------------------------------------
  // Tree shapes and spelling

  /** What `muldiv` builds: numbers joined to the left by `*` and `/`. */
  predicate IsProductNode(n: Node) {
    || n.Value?
    || (n.Binary? && (n.op == Mult || n.op == Div) && IsProductNode(n.left) && n.right.Value?)
  }

  /** What `addsub` builds: products joined to the left by `+` and `-`. */
  predicate IsSumNode(n: Node) {
    || IsProductNode(n)
    || (n.Binary? && (n.op == Add || n.op == Sub) && IsSumNode(n.left) && IsProductNode(n.right))
  }

  /** The token an operator is read from: the mod.rs spelling of the operator of the same name. */
  function ArithSpelling(op: Operator): (t: Token)
    ensures ArithOf(t) == Some(op) && t == Spelling(FromArith(op))
  {
    match op
    case Mult => Asterisk
    case Div => ForwardSlash
    case Sub => Hyphen
    case Add => Plus
  }

  /** The token an operator was read from is its spelling. */
  lemma {:induction false} SpellingOfArithOf(t: Token)
    requires ArithOf(t).Some?
    ensures ArithSpelling(ArithOf(t).value) == t
  {
  }

  /** The tokens that spell a tree. */
  function Unparse(n: Node): seq<Token> {
    match n
    case Binary(op, l, r) => Unparse(l) + [ArithSpelling(op)] + Unparse(r)
    case Unary(op, e) => [ArithSpelling(op)] + Unparse(e)
    case Value(x) => [Number(x)]
  }

  /**
    The tokens from position p on begin with the spelling of n, read piece by
    piece; `SpellsIsSlice` shows that this is toks[p..p + |Unparse(n)|] == Unparse(n).
  */
  predicate Spells(toks: seq<Token>, p: nat, n: Node)
    ensures Spells(toks, p, n) ==> p + |Unparse(n)| <= |toks|
    decreases n
  {
    match n
    case Binary(op, l, r) =>
      && Spells(toks, p, l)
      && p + |Unparse(l)| < |toks| && toks[p + |Unparse(l)|] == ArithSpelling(op)
      && Spells(toks, p + |Unparse(l)| + 1, r)
    case Unary(op, e) => p < |toks| && toks[p] == ArithSpelling(op) && Spells(toks, p + 1, e)
    case Value(x) => p < |toks| && toks[p] == Number(x)
  }

  /** The spelling of a binary node is its left operand's, the operator, then its right operand's. */
  lemma {:induction false} BinaryLength(n: Node)
    requires n.Binary?
    ensures |Unparse(n)| == |Unparse(n.left)| + 1 + |Unparse(n.right)|
  {
  }

  /** At q, the loop of `muldiv` does not go on. */
  predicate ProductStops(toks: seq<Token>, q: nat) {
    q >= |toks| || LoopRank(toks[q]) > 0
  }

  /** At q, neither loop goes on. */
  predicate SumStops(toks: seq<Token>, q: nat) {
    q >= |toks| || LoopRank(toks[q]) > 1
  }

  // ---------------------------------------------------------------------------
  // Parsing the spelling of a tree gives the tree back

  /** One turn of the `muldiv` loop over an operator and a number. */
  lemma {:induction false} ProductLoopStep(toks: seq<Token>, n: Node, q: nat)
    requires n.Binary? && (n.op == Mult || n.op == Div) && n.right.Value?
    requires q + 2 <= |toks| && toks[q] == ArithSpelling(n.op) && toks[q + 1] == Number(n.right.number)
    ensures MulDivLoop(toks, n.left, q) == MulDivLoop(toks, n, q + 2)
  {
  }

  /** After the spelling of a product, the loop of `muldiv` is where it would be after building it. */
  lemma {:induction false} ProductPrefix(n: Node, toks: seq<Token>, p: nat)
    requires IsProductNode(n) && Spells(toks, p, n)
    ensures MulDivAt(toks, p) == MulDivLoop(toks, n, p + |Unparse(n)|)
  {
    if n.Binary? {
      ProductPrefix(n.left, toks, p);
      ProductLoopStep(toks, n, p + |Unparse(n.left)|);
    }
  }

  /** The loop of `muldiv` ends where no `*` or `/` follows. */
  lemma {:induction false} MulDivLoopStops(toks: seq<Token>, acc: Node, e: nat)
    requires e <= |toks| && ProductStops(toks, e)
    ensures MulDivLoop(toks, acc, e) == Ok(Parsed(acc, e))
  {
  }

  /** Parsing the spelling of a product, up to a stopping token, gives the product back. */
  lemma {:induction false} ProductRoundTrip(n: Node, toks: seq<Token>, p: nat)
    requires IsProductNode(n) && Spells(toks, p, n)
    requires ProductStops(toks, p + |Unparse(n)|)
    ensures MulDivAt(toks, p) == Ok(Parsed(n, p + |Unparse(n)|))
  {
    ProductPrefix(n, toks, p);
    MulDivLoopStops(toks, n, p + |Unparse(n)|);
  }

  /** `addsub` starts its loop after the first product. */
  lemma {:induction false} SumOfProduct(toks: seq<Token>, p: nat, n: Node, e: nat)
    requires p <= |toks| && MulDivAt(toks, p) == Ok(Parsed(n, e))
    ensures AddSubAt(toks, p) == AddSubLoop(toks, n, e)
  {
  }

  /** One turn of the `addsub` loop over an operator and a product. */
  lemma {:induction false} SumLoopStep(toks: seq<Token>, n: Node, q: nat, e: nat)
    requires n.Binary? && (n.op == Add || n.op == Sub)
    requires q < |toks| && toks[q] == ArithSpelling(n.op)
    requires MulDivAt(toks, q + 1) == Ok(Parsed(n.right, e))
    ensures AddSubLoop(toks, n.left, q) == AddSubLoop(toks, n, e)
  {
  }

  /** After the spelling of a sum, the loop of `addsub` is where it would be after building it. */
  lemma {:induction false} SumPrefix(n: Node, toks: seq<Token>, p: nat)
    requires IsSumNode(n) && Spells(toks, p, n)
    requires ProductStops(toks, p + |Unparse(n)|)
    ensures AddSubAt(toks, p) == AddSubLoop(toks, n, p + |Unparse(n)|)
    decreases n, 1
  {
    if n.Binary? && (n.op == Add || n.op == Sub) {
      BinaryLength(n);
      SumPrefixBinary(n, toks, p, p + |Unparse(n.left)|, p + |Unparse(n)|);
    } else {
      ProductRoundTrip(n, toks, p);
      SumOfProduct(toks, p, n, p + |Unparse(n)|);
    }
  }

  /** SumPrefix for a node built by the loop of `addsub`, its spelling taken apart at q. */
  lemma {:induction false} SumPrefixBinary(n: Node, toks: seq<Token>, p: nat, q: nat, e: nat)
    requires n.Binary? && (n.op == Add || n.op == Sub) && IsSumNode(n.left) && IsProductNode(n.right)
    requires q == p + |Unparse(n.left)| && e == q + 1 + |Unparse(n.right)|
    requires Spells(toks, p, n.left) && q < |toks| && toks[q] == ArithSpelling(n.op)
    requires Spells(toks, q + 1, n.right) && ProductStops(toks, e)
    ensures AddSubAt(toks, p) == AddSubLoop(toks, n, e)
    decreases n, 0
  {
    AdditiveStopsProduct(toks, q);
    SumPrefix(n.left, toks, p);
    SumLoopStepProduct(toks, n, q, e);
  }

  /** One turn of the `addsub` loop over an operator and the spelling of a product. */
  lemma {:induction false} SumLoopStepProduct(toks: seq<Token>, n: Node, q: nat, e: nat)
    requires n.Binary? && (n.op == Add || n.op == Sub) && IsProductNode(n.right)
    requires q < |toks| && toks[q] == ArithSpelling(n.op) && Spells(toks, q + 1, n.right)
    requires e == q + 1 + |Unparse(n.right)| && ProductStops(toks, e)
    ensures AddSubLoop(toks, n.left, q) == AddSubLoop(toks, n, e)
  {
    ProductRoundTrip(n.right, toks, q + 1);
    SumLoopStep(toks, n, q, e);
  }

  /** A `+` or `-` ends the product before it. */
  lemma {:induction false} AdditiveStopsProduct(toks: seq<Token>, q: nat)
    requires q < |toks| && (toks[q] == Plus || toks[q] == Hyphen)
    ensures ProductStops(toks, q)
  {
  }

  /** The loop of `addsub` ends where no operator of either loop follows. */
  lemma {:induction false} AddSubLoopStops(toks: seq<Token>, acc: Node, e: nat)
    requires e <= |toks| && SumStops(toks, e)
    ensures AddSubLoop(toks, acc, e) == Ok(Parsed(acc, e))
  {
  }

  /** Parsing the spelling of a sum, up to a stopping token, gives the sum back. */
  lemma {:induction false} SumRoundTrip(n: Node, toks: seq<Token>, p: nat)
    requires IsSumNode(n) && Spells(toks, p, n)
    requires SumStops(toks, p + |Unparse(n)|)
    ensures AddSubAt(toks, p) == Ok(Parsed(n, p + |Unparse(n)|))
  {
    SumPrefix(n, toks, p);
    AddSubLoopStops(toks, n, p + |Unparse(n)|);
  }

  // ---------------------------------------------------------------------------
  // Whatever `addsub` parses is a sum spelled by the tokens it consumed

  /** At the end, `primary` re-reads the last token; unless that is a Number it fails. */
  lemma {:induction false} PrimaryAtEndFails(toks: seq<Token>)
    requires |toks| > 0 && !toks[|toks| - 1].Number?
    ensures ArithGrammar.PrimaryAt(toks, |toks|).Err? && MulDivAt(toks, |toks|).Err?
  {
  }

  lemma {:induction false} PrimarySound(toks: seq<Token>, p: nat)
    requires p < |toks| && ArithGrammar.PrimaryAt(toks, p).Ok?
    ensures var r := ArithGrammar.PrimaryAt(toks, p).value;
      r.result == Value(toks[p].value) && r.next == p + 1 && Spells(toks, p, r.result)
  {
  }

  /** One turn of the `muldiv` loop extends the product and its spelling by two tokens. */
  lemma {:induction false} ProductLoopSoundStep(toks: seq<Token>, acc: Node, s: nat, p: nat) returns (n: Node)
    requires p <= |toks| && MulDivLoop(toks, acc, p).Ok? && MatchesAt(toks, p, MulDivPattern)
    requires IsProductNode(acc) && Spells(toks, s, acc) && p == s + |Unparse(acc)|
    ensures p + 2 <= |toks| && MulDivLoop(toks, n, p + 2) == MulDivLoop(toks, acc, p)
    ensures IsProductNode(n) && Spells(toks, s, n) && p + 2 == s + |Unparse(n)|
  {
    if p + 1 == |toks| {
      PrimaryAtEndFails(toks);
    }
    PrimarySound(toks, p + 1);
    SpellingOfArithOf(toks[p]);
    n := Binary(ArithOf(toks[p]).value, acc, Value(toks[p + 1].value));
  }

  lemma {:induction false} ProductLoopSound(toks: seq<Token>, acc: Node, s: nat, p: nat)
    requires p <= |toks| && MulDivLoop(toks, acc, p).Ok?
    requires IsProductNode(acc) && Spells(toks, s, acc) && p == s + |Unparse(acc)|
    ensures var r := MulDivLoop(toks, acc, p).value;
      && IsProductNode(r.result) && Spells(toks, s, r.result)
      && r.next == s + |Unparse(r.result)| && ProductStops(toks, r.next)
    decreases |toks| - p
  {
    if MatchesAt(toks, p, MulDivPattern) {
      var n := ProductLoopSoundStep(toks, acc, s, p);
      ProductLoopSound(toks, n, s, p + 2);
    } else {
      UnmatchedStopsProduct(toks, p);
    }
  }

  /** Where the `muldiv` loop does not match, no product goes on. */
  lemma {:induction false} UnmatchedStopsProduct(toks: seq<Token>, p: nat)
    requires !MatchesAt(toks, p, MulDivPattern)
    ensures ProductStops(toks, p)
  {
  }

  /** The parse of a non-empty remainder by `muldiv` is a product spelled by the consumed tokens. */
  lemma {:induction false} ProductSound(toks: seq<Token>, p: nat)
    requires p < |toks| && MulDivAt(toks, p).Ok?
    ensures var r := MulDivAt(toks, p).value;
      && IsProductNode(r.result) && Spells(toks, p, r.result)
      && r.next == p + |Unparse(r.result)| && ProductStops(toks, r.next)
  {
    PrimarySound(toks, p);
    ProductLoopSound(toks, Value(toks[p].value), p, p + 1);
  }

  /** One turn of the `addsub` loop extends the sum and its spelling by an operator and a product. */
  lemma {:induction false} SumLoopSoundStep(toks: seq<Token>, acc: Node, s: nat, p: nat) returns (n: Node, q: nat)
    requires p <= |toks| && AddSubLoop(toks, acc, p).Ok? && MatchesAt(toks, p, AddSubPattern)
    requires IsSumNode(acc) && Spells(toks, s, acc) && p == s + |Unparse(acc)|
    ensures p < q <= |toks| && AddSubLoop(toks, n, q) == AddSubLoop(toks, acc, p)
    ensures IsSumNode(n) && Spells(toks, s, n) && q == s + |Unparse(n)| && ProductStops(toks, q)
  {
    if p + 1 == |toks| {
      PrimaryAtEndFails(toks);
    }
    var right := MulDivAt(toks, p + 1).value;
    ProductSound(toks, p + 1);
    SpellingOfArithOf(toks[p]);
    n, q := Binary(ArithOf(toks[p]).value, acc, right.result), right.next;
  }

  lemma {:induction false} SumLoopSound(toks: seq<Token>, acc: Node, s: nat, p: nat)
    requires p <= |toks| && AddSubLoop(toks, acc, p).Ok?
    requires IsSumNode(acc) && Spells(toks, s, acc) && p == s + |Unparse(acc)|
    requires ProductStops(toks, p)
    ensures var r := AddSubLoop(toks, acc, p).value;
      && IsSumNode(r.result) && Spells(toks, s, r.result)
      && r.next == s + |Unparse(r.result)| && SumStops(toks, r.next)
    decreases |toks| - p
  {
    if MatchesAt(toks, p, AddSubPattern) {
      var n, q := SumLoopSoundStep(toks, acc, s, p);
      SumLoopSound(toks, n, s, q);
    }
  }

  /** The parse of a non-empty remainder by `addsub` is a sum spelled by the consumed tokens. */
  lemma {:induction false} SumSound(toks: seq<Token>, p: nat)
    requires p < |toks| && AddSubAt(toks, p).Ok?
    ensures var r := AddSubAt(toks, p).value;
      && IsSumNode(r.result) && Spells(toks, p, r.result)
      && r.next == p + |Unparse(r.result)| && SumStops(toks, r.next)
  {
    var first := MulDivAt(toks, p).value;
    ProductSound(toks, p);
    SumLoopSound(toks, first.result, p, first.next);
  }

  // ---------------------------------------------------------------------------
  // Consequences

  predicate HasUnary(n: Node) {
    match n
    case Binary(_, l, r) => HasUnary(l) || HasUnary(r)
    case Unary(_, _) => true
    case Value(_) => false
  }

  lemma {:induction false} SumHasNoUnary(n: Node)
    requires IsSumNode(n)
    ensures !HasUnary(n)
  {
    if n.Binary? {
      SumHasNoUnary(n.left);
      SumHasNoUnary(n.right);
    }
  }

  /** `parse` never negates: `unary` has no caller, so no tree it builds holds a Unary node. */
  lemma {:induction false} ParseNeverNegates(toks: seq<Token>, p: nat)
    requires p < |toks| && AddSubAt(toks, p).Ok?
    ensures !HasUnary(AddSubAt(toks, p).value.result)
  {
    SumSound(toks, p);
    SumHasNoUnary(AddSubAt(toks, p).value.result);
  }

  /** A leading `-` is not a number, so `- 3` does not parse. */
  lemma {:induction false} LeadingMinusFails()
    ensures AddSubAt([Hyphen, Number(3)], 0) == Err(NotAPrimary(Hyphen))
  {
  }

  /** `unary` itself negates one primary. */
  lemma {:induction false} UnaryNegatesOnePrimary()
    ensures ArithGrammar.UnaryAt([Hyphen, Number(3)], 0) == Ok(Parsed(Unary(Sub, Value(3)), 2))
  {
  }

  /** A number, or one number negated: the trees `unary` builds. */
  predicate IsUnaryNode(n: Node) {
    n.Value? || (n.Unary? && n.op == Sub && n.operand.Value?)
  }

  /**
    From a cursor before the end, whatever `unary` parses is a number or one
    negated number, spelled by exactly the tokens it consumed.
  */
  lemma {:induction false} UnarySound(toks: seq<Token>, p: nat)
    requires p < |toks| && ArithGrammar.UnaryAt(toks, p).Ok?
    ensures var r := ArithGrammar.UnaryAt(toks, p).value;
      IsUnaryNode(r.result) && Spells(toks, p, r.result) && r.next == p + |Unparse(r.result)|
  {
    if MatchesAt(toks, p, {Hyphen}) {
      if p + 1 == |toks| {
        PrimaryAtEndFails(toks);
      }
      PrimarySound(toks, p + 1);
    } else {
      PrimarySound(toks, p);
    }
  }

  /** `unary` reads back a number or one negated number from its spelling. */
  lemma {:induction false} UnaryReadsSpelling(toks: seq<Token>, p: nat, n: Node)
    requires IsUnaryNode(n) && Spells(toks, p, n)
    ensures ArithGrammar.UnaryAt(toks, p) == Ok(Parsed(n, p + |Unparse(n)|))
  {
    if n.Unary? {
      assert ArithOf(toks[p]) == Some(Sub);
    }
  }

  /** `addsub` reads back a sum of products from exactly the sum's spelling. */
  lemma {:induction false} SumReadsSpelling(n: Node)
    requires IsSumNode(n)
    ensures AddSubAt(Unparse(n), 0) == Ok(Parsed(n, |Unparse(n)|))
  {
    var toks := Unparse(n);
    GrammarLemmas.HoldsWhole(toks);
    SpellsIsSlice(toks, 0, n);
    SumRoundTrip(n, toks, 0);
  }

  /** `8 - 3 * 2 - 1` is `(8 - (3 * 2)) - 1`. */
  lemma {:induction false} MixedExample(toks: seq<Token>)
    requires toks == [Number(8), Hyphen, Number(3), Asterisk, Number(2), Hyphen, Number(1)]
    ensures AddSubAt(toks, 0)
         == Ok(Parsed(Binary(Sub, Binary(Sub, Value(8), Binary(Mult, Value(3), Value(2))), Value(1)), 7))
  {
    var n := Binary(Sub, Binary(Sub, Value(8), Binary(Mult, Value(3), Value(2))), Value(1));
    assert IsSumNode(n);
    assert Unparse(n) == toks;
    SumReadsSpelling(n);
  }

  // ---------------------------------------------------------------------------
  // Agreement with mod.rs

  /** The same tree over the mod.rs node and operator types. */
  function Lift(n: Node): (m: Ast.Node) {
    match n
    case Binary(op, l, r) => Ast.Binary(FromArith(op), Lift(l), Lift(r))
    case Unary(op, e) => Ast.Unary(FromArith(op), Lift(e))
    case Value(x) => Ast.Value(Ast.Float(x))
  }

  /** A tree and its lifted copy have the same spelling. */
  lemma {:induction false} LiftUnparse(n: Node)
    ensures GrammarLemmas.Unparse(Lift(n)) == Unparse(n)
  {
    match n
    case Binary(_, l, r) =>
      LiftUnparse(l);
      LiftUnparse(r);
    case Unary(_, e) =>
      LiftUnparse(e);
    case Value(_) =>
  }

  /** A tree is spelled where its lifted copy is. */
  lemma {:induction false} LiftSpells(toks: seq<Token>, p: nat, n: Node)
    ensures Spells(toks, p, n) <==> GrammarLemmas.Spells(toks, p, Lift(n))
    decreases n
  {
    match n
    case Binary(op, l, r) =>
      LiftUnparse(l);
      LiftSpells(toks, p, l);
      LiftSpells(toks, p + |Unparse(l)| + 1, r);
      LiftSpellsBinary(toks, p, op, l, r);
    case Unary(_, e) =>
      LiftSpells(toks, p + 1, e);
    case Value(_) =>
  }

  /** LiftSpells for a binary node, from LiftSpells for its operands. */
  lemma {:induction false} LiftSpellsBinary(toks: seq<Token>, p: nat, op: Operator, l: Node, r: Node)
    requires GrammarLemmas.Unparse(Lift(l)) == Unparse(l)
    requires Spells(toks, p, l) <==> GrammarLemmas.Spells(toks, p, Lift(l))
    requires Spells(toks, p + |Unparse(l)| + 1, r) <==> GrammarLemmas.Spells(toks, p + |Unparse(l)| + 1, Lift(r))
    ensures Spells(toks, p, Binary(op, l, r)) <==> GrammarLemmas.Spells(toks, p, Lift(Binary(op, l, r)))
  {
    var q := p + |Unparse(l)|;
    var m := Lift(Binary(op, l, r));
    assert m.left == Lift(l) && m.right == Lift(r) && Spelling(m.op) == ArithSpelling(op);
  }

  /** Reading a tree's spelling piece by piece is finding it whole in the slice it covers. */
  lemma {:induction false} SpellsIsSlice(toks: seq<Token>, p: nat, n: Node)
    ensures Spells(toks, p, n) <==> GrammarLemmas.HoldsAt(toks, p, Unparse(n))
  {
    LiftSpells(toks, p, n);
    LiftUnparse(n);
    GrammarLemmas.SpellsIsSlice(toks, p, Lift(n));
  }

  lemma {:induction false} LiftProduct(n: Node)
    requires IsProductNode(n)
    ensures GrammarLemmas.IsTierNode(FactorTier, Lift(n))
  {
    if n.Binary? {
      LiftProduct(n.left);
    }
  }

  lemma {:induction false} LiftSum(n: Node)
    requires IsSumNode(n)
    ensures GrammarLemmas.IsTierNode(TermTier, Lift(n))
  {
    if IsProductNode(n) {
      LiftProduct(n);
    } else {
      LiftSum(n.left);
      LiftProduct(n.right);
    }
  }

  /**
    On the spelling of any sum, `addsub` here and `term` in mod.rs consume the
    same tokens and build the same tree, operators renamed.
  */
  lemma {:induction false} SameTreeAsTermTier(n: Node, toks: seq<Token>, p: nat)
    requires IsSumNode(n) && Spells(toks, p, n)
    requires SumStops(toks, p + |Unparse(n)|)
    ensures AddSubAt(toks, p) == Ok(Parsed(n, p + |Unparse(n)|))
    ensures TierAt(TermTier, toks, p) == Ok(Parsed(Lift(n), p + |Unparse(n)|))
  {
    SumRoundTrip(n, toks, p);
    LiftSum(n);
    LiftUnparse(n);
    LiftSpells(toks, p, n);
    GrammarLemmas.TierRoundTrip(TermTier, Lift(n), toks, p);
  }
}
