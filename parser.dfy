/**
  The `Parser` of src/parser/mod.rs: a token list and a cursor that the
  methods move forward (and, in `step_back`, back). Each method is proved
  against the function of the same name in Grammar: on success it returns what
  that function builds and leaves the cursor where that function says, and on
  failure it returns the error the source panics with.
*/
module Parser {
  import opened Wrappers
  import opened Ast
  import opened Tokens
  import opened Grammar

  class Parser {
    const tokens: seq<Token>
    var counter: nat

    /** The cursor never passes the end of the tokens. */
    ghost predicate Valid()
      reads this
    {
      counter <= |tokens|
    }

    constructor(tokens: seq<Token>)
      ensures this.tokens == tokens && counter == 0 && Valid()
    {
      this.tokens := tokens;
      counter := 0;
    }

    /** The token after the cursor; the source panics when there is none. */
    method PeekToken() returns (r: Result<Token, ParseError>)
      ensures r.Ok? <==> counter + 1 < |tokens|
      ensures r.Ok? ==> r.value == tokens[counter + 1]
      ensures r.Err? ==> r.error == NoTokenAt(counter + 1)
    {
      if counter + 1 < |tokens| {
        r := Ok(tokens[counter + 1]);
      } else {
        r := Err(NoTokenAt(counter + 1));
      }
    }

    /** Step forward unless at the end, then return the token before the cursor. */
    method Advance() returns (r: Result<Token, ParseError>)
      requires Valid()
      modifies this
      ensures Valid() && Agrees(r, counter, AdvanceAt(tokens, old(counter)))
      ensures r.Err? ==> counter == old(counter)
    {
      var atEnd := IsAtEnd();
      if !atEnd {
        counter := counter + 1;
      }
      r := Previous();
    }

    /** The token before the cursor; the source underflows at 0. */
    method Previous() returns (r: Result<Token, ParseError>)
      requires Valid()
      ensures r.Ok? <==> counter > 0
      ensures r.Ok? ==> r.value == tokens[counter - 1]
      ensures r.Err? ==> r.error == NoPreviousToken
    {
      if counter == 0 {
        r := Err(NoPreviousToken);
      } else {
        r := Ok(tokens[counter - 1]);
      }
    }

    /** The token under the cursor; only called when the cursor is not at the end. */
    method Current() returns (t: Token)
      requires counter < |tokens|
      ensures t == tokens[counter]
    {
      t := tokens[counter];
    }

    method IsAtEnd() returns (b: bool)
      ensures b <==> counter == |tokens|
    {
      b := counter == |tokens|;
    }

    /** Consume the token under the cursor exactly when it is in the pattern. */
    method Matches(pattern: set<Token>) returns (b: bool)
      requires Valid()
      modifies this
      ensures Valid() && b == MatchesAt(tokens, old(counter), pattern)
      ensures counter == if b then old(counter) + 1 else old(counter)
    {
      var atEnd := IsAtEnd();
      if atEnd {
        return false;
      }
      var t := Current();
      if t in pattern {
        var _ := Advance();
        return true;
      }
      return false;
    }

    /** Step back unless at 0, then peek at the token after the cursor. */
    method StepBack() returns (r: Result<Token, ParseError>)
      requires Valid()
      modifies this
      ensures Valid() && Agrees(r, counter, StepBackAt(tokens, old(counter)))
      ensures counter == if old(counter) != 0 then old(counter) - 1 else 0
    {
      if counter != 0 {
        counter := counter - 1;
      }
      r := PeekToken();
    }

    /**
      `parse`: while the cursor is on `var`, step back onto it and declare a
      variable; the declarations, in order, are the statements.
    */
    method Parse() returns (r: Result<Node, ParseError>)
      requires Valid()
      modifies this
      ensures Valid() && Agrees(r, counter, ParseAt(tokens, old(counter)))
    {
      var statements := [];
      while true
        invariant Valid()
        invariant ParseAt(tokens, old(counter)) == ParseLoop(tokens, counter, statements)
        decreases |tokens| - counter
      {
        ghost var p := counter;
        var m := Matches({Var});
        if !m {
          return Ok(Statements(statements));
        }
        var back := StepBack();
        if back.Err? {
          return Err(back.error);
        }
        var d := DeclareVar();
        if d.Err? {
          return Err(d.error);
        }
        statements := statements + [d.value];
        assert p < counter;
      }
    }

    /**
      `declare_var`: skip `var`, take the name, skip the next token unchecked,
      parse a conditional, then require the name to be a Literal.
    */
    method DeclareVar() returns (r: Result<Node, ParseError>)
      requires Valid()
      modifies this
      ensures Valid() && Agrees(r, counter, DeclareVarAt(tokens, old(counter)))
    {
      var skipVar := Advance();
      if skipVar.Err? {
        return Err(skipVar.error);
      }
      // The first step succeeded, so the tokens are not empty and these two cannot fail.
      var name := Advance();
      var _ := Advance();
      var expr := Conditional();
      if expr.Err? {
        return Err(expr.error);
      }
      if name.value.Literal? {
        return Ok(Define(name.value.text, expr.value));
      }
      return Err(NotAName(name.value));
    }

    /** `conditional`: comparisons joined left to right by `!=` and `==`. */
    method Conditional() returns (r: Result<Node, ParseError>)
      requires Valid()
      modifies this
      ensures Valid() && Agrees(r, counter, TierAt(EqualityTier, tokens, old(counter)))
    {
      var first := Compare();
      if first.Err? {
        return Err(first.error);
      }
      var node := first.value;
      while true
        invariant Valid()
        invariant TierAt(EqualityTier, tokens, old(counter)) == TierLoop(EqualityTier, tokens, node, counter)
        decreases |tokens| - counter
      {
        var m := Matches({Token.NotEquals, Token.EqualsEquals});
        if !m {
          return Ok(node);
        }
        var previous := Previous();
        var right := Compare();
        if right.Err? {
          return Err(right.error);
        }
        node := Binary(OperatorOf(previous.value).value, node, right.value);
      }
    }

    /** `compare`: terms joined left to right by `>`, `>=`, `<=` and `<`. */
    method Compare() returns (r: Result<Node, ParseError>)
      requires Valid()
      modifies this
      ensures Valid() && Agrees(r, counter, TierAt(ComparisonTier, tokens, old(counter)))
    {
      var first := Term();
      if first.Err? {
        return Err(first.error);
      }
      var node := first.value;
      while true
        invariant Valid()
        invariant TierAt(ComparisonTier, tokens, old(counter)) == TierLoop(ComparisonTier, tokens, node, counter)
        decreases |tokens| - counter
      {
        var m := Matches({Gre, GreEq, LesEq, Token.Less});
        if !m {
          return Ok(node);
        }
        var previous := Previous();
        var right := Term();
        if right.Err? {
          return Err(right.error);
        }
        node := Binary(OperatorOf(previous.value).value, node, right.value);
      }
    }

    /** `term`: factors joined left to right by `+` and `-`. */
    method Term() returns (r: Result<Node, ParseError>)
      requires Valid()
      modifies this
      ensures Valid() && Agrees(r, counter, TierAt(TermTier, tokens, old(counter)))
    {
      var first := Factor();
      if first.Err? {
        return Err(first.error);
      }
      var node := first.value;
      while true
        invariant Valid()
        invariant TierAt(TermTier, tokens, old(counter)) == TierLoop(TermTier, tokens, node, counter)
        decreases |tokens| - counter
      {
        var m := Matches({Plus, Hyphen});
        if !m {
          return Ok(node);
        }
        var previous := Previous();
        var right := Factor();
        if right.Err? {
          return Err(right.error);
        }
        node := Binary(OperatorOf(previous.value).value, node, right.value);
      }
    }

    /** `factor`: unary operands joined left to right by `*` and `/`. */
    method Factor() returns (r: Result<Node, ParseError>)
      requires Valid()
      modifies this
      ensures Valid() && Agrees(r, counter, TierAt(FactorTier, tokens, old(counter)))
    {
      var first := Unary();
      if first.Err? {
        return Err(first.error);
      }
      var node := first.value;
      while true
        invariant Valid()
        invariant TierAt(FactorTier, tokens, old(counter)) == TierLoop(FactorTier, tokens, node, counter)
        decreases |tokens| - counter
      {
        var m := Matches({Asterisk, ForwardSlash});
        if !m {
          return Ok(node);
        }
        var previous := Previous();
        var right := Unary();
        if right.Err? {
          return Err(right.error);
        }
        node := Binary(OperatorOf(previous.value).value, node, right.value);
      }
    }

    /** `unary`: an optional `-` in front of one primary. */
    method Unary() returns (r: Result<Node, ParseError>)
      requires Valid()
      modifies this
      ensures Valid() && Agrees(r, counter, UnaryAt(tokens, old(counter)))
    {
      var m := Matches({Hyphen});
      if m {
        var previous := Previous();
        var right := Primary();
        if right.Err? {
          return Err(right.error);
        }
        return Ok(Node.Unary(OperatorOf(previous.value).value, right.value));
      }
      r := Primary();
    }

    /** `primary`: the token `advance` returns must be a Literal or a Number. */
    method Primary() returns (r: Result<Node, ParseError>)
      requires Valid()
      modifies this
      ensures Valid() && Agrees(r, counter, PrimaryAt(tokens, old(counter)))
    {
      var t := Advance();
      if t.Err? {
        return Err(t.error);
      }
      match t.value
      case Literal(x) => return Ok(Value(StringT(x)));
      case Number(x) => return Ok(Value(Float(x)));
      case _ => return Err(NotAPrimary(t.value));
    }
  }
}
