/**
  The `Parser` of src/parser/parser.rs: the arithmetic-only parser, with a
  token list and a cursor that its methods move forward. Each method is proved
  against the function of the same name in ArithGrammar (or, for the cursor
  primitives, in Grammar): on success it returns what that function builds and
  leaves the cursor where that function says, and on failure it returns the
  error the source panics with.
*/
module ArithParser {
  import opened Wrappers
  import opened Tokens
  import opened Grammar
  import opened ArithGrammar

  class Parser {
    const tokens: seq<Token>
    var counter: nat

    /** The cursor never passes the end of the tokens. */
    ghost predicate Valid()
      reads this
    {
      counter <= |tokens|
    }

    constructor(tokens: seq<Token>)
      ensures this.tokens == tokens && counter == 0 && Valid()
    {
      this.tokens := tokens;
      counter := 0;
    }

    /** The token after the cursor (no caller in the source); it panics when there is none. */
    method PeekToken() returns (r: Result<Token, ParseError>)
      ensures r.Ok? <==> counter + 1 < |tokens|
      ensures r.Ok? ==> r.value == tokens[counter + 1]
      ensures r.Err? ==> r.error == NoTokenAt(counter + 1)
    {
      if counter + 1 < |tokens| {
        r := Ok(tokens[counter + 1]);
      } else {
        r := Err(NoTokenAt(counter + 1));
      }
    }

    /** `next_token`: step forward unless at the end, then return the token before the cursor. */
    method NextToken() returns (r: Result<Token, ParseError>)
      requires Valid()
      modifies this
      ensures Valid() && Agrees(r, counter, AdvanceAt(tokens, old(counter)))
      ensures r.Err? ==> counter == old(counter)
    {
      var atEnd := AtEnd();
      if !atEnd {
        counter := counter + 1;
      }
      r := PreviousToken();
    }

    /** `previous_token`: the token before the cursor; the source underflows at 0. */
    method PreviousToken() returns (r: Result<Token, ParseError>)
      requires Valid()
      ensures r.Ok? <==> counter > 0
      ensures r.Ok? ==> r.value == tokens[counter - 1]
      ensures r.Err? ==> r.error == NoPreviousToken
    {
      if counter == 0 {
        r := Err(NoPreviousToken);
      } else {
        r := Ok(tokens[counter - 1]);
      }
    }

    /** The token under the cursor; only called when the cursor is not at the end. */
    method Current() returns (t: Token)
      requires counter < |tokens|
      ensures t == tokens[counter]
    {
      t := tokens[counter];
    }

    method AtEnd() returns (b: bool)
      ensures b <==> counter == |tokens|
    {
      b := counter == |tokens|;
    }

    /** Consume the token under the cursor exactly when it is in the pattern. */
    method Matches(pattern: set<Token>) returns (b: bool)
      requires Valid()
      modifies this
      ensures Valid() && b == MatchesAt(tokens, old(counter), pattern)
      ensures counter == if b then old(counter) + 1 else old(counter)
    {
      var atEnd := AtEnd();
      if atEnd {
        return false;
      }
      var t := Current();
      if t in pattern {
        var _ := NextToken();
        return true;
      }
      return false;
    }

    /** `parse` is `addsub`. */
    method Parse() returns (r: Result<Node, ParseError>)
      requires Valid()
      modifies this
      ensures Valid() && Agrees(r, counter, AddSubAt(tokens, old(counter)))
    {
      r := AddSub();
    }

    /** `addsub`: products joined left to right by `+` and `-`. */
    method AddSub() returns (r: Result<Node, ParseError>)
      requires Valid()
      modifies this
      ensures Valid() && Agrees(r, counter, AddSubAt(tokens, old(counter)))
    {
      var first := MulDiv();
      if first.Err? {
        return Err(first.error);
      }
      var node := first.value;
      while true
        invariant Valid()
        invariant AddSubAt(tokens, old(counter)) == AddSubLoop(tokens, node, counter)
        decreases |tokens| - counter
      {
        var m := Matches(AddSubPattern);
        if !m {
          return Ok(node);
        }
        var previous := PreviousToken();
        var right := MulDiv();
        if right.Err? {
          return Err(right.error);
        }
        node := Binary(ArithOf(previous.value).value, node, right.value);
      }
    }

    /** `muldiv`: primaries joined left to right by `*` and `/`. */
    method MulDiv() returns (r: Result<Node, ParseError>)
      requires Valid()
      modifies this
      ensures Valid() && Agrees(r, counter, MulDivAt(tokens, old(counter)))
    {
      var first := Primary();
      if first.Err? {
        return Err(first.error);
      }
      var node := first.value;
      while true
        invariant Valid()
        invariant MulDivAt(tokens, old(counter)) == MulDivLoop(tokens, node, counter)
        decreases |tokens| - counter
      {
        var m := Matches(MulDivPattern);
        if !m {
          return Ok(node);
        }
        var previous := PreviousToken();
        var right := Primary();
        if right.Err? {
          return Err(right.error);
        }
        node := Binary(ArithOf(previous.value).value, node, right.value);
      }
    }

    /** `unary`: an optional `-` in front of one primary (no caller in the source). */
    method Unary() returns (r: Result<Node, ParseError>)
      requires Valid()
      modifies this
      ensures Valid() && Agrees(r, counter, ArithGrammar.UnaryAt(tokens, old(counter)))
    {
      var m := Matches({Hyphen});
      if m {
        var previous := PreviousToken();
        var right := Primary();
        if right.Err? {
          return Err(right.error);
        }
        return Ok(Node.Unary(ArithOf(previous.value).value, right.value));
      }
      r := Primary();
    }

    /** `primary`: the token `next_token` returns must be a Number. */
    method Primary() returns (r: Result<Node, ParseError>)
      requires Valid()
      modifies this
      ensures Valid() && Agrees(r, counter, ArithGrammar.PrimaryAt(tokens, old(counter)))
    {
      var t := NextToken();
      if t.Err? {
        return Err(t.error);
      }
      if t.value.Number? {
        return Ok(Value(t.value.value));
      }
      return Err(NotAPrimary(t.value));
    }
  }
}
