/**
  The character-level lexer of src/parser/lexer.rs.

  `Lex` is the source's cursor loop. It is proved against `LexSpec`, whose
  successful case is `Tokenize`: drop the spaces, then read each run of digits
  as one decimal number and each operator or parenthesis as one token. The
  lemmas below say what that means for the output.
*/
module Lexer {
  import opened Wrappers
  import opened Tokens

  /** The source panics on the first character it cannot lex; here that is an error value. */
  datatype LexError = InvalidCharacter(c: char, at: nat)

  predicate IsDigit(c: char) {
    '0' <= c <= '9'
  }

  function DigitValue(c: char): (d: nat)
    requires IsDigit(c)
    ensures d < 10
  {
    (c as int) - ('0' as int)
  }

  /** The token of one of the six single-character symbols `/ * + - ( )`. */
  function SymbolToken(c: char): Option<Token> {
    match c
    case '/' => Some(ForwardSlash)
    case '*' => Some(Asterisk)
    case '+' => Some(Plus)
    case '-' => Some(Hyphen)
    case '(' => Some(OpenParen)
    case ')' => Some(CloseParen)
    case _ => None
  }

  predicate IsSymbol(c: char) {
    SymbolToken(c).Some?
  }

  predicate IsValidChar(c: char) {
    IsSymbol(c) || c == ' ' || IsDigit(c)
  }

  predicate AllValid(s: seq<char>) {
    forall i :: 0 <= i < |s| ==> IsValidChar(s[i])
  }

  /** Characters that produce output: symbols and digits. */
  predicate Groupable(s: seq<char>) {
    forall i :: 0 <= i < |s| ==> IsSymbol(s[i]) || IsDigit(s[i])
  }

  /** The tokens the lexer can ever produce. */
  predicate IsLexerToken(t: Token) {
    t.Number? || t in {ForwardSlash, Asterisk, Plus, Hyphen, OpenParen, CloseParen}
  }

  /** Position of the first character that is not valid, or |s| when all are. */
  function FirstInvalid(s: seq<char>): (k: nat)
    ensures k <= |s|
    ensures AllValid(s[..k])
    ensures k < |s| ==> !IsValidChar(s[k])
  {
    if s == [] then 0
    else if !IsValidChar(s[0]) then 0
    else
      var k := FirstInvalid(s[1..]);
      assert s[..k + 1] == [s[0]] + s[1..][..k];
      k + 1
  }

  /** The input with every space removed. */
  function Strip(s: seq<char>): (r: seq<char>)
    ensures |r| <= |s|
    ensures forall i :: 0 <= i < |r| ==> r[i] != ' ' && r[i] in s
    ensures AllValid(s) ==> Groupable(r)
  {
    if s == [] then []
    else if s[|s| - 1] == ' ' then Strip(s[..|s| - 1])
    else Strip(s[..|s| - 1]) + [s[|s| - 1]]
  }

  /** Length of the run of digits at the front of s. */
  function DigitRun(s: seq<char>): (n: nat)
    ensures n <= |s|
    ensures forall i :: 0 <= i < n ==> IsDigit(s[i])
    ensures n < |s| ==> !IsDigit(s[n])
  {
    if s != [] && IsDigit(s[0]) then 1 + DigitRun(s[1..]) else 0
  }

  /** The base-10 value of a string of digits. */
  function DecimalValue(ds: seq<char>): nat
    requires forall i :: 0 <= i < |ds| ==> IsDigit(ds[i])
  {
    if ds == [] then 0 else DecimalValue(ds[..|ds| - 1]) * 10 + DigitValue(ds[|ds| - 1])
  }

  /** Each maximal run of digits becomes one Number, each symbol its own token. */
  function Group(s: seq<char>): seq<Token>
    requires Groupable(s)
    decreases |s|
  {
    if s == [] then []
    else if IsDigit(s[0]) then
      var n := DigitRun(s);
      [Number(DecimalValue(s[..n]))] + Group(s[n..])
    else
      [SymbolToken(s[0]).value] + Group(s[1..])
  }

  /** What the lexer produces for an input made only of valid characters. */
  function Tokenize(s: seq<char>): seq<Token>
    requires AllValid(s)
  {
    Group(Strip(s))
  }

  /** The lexer's outcome: the tokens, or the first character it cannot lex. */
  function LexSpec(s: seq<char>): (r: Result<seq<Token>, LexError>)
    ensures r.Ok? <==> AllValid(s)
    ensures r.Err? ==> r.error.at < |s| && r.error.c == s[r.error.at] && !IsValidChar(r.error.c)
  {
    var k := FirstInvalid(s);
    if k < |s| then Err(InvalidCharacter(s[k], k)) else Ok(Tokenize(s))
  }

  /** The source's rule for a digit d: extend a trailing Number in place, else start a new one. */
  function PushDigit(out: seq<Token>, d: nat): seq<Token> {
    if |out| > 0 && out[|out| - 1].Number? then
      out[|out| - 1 := Number(out[|out| - 1].value * 10 + d)]
    else
      out + [Number(d)]
  }

  /** The loop of lex: one pass of a cursor over the input, growing `out`. */
  method Lex(input: seq<char>) returns (r: Result<seq<Token>, LexError>)
    ensures r == LexSpec(input)
  {
    var out: seq<Token> := [];
    var cursor := 0;
    while cursor < |input|
      invariant cursor <= |input|
      invariant AllValid(input[..cursor])
      invariant out == Tokenize(input[..cursor])
    {
      var x := input[cursor];
      assert input[..cursor + 1] == input[..cursor] + [x];
      if IsValidChar(x) {
        TokenizeSnoc(input[..cursor], x);
      }
      match x {
        case '/' => out := out + [ForwardSlash];
        case '*' => out := out + [Asterisk];
        case '+' => out := out + [Plus];
        case '-' => out := out + [Hyphen];
        case '(' => out := out + [OpenParen];
        case ')' => out := out + [CloseParen];
        case ' ' =>
        case _ =>
          if IsDigit(x) {
            var y := DigitValue(x);
            if |out| > 0 && out[|out| - 1].Number? {
              out := out[|out| - 1 := Number(out[|out| - 1].value * 10 + y)];
            } else {
              out := out + [Number(y)];
            }
          } else {
            FirstInvalidIs(input, cursor);
            return Err(InvalidCharacter(x, cursor));
          }
      }
      cursor := cursor + 1;
    }
    assert input[..cursor] == input;
    FirstInvalidIs(input, cursor);
    return Ok(out);
  }

  /** FirstInvalid finds exactly the first character that is not valid. */
  lemma {:induction false} FirstInvalidIs(s: seq<char>, k: nat)
    requires k <= |s| && AllValid(s[..k])
    requires k < |s| ==> !IsValidChar(s[k])
    ensures FirstInvalid(s) == k
  {
  }

  /** The lexer fails exactly when some character is not valid, and names the first one. */
  lemma {:induction false} LexFailsOnlyOnInvalid(s: seq<char>)
    ensures LexSpec(s).Ok? <==> AllValid(s)
    ensures LexSpec(s).Err? ==>
      var e := LexSpec(s).error;
      e.at < |s| && e.c == s[e.at] && !IsValidChar(e.c) && AllValid(s[..e.at])
  {
    if AllValid(s) {
      assert s[..|s|] == s;
      FirstInvalidIs(s, |s|);
    }
  }

  /** A run of digits at the front grows by one exactly when it spans t and c is a digit. */
  lemma {:induction false} DigitRunSnoc(t: seq<char>, c: char)
    ensures DigitRun(t + [c]) == if DigitRun(t) == |t| && IsDigit(c) then |t| + 1 else DigitRun(t)
  {
    if t == [] {
      assert DigitRun([c][1..]) == 0;
    } else if IsDigit(t[0]) {
      assert (t + [c])[1..] == t[1..] + [c];
      DigitRunSnoc(t[1..], c);
    }
  }

  lemma {:induction false} PushDigitCons(x: Token, g: seq<Token>, d: nat)
    requires !x.Number? || g != []
    ensures PushDigit([x] + g, d) == [x] + PushDigit(g, d)
  {
    if g != [] {
      assert ([x] + g)[|g|] == g[|g| - 1];
    }
  }

  lemma {:induction false} GroupableSnoc(t: seq<char>, c: char)
    requires Groupable(t) && (IsSymbol(c) || IsDigit(c))
    ensures Groupable(t + [c])
  {
    forall i | 0 <= i < |t| + 1 ensures IsSymbol((t + [c])[i]) || IsDigit((t + [c])[i]) {
      if i < |t| { assert (t + [c])[i] == t[i]; }
    }
  }

  /** Group of a single character. */
  lemma {:induction false} GroupSingle(c: char)
    requires IsSymbol(c) || IsDigit(c)
    ensures Group([c]) == if IsDigit(c) then [Number(DigitValue(c))] else [SymbolToken(c).value]
  {
    assert [c][1..] == [];
    if IsDigit(c) {
      assert DigitRun([c][1..]) == 0;
      assert [c][..1] == [c];
      assert DecimalValue([c]) == DigitValue(c) by { assert [c][..0] == []; }
    }
  }

  /** Appending one groupable character to the input of Group. */
  lemma {:induction false} GroupSnoc(t: seq<char>, c: char)
    requires Groupable(t) && (IsSymbol(c) || IsDigit(c))
    ensures Groupable(t + [c])
    ensures IsSymbol(c) ==> Group(t + [c]) == Group(t) + [SymbolToken(c).value]
    ensures IsDigit(c) ==> Group(t + [c]) == PushDigit(Group(t), DigitValue(c))
    decreases |t|, 1
  {
    GroupableSnoc(t, c);
    if t == [] {
      assert t + [c] == [c];
      GroupSingle(c);
    } else if IsDigit(t[0]) {
      if DigitRun(t) < |t| {
        GroupSnocAfterRun(t, c);
      } else {
        GroupSnocAllDigits(t, c);
      }
    } else {
      GroupSnocAfterSymbol(t, c);
    }
  }

  lemma {:induction false} GroupSnocAfterRun(t: seq<char>, c: char)
    requires Groupable(t) && (IsSymbol(c) || IsDigit(c)) && Groupable(t + [c])
    requires t != [] && IsDigit(t[0]) && DigitRun(t) < |t|
    ensures IsSymbol(c) ==> Group(t + [c]) == Group(t) + [SymbolToken(c).value]
    ensures IsDigit(c) ==> Group(t + [c]) == PushDigit(Group(t), DigitValue(c))
    decreases |t|, 0
  {
    var tc, n := t + [c], DigitRun(t);
    DigitRunSnoc(t, c);
    assert tc[..n] == t[..n];
    assert tc[n..] == t[n..] + [c];
    GroupSnoc(t[n..], c);
    if IsDigit(c) {
      PushDigitCons(Number(DecimalValue(t[..n])), Group(t[n..]), DigitValue(c));
    }
  }

  lemma {:induction false} GroupSnocAllDigits(t: seq<char>, c: char)
    requires Groupable(t) && (IsSymbol(c) || IsDigit(c)) && Groupable(t + [c])
    requires t != [] && IsDigit(t[0]) && DigitRun(t) == |t|
    ensures IsSymbol(c) ==> Group(t + [c]) == Group(t) + [SymbolToken(c).value]
    ensures IsDigit(c) ==> Group(t + [c]) == PushDigit(Group(t), DigitValue(c))
  {
    var tc, n := t + [c], |t|;
    DigitRunSnoc(t, c);
    assert t[..n] == t && t[n..] == [];
    assert Group(t) == [Number(DecimalValue(t))];
    if IsDigit(c) {
      assert tc[..n + 1] == tc && tc[n + 1..] == [];
      assert Group(tc) == [Number(DecimalValue(tc))];
      assert tc[..|tc| - 1] == t;
      assert DecimalValue(tc) == DecimalValue(t) * 10 + DigitValue(c);
    } else {
      assert tc[..n] == t && tc[n..] == [c];
      GroupSingle(c);
    }
  }

  lemma {:induction false} GroupSnocAfterSymbol(t: seq<char>, c: char)
    requires Groupable(t) && (IsSymbol(c) || IsDigit(c)) && Groupable(t + [c])
    requires t != [] && !IsDigit(t[0])
    ensures IsSymbol(c) ==> Group(t + [c]) == Group(t) + [SymbolToken(c).value]
    ensures IsDigit(c) ==> Group(t + [c]) == PushDigit(Group(t), DigitValue(c))
    decreases |t|, 0
  {
    assert (t + [c])[1..] == t[1..] + [c];
    GroupSnoc(t[1..], c);
    var x := SymbolToken(t[0]).value;
    assert !x.Number?;
    if IsDigit(c) {
      PushDigitCons(x, Group(t[1..]), DigitValue(c));
    }
  }

  /**
    One more input character: a symbol appends its token, a space changes nothing,
    a digit extends a trailing Number or starts one.
  */
  lemma {:induction false} TokenizeSnoc(s: seq<char>, c: char)
    requires AllValid(s) && IsValidChar(c)
    ensures AllValid(s + [c])
    ensures IsSymbol(c) ==> Tokenize(s + [c]) == Tokenize(s) + [SymbolToken(c).value]
    ensures c == ' ' ==> Tokenize(s + [c]) == Tokenize(s)
    ensures IsDigit(c) ==> Tokenize(s + [c]) == PushDigit(Tokenize(s), DigitValue(c))
  {
    assert (s + [c])[..|s|] == s;
    assert AllValid(s + [c]) by {
      forall i | 0 <= i < |s| + 1 ensures IsValidChar((s + [c])[i]) {
        if i < |s| { assert (s + [c])[i] == s[i]; }
      }
    }
    if c != ' ' {
      GroupSnoc(Strip(s), c);
    }
  }

  predicate NoAdjacentNumbers(ts: seq<Token>) {
    forall i :: 0 <= i < |ts| - 1 ==> !(ts[i].Number? && ts[i + 1].Number?)
  }

  /** The number of tokens that are not Numbers. */
  function CountOperators(ts: seq<Token>): nat {
    if ts == [] then 0 else (if ts[0].Number? then 0 else 1) + CountOperators(ts[1..])
  }

  /** The number of the six operator and parenthesis characters. */
  function CountSymbols(s: seq<char>): nat {
    if s == [] then 0 else (if IsSymbol(s[0]) then 1 else 0) + CountSymbols(s[1..])
  }

  lemma {:induction false} GroupFacts(t: seq<char>)
    requires Groupable(t)
    ensures |Group(t)| <= |t|
    ensures NoAdjacentNumbers(Group(t))
    ensures forall i :: 0 <= i < |Group(t)| ==> IsLexerToken(Group(t)[i])
    ensures CountOperators(Group(t)) == CountSymbols(t)
    ensures t != [] && IsSymbol(t[0]) ==> Group(t)[0] == SymbolToken(t[0]).value
    decreases |t|, 1
  {
    if t == [] {
    } else if IsDigit(t[0]) {
      GroupFactsNumber(t);
    } else {
      GroupFactsSymbol(t);
    }
  }

  /** GroupFacts when t starts with a run of digits. */
  lemma {:induction false} GroupFactsNumber(t: seq<char>)
    requires Groupable(t) && t != [] && IsDigit(t[0])
    ensures |Group(t)| <= |t|
    ensures NoAdjacentNumbers(Group(t))
    ensures forall i :: 0 <= i < |Group(t)| ==> IsLexerToken(Group(t)[i])
    ensures CountOperators(Group(t)) == CountSymbols(t)
    decreases |t|, 0
  {
    var n := DigitRun(t);
    var g := Group(t[n..]);
    GroupFacts(t[n..]);
    assert Group(t) == [Number(DecimalValue(t[..n]))] + g;
    assert t == t[..n] + t[n..];
    CountSymbolsAppend(t[..n], t[n..]);
    CountSymbolsDigits(t[..n]);
    ConsFacts(Number(DecimalValue(t[..n])), g);
  }

  /** GroupFacts when t starts with a symbol. */
  lemma {:induction false} GroupFactsSymbol(t: seq<char>)
    requires Groupable(t) && t != [] && !IsDigit(t[0])
    ensures |Group(t)| <= |t|
    ensures NoAdjacentNumbers(Group(t))
    ensures forall i :: 0 <= i < |Group(t)| ==> IsLexerToken(Group(t)[i])
    ensures CountOperators(Group(t)) == CountSymbols(t)
    ensures Group(t)[0] == SymbolToken(t[0]).value
    decreases |t|, 0
  {
    var g := Group(t[1..]);
    GroupFacts(t[1..]);
    assert t == [t[0]] + t[1..];
    CountSymbolsAppend([t[0]], t[1..]);
    ConsFacts(SymbolToken(t[0]).value, g);
  }

  lemma {:induction false} ConsFacts(x: Token, g: seq<Token>)
    requires NoAdjacentNumbers(g) && IsLexerToken(x)
    requires forall i :: 0 <= i < |g| ==> IsLexerToken(g[i])
    requires x.Number? && g != [] ==> !g[0].Number?
    ensures NoAdjacentNumbers([x] + g)
    ensures forall i :: 0 <= i < |g| + 1 ==> IsLexerToken(([x] + g)[i])
    ensures CountOperators([x] + g) == (if x.Number? then 0 else 1) + CountOperators(g)
  {
    assert ([x] + g)[1..] == g;
    forall i | 0 <= i < |g| ensures ([x] + g)[i + 1] == g[i] { }
  }

  lemma {:induction false} CountSymbolsAppend(a: seq<char>, b: seq<char>)
    ensures CountSymbols(a + b) == CountSymbols(a) + CountSymbols(b)
  {
    if a == [] {
      assert a + b == b;
    } else {
      assert (a + b)[1..] == a[1..] + b;
      CountSymbolsAppend(a[1..], b);
    }
  }

  lemma {:induction false} CountSymbolsDigits(ds: seq<char>)
    requires forall i :: 0 <= i < |ds| ==> IsDigit(ds[i])
    ensures CountSymbols(ds) == 0
  {
    if ds != [] {
      CountSymbolsDigits(ds[1..]);
    }
  }

  lemma {:induction false} CountSymbolsStrip(s: seq<char>)
    ensures CountSymbols(Strip(s)) == CountSymbols(s)
  {
    if s != [] {
      var init, c := s[..|s| - 1], s[|s| - 1];
      assert s == init + [c];
      CountSymbolsStrip(init);
      CountSymbolsAppend(init, [c]);
      if c != ' ' {
        CountSymbolsAppend(Strip(init), [c]);
      }
    }
  }

  /**
    What the lexer outputs: at most one token per character, never two Numbers
    in a row, only Numbers and the six symbol tokens, and exactly one non-Number
    token per symbol character of the input.
  */
  lemma {:induction false} TokenizeOutput(s: seq<char>)
    requires AllValid(s)
    ensures |Tokenize(s)| <= |s|
    ensures NoAdjacentNumbers(Tokenize(s))
    ensures forall i :: 0 <= i < |Tokenize(s)| ==> IsLexerToken(Tokenize(s)[i])
    ensures CountOperators(Tokenize(s)) == CountSymbols(s)
  {
    GroupFacts(Strip(s));
    CountSymbolsStrip(s);
  }

  /** A space-free string without spaces is its own Strip. */
  lemma {:induction false} StripNoSpaces(s: seq<char>)
    requires forall i :: 0 <= i < |s| ==> s[i] != ' '
    ensures Strip(s) == s
  {
    if s != [] {
      assert s == s[..|s| - 1] + [s[|s| - 1]];
      StripNoSpaces(s[..|s| - 1]);
    }
  }

  /** A non-empty string of digits lexes to one Number holding its decimal value. */
  lemma {:induction false} AllDigitsOneNumber(s: seq<char>)
    requires s != [] && forall i :: 0 <= i < |s| ==> IsDigit(s[i])
    ensures AllValid(s) && Tokenize(s) == [Number(DecimalValue(s))]
  {
    StripNoSpaces(s);
    var n := DigitRun(s);
    assert n == |s|;
    assert s[..n] == s && s[n..] == [];
    assert Group(s) == [Number(DecimalValue(s[..n]))] + Group(s[n..]);
  }

  /** Spaces separate nothing: "12 3" lexes to the single Number 123. */
  lemma {:induction false} SpacedDigitsMerge()
    ensures LexSpec("12 3") == Ok([Number(123)])
  {
    var twelve: seq<char> := ['1', '2'];
    var spaced := twelve + [' '];
    var s := spaced + ['3'];
    assert s == "12 3";
    assert DecimalValue(twelve) == 12 by {
      assert twelve[..1] == ['1'];
      assert ['1'][..0] == [];
    }
    AllDigitsOneNumber(twelve);
    TokenizeSnoc(twelve, ' ');
    TokenizeSnoc(spaced, '3');
    assert Tokenize(s) == [Number(123)];
    FirstInvalidIs(s, |s|);
  }

  /** A character outside the lexer's alphabet stops it: "3<4" fails at offset 1. */
  lemma {:induction false} ComparisonCharacterRejected()
    ensures LexSpec("3<4") == Err(InvalidCharacter('<', 1))
  {
    assert "3<4"[..1] == "3";
    FirstInvalidIs("3<4", 1);
  }
}
