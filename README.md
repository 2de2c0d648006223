# Lexer and recursive-descent parser of a tiny expression language

This project models the front end of a small expression language: the
character-level lexer (`src/parser/lexer.rs`), the token type with its
precedence and operator maps (`src/parser/token.rs`), the recursive-descent
`Parser` with one method per precedence tier (`src/parser/mod.rs`), and the
older arithmetic-only `Parser` (`src/parser/parser.rs`). It proves what the
model does.

Modules:

- `Wrappers`: `Option` and `Result`.
- `Ast`: the tree of mod.rs: `Node`, `Literal`, `Operator`.
- `Tokens`: the `Token` type, `Precedence`, and `OperatorOf` (`Token::operator`) with its inverse `Spelling`.
- `Lexer`: the cursor loop of `lex` as the method `Lex`.
  - `Lex` is proved equal to `LexSpec`.
  - `LexSpec` is an independent reference: drop the spaces, then read each maximal run of digits as one decimal number and each symbol as its token.
- `Grammar`: the mod.rs parser as functions of the token list and the cursor.
  - Each returns the node a method builds and the cursor after it, or the error the source panics with.
  - The four binary tiers share one pair of functions indexed by `Tier`.
- `Parser`: the mod.rs `Parser` class. It has the `tokens` and a `counter`, and one method per source method. Each method is proved to agree with its `Grammar` function.
- `GrammarLemmas`: what the grammar promises, proved about the `Grammar` functions.
  - Round trip: a tree of the right shape is read back from its own spelling (`Unparse`).
  - Soundness: whatever a tier parses from a cursor before the end has that tier's shape and is spelled by exactly the tokens it consumed.
  - Examples: left folding and binding strength.
  - The `var` statement loop.
- `ArithGrammar`, `ArithParser` and `ArithLemmas`: the same for parser.rs.
  - It has its own `Node` and `Operator` types, two tiers (`addsub` and `muldiv`), and Number-only primaries.
  - `SameTreeAsTermTier` shows that on every arithmetic expression it builds the tree the `term` tier of mod.rs builds.

## Model

| member | source | states |
|---|---|---|
| Tokens.Precedence | src/parser/token.rs:25-33 | precedence is 0, 2 or 3, and only operator tokens have a nonzero one |
| Tokens.Spelling | src/parser/token.rs:37-46 | every operator has a token that names it, one of the ten operator tokens |
| Tokens.OperatorOf | src/parser/token.rs:35-48 | `operator` is defined exactly on the ten operator tokens, fails (`None`) on every other token, and is inverted by `Spelling` |
| Tokens.OperatorOfSpelling | src/parser/token.rs:37-46 | every one of the ten operators is the operator of some token |
| Tokens.OperatorOfInjective | src/parser/token.rs:37-46 | no two tokens name the same operator |
| Tokens.MultiplicativeBindsTighter | src/parser/token.rs:27-30 | `/` and `*` have strictly higher precedence than `+` and `-`, which have nonzero precedence |
| Tokens.PrecedenceOnlyArithmetic | src/parser/token.rs:25-40 | a token with nonzero precedence has an operator, and that operator is one of Add, Sub, Mult, Div |
| Tokens.ComparisonsHaveNoPrecedence | src/parser/token.rs:25-46 | the comparison and equality tokens have an operator but precedence 0 |
| Lexer.DigitValue | src/parser/lexer.rs:17 | a decimal digit's value is below 10 |
| Lexer.FirstInvalid | src/parser/lexer.rs:26-28 | the position where the lexer panics: every character before it is valid, and the one at it is not |
| Lexer.FirstInvalidIs | src/parser/lexer.rs:26-28 | the first invalid character is unique: any position with only valid characters before it and an invalid one at it is `FirstInvalid` |
| Lexer.Strip | src/parser/lexer.rs:16 | removing the spaces leaves no space, keeps only input characters, and leaves only symbols and digits in a valid input |
| Lexer.Tokenize | src/parser/lexer.rs:9-25 | the reference for a valid input: drop the spaces, then one Number per maximal run of digits holding its decimal value and one token per symbol; `TokenizeOutput` and `TokenizeSnoc` state its properties |
| Lexer.LexSpec | src/parser/lexer.rs:6-33 | the lexer's outcome: success exactly when every character is valid, and otherwise an error naming an invalid character and its offset |
| Lexer.Lex | src/parser/lexer.rs:3-35 | the cursor loop, with its in-place update of a trailing Number, returns exactly `LexSpec(input)` |
| Lexer.LexFailsOnlyOnInvalid | src/parser/lexer.rs:26-28 | lexing fails exactly when some character is not a digit, a space or one of `/ * + - ( )`, and the error names the first such character and its offset |
| Lexer.TokenizeSnoc | src/parser/lexer.rs:9-25 | one more character appends one token for a symbol, changes nothing for a space, and for a digit d extends a trailing `Number(v)` to `Number(10v + d)` or else appends `Number(d)` |
| Lexer.GroupSnoc | src/parser/lexer.rs:17-25 | the digit-run grouping absorbs one more character as the lexer's digit rule does |
| Lexer.GroupFacts | src/parser/lexer.rs:9-29 | grouping yields at most one token per character, no two adjacent Numbers, only Numbers and the six symbol tokens, and one non-Number token per symbol |
| Lexer.CountSymbolsStrip | src/parser/lexer.rs:16 | dropping spaces drops no symbol |
| Lexer.TokenizeOutput | src/parser/lexer.rs:6-33 | the output has at most one token per input character, never two Numbers in a row, only Numbers and the six symbol tokens (never Var, Literal, Equals, Bang or a comparison), and exactly one non-Number token per symbol character |
| Lexer.AllDigitsOneNumber | src/parser/lexer.rs:17-24 | a non-empty string of digits lexes to a single Number holding its decimal value |
| Lexer.SpacedDigitsMerge | src/parser/lexer.rs:16-24 | `"12 3"` lexes to `[Number(123)]`: spaces do not separate numbers |
| Lexer.ComparisonCharacterRejected | src/parser/lexer.rs:26-28 | `"3<4"` fails on `<` at offset 1 |
| Grammar.Below | src/parser/mod.rs:107-145 | each tier's operands come from the tier one rank tighter |
| Grammar.AdvanceAt | src/parser/mod.rs:50-56 | `advance` fails only on an empty token list; it steps unless at the end and returns the token just before the new cursor, so at the end it returns the last token again |
| Grammar.StepBackAt | src/parser/mod.rs:76-81 | the cursor moves back by one unless at 0, and the token after it is returned; fails exactly when no token follows the new cursor |
| Grammar.PrimaryAt | src/parser/mod.rs:155-161 | `primary` as a function of the tokens and the cursor; on success the cursor stays within the tokens; `PrimaryReadsLeaf` states what it builds |
| Grammar.UnaryAt | src/parser/mod.rs:147-154 | `unary` as a function; on success the cursor stays within the tokens; `UnaryRoundTrip` and `UnarySound` state what it accepts and builds |
| Grammar.OperandAt | src/parser/mod.rs:137-154 | the operand parser of a tier (the next tier down, or `unary` below `factor`); on success the cursor stays within the tokens; `OperandRoundTrip` and `OperandSound` state what it accepts and builds |
| Grammar.TierAt | src/parser/mod.rs:107-145 | one tier (`conditional`, `compare`, `term` or `factor`): an operand, then the loop; on success the cursor stays within the tokens; `TierRoundTrip` and `TierSound` state what it accepts and builds |
| Grammar.TierLoop | src/parser/mod.rs:109-113 | a tier's `while matches` loop, folding each operator and operand onto the tree so far; on success the cursor stays within the tokens; `LoopSound` and `LoopStops` state its behaviour |
| Grammar.DeclareVarAt | src/parser/mod.rs:95-105 | a successful `declare_var` builds a `Define` and moves the cursor forward |
| Grammar.ParseLoop | src/parser/mod.rs:86-93 | the statement loop stops at the end of the tokens or on a token that is not `var` |
| Grammar.ParseAt | src/parser/mod.rs:86-93 | `parse`: on success it stops at the end of the tokens or on a token that is not `var`; `ParseRoundTrip` and `ParseLoopDeclares` state what it builds |
| Parser.Parser.constructor | src/parser/mod.rs:42-44 | a new parser holds the tokens with the cursor at 0 |
| Parser.Parser.PeekToken | src/parser/mod.rs:46-48 | the token after the cursor, or an error exactly when there is none |
| Parser.Parser.Advance | src/parser/mod.rs:50-56 | keeps the cursor within the tokens and agrees with `AdvanceAt`; on failure the cursor does not move |
| Parser.Parser.Previous | src/parser/mod.rs:58-60 | the token before the cursor, or an error exactly when the cursor is at 0 |
| Parser.Parser.Current | src/parser/mod.rs:62-64 | the token under the cursor |
| Parser.Parser.Matches | src/parser/mod.rs:66-75 | true exactly when the cursor is not at the end and its token is in the pattern; then the cursor moves by one, otherwise it does not move |
| Parser.Parser.StepBack | src/parser/mod.rs:76-81 | moves the cursor back by one unless it is at 0 and agrees with `StepBackAt` |
| Parser.Parser.IsAtEnd | src/parser/mod.rs:82-84 | true exactly when the cursor is past the last token |
| Parser.Parser.Parse | src/parser/mod.rs:86-93 | keeps the cursor invariant; returns the statements and leaves the cursor where `ParseAt` says, or its error |
| Parser.Parser.DeclareVar | src/parser/mod.rs:95-105 | agrees with `DeclareVarAt` |
| Parser.Parser.Conditional | src/parser/mod.rs:107-115 | agrees with `TierAt(EqualityTier)` |
| Parser.Parser.Compare | src/parser/mod.rs:117-125 | agrees with `TierAt(ComparisonTier)` |
| Parser.Parser.Term | src/parser/mod.rs:127-135 | agrees with `TierAt(TermTier)` |
| Parser.Parser.Factor | src/parser/mod.rs:137-145 | agrees with `TierAt(FactorTier)` |
| Parser.Parser.Unary | src/parser/mod.rs:147-154 | agrees with `UnaryAt` |
| Parser.Parser.Primary | src/parser/mod.rs:155-161 | agrees with `PrimaryAt` |
| GrammarLemmas.PatternFacts | src/parser/mod.rs:107-145 | every token a tier's loop matches has an operator, and that operator belongs to the tier |
| GrammarLemmas.PatternIsRank | src/parser/mod.rs:107-145 | a tier's loop matches exactly the tokens of its own rank, so the tier patterns are disjoint |
| GrammarLemmas.SpellingInPattern | src/parser/mod.rs:107-145 | the token naming a tier's operator is matched by that tier's loop |
| GrammarLemmas.UnaryRoundTrip | src/parser/mod.rs:147-154 | `unary` reads back a primary or a negated primary from its spelling |
| GrammarLemmas.OperandRoundTrip | src/parser/mod.rs:137-154 | a tier's operand parser reads back any operand-shaped tree from its spelling when no tighter loop follows |
| GrammarLemmas.TierPrefix | src/parser/mod.rs:107-145 | after reading the spelling of a tier-shaped tree, a tier is in its loop with exactly that tree |
| GrammarLemmas.LoopStops | src/parser/mod.rs:107-145 | a tier's loop returns its tree unchanged where no operator of that tier or a tighter one follows |
| GrammarLemmas.TierRoundTrip | src/parser/mod.rs:107-145 | each tier reads back any tree of its shape (its operators folded left over its operands) from the tree's spelling and stops right after it |
| GrammarLemmas.OperandAtEndFails | src/parser/mod.rs:155-161 | at the end of the tokens, when the last token is neither a Number nor a Literal, every operand parser fails |
| GrammarLemmas.PrimaryReadsLeaf | src/parser/mod.rs:155-161 | from a cursor before the end, `primary` succeeds exactly on a Number or a Literal; it builds a Float or StringT leaf (never a Name) spelled by that token and consumes one token; any other token is the error naming it |
| GrammarLemmas.UnarySound | src/parser/mod.rs:147-154 | from a cursor before the end, whatever `unary` returns is a primary or one negation of a primary, spelled by exactly the tokens consumed |
| GrammarLemmas.OperandSound | src/parser/mod.rs:137-154 | from a cursor before the end, whatever an operand parser returns has the operand shape, is spelled by the tokens consumed, and no tighter loop follows it |
| GrammarLemmas.TierSound | src/parser/mod.rs:107-145 | from a cursor before the end, whatever a tier returns is tier-shaped, is spelled by exactly the tokens consumed, and is followed by no operator of that tier or a tighter one |
| GrammarLemmas.LoopSound | src/parser/mod.rs:107-145 | a tier's loop keeps the tree tier-shaped and spelled by the tokens consumed so far |
| GrammarLemmas.TierBuildsOwnOperators | src/parser/mod.rs:107-145 | a binary node a tier builds carries one of that tier's own operators over an operand of the tier below |
| GrammarLemmas.TierReadsSpelling | src/parser/mod.rs:107-145 | each tier reads back any tree of its shape from exactly the tree's spelling, consuming every token |
| GrammarLemmas.ProductBindsTighter | src/parser/mod.rs:127-145 | `2 + 3 * 4` parses as `Binary(Add, 2, Binary(Mult, 3, 4))` |
| GrammarLemmas.SubtractionFoldsLeft | src/parser/mod.rs:127-135 | `8 - 3 - 2` parses as `Binary(Sub, Binary(Sub, 8, 3), 2)` |
| GrammarLemmas.DoubleNegationFails | src/parser/mod.rs:147-154 | `- - 3` fails: the operand of a negation must be a primary |
| GrammarLemmas.ParseLoopDeclares | src/parser/mod.rs:86-93 | the statement loop only appends, and only `Define` nodes |
| GrammarLemmas.DeclareVarRoundTrip | src/parser/mod.rs:95-105 | `declare_var` reads back a declaration from its spelling |
| GrammarLemmas.ParseLoopRoundTrip | src/parser/mod.rs:86-93 | the statement loop reads back a list of declarations from their spelling and stops right after it |
| GrammarLemmas.ParseLoopStops | src/parser/mod.rs:86-93 | where no `var` follows, `parse` stops and leaves the remaining tokens unconsumed |
| GrammarLemmas.ParseRoundTrip | src/parser/mod.rs:86-93 | `parse` of the spelling of any list of declarations returns that list and consumes every token |
| GrammarLemmas.DeclarationExample | src/parser/mod.rs:86-105 | `var x = 3 + 4` parses to `Statements([Define("x", Binary(Add, 3, 4))])` |
| GrammarLemmas.EqualsIsNotChecked | src/parser/mod.rs:95-99 | the token after the name is skipped without checking that it is `=` |
| GrammarLemmas.DeclareVarNeedsName | src/parser/mod.rs:95-105 | whenever a token follows `var`, as `parse` ensures before calling it, `declare_var` succeeds exactly when that token is a Literal and a conditional follows the skipped token (read from the end when `var` and the name are the last two tokens); the name is the Literal's text; otherwise, once the conditional has parsed, it fails naming the token |
| GrammarLemmas.TrailingNameIsReread | src/parser/mod.rs:50-56 | `var x` alone declares x as the string "x", because `advance` at the end returns the last token again |
| GrammarLemmas.TrailingVarFails | src/parser/mod.rs:76-81 | whatever comes before it, a `var` as the last token makes `step_back` look past the end, and the statement loop fails there |
| GrammarLemmas.TrailingVarExamples | src/parser/mod.rs:86-93 | `[Var]` alone fails in `step_back`; `[Number(1), Var]` gives no statements because the loop stops at the first token |
| ArithGrammar.ToArith | src/parser/parser.rs:10-16 | the arithmetic operators, and only those, have a parser.rs operator of the same name |
| ArithGrammar.FromArith | src/parser/parser.rs:10-16 | every parser.rs operator converts back to itself |
| ArithGrammar.ArithOf | src/parser/parser.rs:65 | the operator a token gives in parser.rs is defined exactly on `/ * + -` |
| ArithGrammar.PrimaryAt | src/parser/parser.rs:90-95 | a successful `primary` returns a Value leaf |
| ArithGrammar.UnaryAt | src/parser/parser.rs:82-89 | `unary`: an optional `-` in front of one primary; on success the cursor stays within the tokens; `UnarySound` and `UnaryReadsSpelling` state what it accepts and builds |
| ArithGrammar.MulDivLoop | src/parser/parser.rs:74-78 | the `muldiv` loop; on success the cursor stays within the tokens; `ProductLoopSound` and `MulDivLoopStops` state its behaviour |
| ArithGrammar.MulDivAt | src/parser/parser.rs:72-80 | `muldiv`; on success the cursor stays within the tokens; `ProductRoundTrip` and `ProductSound` state what it accepts and builds |
| ArithGrammar.AddSubLoop | src/parser/parser.rs:64-68 | the `addsub` loop; on success the cursor stays within the tokens; `SumLoopSound` and `AddSubLoopStops` state its behaviour |
| ArithGrammar.AddSubAt | src/parser/parser.rs:62-70 | `addsub`, which `parse` is; on success the cursor stays within the tokens; `SumRoundTrip` and `SumSound` state what it accepts and builds |
| ArithParser.Parser.constructor | src/parser/parser.rs:23-25 | a new parser holds the tokens with the cursor at 0 |
| ArithParser.Parser.PeekToken | src/parser/parser.rs:26-28 | the token after the cursor, or an error exactly when there is none |
| ArithParser.Parser.NextToken | src/parser/parser.rs:29-35 | keeps the cursor within the tokens and agrees with `AdvanceAt`: at the end it does not move and returns the last token |
| ArithParser.Parser.PreviousToken | src/parser/parser.rs:36-38 | the token before the cursor, or an error exactly when the cursor is at 0 |
| ArithParser.Parser.Current | src/parser/parser.rs:40-42 | the token under the cursor |
| ArithParser.Parser.Matches | src/parser/parser.rs:44-53 | true exactly when not at the end and the token is in the pattern; then the cursor moves by one, otherwise nothing changes |
| ArithParser.Parser.AtEnd | src/parser/parser.rs:54-56 | true exactly when the cursor is past the last token |
| ArithParser.Parser.Parse | src/parser/parser.rs:58-60 | agrees with `AddSubAt`: `parse` is `addsub` |
| ArithParser.Parser.AddSub | src/parser/parser.rs:62-70 | the loop agrees with `AddSubAt` |
| ArithParser.Parser.MulDiv | src/parser/parser.rs:72-80 | the loop agrees with `MulDivAt` |
| ArithParser.Parser.Unary | src/parser/parser.rs:82-89 | agrees with `UnaryAt` |
| ArithParser.Parser.Primary | src/parser/parser.rs:90-95 | agrees with `PrimaryAt` |
| ArithLemmas.ArithSpelling | src/parser/parser.rs:65 | each parser.rs operator has a token that gives it back, the token naming its mod.rs namesake |
| ArithLemmas.SpellingOfArithOf | src/parser/parser.rs:65 | a token that gives an operator is that operator's spelling |
| ArithLemmas.MulDivLoopStops | src/parser/parser.rs:74 | the `muldiv` loop returns its product where no `*` or `/` follows |
| ArithLemmas.ProductRoundTrip | src/parser/parser.rs:72-80 | `muldiv` reads back any left-folded product of numbers from its spelling |
| ArithLemmas.AddSubLoopStops | src/parser/parser.rs:64 | the `addsub` loop returns its sum where no `+ - * /` follows |
| ArithLemmas.SumRoundTrip | src/parser/parser.rs:62-70 | `addsub` reads back any left-folded sum of products from its spelling |
| ArithLemmas.PrimaryAtEndFails | src/parser/parser.rs:90-95 | at the end of the tokens, when the last token is not a Number, `primary` and `muldiv` fail |
| ArithLemmas.PrimarySound | src/parser/parser.rs:90-95 | from a cursor before the end, a successful `primary` reads exactly one Number and returns its value |
| ArithLemmas.ProductLoopSound | src/parser/parser.rs:74-78 | the `muldiv` loop keeps a product of numbers spelled by the tokens consumed |
| ArithLemmas.ProductSound | src/parser/parser.rs:72-80 | from a cursor before the end, whatever `muldiv` returns is a left-folded product of numbers spelled by exactly the tokens consumed, with no `*` or `/` after it |
| ArithLemmas.SumLoopSound | src/parser/parser.rs:64-68 | the `addsub` loop keeps a sum of products spelled by the tokens consumed |
| ArithLemmas.SumSound | src/parser/parser.rs:62-70 | from a cursor before the end, whatever `addsub` returns is a sum of products, so every Binary node carries Add, Sub, Mult or Div and every leaf is a Value; it is spelled by exactly the tokens consumed |
| ArithLemmas.SumHasNoUnary | src/parser/parser.rs:4-16 | a sum of products holds no Unary node |
| ArithLemmas.ParseNeverNegates | src/parser/parser.rs:58-60 | `parse` never builds a Unary node, because it never reaches `unary` |
| ArithLemmas.LeadingMinusFails | src/parser/parser.rs:58-60 | `- 3` fails in `primary` on the Hyphen |
| ArithLemmas.UnaryNegatesOnePrimary | src/parser/parser.rs:82-89 | `unary` on `- 3` builds `Unary(Sub, Value(3))` |
| ArithLemmas.UnarySound | src/parser/parser.rs:82-95 | from a cursor before the end, whatever `unary` returns is a number or one negated number (`Unary(Sub, Value)`), spelled by exactly the tokens consumed |
| ArithLemmas.UnaryReadsSpelling | src/parser/parser.rs:82-95 | `unary` reads back a number or one negated number from its spelling, consuming exactly those tokens |
| ArithLemmas.SumReadsSpelling | src/parser/parser.rs:62-70 | `addsub` reads back any sum of products from exactly its spelling, consuming every token |
| ArithLemmas.MixedExample | src/parser/parser.rs:62-80 | `8 - 3 * 2 - 1` parses as `Binary(Sub, Binary(Sub, 8, Binary(Mult, 3, 2)), 1)` |
| ArithLemmas.LiftUnparse | src/parser/parser.rs:4-16 | a parser.rs tree and its mod.rs copy have the same spelling |
| ArithLemmas.LiftSum | src/parser/parser.rs:62-80 | the mod.rs copy of a parser.rs sum has the shape of the `term` tier |
| ArithLemmas.SameTreeAsTermTier | src/parser/parser.rs:62-80 | on the spelling of any arithmetic expression, `addsub` and the `term` tier of mod.rs build the same tree and stop at the same place |

## Left out

- `src/main.rs` is not part of this model. It lexes and parses one hard-coded string, times the two steps and prints debug output. It also calls a lexer API that `lexer.rs` does not have.
- Evaluation: the code has no evaluator, so no arithmetic or comparison semantics is modelled.
- Floating point: `Number(f64)` and `Float(f64)` hold a `nat`. The lexer's `v * 10 + d` is exact, so f64 rounding above 2^53 is not modelled.
- The input is a sequence of characters. `lex` bounds its cursor by the byte length but indexes by character. On any input it does not panic on, every character is ASCII, so the byte length equals the character count and `Lex` is exact. A non-ASCII character is not a digit, so `lex` reaches it at a character index below the byte length and panics there (lexer.rs:26-28). That is the `InvalidCharacter` error of the model. The `None` arm at lexer.rs:8 is never reached.
- Panics are error values: `LexError` and `ParseError`. Their messages are not modelled. Neither is the state a panic leaves behind: after an error the model promises nothing about the cursor.
- Token patterns are sets. The source passes a `Vec<Token>` to `matches` but only tests membership.
- Ownership artefacts are not modelled: `Box` and the derived `Clone`/`Debug`.
- parser.rs does not compile as written. It copies a non-`Copy` token, passes an unboxed node to `Node::Unary`, and builds its tree from the operator type of mod.rs. The model reads the operator as the parser.rs operator of the same name (`ToArith`) and boxes as intended.
- The lexer and the parser do not line up. `lexer.rs` lexes only digits, spaces and `/ * + - ( )`. So it never produces identifiers, `var`, `=` or comparison operators, and the parser's `var` statements and comparison tiers are reached only from token lists built some other way. The model parses any token list. In the parser, `declare_var` skips the token after the name without checking it (mod.rs:98), and `primary` builds `StringT`, never `Name` (mod.rs:157). The model follows the code.
