/**
  The syntax tree built by the parser of src/parser/mod.rs.
  Numbers are the non-negative integers the lexer builds, so `Float` carries a `nat`.
*/
module Ast {
  datatype Operator =
    | Mult | Div | Sub | Add
    | NotEquals | EqualsEquals
    | GreaterEqual | Greater | LessEqual | Less

  datatype Literal = Name(name: string) | StringT(text: string) | Float(number: nat)

  datatype Node =
    | Binary(op: Operator, left: Node, right: Node)
    | Unary(op: Operator, operand: Node)
    | Value(literal: Literal)
    | Define(name: string, expr: Node)
    | Statements(statements: seq<Node>)
}
