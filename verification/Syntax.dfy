/** Tokens, syntax trees and errors of the expression language. */
module Syntax {
  import opened Json

  datatype ExpressionError =
    | LexError(pos: nat)
    | ParseError(pos: nat)
    | EvalError
    | TypeError
    | UnsupportedFunction(name: string)

  datatype Token =
    | Dot | RecursiveDot
    | LBracket | RBracket | LBrace | RBrace | LParen | RParen
    | Bar | Comma | Colon | Semicolon
    | VariableName(name: string)
    | Ident(name: string)
    | Number(value: real)
    | Quote(text: string)
    | Interp(source: string)
    | EqEq | NotEq | Less | LessEq | Greater | GreaterEq
    | Plus | Minus | Star | Slash | Percent | Alternative
    | Assign
    | Eof

  datatype BinOp =
    | Add | Sub | Mul | Div | Mod
    | Eq | Ne | Lt | Le | Gt | Ge
    | And | Or | Alt

  datatype UnaryOp = Not | Negate

  datatype ObjKey = IdentKey(name: string) | StrKey(text: string) | Computed(key: Expr)

  datatype Entry = Entry(key: ObjKey, value: Expr)

  datatype InterpPart = LiteralPart(text: string) | ExprPart(expr: Expr)

  datatype Expr =
    | Identity
    | Field(base: Expr, name: string)
    | Index(base: Expr, index: Expr)
    | Iterate(base: Expr)
    | Variable(name: string)
    | Literal(value: Value)
    | StrExpr(parts: seq<InterpPart>)
    | Binary(op: BinOp, left: Expr, right: Expr)
    | Unary(uop: UnaryOp, inner: Expr)
    | Pipe(left: Expr, right: Expr)
    | ArrayExpr(elems: seq<Expr>)
    | ObjectExpr(entries: seq<Entry>)
    | If(cond: Expr, thn: Expr, els: Expr)
    | Call(name: string, args: seq<Expr>)
    | Stream(elems: seq<Expr>)

  /** The end marker occurs exactly once, last. */
  ghost predicate EndsOnce(tokens: seq<Token>) {
    |tokens| > 0 && forall i | 0 <= i < |tokens| :: tokens[i] == Eof <==> i == |tokens| - 1
  }

  /** Every interpolated source is shorter than the text it was cut from. */
  ghost predicate InterpsBelow(tokens: seq<Token>, n: nat) {
    forall i | 0 <= i < |tokens| :: tokens[i].Interp? ==> |tokens[i].source| < n
  }
}
