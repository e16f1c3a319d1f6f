/** Printing trees, with parentheses where the place binds more tightly than the tree or a word would stick to it. */
module Printing {
  import opened Json
  import opened Syntax
  import opened Grammar
  import opened Spelling

  /** A token list: what Show prints, and what From finds in a token vector. */
  datatype Tape = End | Cut(head: Token, tail: Tape)

  ghost predicate From(ts: seq<Token>, p: nat, tape: Tape)
    decreases tape
  {
    match tape
    case End => p == |ts|
    case Cut(t, tail) => p < |ts| && ts[p] == t && From(ts, p + 1, tail)
  }

  function Length(tape: Tape): nat {
    if tape.End? then 0 else 1 + Length(tape.tail)
  }

  function Flat(tape: Tape): seq<Token> {
    if tape.End? then [] else [tape.head] + Flat(tape.tail)
  }

  lemma {:induction false} FlatIsFrom(before: seq<Token>, tape: Tape)
    ensures From(before + Flat(tape), |before|, tape)
    decreases tape
  {
    if tape.Cut? {
      FlatIsFrom(before + [tape.head], tape.tail);
      assert before + Flat(tape) == before + [tape.head] + Flat(tape.tail);
    }
  }

  // ----- Printing -----

  function OpLevel(op: BinOp): (level: nat)
    ensures 1 <= level <= 5
  {
    match op
    case Or => 1
    case And => 2
    case Eq => 3 case Ne => 3 case Lt => 3 case Le => 3 case Gt => 3 case Ge => 3
    case Add => 4 case Sub => 4 case Alt => 4
    case Mul => 5 case Div => 5 case Mod => 5
  }

  function OpToken(op: BinOp): Token {
    match op
    case Or => Ident("or")
    case And => Ident("and")
    case Eq => EqEq case Ne => NotEq case Lt => Less case Le => LessEq case Gt => Greater case Ge => GreaterEq
    case Add => Plus case Sub => Minus case Alt => Alternative
    case Mul => Star case Div => Slash case Mod => Percent
  }

  const COMMA := -1
  const POSTFIX := 7
  const PRIMARY := 8

  function Rank(e: Expr): int {
    match e
    case Stream(_) => COMMA
    case Pipe(_, _) => 0
    case Binary(op, _, _) => OpLevel(op)
    case Unary(_, _) => UNARY_LEVEL
    case Field(_, _) => POSTFIX
    case Index(_, _) => POSTFIX
    case Iterate(_) => POSTFIX
    case _ => PRIMARY
  }

  /** Paths whose text ends where a following word would still be taken as a field. */
  predicate Glues(e: Expr) {
    match e
    case Identity => true
    case Field(base, _) => base.Identity?
    case Index(base, _) => Glues(base)
    case Iterate(base) => Glues(base)
    case _ => false
  }

  predicate Wrapped(e: Expr, min: int, tight: bool) {
    Rank(e) < min || (tight && Glues(e))
  }

  /** The tokens of e, then rest, in a place that takes expressions of rank at least min; tight says that a word follows. */
  function Show(e: Expr, min: int, tight: bool, rest: Tape): Tape
    decreases e, 1
  {
    if Wrapped(e, min, tight) then Cut(LParen, Body(e, false, Cut(RParen, rest))) else Body(e, tight, rest)
  }

  function Body(e: Expr, tight: bool, rest: Tape): Tape
    decreases e, 0
  {
    match e
    case Identity => Cut(Dot, rest)
    case Field(base, name) =>
      var after := Cut(Dot, Cut(Ident(name), rest));
      if base.Identity? then after else Show(base, POSTFIX, false, after)
    case Index(base, index) => Show(base, POSTFIX, false, Cut(LBracket, Show(index, COMMA, false, Cut(RBracket, rest))))
    case Iterate(base) => Show(base, POSTFIX, false, Cut(LBracket, Cut(RBracket, rest)))
    case Variable(name) => Cut(VariableName(name), rest)
    case Literal(value) => ShowLiteral(value, rest)
    case StrExpr(parts) => ShowParts(parts, rest)
    case Binary(op, left, right) =>
      Show(left, OpLevel(op), OpToken(op).Ident?, Cut(OpToken(op), Show(right, OpLevel(op) + 1, tight, rest)))
    case Unary(op, inner) => Cut(UnaryToken(op), Show(inner, UNARY_LEVEL, tight, rest))
    case Pipe(left, right) => Show(left, 0, false, Cut(Bar, Show(right, 1, tight, rest)))
    case ArrayExpr(elems) => Cut(LBracket, ShowAll(elems, false, Cut(RBracket, rest)))
    case ObjectExpr(entries) => Cut(LBrace, ShowEntries(entries, Cut(RBrace, rest)))
    case If(cond, thn, els) =>
      Cut(Ident("if"), Show(cond, COMMA, true, Cut(Ident("then"), Show(thn, COMMA, true,
        Cut(Ident("else"), Show(els, COMMA, true, Cut(Ident("end"), rest)))))))
    case Call(name, args) =>
      if args == [] then Cut(Ident(name), rest)
      else Cut(Ident(name), Cut(LParen, ShowAll(args, false, Cut(RParen, rest))))
    case Stream(elems) => ShowAll(elems, tight, rest)
  }

  function UnaryToken(op: UnaryOp): Token {
    if op.Not? then Ident("not") else Minus
  }

  function ShowLiteral(value: Value, rest: Tape): Tape {
    match value
    case Null => Cut(Ident("null"), rest)
    case Bool(b) => Cut(Ident(if b then "true" else "false"), rest)
    case Num(n) => Cut(Number(n.AsReal()), rest)
    case _ => rest
  }

  function ShowParts(parts: seq<InterpPart>, rest: Tape): Tape
    decreases parts, 0
  {
    if parts == [] then rest else Cut(PartToken(parts[0]), ShowParts(parts[1..], rest))
  }

  function PartToken(part: InterpPart): (t: Token)
    ensures t.Quote? || t.Interp?
    decreases part, 0
  {
    match part
    case LiteralPart(text) => Quote(text)
    case ExprPart(e) => Interp(TextOf(e))
  }

  function ShowAll(es: seq<Expr>, tight: bool, rest: Tape): Tape
    decreases es, 0
  {
    if es == [] then rest
    else if |es| == 1 then Show(es[0], 0, tight, rest)
    else Show(es[0], 0, false, Cut(Comma, ShowAll(es[1..], tight, rest)))
  }

  function ShowKey(key: ObjKey, rest: Tape): Tape
    decreases key, 0
  {
    match key
    case IdentKey(name) => Cut(Ident(name), rest)
    case StrKey(text) => Cut(Quote(text), rest)
    case Computed(k) => Cut(LParen, Show(k, 0, false, Cut(RParen, rest)))
  }

  function ShowEntry(entry: Entry, rest: Tape): Tape
    decreases entry, 0
  {
    ShowKey(entry.key, Cut(Colon, Show(entry.value, 0, false, rest)))
  }

  function ShowEntries(entries: seq<Entry>, rest: Tape): Tape
    decreases entries, 0
  {
    if entries == [] then rest
    else if |entries| == 1 then ShowEntry(entries[0], rest)
    else ShowEntry(entries[0], Cut(Comma, ShowEntries(entries[1..], rest)))
  }

  // ----- Texts -----

  /** Tokens are written one after the other, a blank behind each. */
  function Spell(tape: Tape): string {
    match tape
    case End => ""
    case Cut(Eof, tail) => Spell(tail)
    case Cut(t, tail) => SpellToken(t) + " " + Spell(tail)
  }

  /** The text of a tree: its printing, token by token. */
  function TextOf(e: Expr): string
    decreases e, 2
  {
    Spell(Show(e, COMMA, false, Cut(Eof, End)))
  }

  /** Spellable tokens up to the end marker. */
  predicate Spelled(tape: Tape) {
    tape.Cut? && if tape.head == Eof then tape.tail.End? else Spellable(tape.head) && Spelled(tape.tail)
  }

  /** The tree can be denoted and all its tokens can be written. */
  predicate Writable(e: Expr)
    decreases e, 1
  {
    Denotable(e) && Spelled(Show(e, COMMA, false, Cut(Eof, End)))
  }

  /** Trees that the grammar can denote at all, provided that interpolated expressions can be written. */
  predicate Denotable(e: Expr)
    decreases e, 0
  {
    match e
    case Literal(value) => value.Null? || value.Bool? || (value.Num? && JsonNum(value.n.AsReal()) == value.n)
    case StrExpr(parts) => parts != [] && PartsWritable(parts)
    case Field(base, _) => Denotable(base)
    case Index(base, index) => Denotable(base) && Denotable(index)
    case Iterate(base) => Denotable(base)
    case Binary(_, left, right) => Denotable(left) && Denotable(right)
    case Unary(_, inner) => Denotable(inner)
    case Pipe(left, right) => Denotable(left) && Denotable(right)
    case ArrayExpr(elems) => AllDenotable(elems) && NoStreams(elems)
    case ObjectExpr(entries) => EntriesDenotable(entries)
    case If(cond, thn, els) => Denotable(cond) && Denotable(thn) && Denotable(els)
    case Call(name, args) => !Reserved(name) && AllDenotable(args)
    case Stream(elems) => |elems| >= 2 && AllDenotable(elems)
    case _ => true
  }

  predicate PartsWritable(parts: seq<InterpPart>)
    decreases parts, 0
  {
    parts == [] || (PartWritable(parts[0]) && PartsWritable(parts[1..]))
  }

  predicate PartWritable(part: InterpPart)
    decreases part, 0
  {
    part.ExprPart? ==> Writable(part.expr)
  }

  predicate AllDenotable(es: seq<Expr>)
    decreases es, 0
  {
    es == [] || (Denotable(es[0]) && AllDenotable(es[1..]))
  }

  /** A stream among the elements of an array would be spliced into it. */
  predicate NoStreams(es: seq<Expr>) {
    forall i | 0 <= i < |es| :: !es[i].Stream?
  }

  predicate EntriesDenotable(entries: seq<Entry>)
    decreases entries, 0
  {
    entries == [] || (DenotableEntry(entries[0]) && EntriesDenotable(entries[1..]))
  }

  predicate DenotableEntry(entry: Entry)
    decreases entry, 0
  {
    Denotable(entry.value) && (entry.key.Computed? ==> Denotable(entry.key.key))
  }

  predicate Reserved(name: string) {
    name == "true" || name == "false" || name == "null" || name == "if" || name == "not"
  }
}
