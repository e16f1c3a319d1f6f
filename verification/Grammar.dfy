/** What the recursive-descent parser computes, as functions over token positions. */
module Grammar {
  import opened Wrappers
  import opened Json
  import opened Syntax
  import opened Lexing

  /** The outcome of a production: what it read and where the next token stands. */
  datatype Parsed<+T> = Done(value: T, pos: nat) | Failed(error: ExpressionError)

  /** How the source of an interpolation is parsed. */
  type Nested = string -> Result<Expr, ExpressionError>

  // ----- Left-associative binary levels -----

  datatype Joiner = PipeJoin | BinaryJoin(op: BinOp)

  function Join(j: Joiner, left: Expr, right: Expr): Expr {
    match j
    case PipeJoin => Pipe(left, right)
    case BinaryJoin(op) => Binary(op, left, right)
  }

  // Binding levels, loosest first: pipe, or, and, comparison, additive, multiplicative.
  const UNARY_LEVEL := 6

  function JoinerAt(level: nat, t: Token): Option<Joiner> {
    match level
    case 0 => if t == Bar then Some(PipeJoin) else None
    case 1 => if t == Ident("or") then Some(BinaryJoin(Or)) else None
    case 2 => if t == Ident("and") then Some(BinaryJoin(And)) else None
    case 3 =>
      (match t
       case EqEq => Some(BinaryJoin(Eq))
       case NotEq => Some(BinaryJoin(Ne))
       case Less => Some(BinaryJoin(Lt))
       case LessEq => Some(BinaryJoin(Le))
       case Greater => Some(BinaryJoin(Gt))
       case GreaterEq => Some(BinaryJoin(Ge))
       case _ => None)
    case 4 =>
      (match t
       case Plus => Some(BinaryJoin(Add))
       case Minus => Some(BinaryJoin(Sub))
       case Alternative => Some(BinaryJoin(Alt))
       case _ => None)
    case 5 =>
      (match t
       case Star => Some(BinaryJoin(Mul))
       case Slash => Some(BinaryJoin(Div))
       case Percent => Some(BinaryJoin(Mod))
       case _ => None)
    case _ => None
  }

  // ----- Productions -----

  ghost function ExpectAt(ts: seq<Token>, p: nat, t: Token): (r: Parsed<()>)
    requires EndsOnce(ts) && p < |ts| && t != Eof
    ensures r.Done? ==> r.pos == p + 1 < |ts|
  {
    if ts[p] == t then Done((), p + 1) else Failed(ParseError(p))
  }

  ghost function ExprAt(ts: seq<Token>, p: nat, sub: Nested): (r: Parsed<Expr>)
    requires EndsOnce(ts) && p < |ts|
    ensures r.Done? ==> p < r.pos < |ts|
    decreases |ts| - p, 20
  {
    var first := LevelAt(ts, p, sub, 0);
    if first.Failed? then Failed(first.error) else
    var all := CommaRest(ts, first.pos, sub, [first.value]);
    if all.Failed? then Failed(all.error) else
    Done(if |all.value| == 1 then all.value[0] else Stream(all.value), all.pos)
  }

  ghost function CommaRest(ts: seq<Token>, p: nat, sub: Nested, parts: seq<Expr>): (r: Parsed<seq<Expr>>)
    requires EndsOnce(ts) && p < |ts| && parts != []
    ensures r.Done? ==> p <= r.pos < |ts| && r.value != []
    decreases |ts| - p, 0
  {
    if ts[p] != Comma then Done(parts, p)
    else
      var next := LevelAt(ts, p + 1, sub, 0);
      if next.Failed? then Failed(next.error) else
      CommaRest(ts, next.pos, sub, parts + [next.value])
  }

  ghost function LevelAt(ts: seq<Token>, p: nat, sub: Nested, level: nat): (r: Parsed<Expr>)
    requires EndsOnce(ts) && p < |ts| && level <= UNARY_LEVEL
    ensures r.Done? ==> p < r.pos < |ts|
    decreases |ts| - p, 10 + UNARY_LEVEL - level
  {
    if level == UNARY_LEVEL then UnaryAt(ts, p, sub)
    else
      var left := LevelAt(ts, p, sub, level + 1);
      if left.Failed? then Failed(left.error) else
      LevelRest(ts, left.pos, sub, level, left.value)
  }

  ghost function LevelRest(ts: seq<Token>, p: nat, sub: Nested, level: nat, left: Expr): (r: Parsed<Expr>)
    requires EndsOnce(ts) && p < |ts| && level < UNARY_LEVEL
    ensures r.Done? ==> p <= r.pos < |ts|
    decreases |ts| - p, 0
  {
    var joiner := JoinerAt(level, ts[p]);
    if joiner.None? then Done(left, p)
    else
      var right := LevelAt(ts, p + 1, sub, level + 1);
      if right.Failed? then Failed(right.error) else
      LevelRest(ts, right.pos, sub, level, Join(joiner.value, left, right.value))
  }

  ghost function UnaryAt(ts: seq<Token>, p: nat, sub: Nested): (r: Parsed<Expr>)
    requires EndsOnce(ts) && p < |ts|
    ensures r.Done? ==> p < r.pos < |ts|
    decreases |ts| - p, 9
  {
    if ts[p] == Ident("not") then
      var inner := UnaryAt(ts, p + 1, sub);
      if inner.Failed? then Failed(inner.error) else
      Done(Unary(Not, inner.value), inner.pos)
    else if ts[p] == Minus then
      var inner := UnaryAt(ts, p + 1, sub);
      if inner.Failed? then Failed(inner.error) else
      Done(Unary(Negate, inner.value), inner.pos)
    else PostfixAt(ts, p, sub)
  }

  ghost function PostfixAt(ts: seq<Token>, p: nat, sub: Nested): (r: Parsed<Expr>)
    requires EndsOnce(ts) && p < |ts|
    ensures r.Done? ==> p < r.pos < |ts|
    decreases |ts| - p, 8
  {
    var base := BaseAt(ts, p, sub);
    if base.Failed? then Failed(base.error) else
    PostfixRest(ts, base.pos, sub, base.value)
  }

  ghost function PostfixRest(ts: seq<Token>, p: nat, sub: Nested, base: Expr): (r: Parsed<Expr>)
    requires EndsOnce(ts) && p < |ts|
    ensures r.Done? ==> p <= r.pos < |ts|
    decreases |ts| - p, 1
  {
    if ts[p] == Dot && IsName(ts[p + 1]) then
      PostfixRest(ts, p + 2, sub, Field(base, NameText(ts[p + 1])))
    else if ts[p] == LBracket then
      var next := BracketAt(ts, p, sub, base);
      if next.Failed? then Failed(next.error) else
      PostfixRest(ts, next.pos, sub, next.value)
    else Done(base, p)
  }

  predicate IsName(t: Token) {
    t.Ident? || t.Quote?
  }

  function NameText(t: Token): string
    requires IsName(t)
  {
    if t.Ident? then t.name else t.text
  }

  ghost function BracketAt(ts: seq<Token>, p: nat, sub: Nested, base: Expr): (r: Parsed<Expr>)
    requires EndsOnce(ts) && p < |ts| && ts[p] == LBracket
    ensures r.Done? ==> p < r.pos < |ts|
    decreases |ts| - p, 0
  {
    if ts[p + 1] == RBracket then Done(Iterate(base), p + 2)
    else
      var index := ExprAt(ts, p + 1, sub);
      if index.Failed? then Failed(index.error) else
      var end := ExpectAt(ts, index.pos, RBracket);
      if end.Failed? then Failed(end.error) else
      Done(Index(base, index.value), end.pos)
  }

  /** After a leading dot, names need no further dot: any identifier that follows is taken as a field. */
  ghost function ChainRest(ts: seq<Token>, p: nat, sub: Nested, base: Expr): (r: Parsed<Expr>)
    requires EndsOnce(ts) && p < |ts|
    ensures r.Done? ==> p <= r.pos < |ts|
    decreases |ts| - p, 1
  {
    if IsName(ts[p]) then ChainRest(ts, p + 1, sub, Field(base, NameText(ts[p])))
    else if ts[p] == LBracket then
      var next := BracketAt(ts, p, sub, base);
      if next.Failed? then Failed(next.error) else
      ChainRest(ts, next.pos, sub, next.value)
    else Done(base, p)
  }

  ghost function BaseAt(ts: seq<Token>, p: nat, sub: Nested): (r: Parsed<Expr>)
    requires EndsOnce(ts) && p < |ts|
    ensures r.Done? ==> p < r.pos < |ts|
    decreases |ts| - p, 7
  {
    match ts[p]
    case Dot => ChainRest(ts, p + 1, sub, Identity)
    case RecursiveDot => Done(Identity, p + 1)
    case VariableName(name) => Done(Variable(name), p + 1)
    case Number(r) => Done(Literal(Num(JsonNum(r))), p + 1)
    case Quote(_) => StringAt(ts, p, sub)
    case Interp(_) => StringAt(ts, p, sub)
    case LBracket => ArrayAt(ts, p, sub)
    case LBrace => ObjectAt(ts, p, sub)
    case LParen =>
      var e := ExprAt(ts, p + 1, sub);
      if e.Failed? then Failed(e.error) else
      var end := ExpectAt(ts, e.pos, RParen);
      if end.Failed? then Failed(end.error) else
      Done(e.value, end.pos)
    case Ident(name) => WordAt(ts, p, sub)
    case _ => Failed(ParseError(p))
  }

  ghost function WordAt(ts: seq<Token>, p: nat, sub: Nested): (r: Parsed<Expr>)
    requires EndsOnce(ts) && p < |ts| && ts[p].Ident?
    ensures r.Done? ==> p < r.pos < |ts|
    decreases |ts| - p, 6
  {
    var name := ts[p].name;
    if name == "true" then Done(Literal(Bool(true)), p + 1)
    else if name == "false" then Done(Literal(Bool(false)), p + 1)
    else if name == "null" then Done(Literal(Null), p + 1)
    else if name == "if" then IfAt(ts, p, sub)
    else if ts[p + 1] == LParen then
      var args := ArgsAt(ts, p + 2, sub);
      if args.Failed? then Failed(args.error) else
      var end := ExpectAt(ts, args.pos, RParen);
      if end.Failed? then Failed(end.error) else
      Done(Call(name, args.value), end.pos)
    else Done(Call(name, []), p + 1)
  }

  /** A condition, `then` and the branch it guards. */
  ghost function BranchAt(ts: seq<Token>, p: nat, sub: Nested): (r: Parsed<(Expr, Expr)>)
    requires EndsOnce(ts) && p < |ts|
    ensures r.Done? ==> p < r.pos < |ts|
    decreases |ts| - p, 21
  {
    var cond := ExprAt(ts, p, sub);
    if cond.Failed? then Failed(cond.error) else
    var body := ExpectAt(ts, cond.pos, Ident("then"));
    if body.Failed? then Failed(body.error) else
    var thn := ExprAt(ts, body.pos, sub);
    if thn.Failed? then Failed(thn.error) else
    Done((cond.value, thn.value), thn.pos)
  }

  ghost function IfAt(ts: seq<Token>, p: nat, sub: Nested): (r: Parsed<Expr>)
    requires EndsOnce(ts) && p < |ts| && ts[p].Ident?
    ensures r.Done? ==> p < r.pos < |ts|
    decreases |ts| - p, 5
  {
    var first := BranchAt(ts, p + 1, sub);
    if first.Failed? then Failed(first.error) else
    if ts[first.pos] == Ident("elif") then
      var second := BranchAt(ts, first.pos + 1, sub);
      if second.Failed? then Failed(second.error) else
      var els := ElseAt(ts, second.pos, sub);
      if els.Failed? then Failed(els.error) else
      var end := ExpectAt(ts, els.pos, Ident("end"));
      if end.Failed? then Failed(end.error) else
      Done(If(first.value.0, first.value.1, If(second.value.0, second.value.1, els.value)), end.pos)
    else
      var els := ElseAt(ts, first.pos, sub);
      if els.Failed? then Failed(els.error) else
      var end := ExpectAt(ts, els.pos, Ident("end"));
      if end.Failed? then Failed(end.error) else
      Done(If(first.value.0, first.value.1, els.value), end.pos)
  }

  /** A second `elif` is not a branch: its keyword is read as the first word of an expression. */
  ghost function ElseAt(ts: seq<Token>, p: nat, sub: Nested): (r: Parsed<Expr>)
    requires EndsOnce(ts) && p < |ts|
    ensures r.Done? ==> p <= r.pos < |ts|
    decreases |ts| - p, 21
  {
    if ts[p] == Ident("else") then ExprAt(ts, p + 1, sub)
    else if ts[p] == Ident("elif") then ExprAt(ts, p, sub)
    else Done(Literal(Null), p)
  }

  ghost function ArgsAt(ts: seq<Token>, p: nat, sub: Nested): (r: Parsed<seq<Expr>>)
    requires EndsOnce(ts) && p < |ts|
    ensures r.Done? ==> p <= r.pos < |ts|
    decreases |ts| - p, 20
  {
    if ts[p] == RParen then Done([], p) else ArgsRest(ts, p, sub, [])
  }

  ghost function ArgsRest(ts: seq<Token>, p: nat, sub: Nested, args: seq<Expr>): (r: Parsed<seq<Expr>>)
    requires EndsOnce(ts) && p < |ts|
    ensures r.Done? ==> p <= r.pos < |ts|
    decreases |ts| - p, 19
  {
    var arg := LevelAt(ts, p, sub, 0);
    if arg.Failed? then Failed(arg.error) else
    if ts[arg.pos] == Comma || ts[arg.pos] == Semicolon then
      ArgsRest(ts, arg.pos + 1, sub, args + [arg.value])
    else Done(args + [arg.value], arg.pos)
  }

  ghost function ArrayAt(ts: seq<Token>, p: nat, sub: Nested): (r: Parsed<Expr>)
    requires EndsOnce(ts) && p < |ts| && ts[p] == LBracket
    ensures r.Done? ==> p < r.pos < |ts|
    decreases |ts| - p, 0
  {
    if ts[p + 1] == RBracket then Done(ArrayExpr([]), p + 2)
    else
      var elems := ElemsRest(ts, p + 1, sub, []);
      if elems.Failed? then Failed(elems.error) else
      var end := ExpectAt(ts, elems.pos, RBracket);
      if end.Failed? then Failed(end.error) else
      Done(ArrayExpr(elems.value), end.pos)
  }

  /** A stream inside an array contributes its parts as elements. */
  function Flattened(e: Expr): seq<Expr> {
    if e.Stream? then e.elems else [e]
  }

  ghost function ElemsRest(ts: seq<Token>, p: nat, sub: Nested, elems: seq<Expr>): (r: Parsed<seq<Expr>>)
    requires EndsOnce(ts) && p < |ts|
    ensures r.Done? ==> p <= r.pos < |ts|
    decreases |ts| - p, 19
  {
    var e := LevelAt(ts, p, sub, 0);
    if e.Failed? then Failed(e.error) else
    if ts[e.pos] == Comma then ElemsRest(ts, e.pos + 1, sub, elems + Flattened(e.value))
    else Done(elems + Flattened(e.value), e.pos)
  }

  ghost function ObjectAt(ts: seq<Token>, p: nat, sub: Nested): (r: Parsed<Expr>)
    requires EndsOnce(ts) && p < |ts| && ts[p] == LBrace
    ensures r.Done? ==> p < r.pos < |ts|
    decreases |ts| - p, 0
  {
    if ts[p + 1] == RBrace then Done(ObjectExpr([]), p + 2)
    else
      var entries := EntriesRest(ts, p + 1, sub, []);
      if entries.Failed? then Failed(entries.error) else
      var end := ExpectAt(ts, entries.pos, RBrace);
      if end.Failed? then Failed(end.error) else
      Done(ObjectExpr(entries.value), end.pos)
  }

  ghost function EntryAt(ts: seq<Token>, p: nat, sub: Nested): (r: Parsed<Entry>)
    requires EndsOnce(ts) && p < |ts|
    ensures r.Done? ==> p < r.pos < |ts|
    decreases |ts| - p, 18
  {
    var key := KeyAt(ts, p, sub);
    if key.Failed? then Failed(key.error) else
    var colon := ExpectAt(ts, key.pos, Colon);
    if colon.Failed? then Failed(colon.error) else
    var value := LevelAt(ts, colon.pos, sub, 0);
    if value.Failed? then Failed(value.error) else
    Done(Entry(key.value, value.value), value.pos)
  }

  ghost function EntriesRest(ts: seq<Token>, p: nat, sub: Nested, entries: seq<Entry>): (r: Parsed<seq<Entry>>)
    requires EndsOnce(ts) && p < |ts|
    ensures r.Done? ==> p <= r.pos < |ts|
    decreases |ts| - p, 19
  {
    var entry := EntryAt(ts, p, sub);
    if entry.Failed? then Failed(entry.error) else
    if ts[entry.pos] == Comma then EntriesRest(ts, entry.pos + 1, sub, entries + [entry.value])
    else Done(entries + [entry.value], entry.pos)
  }

  ghost function KeyAt(ts: seq<Token>, p: nat, sub: Nested): (r: Parsed<ObjKey>)
    requires EndsOnce(ts) && p < |ts|
    ensures r.Done? ==> p < r.pos < |ts|
    decreases |ts| - p, 17
  {
    match ts[p]
    case Ident(name) => Done(IdentKey(name), p + 1)
    case Quote(text) => Done(StrKey(text), p + 1)
    case VariableName(name) => Done(IdentKey(name), p + 1)
    case LParen =>
      var key := LevelAt(ts, p + 1, sub, 0);
      if key.Failed? then Failed(key.error) else
      var end := ExpectAt(ts, key.pos, RParen);
      if end.Failed? then Failed(end.error) else
      Done(Computed(key.value), end.pos)
    case _ => Failed(ParseError(p))
  }

  ghost function StringAt(ts: seq<Token>, p: nat, sub: Nested): (r: Parsed<Expr>)
    requires EndsOnce(ts) && p < |ts| && (ts[p].Quote? || ts[p].Interp?)
    ensures r.Done? ==> p < r.pos < |ts|
    decreases |ts| - p, 2
  {
    var parts := PartsRest(ts, p, sub, []);
    if parts.Failed? then Failed(parts.error) else
    Done(StrExpr(parts.value), parts.pos)
  }

  ghost function PartsRest(ts: seq<Token>, p: nat, sub: Nested, parts: seq<InterpPart>): (r: Parsed<seq<InterpPart>>)
    requires EndsOnce(ts) && p < |ts|
    ensures r.Done? ==> p <= r.pos < |ts| && (ts[p].Quote? || ts[p].Interp? ==> p < r.pos)
    decreases |ts| - p, 1
  {
    match ts[p]
    case Quote(text) => PartsRest(ts, p + 1, sub, parts + [LiteralPart(text)])
    case Interp(source) =>
      var inner := sub(source);
      if inner.Err? then Failed(inner.error) else
      PartsRest(ts, p + 1, sub, parts + [ExprPart(inner.value)])
    case _ => Done(parts, p)
  }

  // ----- Whole sources -----

  /** Parsing a text. Interpolated sources are strictly shorter, so nested parsing terminates. */
  ghost function Source(source: string): Result<Expr, ExpressionError>
    decreases |source|, 1
  {
    var ts :- Tokens(source, 0);
    match ExprAt(ts, 0, Shorter(source))
    case Failed(error) => Err(error)
    case Done(e, p) => if ts[p] == Eof then Ok(e) else Err(ParseError(p))
  }

  ghost function Shorter(source: string): Nested
    decreases |source|, 0
  {
    (inner: string) => if |inner| < |source| then Source(inner) else Err(EvalError)
  }

  /** An accepted source was read to its end: the expression covers every token before the end marker. */
  lemma AcceptedSourcesAreConsumed(source: string)
    requires Source(source).Ok?
    ensures Tokens(source, 0).Ok?
    ensures var ts := Tokens(source, 0).value;
            EndsOnce(ts) && ExprAt(ts, 0, Shorter(source)) == Done(Source(source).value, |ts| - 1)
  {
    hide ExprAt, Tokens;
  }
}
