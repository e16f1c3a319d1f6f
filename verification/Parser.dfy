/** The token-cursor parser. Every method computes exactly its production and always stays inside the token vector. */
module Parsing {
  import opened Wrappers
  import opened Json
  import opened Syntax
  import opened Lexing
  import opened Grammar

  type ParseResult<T> = Result<T, ExpressionError>

  /** The cursor's result and final position are those of a production; after an error the position is irrelevant. */
  ghost predicate Follows<T>(r: ParseResult<T>, pos: nat, spec: Parsed<T>) {
    match spec
    case Done(value, next) => r == Ok(value) && pos == next
    case Failed(e) => r == Err(e)
  }

  method Parse(source: string) returns (r: ParseResult<Expr>)
    ensures r == Source(source)
    decreases |source| + 1, 0, 0
  {
    var lexer := new Lexer(source);
    var tokens := lexer.Tokenize();
    if tokens.Err? {
      return Err(tokens.error);
    }
    var parser := new Parser(tokens.value, source);
    var e := parser.ParseExpr();
    if e.Err? {
      return e;
    }
    if parser.tokens[parser.pos] != Eof {
      return Err(ParseError(parser.pos));
    }
    return e;
  }

  class Parser {
    const tokens: seq<Token>
    ghost const source: string
    ghost const sub: Nested
    var pos: nat

    ghost predicate Valid()
      reads this
    {
      EndsOnce(tokens) && InterpsBelow(tokens, |source|) && sub == Shorter(source) && pos < |tokens|
    }

    constructor (tokens: seq<Token>, ghost source: string)
      requires EndsOnce(tokens) && InterpsBelow(tokens, |source|)
      ensures Valid() && this.tokens == tokens && this.source == source && pos == 0
    {
      this.tokens := tokens;
      this.source := source;
      sub := Shorter(source);
      pos := 0;
    }

    function Peek(): Token
      requires Valid()
      reads this
    {
      tokens[pos]
    }

    function Peek2(): Token
      requires Valid()
      reads this
    {
      tokens[if pos + 1 < |tokens| then pos + 1 else |tokens| - 1]
    }

    /** The cursor never leaves the end marker. */
    method Advance()
      requires Valid()
      modifies this
      ensures Valid()
      ensures pos == if tokens[old(pos)] == Eof then old(pos) else old(pos) + 1
    {
      if pos < |tokens| - 1 {
        pos := pos + 1;
      }
    }

    method Expect(t: Token) returns (r: ParseResult<()>)
      requires Valid() && t != Eof
      modifies this
      ensures Valid()
      ensures Follows(r, pos, ExpectAt(tokens, old(pos), t))
    {
      if Peek() == t {
        Advance();
        r := Ok(());
      } else {
        r := Err(ParseError(pos));
      }
    }

    method ParseExpr() returns (r: ParseResult<Expr>)
      requires Valid()
      modifies this
      ensures Valid() && Follows(r, pos, ExprAt(tokens, old(pos), sub))
      decreases |source|, |tokens| - pos, 20
    {
      hide LevelAt;
      var first := ParseLevel(0);
      if first.Err? {
        return first;
      }
      var parts := [first.value];
      while Peek() == Comma
        invariant Valid() && old(pos) < pos && parts != []
        invariant CommaRest(tokens, pos, sub, parts)
               == CommaRest(tokens, LevelAt(tokens, old(pos), sub, 0).pos, sub, [first.value])
        decreases |tokens| - pos
      {
        Advance();
        var next := ParseLevel(0);
        if next.Err? {
          return next;
        }
        parts := parts + [next.value];
      }
      return Ok(if |parts| == 1 then parts[0] else Stream(parts));
    }

    /** One method for the six left-associative loops, which differ only in their operator table. */
    method ParseLevel(level: nat) returns (r: ParseResult<Expr>)
      requires Valid() && level <= UNARY_LEVEL
      modifies this
      ensures Valid() && Follows(r, pos, LevelAt(tokens, old(pos), sub, level))
      decreases |source|, |tokens| - pos, 10 + UNARY_LEVEL - level
    {
      if level == UNARY_LEVEL {
        r := ParseUnary();
        return;
      }
      var first := ParseLevel(level + 1);
      if first.Err? {
        return first;
      }
      var left := first.value;
      while JoinerAt(level, Peek()).Some?
        invariant Valid() && old(pos) < pos
        invariant LevelRest(tokens, pos, sub, level, left) == LevelAt(tokens, old(pos), sub, level)
        decreases |tokens| - pos
      {
        var joiner := JoinerAt(level, Peek()).value;
        Advance();
        var right := ParseLevel(level + 1);
        if right.Err? {
          return right;
        }
        left := Join(joiner, left, right.value);
      }
      return Ok(left);
    }

    method ParseUnary() returns (r: ParseResult<Expr>)
      requires Valid()
      modifies this
      ensures Valid() && Follows(r, pos, UnaryAt(tokens, old(pos), sub))
      decreases |source|, |tokens| - pos, 9
    {
      if Peek() == Ident("not") || Peek() == Minus {
        var op := if Peek() == Minus then Negate else Not;
        Advance();
        var inner := ParseUnary();
        if inner.Err? {
          return inner;
        }
        return Ok(Unary(op, inner.value));
      }
      r := ParsePostfix();
    }

    method ParsePostfix() returns (r: ParseResult<Expr>)
      requires Valid()
      modifies this
      ensures Valid() && Follows(r, pos, PostfixAt(tokens, old(pos), sub))
      decreases |source|, |tokens| - pos, 8
    {
      hide BaseAt, BracketAt;
      r := ParseBase();
      if r.Err? {
        return;
      }
      var base := r.value;
      while true
        invariant Valid() && old(pos) < pos
        invariant PostfixRest(tokens, pos, sub, base) == PostfixAt(tokens, old(pos), sub)
        decreases |tokens| - pos
      {
        if Peek() == Dot && IsName(Peek2()) {
          var name := NameText(Peek2());
          Advance();
          Advance();
          base := Field(base, name);
        } else if Peek() == LBracket {
          var next := ParseBracket(base);
          if next.Err? {
            return next;
          }
          base := next.value;
        } else {
          return Ok(base);
        }
      }
    }

    method ParseBracket(base: Expr) returns (r: ParseResult<Expr>)
      requires Valid() && tokens[pos] == LBracket
      modifies this
      ensures Valid() && Follows(r, pos, BracketAt(tokens, old(pos), sub, base))
      decreases |source|, |tokens| - pos, 0
    {
      if Peek2() == RBracket {
        Advance();
        Advance();
        return Ok(Iterate(base));
      }
      Advance();
      var index := ParseExpr();
      if index.Err? {
        return index;
      }
      var end := Expect(RBracket);
      return if end.Err? then Err(end.error) else Ok(Index(base, index.value));
    }

    method ParseBase() returns (r: ParseResult<Expr>)
      requires Valid()
      modifies this
      ensures Valid() && Follows(r, pos, BaseAt(tokens, old(pos), sub))
      decreases |source|, |tokens| - pos, 7
    {
      match Peek()
      case Dot =>
        Advance();
        var base := Identity;
        while true
          invariant Valid() && old(pos) < pos
          invariant ChainRest(tokens, pos, sub, base) == BaseAt(tokens, old(pos), sub)
          decreases |tokens| - pos
        {
          if IsName(Peek()) {
            base := Field(base, NameText(Peek()));
            Advance();
          } else if Peek() == LBracket {
            var next := ParseBracket(base);
            if next.Err? {
              return next;
            }
            base := next.value;
          } else {
            return Ok(base);
          }
        }
      case RecursiveDot =>
        Advance();
        r := Ok(Identity);
      case VariableName(name) =>
        Advance();
        r := Ok(Variable(name));
      case Number(n) =>
        Advance();
        r := Ok(Literal(Num(JsonNum(n))));
      case Quote(_) => r := ParseStringParts();
      case Interp(_) => r := ParseStringParts();
      case LBracket => r := ParseArray();
      case LBrace => r := ParseObject();
      case LParen =>
        Advance();
        var e := ParseExpr();
        if e.Err? {
          return e;
        }
        var end := Expect(RParen);
        r := if end.Err? then Err(end.error) else e;
      case Ident(_) => r := ParseIdentPrimary();
      case _ => r := Err(ParseError(pos));
    }

    method ParseIdentPrimary() returns (r: ParseResult<Expr>)
      requires Valid() && tokens[pos].Ident?
      modifies this
      ensures Valid() && Follows(r, pos, WordAt(tokens, old(pos), sub))
      decreases |source|, |tokens| - pos, 6
    {
      var name := Peek().name;
      if name == "true" {
        Advance();
        r := Ok(Literal(Bool(true)));
      } else if name == "false" {
        Advance();
        r := Ok(Literal(Bool(false)));
      } else if name == "null" {
        Advance();
        r := Ok(Literal(Null));
      } else if name == "if" {
        r := ParseIf();
      } else if Peek2() == LParen {
        Advance();
        Advance();
        var args := ParseArgs();
        if args.Err? {
          return Err(args.error);
        }
        var end := Expect(RParen);
        r := if end.Err? then Err(end.error) else Ok(Call(name, args.value));
      } else {
        Advance();
        r := Ok(Call(name, []));
      }
    }

    method ParseBranch() returns (r: ParseResult<(Expr, Expr)>)
      requires Valid()
      modifies this
      ensures Valid() && Follows(r, pos, BranchAt(tokens, old(pos), sub))
      decreases |source|, |tokens| - pos, 21
    {
      var cond := ParseExpr();
      if cond.Err? {
        return Err(cond.error);
      }
      var keyword := Expect(Ident("then"));
      if keyword.Err? {
        return Err(keyword.error);
      }
      var thn := ParseExpr();
      return if thn.Err? then Err(thn.error) else Ok((cond.value, thn.value));
    }

    method ParseIf() returns (r: ParseResult<Expr>)
      requires Valid() && tokens[pos].Ident?
      modifies this
      ensures Valid() && Follows(r, pos, IfAt(tokens, old(pos), sub))
      decreases |source|, |tokens| - pos, 5
    {
      hide ExprAt, BranchAt;
      Advance();
      var first := ParseBranch();
      if first.Err? {
        return Err(first.error);
      }
      var second: ParseResult<(Expr, Expr)> := Err(EvalError);
      var nested := Peek() == Ident("elif");
      if nested {
        Advance();
        second := ParseBranch();
        if second.Err? {
          return Err(second.error);
        }
      }
      var els := ParseElseTail();
      if els.Err? {
        return els;
      }
      var keyword := Expect(Ident("end"));
      if keyword.Err? {
        return Err(keyword.error);
      }
      var otherwise := if nested then If(second.value.0, second.value.1, els.value) else els.value;
      return Ok(If(first.value.0, first.value.1, otherwise));
    }

    method ParseElseTail() returns (r: ParseResult<Expr>)
      requires Valid()
      modifies this
      ensures Valid() && Follows(r, pos, ElseAt(tokens, old(pos), sub))
      decreases |source|, |tokens| - pos, 21
    {
      if Peek() == Ident("else") {
        Advance();
        r := ParseExpr();
      } else if Peek() == Ident("elif") {
        r := ParseExpr();
      } else {
        r := Ok(Literal(Null));
      }
    }

    method ParseArgs() returns (r: ParseResult<seq<Expr>>)
      requires Valid()
      modifies this
      ensures Valid() && Follows(r, pos, ArgsAt(tokens, old(pos), sub))
      decreases |source|, |tokens| - pos, 20
    {
      hide LevelAt;
      var args: seq<Expr> := [];
      if Peek() == RParen {
        return Ok(args);
      }
      while true
        invariant Valid() && old(pos) <= pos
        invariant ArgsRest(tokens, pos, sub, args) == ArgsAt(tokens, old(pos), sub)
        decreases |tokens| - pos
      {
        var arg := ParseLevel(0);
        if arg.Err? {
          return Err(arg.error);
        }
        args := args + [arg.value];
        if Peek() != Comma && Peek() != Semicolon {
          return Ok(args);
        }
        Advance();
      }
    }

    method ParseArray() returns (r: ParseResult<Expr>)
      requires Valid() && tokens[pos] == LBracket
      modifies this
      ensures Valid() && Follows(r, pos, ArrayAt(tokens, old(pos), sub))
      decreases |source|, |tokens| - pos, 0
    {
      hide LevelAt, LevelRest, UnaryAt, ExprAt, CommaRest, EntryAt, EntriesRest, ObjectAt;
      Advance();
      if Peek() == RBracket {
        Advance();
        return Ok(ArrayExpr([]));
      }
      var elems: seq<Expr> := [];
      while true
        invariant Valid() && old(pos) < pos
        invariant ElemsRest(tokens, pos, sub, elems) == ElemsRest(tokens, old(pos) + 1, sub, [])
        decreases |tokens| - pos
      {
        var e := ParseLevel(0);
        if e.Err? {
          return e;
        }
        elems := elems + Flattened(e.value);
        if Peek() != Comma {
          break;
        }
        Advance();
      }
      var end := Expect(RBracket);
      return if end.Err? then Err(end.error) else Ok(ArrayExpr(elems));
    }

    method ParseObject() returns (r: ParseResult<Expr>)
      requires Valid() && tokens[pos] == LBrace
      modifies this
      ensures Valid() && Follows(r, pos, ObjectAt(tokens, old(pos), sub))
      decreases |source|, |tokens| - pos, 0
    {
      hide EntryAt;
      Advance();
      if Peek() == RBrace {
        Advance();
        return Ok(ObjectExpr([]));
      }
      var entries: seq<Entry> := [];
      while true
        invariant Valid() && old(pos) < pos
        invariant EntriesRest(tokens, pos, sub, entries) == EntriesRest(tokens, old(pos) + 1, sub, [])
        decreases |tokens| - pos
      {
        var entry := ParseEntry();
        if entry.Err? {
          return Err(entry.error);
        }
        entries := entries + [entry.value];
        if Peek() != Comma {
          break;
        }
        Advance();
      }
      var end := Expect(RBrace);
      return if end.Err? then Err(end.error) else Ok(ObjectExpr(entries));
    }

    method ParseEntry() returns (r: ParseResult<Entry>)
      requires Valid()
      modifies this
      ensures Valid() && Follows(r, pos, EntryAt(tokens, old(pos), sub))
      decreases |source|, |tokens| - pos, 18
    {
      var key := ParseObjectKey();
      if key.Err? {
        return Err(key.error);
      }
      var colon := Expect(Colon);
      if colon.Err? {
        return Err(colon.error);
      }
      var value := ParseLevel(0);
      return if value.Err? then Err(value.error) else Ok(Entry(key.value, value.value));
    }

    method ParseObjectKey() returns (r: ParseResult<ObjKey>)
      requires Valid()
      modifies this
      ensures Valid() && Follows(r, pos, KeyAt(tokens, old(pos), sub))
      decreases |source|, |tokens| - pos, 17
    {
      match Peek()
      case Ident(name) =>
        Advance();
        r := Ok(IdentKey(name));
      case Quote(text) =>
        Advance();
        r := Ok(StrKey(text));
      case VariableName(name) =>
        Advance();
        r := Ok(IdentKey(name));
      case LParen =>
        Advance();
        var key := ParseLevel(0);
        if key.Err? {
          return Err(key.error);
        }
        var end := Expect(RParen);
        r := if end.Err? then Err(end.error) else Ok(Computed(key.value));
      case _ => r := Err(ParseError(pos));
    }

    /** Interpolated sources are parsed by a nested run of the whole parser. */
    method ParseStringParts() returns (r: ParseResult<Expr>)
      requires Valid() && (tokens[pos].Quote? || tokens[pos].Interp?)
      modifies this
      ensures Valid() && Follows(r, pos, StringAt(tokens, old(pos), sub))
      decreases |source|, |tokens| - pos, 2
    {
      var parts: seq<InterpPart> := [];
      while true
        invariant Valid() && old(pos) <= pos
        invariant PartsRest(tokens, pos, sub, parts) == PartsRest(tokens, old(pos), sub, [])
        decreases |tokens| - pos
      {
        match Peek()
        case Quote(text) =>
          Advance();
          parts := parts + [LiteralPart(text)];
        case Interp(source) =>
          Advance();
          var inner := Parse(source);
          if inner.Err? {
            return inner;
          }
          parts := parts + [ExprPart(inner.value)];
        case _ => return Ok(StrExpr(parts));
      }
    }
  }
}
