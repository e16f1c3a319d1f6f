/** The character lexer: a specification over positions and the cursor that follows it. */
module Lexing {
  import opened Wrappers
  import opened Syntax

  type Lexed<T> = Result<T, ExpressionError>

  // ----- Character classes -----

  // The Unicode tables beyond ASCII stay open.
  const OTHER_LETTERS: set<char>
  const OTHER_NUMERALS: set<char>

  predicate IsWhitespace(c: char) {
    var n := c as int;
    9 <= n <= 13 || n == 0x20 || n == 0x85 || n == 0xA0 || n == 0x1680 || 0x2000 <= n <= 0x200A
    || n == 0x2028 || n == 0x2029 || n == 0x202F || n == 0x205F || n == 0x3000
  }

  predicate IsDigit(c: char) {
    '0' <= c <= '9'
  }

  predicate IsAlphabetic(c: char) {
    'a' <= c <= 'z' || 'A' <= c <= 'Z' || (c as int >= 0x80 && c in OTHER_LETTERS)
  }

  predicate IsWordChar(c: char) {
    IsAlphabetic(c) || IsDigit(c) || (c as int >= 0x80 && c in OTHER_NUMERALS) || c == '_'
  }

  // ----- Specification -----

  datatype Batch = Batch(tokens: seq<Token>, pos: nat)

  predicate Sees(s: string, p: nat, c: char) {
    p < |s| && s[p] == c
  }

  function SkipComment(s: string, p: nat): (q: nat)
    requires p <= |s|
    ensures p <= q <= |s| && (q < |s| ==> s[q] == '\n')
    decreases |s| - p
  {
    if p < |s| && s[p] != '\n' then SkipComment(s, p + 1) else p
  }

  function SkipBlanks(s: string, p: nat): (q: nat)
    requires p <= |s|
    ensures p <= q <= |s| && (q < |s| ==> !IsWhitespace(s[q]) && s[q] != '#')
    decreases |s| - p
  {
    if p < |s| && IsWhitespace(s[p]) then SkipBlanks(s, p + 1)
    else if Sees(s, p, '#') then SkipBlanks(s, SkipComment(s, p + 1))
    else p
  }

  function WordEnd(s: string, p: nat): (q: nat)
    requires p <= |s|
    ensures p <= q <= |s| && (forall i | p <= i < q :: IsWordChar(s[i])) && (q < |s| ==> !IsWordChar(s[q]))
    decreases |s| - p
  {
    if p < |s| && IsWordChar(s[p]) then WordEnd(s, p + 1) else p
  }

  function DigitsEnd(s: string, p: nat): (q: nat)
    requires p <= |s|
    ensures p <= q <= |s| && (forall i | p <= i < q :: IsDigit(s[i])) && (q < |s| ==> !IsDigit(s[q]))
    decreases |s| - p
  {
    if p < |s| && IsDigit(s[p]) then DigitsEnd(s, p + 1) else p
  }

  predicate AllDigits(s: string) {
    forall i | 0 <= i < |s| :: IsDigit(s[i])
  }

  function NatOf(s: string): nat
    requires AllDigits(s)
  {
    if s == "" then 0 else NatOf(s[..|s| - 1]) * 10 + (s[|s| - 1] as int - '0' as int)
  }

  function Pow10(n: nat): (r: real)
    ensures r > 0.0
  {
    if n == 0 then 1.0 else 10.0 * Pow10(n - 1)
  }

  datatype NumberShape = NumberShape(whole: nat, fraction: nat, exponent: nat, end: nat)

  function FractionEnd(s: string, p: nat): (q: nat)
    requires p <= |s|
    ensures p <= q <= |s| && (q > p ==> s[p] == '.')
  {
    if Sees(s, p, '.') then DigitsEnd(s, p + 1) else p
  }

  function ExponentStart(s: string, p: nat): (q: nat)
    requires p <= |s|
    ensures p <= q <= |s|
  {
    if !Sees(s, p, 'e') && !Sees(s, p, 'E') then p
    else if Sees(s, p + 1, '+') || Sees(s, p + 1, '-') then p + 2
    else p + 1
  }

  /** Where the parts of the number at p end; `exponent` is where its exponent digits start. */
  function ShapeOfNumber(s: string, p: nat): (n: NumberShape)
    requires p < |s| && IsDigit(s[p])
    ensures p < n.whole <= n.fraction <= n.exponent <= n.end <= |s|
    ensures n.fraction > n.whole ==> s[n.whole] == '.'
  {
    var whole := DigitsEnd(s, p);
    var fraction := FractionEnd(s, whole);
    var exponent := ExponentStart(s, fraction);
    NumberShape(whole, fraction, exponent, if exponent == fraction then fraction else DigitsEnd(s, exponent))
  }

  lemma ShapeDigits(s: string, p: nat)
    requires p < |s| && IsDigit(s[p])
    ensures var n := ShapeOfNumber(s, p);
            && AllDigits(s[p..n.whole]) && AllDigits(s[n.exponent..n.end])
            && (n.fraction > n.whole ==> AllDigits(s[n.whole + 1..n.fraction]))
  {
  }

  function Decimal(whole: string, fraction: string, negative: bool, exponent: string): real
    requires AllDigits(whole) && AllDigits(fraction) && AllDigits(exponent)
  {
    var mantissa := NatOf(whole) as real + NatOf(fraction) as real / Pow10(|fraction|);
    if negative then mantissa / Pow10(NatOf(exponent)) else mantissa * Pow10(NatOf(exponent))
  }

  function FractionText(s: string, n: NumberShape): string
    requires n.fraction <= |s|
  {
    if n.fraction > n.whole then s[n.whole + 1..n.fraction] else ""
  }

  function NumberValue(s: string, p: nat): real
    requires p < |s| && IsDigit(s[p])
  {
    ShapeDigits(s, p);
    var n := ShapeOfNumber(s, p);
    Decimal(s[p..n.whole], FractionText(s, n), n.exponent > n.fraction && s[n.exponent - 1] == '-', s[n.exponent..n.end])
  }

  /** A number needs digits after its exponent mark. */
  function NumberToken(s: string, p: nat): (r: Lexed<Batch>)
    requires p < |s| && IsDigit(s[p])
    ensures r.Ok? ==> p < r.value.pos <= |s|
  {
    var n := ShapeOfNumber(s, p);
    if n.exponent > n.fraction && n.end == n.exponent then Err(LexError(p))
    else Ok(Batch([Number(NumberValue(s, p))], n.end))
  }

  function HexDigit(c: char): Option<nat> {
    if IsDigit(c) then Some(c as int - '0' as int)
    else if 'a' <= c <= 'f' then Some(c as int - 'a' as int + 10)
    else if 'A' <= c <= 'F' then Some(c as int - 'A' as int + 10)
    else None
  }

  function HexDigits(hex: string): (r: Option<nat>)
  {
    if hex == "" then Some(0)
    else
      match (HexDigits(hex[..|hex| - 1]), HexDigit(hex[|hex| - 1]))
      case (Some(high), Some(low)) => Some(high * 16 + low)
      case _ => None
  }

  /** A hexadecimal number as the standard integer parser reads it: a leading plus sign is accepted. */
  function HexValue(hex: string): Option<nat> {
    var digits := if |hex| > 1 && hex[0] == '+' then hex[1..] else hex;
    if digits == "" then None else HexDigits(digits)
  }

  /** Codes that are no scalar value (the surrogates) vanish. */
  function ScalarText(code: nat): string {
    if code < 0xD800 || 0xE000 <= code < 0x11_0000 then [code as char] else ""
  }

  function SimpleEscape(c: char): string {
    match c
    case '\"' => "\""
    case '\\' => "\\"
    case 'n' => "\n"
    case 't' => "\t"
    case 'r' => "\r"
    case 'f' => [12 as char]
    case 'b' => [8 as char]
    case '/' => "/"
    case other => ['\\', other]
  }

  function Flush(tokens: seq<Token>, literal: string): seq<Token> {
    if literal == "" then tokens else tokens + [Quote(literal)]
  }

  /** The position of the parenthesis closing an interpolation; string quotes inside it are not respected. */
  function InterpClose(s: string, p: nat, depth: nat): (r: Option<nat>)
    requires p <= |s| && depth > 0
    ensures r.Some? ==> p <= r.value < |s|
    decreases |s| - p
  {
    if p == |s| then None
    else if s[p] == '(' then InterpClose(s, p + 1, depth + 1)
    else if s[p] != ')' then InterpClose(s, p + 1, depth)
    else if depth == 1 then Some(p)
    else InterpClose(s, p + 1, depth - 1)
  }

  predicate StringPieces(tokens: seq<Token>, n: nat) {
    forall i | 0 <= i < |tokens| :: tokens[i].Quote? || (tokens[i].Interp? && |tokens[i].source| < n)
  }

  datatype Segment = Segment(literal: string, tokens: seq<Token>, pos: nat)

  /** Reads one escape whose backslash stands just before p. */
  function EscapeAt(s: string, p: nat, literal: string, tokens: seq<Token>): (r: Lexed<Segment>)
    requires p <= |s| && StringPieces(tokens, |s|)
    ensures r.Ok? ==> p < r.value.pos <= |s| && StringPieces(r.value.tokens, |s|)
  {
    if p == |s| then Err(LexError(p))
    else if s[p] == '(' then
      match InterpClose(s, p + 1, 1)
      case None => Err(LexError(|s|))
      case Some(close) => Ok(Segment("", Flush(tokens, literal) + [Interp(s[p + 1..close])], close + 1))
    else if s[p] == 'u' then
      var end := if p + 5 <= |s| then p + 5 else |s|;
      match HexValue(s[p + 1..end])
      case None => Err(LexError(end))
      case Some(code) => Ok(Segment(literal + ScalarText(code), tokens, end))
    else Ok(Segment(literal + SimpleEscape(s[p]), tokens, p + 1))
  }

  /** Reads the rest of a string from p, given the text and the segments collected so far. */
  function StringRest(s: string, p: nat, literal: string, tokens: seq<Token>): (r: Lexed<Batch>)
    requires p <= |s| && StringPieces(tokens, |s|)
    ensures r.Ok? ==> p < r.value.pos <= |s| && r.value.tokens != [] && StringPieces(r.value.tokens, |s|)
    decreases |s| - p
  {
    if p == |s| then Err(LexError(p))
    else if s[p] == '\"' then
      var flushed := Flush(tokens, literal);
      Ok(Batch(if flushed == [] then [Quote("")] else flushed, p + 1))
    else if s[p] != '\\' then StringRest(s, p + 1, literal + [s[p]], tokens)
    else
      var segment :- EscapeAt(s, p + 1, literal, tokens);
      StringRest(s, segment.pos, segment.literal, segment.tokens)
  }

  function PairToken(a: char, b: char): Option<Token> {
    if a == '.' && b == '.' then Some(RecursiveDot)
    else if a == '=' && b == '=' then Some(EqEq)
    else if a == '!' && b == '=' then Some(NotEq)
    else if a == '<' && b == '=' then Some(LessEq)
    else if a == '>' && b == '=' then Some(GreaterEq)
    else if a == '/' && b == '/' then Some(Alternative)
    else None
  }

  function SingleToken(c: char): Option<Token> {
    match c
    case '.' => Some(Dot)
    case '[' => Some(LBracket)
    case ']' => Some(RBracket)
    case '{' => Some(LBrace)
    case '}' => Some(RBrace)
    case '(' => Some(LParen)
    case ')' => Some(RParen)
    case '|' => Some(Bar)
    case ',' => Some(Comma)
    case ':' => Some(Colon)
    case ';' => Some(Semicolon)
    case '+' => Some(Plus)
    case '-' => Some(Minus)
    case '<' => Some(Less)
    case '>' => Some(Greater)
    case '*' => Some(Star)
    case '/' => Some(Slash)
    case '%' => Some(Percent)
    case '=' => Some(Assign)
    case _ => None
  }

  /** The tokens that start at the non-blank position p. */
  function TokensAt(s: string, p: nat): (r: Lexed<Batch>)
    requires p < |s|
    ensures r.Ok? ==> p < r.value.pos <= |s| && r.value.tokens != []
    ensures r.Ok? ==> Eof !in r.value.tokens && InterpsBelow(r.value.tokens, |s|)
  {
    var c := s[p];
    if p + 1 < |s| && PairToken(c, s[p + 1]).Some? then Ok(Batch([PairToken(c, s[p + 1]).value], p + 2))
    else if SingleToken(c).Some? then Ok(Batch([SingleToken(c).value], p + 1))
    else if c == '$' then
      var end := WordEnd(s, p + 1);
      Ok(Batch([VariableName(s[p + 1..end])], end))
    else if c == '\"' then StringRest(s, p + 1, "", [])
    else if IsDigit(c) then NumberToken(s, p)
    else if IsAlphabetic(c) || c == '_' then
      var end := WordEnd(s, p);
      Ok(Batch([Ident(s[p..end])], end))
    else Err(LexError(p))
  }

  /** The next batch: a string can produce several tokens, the end of the text exactly one. */
  function NextBatch(s: string, p: nat): (r: Lexed<Batch>)
    requires p <= |s|
    ensures r.Ok? ==> p <= r.value.pos <= |s| && r.value.tokens != []
    ensures r.Ok? && r.value.tokens[0] == Eof ==> r.value.tokens == [Eof]
    ensures r.Ok? && r.value.tokens[0] != Eof ==>
              p < r.value.pos && Eof !in r.value.tokens && InterpsBelow(r.value.tokens, |s|)
  {
    var q := SkipBlanks(s, p);
    if q == |s| then Ok(Batch([Eof], q)) else TokensAt(s, q)
  }

  /** All tokens from p on. */
  function Tokens(s: string, p: nat): (r: Lexed<seq<Token>>)
    requires p <= |s|
    ensures r.Ok? ==> EndsOnce(r.value) && InterpsBelow(r.value, |s|)
    decreases |s| - p
  {
    var batch :- NextBatch(s, p);
    if batch.tokens[0] == Eof then Ok(batch.tokens)
    else
      var rest :- Tokens(s, batch.pos);
      Ok(batch.tokens + rest)
  }

  function Prepend(tokens: seq<Token>, rest: Lexed<seq<Token>>): Lexed<seq<Token>> {
    if rest.Ok? then Ok(tokens + rest.value) else rest
  }

  lemma PrependTwice(tokens: seq<Token>, s: string, p: nat)
    requires p <= |s|
    ensures match NextBatch(s, p)
            case Err(e) => Prepend(tokens, Tokens(s, p)) == Err(e)
            case Ok(batch) =>
              Prepend(tokens, Tokens(s, p)) ==
              if batch.tokens[0] == Eof then Ok(tokens + batch.tokens)
              else Prepend(tokens + batch.tokens, Tokens(s, batch.pos))
  {
    var r := NextBatch(s, p);
    if r.Ok? && r.value.tokens[0] != Eof && Tokens(s, r.value.pos).Ok? {
      var rest := Tokens(s, r.value.pos).value;
      assert tokens + (r.value.tokens + rest) == (tokens + r.value.tokens) + rest;
    }
  }

  // ----- The cursor -----

  class Lexer {
    const chars: string
    var pos: nat

    ghost predicate Valid()
      reads this
    {
      pos <= |chars|
    }

    constructor (source: string)
      ensures Valid() && chars == source && pos == 0
    {
      chars := source;
      pos := 0;
    }

    method Bump() returns (c: Option<char>)
      requires Valid()
      modifies this
      ensures Valid()
      ensures old(pos) == |chars| ==> c == None && pos == old(pos)
      ensures old(pos) < |chars| ==> c == Some(chars[old(pos)]) && pos == old(pos) + 1
    {
      if pos < |chars| {
        c := Some(chars[pos]);
        pos := pos + 1;
      } else {
        c := None;
      }
    }

    /** Produces exactly the specified tokens, on every text. */
    method Tokenize() returns (r: Lexed<seq<Token>>)
      requires Valid() && pos == 0
      modifies this
      ensures r == Tokens(chars, 0)
    {
      var tokens: seq<Token> := [];
      assert Tokens(chars, 0).Ok? ==> [] + Tokens(chars, 0).value == Tokens(chars, 0).value;
      while true
        invariant Valid()
        invariant Tokens(chars, 0) == Prepend(tokens, Tokens(chars, pos))
        decreases |chars| - pos
      {
        PrependTwice(tokens, chars, pos);
        var batch := NextTokens();
        if batch.Err? {
          return Err(batch.error);
        }
        tokens := tokens + batch.value;
        if batch.value[0] == Eof {
          return Ok(tokens);
        }
      }
    }

    method NextTokens() returns (r: Lexed<seq<Token>>)
      requires Valid()
      modifies this
      ensures Valid()
      ensures match NextBatch(chars, old(pos))
              case Ok(batch) => r == Ok(batch.tokens) && pos == batch.pos
              case Err(e) => r == Err(e)
    {
      SkipBlankText();
      if pos == |chars| {
        return Ok([Eof]);
      }
      var c := chars[pos];
      if pos + 1 < |chars| && PairToken(c, chars[pos + 1]).Some? {
        r := Ok([PairToken(c, chars[pos + 1]).value]);
        pos := pos + 2;
      } else if SingleToken(c).Some? {
        r := Ok([SingleToken(c).value]);
        pos := pos + 1;
      } else if c == '$' {
        pos := pos + 1;
        var name := ReadIdent();
        r := Ok([VariableName(name)]);
      } else if c == '\"' {
        r := ReadString();
      } else if IsDigit(c) {
        r := ReadNumber();
      } else if IsAlphabetic(c) || c == '_' {
        var name := ReadIdent();
        r := Ok([Ident(name)]);
      } else {
        r := Err(LexError(pos));
      }
    }

    method SkipBlankText()
      requires Valid()
      modifies this
      ensures Valid() && pos == SkipBlanks(chars, old(pos))
    {
      while pos < |chars| && (IsWhitespace(chars[pos]) || chars[pos] == '#')
        invariant Valid() && SkipBlanks(chars, pos) == SkipBlanks(chars, old(pos))
        decreases |chars| - pos
      {
        if IsWhitespace(chars[pos]) {
          pos := pos + 1;
        } else {
          pos := pos + 1;
          ghost var start := pos;
          while pos < |chars| && chars[pos] != '\n'
            invariant Valid() && start <= pos && SkipComment(chars, pos) == SkipComment(chars, start)
          {
            pos := pos + 1;
          }
        }
      }
    }

    method ReadIdent() returns (name: string)
      requires Valid()
      modifies this
      ensures Valid() && pos == WordEnd(chars, old(pos)) && name == chars[old(pos)..pos]
    {
      var start := pos;
      while pos < |chars| && IsWordChar(chars[pos])
        invariant start <= pos && Valid() && WordEnd(chars, pos) == WordEnd(chars, start)
      {
        pos := pos + 1;
      }
      name := chars[start..pos];
    }

    method SkipDigits()
      requires Valid()
      modifies this
      ensures Valid() && pos == DigitsEnd(chars, old(pos))
    {
      while pos < |chars| && IsDigit(chars[pos])
        invariant Valid() && DigitsEnd(chars, pos) == DigitsEnd(chars, old(pos))
      {
        pos := pos + 1;
      }
    }

    method SkipFraction()
      requires Valid()
      modifies this
      ensures Valid() && pos == FractionEnd(chars, old(pos))
    {
      if Sees(chars, pos, '.') {
        pos := pos + 1;
        SkipDigits();
      }
    }

    method SkipExponentMark()
      requires Valid()
      modifies this
      ensures Valid() && pos == ExponentStart(chars, old(pos))
    {
      if Sees(chars, pos, 'e') || Sees(chars, pos, 'E') {
        pos := pos + 1;
        if Sees(chars, pos, '+') || Sees(chars, pos, '-') {
          pos := pos + 1;
        }
      }
    }

    method SkipNumber() returns (malformed: bool)
      requires Valid() && pos < |chars| && IsDigit(chars[pos])
      modifies this
      ensures Valid()
      ensures var n := ShapeOfNumber(chars, old(pos));
              pos == n.end && malformed == (n.exponent > n.fraction && n.end == n.exponent)
    {
      SkipDigits();
      SkipFraction();
      var mark := pos;
      SkipExponentMark();
      var digits := pos;
      malformed := false;
      if digits > mark {
        SkipDigits();
        malformed := digits == pos;
      }
    }

    method ReadNumber() returns (r: Lexed<seq<Token>>)
      requires Valid() && pos < |chars| && IsDigit(chars[pos])
      modifies this
      ensures Valid()
      ensures match NumberToken(chars, old(pos))
              case Ok(batch) => r == Ok(batch.tokens) && pos == batch.pos
              case Err(e) => r == Err(e)
    {
      var start := pos;
      var malformed := SkipNumber();
      r := if malformed then Err(LexError(start)) else Ok([Number(NumberValue(chars, start))]);
    }

    method ReadString() returns (r: Lexed<seq<Token>>)
      requires Valid() && pos < |chars| && chars[pos] == '\"'
      modifies this
      ensures Valid()
      ensures match StringRest(chars, old(pos) + 1, "", [])
              case Ok(batch) => r == Ok(batch.tokens) && pos == batch.pos
              case Err(e) => r == Err(e)
    {
      pos := pos + 1;
      var tokens: seq<Token> := [];
      var literal := "";
      while true
        invariant Valid() && StringPieces(tokens, |chars|)
        invariant StringRest(chars, pos, literal, tokens) == StringRest(chars, old(pos) + 1, "", [])
        decreases |chars| - pos
      {
        var next := Bump();
        if next.None? {
          return Err(LexError(pos));
        }
        if next.value == '\"' {
          tokens := Flush(tokens, literal);
          return Ok(if tokens == [] then [Quote("")] else tokens);
        } else if next.value == '\\' {
          var segment := ReadEscape(literal, tokens);
          if segment.Err? {
            return Err(segment.error);
          }
          literal, tokens := segment.value.literal, segment.value.tokens;
        } else {
          literal := literal + [next.value];
        }
      }
    }

    method ReadEscape(literal: string, tokens: seq<Token>) returns (r: Lexed<Segment>)
      requires Valid() && StringPieces(tokens, |chars|)
      modifies this
      ensures Valid() && r == EscapeAt(chars, old(pos), literal, tokens)
      ensures r.Ok? ==> pos == r.value.pos
    {
      var escape := Bump();
      if escape.None? {
        return Err(LexError(pos));
      }
      if escape.value == '(' {
        var source := ReadInterpSource();
        return if source.Err? then Err(source.error)
          else Ok(Segment("", Flush(tokens, literal) + [Interp(source.value)], pos));
      } else if escape.value == 'u' {
        var start := pos;
        pos := if pos + 4 <= |chars| then pos + 4 else |chars|;
        var code := HexValue(chars[start..pos]);
        return if code.None? then Err(LexError(pos))
          else Ok(Segment(literal + ScalarText(code.value), tokens, pos));
      } else {
        return Ok(Segment(literal + SimpleEscape(escape.value), tokens, pos));
      }
    }

    method ReadInterpSource() returns (r: Lexed<string>)
      requires Valid()
      modifies this
      ensures Valid()
      ensures match InterpClose(chars, old(pos), 1)
              case Some(close) => r == Ok(chars[old(pos)..close]) && pos == close + 1
              case None => r == Err(LexError(|chars|))
    {
      var start := pos;
      var depth := 1;
      while true
        invariant Valid() && start <= pos && depth > 0
        invariant InterpClose(chars, pos, depth) == InterpClose(chars, start, 1)
        decreases |chars| - pos
      {
        var next := Bump();
        if next.None? {
          return Err(LexError(pos));
        }
        if next.value == '(' {
          depth := depth + 1;
        } else if next.value == ')' {
          depth := depth - 1;
          if depth == 0 {
            return Ok(chars[start..pos - 1]);
          }
        }
      }
    }
  }
}
