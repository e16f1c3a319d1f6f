/** How tokens are written, one by one, and which of them can be. */
module Spelling {
  import opened Wrappers
  import opened Json
  import opened Syntax
  import opened Lexing

  /** The text is one number token, and denotes the number. */
  predicate Numeral(t: string, r: real) {
    t != "" && IsDigit(t[0]) && NumberToken(t, 0) == Ok(Batch([Number(r)], |t|))
  }

  function NumberSpelling(r: real): string {
    if r >= 0.0 && r == r.Floor as real then NatText(r.Floor) else FLOAT_TEXT(r)
  }

  /** A word starts with a letter or an underscore. */
  predicate IsWord(name: string) {
    && name != "" && (IsAlphabetic(name[0]) || name[0] == '_') && !IsWhitespace(name[0])
    && forall i | 0 <= i < |name| :: IsWordChar(name[i])
  }

  /** The first parenthesis that would close the text from outside is the one put behind it. */
  predicate Balanced(text: string) {
    InterpClose(text + ")", 0, 1) == Some(|text|)
  }

  function Mark(t: Token): string {
    match t
    case Dot => "." case RecursiveDot => ".."
    case LBracket => "[" case RBracket => "]" case LBrace => "{" case RBrace => "}" case LParen => "(" case RParen => ")"
    case Bar => "|" case Comma => "," case Colon => ":" case Semicolon => ";"
    case EqEq => "==" case NotEq => "!=" case Less => "<" case LessEq => "<=" case Greater => ">" case GreaterEq => ">="
    case Plus => "+" case Minus => "-" case Star => "*" case Slash => "/" case Percent => "%" case Alternative => "//"
    case Assign => "="
    case _ => ""
  }

  function SpellToken(t: Token): string {
    match t
    case VariableName(name) => "$" + name
    case Ident(name) => name
    case Number(r) => NumberSpelling(r)
    case Quote(text) => Quoted(text)
    case Interp(source) => "\"\\(" + source + ")\""
    case _ => Mark(t)
  }

  /** Names are words, numbers have a numeral, interpolated sources are balanced; the end marker is not written. */
  predicate Spellable(t: Token) {
    match t
    case VariableName(name) => forall i | 0 <= i < |name| :: IsWordChar(name[i])
    case Ident(name) => IsWord(name)
    case Number(r) => Numeral(NumberSpelling(r), r)
    case Interp(source) => Balanced(source)
    case Eof => false
    case _ => true
  }
}
