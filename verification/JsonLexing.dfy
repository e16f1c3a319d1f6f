/** How the lexer reads the words, numbers and strings of compact JSON text. */
module JsonLexing {
  import opened Wrappers
  import opened Json
  import opened Syntax
  import opened Lexing
  import opened Printing
  import opened Spelling

  // ----- Texts at positions -----

  /** The given text stands at position p. */
  predicate At(s: string, p: nat, text: string) {
    p + |text| <= |s| && s[p..p + |text|] == text
  }

  lemma AtSplit(s: string, p: nat, a: string, b: string)
    requires At(s, p, a + b)
    ensures At(s, p, a) && At(s, p + |a|, b)
  {
    assert s[p..p + |a|] == (a + b)[..|a|];
    assert s[p + |a|..p + |a| + |b|] == (a + b)[|a|..];
  }

  /** What may follow a value in compact text, or a blank. */
  predicate Delimited(s: string, q: nat) {
    q <= |s| && (q < |s| ==> s[q] in " ,:]}")
  }

  // ----- Tokens as a tape -----

  /** The tokens from p on are those of the tape. */
  ghost predicate Reads(s: string, p: nat, tape: Tape) {
    p <= |s| && Tokens(s, p) == Ok(Flat(tape))
  }

  lemma OneToken(s: string, p: nat, t: Token, q: nat, rest: Tape)
    requires p < |s| && !IsWhitespace(s[p]) && s[p] != '#'
    requires TokensAt(s, p) == Ok(Batch([t], q))
    requires Reads(s, q, rest)
    ensures Reads(s, p, Cut(t, rest))
  {
    hide TokensAt, IsWhitespace;
    assert SkipBlanks(s, p) == p;
    assert NextBatch(s, p) == Ok(Batch([t], q));
    assert Eof !in [t];
    assert [t][0] == t;
  }

  lemma Punctuation(s: string, p: nat, rest: Tape)
    requires p < |s| && s[p] in "[]{},:-"
    requires Reads(s, p + 1, rest)
    ensures SingleToken(s[p]).Some?
    ensures Reads(s, p, Cut(SingleToken(s[p]).value, rest))
  {
    hide Tokens, SkipBlanks;
    OneToken(s, p, SingleToken(s[p]).value, p + 1, rest);
  }

  // ----- Words -----

  lemma {:induction false} WordSpan(s: string, p: nat, word: string)
    requires At(s, p, word) && Delimited(s, p + |word|)
    requires forall i | 0 <= i < |word| :: IsWordChar(word[i])
    ensures WordEnd(s, p) == p + |word|
    decreases |word|
  {
    if word != "" {
      assert word == [word[0]] + word[1..];
      AtSplit(s, p, [word[0]], word[1..]);
      assert s[p] == s[p..p + 1][0] == word[0];
      WordSpan(s, p + 1, word[1..]);
    }
  }

  lemma WordStart(c: char)
    requires IsAlphabetic(c) || c == '_'
    ensures SingleToken(c).None? && (forall d :: PairToken(c, d).None?) && !IsDigit(c)
    ensures c != '$' && c != '\"' && c != '#'
  {
  }

  lemma WordToken(s: string, p: nat, word: string, rest: Tape)
    requires IsWord(word) && At(s, p, word) && Delimited(s, p + |word|)
    requires Reads(s, p + |word|, rest)
    ensures Reads(s, p, Cut(Ident(word), rest))
  {
    hide Tokens, WordEnd, SkipBlanks, SingleToken, PairToken, IsAlphabetic, IsWhitespace, Reads;
    WordSpan(s, p, word);
    assert s[p] == s[p..p + |word|][0] == word[0];
    WordStart(s[p]);
    assert TokensAt(s, p) == Ok(Batch([Ident(word)], p + |word|));
    OneToken(s, p, Ident(word), p + |word|, rest);
  }

  // ----- Numbers -----

  lemma {:induction false} NatTextDigits(n: nat)
    ensures AllDigits(NatText(n)) && NatOf(NatText(n)) == n
  {
    if n >= 10 {
      NatTextDigits(n / 10);
      var text := NatText(n);
      assert text[..|text| - 1] == NatText(n / 10);
      assert text[|text| - 1] == DIGITS[n % 10];
      DigitValue(n % 10);
    } else {
      DigitValue(n);
      assert NatOf([DIGITS[n]][..0]) == 0;
    }
  }

  lemma {:induction false} NoLeadingZero(n: nat)
    ensures n > 0 ==> NatText(n)[0] != '0'
  {
    if n >= 10 {
      NoLeadingZero(n / 10);
    }
  }

  lemma DigitValue(d: nat)
    requires d < 10
    ensures IsDigit(DIGITS[d]) && DIGITS[d] as int - '0' as int == d
  {
  }

  lemma {:induction false} DigitSpan(s: string, p: nat, digits: string)
    requires At(s, p, digits) && Delimited(s, p + |digits|) && AllDigits(digits)
    ensures DigitsEnd(s, p) == p + |digits|
    decreases |digits|
  {
    if digits != "" {
      assert digits == [digits[0]] + digits[1..];
      AtSplit(s, p, [digits[0]], digits[1..]);
      assert s[p] == s[p..p + 1][0] == digits[0];
      DigitSpan(s, p + 1, digits[1..]);
    }
  }

  lemma {:induction false} DigitsEndAt(s: string, p: nat, t: string, k: nat)
    requires At(s, p, t) && Delimited(s, p + |t|) && k <= |t|
    ensures DigitsEnd(s, p + k) == p + DigitsEnd(t, k)
    decreases |t| - k
  {
    if k < |t| {
      assert s[p + k] == s[p..p + |t|][k] == t[k];
      DigitsEndAt(s, p, t, k + 1);
    }
  }

  lemma SeesAt(s: string, p: nat, t: string, k: nat, c: char)
    requires At(s, p, t) && Delimited(s, p + |t|) && k <= |t| && c !in " ,:]}"
    ensures Sees(s, p + k, c) <==> Sees(t, k, c)
  {
    if k < |t| {
      assert s[p + k] == s[p..p + |t|][k] == t[k];
    }
  }

  lemma FractionEndAt(s: string, p: nat, t: string, k: nat)
    requires At(s, p, t) && Delimited(s, p + |t|) && k <= |t|
    ensures FractionEnd(s, p + k) == p + FractionEnd(t, k)
  {
    hide At, Delimited, DigitsEnd;
    SeesAt(s, p, t, k, '.');
    if k < |t| {
      DigitsEndAt(s, p, t, k + 1);
    }
  }

  lemma ExponentStartAt(s: string, p: nat, t: string, k: nat)
    requires At(s, p, t) && Delimited(s, p + |t|) && k <= |t|
    ensures ExponentStart(s, p + k) == p + ExponentStart(t, k)
  {
    hide At, Delimited, Sees;
    SeesAt(s, p, t, k, 'e');
    SeesAt(s, p, t, k, 'E');
    if ExponentStart(t, k) > k {
      SeenInside(t, k);
      SeesAt(s, p, t, k + 1, '+');
      SeesAt(s, p, t, k + 1, '-');
    }
  }

  lemma SeenInside(t: string, k: nat)
    requires k <= |t| && ExponentStart(t, k) > k
    ensures k + 1 <= |t|
  {
  }

  function Shifted(n: NumberShape, p: nat): NumberShape {
    NumberShape(p + n.whole, p + n.fraction, p + n.exponent, p + n.end)
  }

  lemma FirstAt(s: string, p: nat, t: string)
    requires At(s, p, t) && t != ""
    ensures p < |s| && s[p] == t[0]
  {
    assert s[p] == s[p..p + |t|][0];
  }

  /** Followed by a delimiter, a number has the same shape and value inside a longer text. */
  lemma ShapeAt(s: string, p: nat, t: string)
    requires At(s, p, t) && Delimited(s, p + |t|) && t != "" && IsDigit(t[0]) && p < |s| && s[p] == t[0]
    ensures ShapeOfNumber(s, p) == Shifted(ShapeOfNumber(t, 0), p)
  {
    hide *;
    var n := ShapeOfNumber(t, 0);
    DigitsEndAt(s, p, t, 0);
    FractionEndAt(s, p, t, n.whole);
    ExponentStartAt(s, p, t, n.fraction);
    DigitsEndAt(s, p, t, n.exponent);
    ShapeParts(t, 0);
    ShapeParts(s, p);
    ShiftedParts(n, p);
  }

  lemma ShapeParts(s: string, p: nat)
    requires p < |s| && IsDigit(s[p])
    ensures var n := ShapeOfNumber(s, p);
            && n.whole == DigitsEnd(s, p) && n.fraction == FractionEnd(s, n.whole)
            && n.exponent == ExponentStart(s, n.fraction)
            && n.end == if n.exponent == n.fraction then n.fraction else DigitsEnd(s, n.exponent)
  {
    hide DigitsEnd, FractionEnd, ExponentStart;
  }

  lemma ShiftedParts(n: NumberShape, p: nat)
    ensures var m := Shifted(n, p);
            m.whole == p + n.whole && m.fraction == p + n.fraction && m.exponent == p + n.exponent && m.end == p + n.end
  {
  }

  lemma SliceAt(s: string, p: nat, t: string, a: nat, b: nat)
    requires At(s, p, t) && a <= b <= |t|
    ensures p + b <= |s| && s[p + a..p + b] == t[a..b]
  {
    var here, there := s[p + a..p + b], t[a..b];
    forall i | 0 <= i < |there| ensures here[i] == there[i] {
      assert here[i] == s[p + (a + i)] == s[p..p + |t|][a + i];
    }
  }

  lemma NumberValueAt(s: string, p: nat, t: string)
    requires At(s, p, t) && Delimited(s, p + |t|) && t != "" && IsDigit(t[0]) && p < |s| && s[p] == t[0]
    ensures NumberValue(s, p) == NumberValue(t, 0)
  {
    hide *;
    ShapeAt(s, p, t);
    var n, m := ShapeOfNumber(t, 0), ShapeOfNumber(s, p);
    ShiftedParts(n, p);
    ValueParts(s, p);
    ValueParts(t, 0);
    FractionAt(s, p, t, n);
    SignAt(s, p, t, n);
    SliceAt(s, p, t, 0, n.whole);
    SliceAt(s, p, t, n.exponent, n.end);
    SameDecimal(s[p..m.whole], t[0..n.whole], FractionText(s, m), FractionText(t, n),
                m.exponent > m.fraction && s[m.exponent - 1] == '-', n.exponent > n.fraction && t[n.exponent - 1] == '-',
                s[m.exponent..m.end], t[n.exponent..n.end]);
  }

  lemma ValueParts(s: string, p: nat)
    requires p < |s| && IsDigit(s[p])
    ensures var n := ShapeOfNumber(s, p);
            && AllDigits(s[p..n.whole]) && AllDigits(FractionText(s, n)) && AllDigits(s[n.exponent..n.end])
            && NumberValue(s, p) ==
               Decimal(s[p..n.whole], FractionText(s, n), n.exponent > n.fraction && s[n.exponent - 1] == '-',
                       s[n.exponent..n.end])
  {
    hide ShapeOfNumber, Decimal;
    ShapeDigits(s, p);
  }

  lemma SameDecimal(
    whole: string, whole': string, fraction: string, fraction': string, negative: bool, negative': bool,
    exponent: string, exponent': string)
    requires AllDigits(whole) && AllDigits(fraction) && AllDigits(exponent)
    requires whole' == whole && fraction' == fraction && negative' == negative && exponent' == exponent
    ensures Decimal(whole, fraction, negative, exponent) == Decimal(whole', fraction', negative', exponent')
  {
  }

  lemma FractionAt(s: string, p: nat, t: string, n: NumberShape)
    requires At(s, p, t) && n.fraction <= |t|
    ensures p + n.fraction <= |s| && FractionText(s, Shifted(n, p)) == FractionText(t, n)
  {
    if n.fraction > n.whole {
      SliceAt(s, p, t, n.whole + 1, n.fraction);
    }
  }

  lemma SignAt(s: string, p: nat, t: string, n: NumberShape)
    requires At(s, p, t) && 0 < n.exponent <= |t|
    ensures p + n.exponent <= |s| && s[p + n.exponent - 1] == t[n.exponent - 1]
  {
    SliceAt(s, p, t, n.exponent - 1, n.exponent);
    assert s[p + n.exponent - 1] == s[p + n.exponent - 1..p + n.exponent][0] == t[n.exponent - 1..n.exponent][0];
  }

  lemma NumeralToken(s: string, p: nat, t: string, r: real, rest: Tape)
    requires At(s, p, t) && Delimited(s, p + |t|) && Numeral(t, r)
    requires Reads(s, p + |t|, rest)
    ensures Reads(s, p, Cut(Number(r), rest))
  {
    hide Tokens, At, Delimited, ShapeOfNumber, NumberValue, SkipBlanks, Reads;
    FirstAt(s, p, t);
    ShapeAt(s, p, t);
    NumberValueAt(s, p, t);
    var q := p + |t|;
    assert NumberToken(s, p) == Ok(Batch([Number(r)], q));
    assert TokensAt(s, p) == Ok(Batch([Number(r)], q));
    OneToken(s, p, Number(r), q, rest);
  }

  lemma WholeNumber(digits: string)
    requires AllDigits(digits)
    ensures Decimal(digits, "", false, "") == NatOf(digits) as real
  {
  }

  lemma NatIsNumeral(n: nat)
    ensures Numeral(NatText(n), n as real)
  {
    hide DigitsEnd, NatOf, NatText, Decimal, Pow10;
    var t := NatText(n);
    NatTextDigits(n);
    assert t[0..0 + |t|] == t;
    DigitSpan(t, 0, t);
    assert ShapeOfNumber(t, 0) == NumberShape(|t|, |t|, |t|, |t|);
    WholeNumber(t);
    assert t[|t|..|t|] == "";
    assert NumberValue(t, 0) == n as real;
  }

  lemma NaturalToken(s: string, p: nat, n: nat, rest: Tape)
    requires At(s, p, NatText(n)) && Delimited(s, p + |NatText(n)|)
    requires Reads(s, p + |NatText(n)|, rest)
    ensures Reads(s, p, Cut(Number(n as real), rest))
  {
    hide *;
    NatIsNumeral(n);
    NumeralToken(s, p, NatText(n), n as real, rest);
  }

  // ----- Strings -----

  lemma HexDigitValue(d: nat)
    requires d < 16
    ensures HexDigit(HEX_DIGITS[d]) == Some(d) && HEX_DIGITS[d] != '+'
  {
    if d < 10 {
      assert HEX_DIGITS[d] as int == '0' as int + d;
    } else {
      assert HEX_DIGITS[d] as int == 'a' as int + (d - 10);
    }
  }

  lemma HexDigitsStep(hex: string, high: nat, low: nat)
    requires hex != "" && HexDigits(hex[..|hex| - 1]) == Some(high) && HexDigit(hex[|hex| - 1]) == Some(low)
    ensures HexDigits(hex) == Some(high * 16 + low)
  {
    hide HexDigit;
  }

  lemma HexCode(a: nat, b: nat)
    requires a < 16 && b < 16
    ensures HexValue("00" + [HEX_DIGITS[a], HEX_DIGITS[b]]) == Some(a * 16 + b)
  {
    hide HexDigits, HexDigit;
    var hex := "00" + [HEX_DIGITS[a], HEX_DIGITS[b]];
    HexDigitValue(a);
    HexDigitValue(b);
    HexDigitValue(0);
    NoHexDigits();
    assert hex[..3][..2][..1][..0] == "";
    assert hex[..3][..2][..1][0] == HEX_DIGITS[0];
    HexDigitsStep(hex[..3][..2][..1], 0, 0);
    HexDigitsStep(hex[..3][..2], 0, 0);
    HexDigitsStep(hex[..3], 0, a);
    HexDigitsStep(hex, a, b);
  }

  lemma NoHexDigits()
    ensures HexDigits("") == Some(0)
  {
  }

  lemma ControlEscape(s: string, p: nat, c: char, literal: string, tokens: seq<Token>)
    requires c as int < 0x20 && StringPieces(tokens, |s|)
    requires At(s, p, "\\u00" + [HEX_DIGITS[c as int / 16], HEX_DIGITS[c as int % 16]])
    ensures EscapeAt(s, p + 1, literal, tokens) == Ok(Segment(literal + [c], tokens, p + 6))
  {
    hide HexDigits, StringPieces, HexDigit;
    var hex := "00" + [HEX_DIGITS[c as int / 16], HEX_DIGITS[c as int % 16]];
    var code := c as int;
    HexCode(code / 16, code % 16);
    var escape := "\\u00" + [HEX_DIGITS[code / 16], HEX_DIGITS[code % 16]];
    assert escape == "\\u" + hex;
    AtSplit(s, p, "\\u", hex);
    assert s[p + 1] == s[p..p + 2][1] == 'u';
    assert s[p + 2..p + 6] == hex;
    assert code / 16 * 16 + code % 16 == code;
    assert HexValue(hex) == Some(code);
  }

  lemma ShortEscape(s: string, p: nat, c: char, mark: char, literal: string, tokens: seq<Token>)
    requires StringPieces(tokens, |s|)
    requires At(s, p, ['\\', mark]) && mark != '(' && mark != 'u' && SimpleEscape(mark) == [c]
    ensures EscapeAt(s, p + 1, literal, tokens) == Ok(Segment(literal + [c], tokens, p + 2))
  {
    assert s[p + 1] == s[p..p + 2][1] == mark;
  }

  /** The lexer undoes the escape of one character. */
  lemma CharRead(s: string, p: nat, c: char, literal: string, tokens: seq<Token>)
    requires At(s, p, EscapeChar(c)) && StringPieces(tokens, |s|)
    ensures StringRest(s, p, literal, tokens) == StringRest(s, p + |EscapeChar(c)|, literal + [c], tokens)
  {
    hide EscapeAt;
    assert s[p] == s[p..p + |EscapeChar(c)|][0] == EscapeChar(c)[0];
    if EscapeChar(c) == [c] {
    } else if |EscapeChar(c)| == 2 {
      ShortEscape(s, p, c, EscapeChar(c)[1], literal, tokens);
    } else {
      ControlEscape(s, p, c, literal, tokens);
    }
  }

  /** A quote ends the string; an empty one still is a token. */
  lemma ClosingQuote(s: string, p: nat, literal: string, tokens: seq<Token>)
    requires At(s, p, "\"") && StringPieces(tokens, |s|)
    ensures var all := Flush(tokens, literal);
            StringRest(s, p, literal, tokens) == Ok(Batch(if all == [] then [Quote("")] else all, p + 1))
  {
    assert s[p] == s[p..p + 1][0] == '\"';
  }

  lemma EscapeTextSplit(text: string)
    requires text != ""
    ensures EscapeText(text) == EscapeChar(text[0]) + EscapeText(text[1..])
  {
  }

  /** Escaped text is read as the text itself. */
  lemma {:induction false} TextRead(s: string, p: nat, text: string, literal: string, tokens: seq<Token>)
    requires At(s, p, EscapeText(text)) && StringPieces(tokens, |s|)
    ensures p + |EscapeText(text)| <= |s|
    ensures StringRest(s, p, literal, tokens) == StringRest(s, p + |EscapeText(text)|, literal + text, tokens)
    decreases |text|
  {
    hide StringRest, EscapeChar, At, StringPieces;
    assert p + |EscapeText(text)| <= |s| by { AtEnds(s, p, EscapeText(text)); }
    if text == "" {
      assert literal + text == literal;
    } else {
      EscapeTextSplit(text);
      hide EscapeText;
      AtSplit(s, p, EscapeChar(text[0]), EscapeText(text[1..]));
      CharRead(s, p, text[0], literal, tokens);
      TextRead(s, p + |EscapeChar(text[0])|, text[1..], literal + [text[0]], tokens);
      assert literal + [text[0]] + text[1..] == literal + text;
    }
  }

  lemma AtEnds(s: string, p: nat, text: string)
    requires At(s, p, text)
    ensures p + |text| <= |s|
  {
  }

  lemma OneQuote(text: string)
    ensures var all := Flush([], text); (if all == [] then [Quote("")] else all) == [Quote(text)]
  {
  }

  lemma {:induction false} StringStarts(s: string, p: nat)
    requires p < |s| && s[p] == '\"'
    ensures TokensAt(s, p) == StringRest(s, p + 1, "", [])
  {
    hide StringRest;
  }

  lemma QuotedRead(s: string, p: nat, text: string)
    requires At(s, p, EscapeText(text) + "\"")
    ensures StringRest(s, p, "", []) == Ok(Batch([Quote(text)], p + |EscapeText(text)| + 1))
  {
    hide StringRest, EscapeText, At;
    AtSplit(s, p, EscapeText(text), "\"");
    var none: seq<Token> := [];
    TextRead(s, p, text, "", none);
    ClosingQuote(s, p + |EscapeText(text)|, "" + text, none);
    assert "" + text == text;
    OneQuote(text);
  }

  /** A quoted string is one token: the string itself. */
  lemma StringToken(s: string, p: nat, text: string, rest: Tape)
    requires At(s, p, Quoted(text))
    requires Reads(s, p + |Quoted(text)|, rest)
    ensures Reads(s, p, Cut(Quote(text), rest))
  {
    hide Tokens, StringRest, EscapeText, SkipBlanks, TokensAt;
    assert Quoted(text) == "\"" + (EscapeText(text) + "\"");
    AtSplit(s, p, "\"", EscapeText(text) + "\"");
    assert s[p] == s[p..p + 1][0] == '\"';
    QuotedRead(s, p + 1, text);
    StringStarts(s, p);
    OneToken(s, p, Quote(text), p + |Quoted(text)|, rest);
  }
}
