/** What numbers, escapes and comments mean, and where the lexer gives up. */
module LexingLaws {
  import opened Wrappers
  import opened Json
  import opened Syntax
  import opened Lexing
  import opened Spelling
  import opened Printing
  import opened JsonLexing

  // ----- Numbers -----

  function Ten(n: nat): nat {
    if n == 0 then 1 else 10 * Ten(n - 1)
  }

  lemma {:induction false} PowersOfTen(n: nat)
    ensures Pow10(n) == Ten(n) as real && Ten(n) > 0
  {
    if n > 0 {
      PowersOfTen(n - 1);
    }
  }

  lemma {:induction false} DigitsJoin(a: string, b: string)
    requires AllDigits(a) && AllDigits(b)
    ensures AllDigits(a + b) && NatOf(a + b) == NatOf(a) * Ten(|b|) + NatOf(b)
    decreases |b|
  {
    if b == "" {
      assert a + b == a;
    } else {
      var init := b[..|b| - 1];
      DigitsJoin(a, init);
      assert (a + b)[..|a + b| - 1] == a + init;
      Shift(NatOf(a), Ten(|init|), NatOf(init));
    }
  }

  lemma Shift(a: nat, t: nat, b: nat)
    ensures (a * t + b) * 10 == a * (10 * t) + b * 10
  {
  }

  lemma {:induction false} DigitsEndIs(s: string, p: nat, q: nat)
    requires p <= q <= |s| && AllDigits(s[p..q]) && (q < |s| ==> !IsDigit(s[q]))
    ensures DigitsEnd(s, p) == q
    decreases q - p
  {
    if p < q {
      assert s[p] == s[p..q][0];
      assert s[p..q][1..] == s[p + 1..q];
      DigitsEndIs(s, p + 1, q);
    }
  }

  /** The ways to write a number: digits, then a point and digits, then an exponent mark, a sign and digits. */
  datatype Notation = Notation(whole: string, fraction: Option<string>, exponent: Option<Exponent>)

  datatype Exponent = Exponent(mark: char, sign: string, digits: string)

  predicate WellWritten(n: Notation) {
    && n.whole != "" && AllDigits(n.whole) && (n.fraction.Some? ==> AllDigits(n.fraction.value))
    && (n.exponent.Some? ==>
          && n.exponent.value.mark in "eE" && n.exponent.value.sign in {"", "+", "-"}
          && n.exponent.value.digits != "" && AllDigits(n.exponent.value.digits))
  }

  function PointText(n: Notation): string {
    if n.fraction.Some? then "." + n.fraction.value else ""
  }

  function ExponentText(n: Notation): string {
    if n.exponent.Some? then [n.exponent.value.mark] + n.exponent.value.sign + n.exponent.value.digits else ""
  }

  function Written(n: Notation): string {
    n.whole + PointText(n) + ExponentText(n)
  }

  function FractionDigits(n: Notation): string {
    if n.fraction.Some? then n.fraction.value else ""
  }

  function ExponentDigits(n: Notation): string {
    if n.exponent.Some? then n.exponent.value.digits else ""
  }

  predicate Negative(n: Notation) {
    n.exponent.Some? && n.exponent.value.sign == "-"
  }

  /** r is the number whose digits are those before and behind the point, scaled by the power of ten. */
  ghost predicate Denotes(n: Notation, r: real)
    requires WellWritten(n)
  {
    var digits := n.whole + FractionDigits(n);
    && AllDigits(digits) && AllDigits(ExponentDigits(n))
    && var size, scale := NatOf(digits) as real, Ten(|FractionDigits(n)|) as real;
       var power := Ten(NatOf(ExponentDigits(n))) as real;
       if Negative(n) then r * scale * power == size else r * scale == size * power
  }

  lemma Scaled(w: real, f: real, scale: real, power: real)
    requires scale > 0.0 && power > 0.0
    ensures ((w + f / scale) / power) * scale * power == w * scale + f
    ensures ((w + f / scale) * power) * scale == (w * scale + f) * power
  {
    var m := w + f / scale;
    assert (f / scale) * scale == f;
    assert m * scale == w * scale + f;
    Cancels(m, power, scale);
  }

  lemma Cancels(m: real, power: real, scale: real)
    requires power > 0.0
    ensures (m / power) * scale * power == m * scale && (m * power) * scale == (m * scale) * power
  {
    var q := m / power;
    assert q * power == m;
    assert q * scale * power == (q * power) * scale;
  }

  lemma {:induction false} DecimalDenotes(n: Notation)
    requires WellWritten(n)
    ensures AllDigits(FractionDigits(n)) && AllDigits(ExponentDigits(n))
    ensures Denotes(n, Decimal(n.whole, FractionDigits(n), Negative(n), ExponentDigits(n)))
  {
    hide NatOf, Ten, Pow10;
    var f, e := FractionDigits(n), ExponentDigits(n);
    DigitsJoin(n.whole, f);
    PowersOfTen(|f|);
    PowersOfTen(NatOf(e));
    Scaled(NatOf(n.whole) as real, NatOf(f) as real, Ten(|f|) as real, Ten(NatOf(e)) as real);
    AsReals(NatOf(n.whole), Ten(|f|), NatOf(f));
  }

  lemma AsReals(a: nat, t: nat, b: nat)
    ensures (a * t + b) as real == a as real * t as real + b as real
  {
  }

  /** The parts of a written number lie where the lexer looks for them. */
  lemma {:induction false} PartsLie(n: Notation)
    requires WellWritten(n)
    ensures var s := Written(n);
            var a, b := |n.whole|, |n.whole| + |PointText(n)|;
            && s[..a] == n.whole && s[a..b] == PointText(n) && s[b..] == ExponentText(n)
            && (forall i | 0 <= i < |PointText(n)| :: s[a + i] == PointText(n)[i])
            && (forall i | 0 <= i < |ExponentText(n)| :: s[b + i] == ExponentText(n)[i])
  {
    var s, a, b := Written(n), |n.whole|, |n.whole| + |PointText(n)|;
    forall i | 0 <= i < |PointText(n)| ensures s[a + i] == PointText(n)[i] {
    }
    forall i | 0 <= i < |ExponentText(n)| ensures s[b + i] == ExponentText(n)[i] {
    }
  }

  lemma {:induction false} WholeEnds(n: Notation)
    requires WellWritten(n)
    ensures DigitsEnd(Written(n), 0) == |n.whole| && FractionEnd(Written(n), |n.whole|) == |n.whole| + |PointText(n)|
  {
    hide DigitsEnd, Written;
    PartsLie(n);
    LengthOfWritten(n);
    var s, a, b := Written(n), |n.whole|, |n.whole| + |PointText(n)|;
    MarksAreNoDigits();
    assert s[0..a] == s[..a];
    assert a < b ==> s[a + 0] == PointText(n)[0];
    assert b < |s| ==> s[b + 0] == ExponentText(n)[0];
    DigitsEndIs(s, 0, a);
    if n.fraction.Some? {
      assert s[a + 1..b] == s[a..b][1..] == n.fraction.value;
      DigitsEndIs(s, a + 1, b);
    }
  }

  lemma LengthOfWritten(n: Notation)
    ensures |Written(n)| == |n.whole| + |PointText(n)| + |ExponentText(n)|
  {
  }

  lemma MarksAreNoDigits()
    ensures !IsDigit('.') && !IsDigit('e') && !IsDigit('E') && !IsDigit('+') && !IsDigit('-')
  {
  }

  lemma {:induction false} ExponentEnds(n: Notation)
    requires WellWritten(n)
    ensures var b, s := |n.whole| + |PointText(n)|, Written(n);
            && b <= |s| && ExponentStart(s, b) == |s| - |ExponentDigits(n)|
            && (n.exponent.Some? ==>
                  && ExponentStart(s, b) > b && DigitsEnd(s, ExponentStart(s, b)) == |s|
                  && (s[ExponentStart(s, b) - 1] == '-' <==> Negative(n)))
            && s[|s| - |ExponentDigits(n)|..] == ExponentDigits(n)
  {
    hide DigitsEnd, Written, PointText;
    PartsLie(n);
    LengthOfWritten(n);
    var s, b := Written(n), |n.whole| + |PointText(n)|;
    if n.exponent.Some? {
      ExponentLies(s, b, n.exponent.value);
      var start := |s| - |ExponentDigits(n)|;
      DigitsEndIs(s, start, |s|);
    }
  }

  /** An exponent that stands at the end of a text. */
  lemma {:induction false} ExponentLies(s: string, b: nat, e: Exponent)
    requires b <= |s| && s[b..] == [e.mark] + e.sign + e.digits
    requires e.mark in "eE" && e.sign in {"", "+", "-"} && e.digits != "" && AllDigits(e.digits)
    ensures var start := |s| - |e.digits|;
            && start == b + 1 + |e.sign| && ExponentStart(s, b) == start
            && s[start..] == e.digits && s[start..|s|] == e.digits
            && (s[start - 1] == '-' <==> e.sign == "-")
  {
    var text := [e.mark] + e.sign + e.digits;
    var start := b + 1 + |e.sign|;
    assert |text| == |s| - b;
    assert s[b] == s[b..][0] == e.mark;
    assert s[b + 1] == s[b..][1];
    assert text[1] == if e.sign == "" then e.digits[0] else e.sign[0];
    assert s[start..] == s[b..][1 + |e.sign|..] == e.digits;
    assert s[start..|s|] == s[start..];
    DigitIsNoSign(e.digits);
  }

  lemma DigitIsNoSign(digits: string)
    requires digits != "" && AllDigits(digits)
    ensures digits[0] != '+' && digits[0] != '-' && digits[0] != 'e' && digits[0] != 'E'
  {
  }

  lemma {:induction false} ShapeIs(n: Notation)
    requires WellWritten(n)
    ensures var s := Written(n);
            && s != "" && IsDigit(s[0])
            && ShapeOfNumber(s, 0) ==
               NumberShape(|n.whole|, |n.whole| + |PointText(n)|, |s| - |ExponentDigits(n)|, |s|)
            && (n.exponent.Some? <==> |s| - |ExponentDigits(n)| > |n.whole| + |PointText(n)|)
  {
    hide DigitsEnd, FractionEnd, ExponentStart, Written;
    WholeEnds(n);
    ExponentEnds(n);
    LengthOfWritten(n);
    PartsLie(n);
    var s := Written(n);
    assert s[0] == s[..|n.whole|][0] == n.whole[0];
    ShapeParts(s, 0);
  }

  /** Every number written in digits is one token with the value it denotes. */
  lemma {:induction false} NumbersMean(n: Notation) returns (r: real)
    requires WellWritten(n)
    ensures Numeral(Written(n), r) && Denotes(n, r)
  {
    hide DigitsEnd, ExponentStart, ShapeOfNumber, Decimal, Denotes, Written, FractionText;
    var s := Written(n);
    ShapeIs(n);
    ExponentEnds(n);
    PartsLie(n);
    DecimalDenotes(n);
    r := Decimal(n.whole, FractionDigits(n), Negative(n), ExponentDigits(n));
    ValueParts(s, 0);
    var shape := ShapeOfNumber(s, 0);
    FractionIs(n, shape);
    assert s[0..shape.whole] == s[..shape.whole];
    assert s[shape.exponent..shape.end] == s[shape.exponent..];
    assert NumberValue(s, 0) == r by {
      SameDecimal(n.whole, s[0..shape.whole], FractionDigits(n), FractionText(s, shape),
                  Negative(n), shape.exponent > shape.fraction && s[shape.exponent - 1] == '-',
                  ExponentDigits(n), s[shape.exponent..shape.end]);
    }
  }

  lemma {:induction false} FractionIs(n: Notation, shape: NumberShape)
    requires WellWritten(n) && shape.whole == |n.whole| && shape.fraction == |n.whole| + |PointText(n)| <= |Written(n)|
    ensures FractionText(Written(n), shape) == FractionDigits(n)
  {
    PartsLie(n);
    var s, a, b := Written(n), |n.whole|, |n.whole| + |PointText(n)|;
    if n.fraction.Some? {
      assert s[a + 1..b] == s[a..b][1..] == n.fraction.value;
    }
  }

  // ----- Escapes -----

  /** What a backslash and a letter stand for; the letters without a meaning keep their backslash. */
  function Meant(letter: char): string {
    if letter == 'n' then [10 as char]
    else if letter == 't' then [9 as char]
    else if letter == 'r' then [13 as char]
    else if letter == 'b' then [8 as char]
    else if letter == 'f' then [12 as char]
    else if letter in ['\\', '/', '\"'] then [letter]
    else ['\\', letter]
  }

  lemma {:induction false} EscapesMean(s: string, p: nat, letter: char, literal: string, tokens: seq<Token>)
    requires At(s, p, ['\\', letter]) && letter != '(' && letter != 'u' && StringPieces(tokens, |s|)
    ensures StringRest(s, p, literal, tokens) == StringRest(s, p + 2, literal + Meant(letter), tokens)
  {
    assert s[p] == s[p..p + 2][0] == '\\' && s[p + 1] == s[p..p + 2][1] == letter;
  }

  /** The value of a hexadecimal digit, in either case. */
  predicate IsHex(c: char, d: nat) {
    d < 16 && (c == "0123456789abcdef"[d] || c == "0123456789ABCDEF"[d])
  }

  lemma {:induction false} HexMeans(c: char, d: nat)
    requires IsHex(c, d)
    ensures HexDigit(c) == Some(d) && c != '+'
  {
    if d < 10 {
      assert c as int == '0' as int + d;
    } else {
      assert c as int == 'a' as int + (d - 10) || c as int == 'A' as int + (d - 10);
    }
  }

  lemma {:induction false} FourHexDigits(a: char, b: char, c: char, d: char, w: nat, x: nat, y: nat, z: nat)
    requires IsHex(a, w) && IsHex(b, x) && IsHex(c, y) && IsHex(d, z)
    ensures HexValue([a, b, c, d]) == Some(((w * 16 + x) * 16 + y) * 16 + z)
  {
    hide HexDigits, HexDigit, IsHex;
    var hex := [a, b, c, d];
    HexMeans(a, w);
    HexMeans(b, x);
    HexMeans(c, y);
    HexMeans(d, z);
    NoHexDigits();
    assert hex[..3][..2][..1][..0] == "";
    HexDigitsStep(hex[..3][..2][..1], 0, w);
    HexDigitsStep(hex[..3][..2], w, x);
    HexDigitsStep(hex[..3], w * 16 + x, y);
    HexDigitsStep(hex, (w * 16 + x) * 16 + y, z);
  }

  /** Four hexadecimal digits name a character; a surrogate names none and vanishes. */
  lemma {:induction false} UnicodeEscapes(
    s: string, p: nat, hex: string, w: nat, x: nat, y: nat, z: nat, literal: string, tokens: seq<Token>)
    requires |hex| == 4 && IsHex(hex[0], w) && IsHex(hex[1], x) && IsHex(hex[2], y) && IsHex(hex[3], z)
    requires At(s, p, "\\u" + hex) && StringPieces(tokens, |s|)
    ensures var code := ((w * 16 + x) * 16 + y) * 16 + z;
            StringRest(s, p, literal, tokens) ==
            StringRest(s, p + 6, if 0xD800 <= code < 0xE000 then literal else literal + [code as char], tokens)
  {
    hide HexValue, StringPieces;
    assert hex == [hex[0], hex[1], hex[2], hex[3]];
    FourHexDigits(hex[0], hex[1], hex[2], hex[3], w, x, y, z);
    var code := ((w * 16 + x) * 16 + y) * 16 + z;
    AtSplit(s, p, "\\u", hex);
    assert s[p] == s[p..p + 2][0] == '\\' && s[p + 1] == s[p..p + 2][1] == 'u';
    assert s[p + 2..p + 6] == hex;
    assert literal + "" == literal;
    assert EscapeAt(s, p + 1, literal, tokens) == Ok(Segment(literal + ScalarText(code), tokens, p + 6));
  }

  // ----- The end of an interpolation -----

  function Turn(c: char): int {
    if c == '(' then 1 else if c == ')' then -1 else 0
  }

  /** By how much the parentheses of a text open more often than they close. */
  function Nesting(s: string): int {
    if s == "" then 0 else Turn(s[0]) + Nesting(s[1..])
  }

  function Between(s: string, i: nat, j: nat): int
    requires i <= j <= |s|
  {
    Nesting(s[i..j])
  }

  lemma BetweenStep(s: string, i: nat, j: nat)
    requires i < j <= |s|
    ensures Between(s, i, j) == Turn(s[i]) + Between(s, i + 1, j)
  {
    assert s[i..j][1..] == s[i + 1..j];
  }

  /** At depth d before i, the parenthesis at `close` is the first to bring the depth to nothing. */
  predicate Closes(s: string, i: nat, depth: int, close: nat) {
    && i <= close < |s| && s[close] == ')' && Between(s, i, close) == 1 - depth
    && forall k | i <= k <= close :: Between(s, i, k) > -depth
  }

  lemma {:induction false} ClosesStep(s: string, i: nat, depth: int, close: nat)
    requires i < close < |s| && depth > 0 && depth + Turn(s[i]) > 0
    ensures Closes(s, i, depth, close) <==> Closes(s, i + 1, depth + Turn(s[i]), close)
  {
    hide Turn;
    var j, next := i + 1, depth + Turn(s[i]);
    forall k | j <= k <= close ensures Between(s, i, k) == Turn(s[i]) + Between(s, j, k) {
      BetweenStep(s, i, k);
    }
    assert s[i..i] == "";
    if Closes(s, i, depth, close) {
      forall k | j <= k <= close ensures Between(s, j, k) > -next {
        assert Between(s, i, k) > -depth;
      }
    }
  }

  lemma {:induction false} ClosesHere(s: string, i: nat, depth: nat, close: nat)
    requires i <= close < |s| && depth > 0
    ensures i == close ==> (Closes(s, i, depth, close) <==> s[close] == ')' && depth == 1)
    ensures i < close && depth + Turn(s[i]) <= 0 ==> !Closes(s, i, depth, close)
  {
    assert s[i..i] == "";
    if i < close {
      BetweenStep(s, i, i + 1);
      assert s[i + 1..i + 1] == "";
    }
  }

  /** An interpolation ends at the first parenthesis that closes more than its source opens; quotes play no role. */
  lemma {:induction false} InterpolationsEnd(s: string, i: nat, depth: nat, close: nat)
    requires i <= |s| && depth > 0
    ensures InterpClose(s, i, depth) == Some(close) <==> Closes(s, i, depth, close)
    decreases |s| - i
  {
    hide Closes;
    if i < |s| {
      var next := depth + Turn(s[i]);
      if next > 0 {
        InterpolationsEnd(s, i + 1, next, close);
      }
      if i <= close < |s| {
        ClosesHere(s, i, depth, close);
        if i < close && next > 0 {
          ClosesStep(s, i, depth, close);
        }
      } else {
        ClosesInside(s, i, depth, close);
      }
      if i == close {
        ClosesInside(s, i + 1, if next > 0 then next else 1, close);
      }
    } else {
      ClosesInside(s, i, depth, close);
    }
  }

  lemma ClosesInside(s: string, i: nat, depth: nat, close: nat)
    ensures Closes(s, i, depth, close) ==> i <= close < |s|
  {
  }

  /** A source is cut at its own end exactly if its parentheses match. */
  lemma {:induction false} BalancedExactly(source: string)
    ensures Balanced(source) <==>
            Nesting(source) == 0 && forall k | 0 <= k <= |source| :: Nesting(source[..k]) >= 0
  {
    var s := source + ")";
    InterpolationsEnd(s, 0, 1, |source|);
    assert s[..|source|] == source && source[..|source|] == source;
    forall k | 0 <= k <= |source| ensures Between(s, 0, k) == Nesting(source[..k]) {
      assert s[0..k] == source[..k];
    }
  }

  // ----- Blanks and comments -----

  /** Blanks, tabs and line ends separate tokens. */
  lemma {:induction false} BlanksAreSkipped(s: string, p: nat)
    requires p < |s| && s[p] in [' ', '\t', '\n', '\r']
    ensures Tokens(s, p) == Tokens(s, p + 1)
  {
    hide TokensAt;
    assert SkipBlanks(s, p) == SkipBlanks(s, p + 1);
    assert NextBatch(s, p) == NextBatch(s, p + 1);
  }

  predicate AsciiLetter(c: char) {
    'a' <= c <= 'z' || 'A' <= c <= 'Z' || c == '_'
  }

  /** Among the ASCII characters exactly letters, digits and underscores make words, and digits do not start them. */
  lemma {:induction false} AsciiWords(name: string)
    requires forall i | 0 <= i < |name| :: name[i] as int < 128
    ensures IsWord(name) <==>
            && name != "" && AsciiLetter(name[0])
            && forall i | 0 <= i < |name| :: AsciiLetter(name[i]) || '0' <= name[i] <= '9'
  {
  }

  lemma {:induction false} CommentEnds(s: string, p: nat, q: nat)
    requires p <= q < |s| && s[q] == '\n' && forall i | p <= i < q :: s[i] != '\n'
    ensures SkipComment(s, p) == q
    decreases q - p
  {
    if p < q {
      CommentEnds(s, p + 1, q);
    }
  }

  /** A comment runs to the end of its line, and the tokens go on behind it. */
  lemma {:induction false} CommentsAreSkipped(s: string, p: nat, q: nat)
    requires p < q < |s| && s[p] == '#' && s[q] == '\n' && forall i | p < i < q :: s[i] != '\n'
    ensures Tokens(s, p) == Tokens(s, q + 1)
  {
    hide TokensAt;
    CommentEnds(s, p + 1, q);
    assert SkipBlanks(s, q) == SkipBlanks(s, q + 1);
    assert SkipBlanks(s, p) == SkipBlanks(s, q + 1);
    assert NextBatch(s, p) == NextBatch(s, q + 1);
  }

  // ----- Where the lexer gives up -----

  /** A string without a closing quote fails at the end of the text; so does an interpolation without its parenthesis. */
  lemma {:induction false} UnterminatedStrings(s: string, p: nat, literal: string, tokens: seq<Token>)
    requires p <= |s| && StringPieces(tokens, |s|) && forall i | p <= i < |s| :: s[i] != '\"' && s[i] != '\\'
    ensures StringRest(s, p, literal, tokens) == Err(LexError(|s|))
    decreases |s| - p
  {
    if p < |s| {
      UnterminatedStrings(s, p + 1, literal + [s[p]], tokens);
    }
  }

  lemma {:induction false} UnterminatedInterpolations(s: string, p: nat, literal: string, tokens: seq<Token>)
    requires At(s, p, "\\(") && StringPieces(tokens, |s|) && InterpClose(s, p + 2, 1).None?
    ensures StringRest(s, p, literal, tokens) == Err(LexError(|s|))
  {
    assert s[p] == s[p..p + 2][0] == '\\' && s[p + 1] == s[p..p + 2][1] == '(';
  }

  predicate Stray(c: char) {
    c in ['!', '&', '\'', '?', '@', '\\', '^', '`', '~']
  }

  lemma {:induction false} StrayMeans(c: char)
    requires Stray(c)
    ensures SingleToken(c).None? && (forall d | d != '=' :: PairToken(c, d).None?) && !IsDigit(c) && !IsAlphabetic(c)
    ensures c != '_' && c != '$' && c != '\"' && c != '#' && !IsWhitespace(c)
  {
  }

  /** A character that starts no token fails where it stands. */
  lemma {:induction false} StrayCharacters(s: string, p: nat)
    requires p < |s| && Stray(s[p]) && !(p + 1 < |s| && s[p + 1] == '=')
    ensures Tokens(s, p) == Err(LexError(p))
  {
    hide Stray, SingleToken, PairToken, IsDigit, IsAlphabetic, IsWhitespace, StringRest, NumberToken, WordEnd;
    StrayMeans(s[p]);
    assert SkipBlanks(s, p) == p;
    assert TokensAt(s, p) == Err(LexError(p));
  }

  /** An exponent mark needs digits: otherwise the number fails where it starts. */
  lemma {:induction false} ExponentNeedsDigits(n: Notation, mark: char)
    requires WellWritten(n) && n.exponent.None? && mark in "eE"
    ensures var s := Written(n) + [mark]; IsDigit(s[0]) && NumberToken(s, 0) == Err(LexError(0))
  {
    hide DigitsEnd;
    var s, a, b := Written(n) + [mark], |n.whole|, |n.whole| + |PointText(n)|;
    MarksAreNoDigits();
    PartsLie(n);
    assert s[0..a] == n.whole;
    assert n.fraction.Some? ==> s[a] == '.';
    assert n.fraction.None? ==> s[a] == mark;
    DigitsEndIs(s, 0, a);
    if n.fraction.Some? {
      assert s[a + 1..b] == n.fraction.value;
      DigitsEndIs(s, a + 1, b);
    }
    assert s[b] == mark && |s| == b + 1;
    assert s[0] == n.whole[0];
    DigitsEndIs(s, b + 1, b + 1);
  }
}
