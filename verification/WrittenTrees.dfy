/** Every tree that can be written is what its text parses to, interpolated strings included. */
module WrittenTrees {
  import opened Wrappers
  import opened Json
  import opened Syntax
  import opened Lexing
  import opened Grammar
  import opened Spelling
  import opened Printing
  import opened Precedence
  import opened JsonLexing

  // ----- One token -----

  lemma {:induction false} CharAt(s: string, p: nat, text: string, k: nat)
    requires At(s, p, text) && k < |text|
    ensures p + k < |s| && s[p + k] == text[k]
  {
    assert s[p + k] == s[p..p + |text|][k];
  }

  lemma {:induction false} BlankRead(s: string, p: nat, rest: Tape)
    requires At(s, p, " ") && Reads(s, p + 1, rest)
    ensures Reads(s, p, rest) && Delimited(s, p)
  {
    hide TokensAt;
    CharAt(s, p, " ", 0);
    assert IsWhitespace(' ');
    assert SkipBlanks(s, p) == SkipBlanks(s, p + 1);
    assert NextBatch(s, p) == NextBatch(s, p + 1);
  }

  /** Marks of one or two characters, with a blank behind them. */
  lemma {:induction false} MarkRead(s: string, p: nat, t: Token, rest: Tape)
    requires Mark(t) != "" && At(s, p, Mark(t) + " ") && Reads(s, p + |Mark(t)|, rest)
    ensures Reads(s, p, Cut(t, rest))
  {
    hide Tokens, SkipBlanks, Reads, IsWhitespace;
    var text := Mark(t) + " ";
    CharAt(s, p, text, 0);
    CharAt(s, p, text, 1);
    MarkTokens(s, p, t);
    OneToken(s, p, t, p + |Mark(t)|, rest);
  }

  lemma {:induction false} MarkTokens(s: string, p: nat, t: Token)
    requires Mark(t) != "" && p + 1 < |s| && s[p] == Mark(t)[0] && s[p + 1] == (Mark(t) + " ")[1]
    ensures TokensAt(s, p) == Ok(Batch([t], p + |Mark(t)|)) && !IsWhitespace(s[p]) && s[p] != '#'
  {
    hide StringRest, NumberToken, WordEnd;
  }

  lemma {:induction false} VariableRead(s: string, p: nat, name: string, rest: Tape)
    requires (forall i | 0 <= i < |name| :: IsWordChar(name[i])) && At(s, p, "$" + name) && Delimited(s, p + 1 + |name|)
    requires Reads(s, p + 1 + |name|, rest)
    ensures Reads(s, p, Cut(VariableName(name), rest))
  {
    hide Tokens, SkipBlanks, Reads, IsWordChar, WordEnd, Delimited;
    CharAt(s, p, "$" + name, 0);
    AtSplit(s, p, "$", name);
    WordSpan(s, p + 1, name);
    assert TokensAt(s, p) == Ok(Batch([VariableName(name)], p + 1 + |name|));
    OneToken(s, p, VariableName(name), p + 1 + |name|, rest);
  }

  lemma {:induction false} CloseAt(s: string, p: nat, t: string, k: nat, depth: nat)
    requires At(s, p, t) && k <= |t| && depth > 0 && InterpClose(t, k, depth).Some?
    ensures p + k <= |s| && InterpClose(s, p + k, depth) == Some(p + InterpClose(t, k, depth).value)
    decreases |t| - k
  {
    CharAt(s, p, t, k);
    if t[k] == '(' {
      CloseAt(s, p, t, k + 1, depth + 1);
    } else if t[k] != ')' {
      CloseAt(s, p, t, k + 1, depth);
    } else if depth > 1 {
      CloseAt(s, p, t, k + 1, depth - 1);
    }
  }

  /** An interpolation inside a string: its source is cut at its own end. */
  lemma {:induction false} InterpRead(s: string, p: nat, source: string, literal: string, tokens: seq<Token>)
    requires Balanced(source) && At(s, p, "\\(" + source + ")")
    requires StringPieces(tokens, |s|)
    ensures var flushed, q := Flush(tokens, literal) + [Interp(source)], p + |source| + 3;
            StringPieces(flushed, |s|) && q <= |s| && StringRest(s, p, literal, tokens) == StringRest(s, q, "", flushed)
  {
    hide InterpClose;
    var text := source + ")";
    assert "\\(" + source + ")" == "\\(" + text;
    CharAt(s, p, "\\(" + text, 0);
    CharAt(s, p, "\\(" + text, 1);
    AtSplit(s, p, "\\(", text);
    CloseAt(s, p + 2, text, 0, 1);
    AtSplit(s, p + 2, source, ")");
    assert s[p + 2..p + 2 + |source|] == source;
    assert EscapeAt(s, p + 1, literal, tokens) ==
           Ok(Segment("", Flush(tokens, literal) + [Interp(source)], p + |source| + 3));
  }

  lemma {:induction false} InterpTokenRead(s: string, p: nat, source: string, rest: Tape)
    requires Balanced(source) && At(s, p, "\"\\(" + source + ")\"")
    requires Reads(s, p + |source| + 5, rest)
    ensures Reads(s, p, Cut(Interp(source), rest))
  {
    hide Tokens, SkipBlanks, Reads, Balanced, StringRest, TokensAt, At;
    var inner := "\\(" + source + ")";
    assert "\"\\(" + source + ")\"" == "\"" + (inner + "\"");
    AtSplit(s, p, "\"", inner + "\"");
    AtSplit(s, p + 1, inner, "\"");
    CharAt(s, p, "\"", 0);
    StringStarts(s, p);
    var none: seq<Token> := [];
    InterpRead(s, p + 1, source, "", none);
    ClosingQuote(s, p + 1 + |inner|, "", [Interp(source)]);
    assert Flush(none, "") + [Interp(source)] == [Interp(source)];
    OneToken(s, p, Interp(source), p + |source| + 5, rest);
  }

  /** The lexer reads a spelled token back. */
  lemma {:induction false} TokenRead(s: string, p: nat, t: Token, rest: Tape)
    requires Spellable(t) && At(s, p, SpellToken(t) + " ") && Reads(s, p + |SpellToken(t)| + 1, rest)
    ensures Reads(s, p, Cut(t, rest))
  {
    hide Reads, At, Delimited, IsWord, Numeral, Balanced, Quoted, NumberSpelling;
    var q := p + |SpellToken(t)|;
    AtSplit(s, p, SpellToken(t), " ");
    BlankRead(s, q, rest);
    match t
    case VariableName(name) => VariableRead(s, p, name, rest);
    case Ident(name) => WordToken(s, p, name, rest);
    case Number(r) => NumeralToken(s, p, NumberSpelling(r), r, rest);
    case Quote(text) => StringToken(s, p, text, rest);
    case Interp(source) => InterpTokenRead(s, p, source, rest);
    case _ => MarkRead(s, p, t, rest);
  }

  // ----- Token lists -----

  lemma {:induction false} SpelledReads(s: string, p: nat, tape: Tape)
    requires Spelled(tape) && p + |Spell(tape)| == |s| && At(s, p, Spell(tape))
    ensures Reads(s, p, tape)
    decreases tape
  {
    hide Reads, At, SpellToken, Spellable;
    if tape.head == Eof {
      assert Spell(tape) == "" && p == |s|;
      EndRead(s);
    } else {
      var word, tail := SpellToken(tape.head) + " ", Spell(tape.tail);
      assert Spell(tape) == word + tail;
      AtSplit(s, p, word, tail);
      SpelledReads(s, p + |word|, tape.tail);
      TokenRead(s, p, tape.head, tape.tail);
    }
  }

  lemma {:induction false} EndRead(s: string)
    ensures Reads(s, |s|, Cut(Eof, End))
  {
    assert Flat(Cut(Eof, End)) == [Eof];
  }

  // ----- Trees -----

  lemma {:induction false} TextReads(e: Expr)
    requires Writable(e)
    ensures var tape := Show(e, COMMA, false, Cut(Eof, End));
            Tokens(TextOf(e), 0) == Ok(Flat(tape)) && From(Flat(tape), 0, tape)
  {
    hide Show, Spell, Spelled, From, Denotable;
    var tape, s := Show(e, COMMA, false, Cut(Eof, End)), TextOf(e);
    assert s[0..0 + |s|] == s;
    SpelledReads(s, 0, tape);
    FlatIsFrom([], tape);
    assert [] + Flat(tape) == Flat(tape);
  }

  /** Round trip on texts: a tree that can be written is exactly what its text parses to. */
  lemma {:induction false} WrittenTreesParseBack(e: Expr)
    requires Writable(e)
    ensures Source(TextOf(e)) == Ok(e)
    decreases |TextOf(e)|
  {
    hide Show, From, Denotable, Spell, Flat, ExprAt, Tokens, Spelled;
    var s, tape := TextOf(e), Show(e, COMMA, false, Cut(Eof, End));
    TextReads(e);
    var ts := Tokens(s, 0).value;
    forall i, x | 0 <= i < |ts| && ts[i].Interp? && Writable(x) && TextOf(x) == ts[i].source
      ensures Shorter(s)(ts[i].source) == Ok(x)
    {
      assert |ts[i].source| < |s|;
      WrittenTreesParseBack(x);
    }
    PrintedTreesParseBack(ts, Shorter(s), e);
  }

  /** In every source the interpolated texts of trees are understood. */
  lemma {:induction false} SourcesAreUnderstood(source: string)
    requires Tokens(source, 0).Ok?
    ensures Understands(Tokens(source, 0).value, Shorter(source))
  {
    hide Writable, TextOf, Tokens, Source;
    var ts := Tokens(source, 0).value;
    forall i, x | 0 <= i < |ts| && ts[i].Interp? && Writable(x) && TextOf(x) == ts[i].source
      ensures Shorter(source)(ts[i].source) == Ok(x)
    {
      assert |ts[i].source| < |source|;
      WrittenTreesParseBack(x);
    }
  }

  /** No two trees share a text. */
  lemma {:induction false} TextsAreUnambiguous(e: Expr, f: Expr)
    requires Writable(e) && Writable(f) && TextOf(e) == TextOf(f)
    ensures e == f
  {
    hide Writable, TextOf, Source;
    WrittenTreesParseBack(e);
    WrittenTreesParseBack(f);
  }

  // ----- String literals -----

  /** Segments of one string literal: text that is not empty, and balanced sources; no two texts follow each other. */
  predicate Segments(pieces: seq<Token>) {
    && (forall i | 0 <= i < |pieces| ::
          (pieces[i].Quote? && pieces[i].text != "") || (pieces[i].Interp? && Balanced(pieces[i].source)))
    && (forall i | 0 < i < |pieces| :: pieces[i].Quote? ==> pieces[i - 1].Interp?)
  }

  function SegmentText(piece: Token): string {
    match piece
    case Quote(text) => EscapeText(text)
    case Interp(source) => "\\(" + source + ")"
    case _ => ""
  }

  function SegmentsText(pieces: seq<Token>): string {
    if pieces == [] then "" else SegmentText(pieces[0]) + SegmentsText(pieces[1..])
  }

  /** The text of a string literal with these segments. */
  function StringLiteral(pieces: seq<Token>): string {
    "\"" + (SegmentsText(pieces) + "\"")
  }

  lemma {:induction false} SegmentsTail(pieces: seq<Token>)
    requires pieces != [] && Segments(pieces)
    ensures Segments(pieces[1..]) && (pieces[0].Quote? && |pieces| > 1 ==> pieces[1].Interp?)
    ensures (pieces[0].Quote? && pieces[0].text != "") || (pieces[0].Interp? && Balanced(pieces[0].source))
  {
    hide Balanced;
    forall i | 0 < i < |pieces[1..]| ensures pieces[1..][i].Quote? ==> pieces[1..][i - 1].Interp? {
      assert pieces[i + 1].Quote? ==> pieces[i].Interp?;
    }
  }

  lemma {:induction false} SegmentsRead(s: string, p: nat, pieces: seq<Token>, literal: string, tokens: seq<Token>)
    requires Segments(pieces) && At(s, p, SegmentsText(pieces) + "\"") && StringPieces(tokens, |s|)
    requires literal != "" && pieces != [] ==> pieces[0].Interp?
    requires tokens != [] || literal != "" || pieces != []
    ensures StringRest(s, p, literal, tokens) ==
            Ok(Batch(Flush(tokens, literal) + pieces, p + |SegmentsText(pieces)| + 1))
    decreases |pieces|
  {
    hide Segments, Balanced, StringRest, At, StringPieces, EscapeText, SegmentsText, SegmentText;
    SegmentsSplit(pieces);
    if pieces == [] {
      ClosingQuote(s, p, literal, tokens);
      assert Flush(tokens, literal) + [] == Flush(tokens, literal);
    } else {
      SegmentsTail(pieces);
      var first, rest, tail := SegmentText(pieces[0]), SegmentsText(pieces[1..]), pieces[1..];
      AtSplit(s, p, first, rest + "\"");
      var now := SegmentRead(s, p, pieces[0], literal, tokens);
      assert [pieces[0]] + tail == pieces;
      assert now + tail == Flush(tokens, literal) + pieces;
      if pieces[0].Quote? {
        SegmentsRead(s, p + |first|, tail, pieces[0].text, tokens);
      } else {
        SegmentsRead(s, p + |first|, tail, "", now);
      }
    }
  }

  lemma {:induction false} SegmentsSplit(pieces: seq<Token>)
    ensures pieces == [] ==> SegmentsText(pieces) + "\"" == "\"" && SegmentsText(pieces) == ""
    ensures pieces != [] ==>
              && SegmentsText(pieces) + "\"" == SegmentText(pieces[0]) + (SegmentsText(pieces[1..]) + "\"")
              && |SegmentsText(pieces)| == |SegmentText(pieces[0])| + |SegmentsText(pieces[1..])|
  {
    hide SegmentText;
  }

  /** One segment: text goes on as the literal read so far, an interpolation closes it. */
  lemma {:induction false} SegmentRead(s: string, p: nat, piece: Token, literal: string, tokens: seq<Token>)
    returns (now: seq<Token>)
    requires (piece.Quote? && piece.text != "" && literal == "") || (piece.Interp? && Balanced(piece.source))
    requires At(s, p, SegmentText(piece)) && StringPieces(tokens, |s|)
    ensures now == Flush(tokens, literal) + [piece] && p + |SegmentText(piece)| <= |s|
    ensures piece.Quote? ==>
              && StringRest(s, p, literal, tokens) == StringRest(s, p + |SegmentText(piece)|, piece.text, tokens)
              && now == Flush(tokens, piece.text)
    ensures piece.Interp? ==>
              && StringPieces(now, |s|)
              && StringRest(s, p, literal, tokens) == StringRest(s, p + |SegmentText(piece)|, "", now)
  {
    hide Balanced, StringRest, EscapeText, StringPieces;
    now := Flush(tokens, literal) + [piece];
    if piece.Quote? {
      TextRead(s, p, piece.text, "", tokens);
      assert "" + piece.text == piece.text;
    } else {
      InterpRead(s, p, piece.source, literal, tokens);
    }
  }

  /** The tokens of a string literal are its segments in order. */
  lemma {:induction false} LiteralTokens(pieces: seq<Token>)
    requires Segments(pieces) && pieces != []
    ensures Tokens(StringLiteral(pieces), 0) == Ok(pieces + [Eof])
  {
    hide Segments, StringRest, SegmentsText, Tokens;
    var s := StringLiteral(pieces);
    assert s[0..0 + |s|] == s;
    AtSplit(s, 0, "\"", SegmentsText(pieces) + "\"");
    var none: seq<Token> := [];
    SegmentsRead(s, 1, pieces, "", none);
    assert none + pieces == pieces;
    StringStarts(s, 0);
    OneBatch(s, pieces);
  }

  lemma {:induction false} OneBatch(s: string, pieces: seq<Token>)
    requires s != "" && s[0] == '\"' && pieces != [] && TokensAt(s, 0) == Ok(Batch(pieces, |s|))
    ensures Tokens(s, 0) == Ok(pieces + [Eof])
  {
    hide TokensAt;
    assert SkipBlanks(s, 0) == 0;
    assert NextBatch(s, |s|) == Ok(Batch([Eof], |s|));
    assert Tokens(s, |s|) == Ok([Eof]);
  }

  /** The token stands for the part; an interpolated source stands for what the nested parser reads. */
  predicate StandsFor(t: Token, part: InterpPart, sub: Nested) {
    match part
    case LiteralPart(text) => t == Quote(text)
    case ExprPart(e) => t.Interp? && sub(t.source) == Ok(e)
  }

  /** A run of string tokens is a string of the parts they stand for, in their order. */
  lemma {:induction false} StringsAreTheirParts(ts: seq<Token>, p: nat, sub: Nested, parts: seq<InterpPart>)
    requires EndsOnce(ts) && parts != [] && p + |parts| < |ts|
    requires forall k | 0 <= k < |parts| :: StandsFor(ts[p + k], parts[k], sub)
    requires !ts[p + |parts|].Quote? && !ts[p + |parts|].Interp?
    ensures ts[p].Quote? || ts[p].Interp?
    ensures StringAt(ts, p, sub) == Done(StrExpr(parts), p + |parts|)
  {
    assert StandsFor(ts[p + 0], parts[0], sub);
    PartsAreRead(ts, p, sub, parts, 0);
    var none: seq<InterpPart> := [];
    assert parts[..0] == none;
  }

  lemma {:induction false} PartsAreRead(ts: seq<Token>, p: nat, sub: Nested, parts: seq<InterpPart>, n: nat)
    requires EndsOnce(ts) && n <= |parts| && p + |parts| < |ts|
    requires forall k | 0 <= k < |parts| :: StandsFor(ts[p + k], parts[k], sub)
    requires !ts[p + |parts|].Quote? && !ts[p + |parts|].Interp?
    ensures PartsRest(ts, p + n, sub, parts[..n]) == Done(parts, p + |parts|)
    decreases |parts| - n
  {
    if n < |parts| {
      assert StandsFor(ts[p + n], parts[n], sub);
      assert parts[..n] + [parts[n]] == parts[..n + 1];
      PartsAreRead(ts, p, sub, parts, n + 1);
    } else {
      assert parts[..n] == parts;
    }
  }

  predicate Readable(t: Token, sub: Nested) {
    t.Quote? || (t.Interp? && sub(t.source).Ok?)
  }

  /** The first source that cannot be parsed fails the string. */
  lemma {:induction false} StringsFailWithAPart(ts: seq<Token>, p: nat, sub: Nested, at: nat)
    requires EndsOnce(ts) && p <= at < |ts| && ts[at].Interp? && sub(ts[at].source).Err?
    requires forall k | p <= k < at :: Readable(ts[k], sub)
    ensures ts[p].Quote? || ts[p].Interp?
    ensures StringAt(ts, p, sub) == Failed(sub(ts[at].source).error)
  {
    assert p < at ==> Readable(ts[p], sub);
    PartFails(ts, p, sub, at, []);
  }

  lemma {:induction false} PartFails(ts: seq<Token>, p: nat, sub: Nested, at: nat, acc: seq<InterpPart>)
    requires EndsOnce(ts) && p <= at < |ts| && ts[at].Interp? && sub(ts[at].source).Err?
    requires forall k | p <= k < at :: Readable(ts[k], sub)
    ensures PartsRest(ts, p, sub, acc) == Failed(sub(ts[at].source).error)
    decreases at - p
  {
    if p < at {
      assert Readable(ts[p], sub);
      PartFails(
        ts, p + 1, sub, at, acc + [if ts[p].Quote? then LiteralPart(ts[p].text) else ExprPart(sub(ts[p].source).value)]);
    }
  }

  /** A string literal parses to its texts and the trees of its sources, in the order in which they are written. */
  lemma {:induction false} LiteralsParse(pieces: seq<Token>, parts: seq<InterpPart>)
    requires Segments(pieces) && pieces != [] && |parts| == |pieces|
    requires forall k | 0 <= k < |parts| ::
               match parts[k]
               case LiteralPart(text) => pieces[k] == Quote(text)
               case ExprPart(e) => pieces[k].Interp? && Source(pieces[k].source) == Ok(e)
    ensures Source(StringLiteral(pieces)) == Ok(StrExpr(parts))
  {
    hide Segments, Source, Tokens, StringLiteral, ExprAt, StringAt;
    var s, ts := StringLiteral(pieces), pieces + [Eof];
    var sub, n := Shorter(s), |pieces|;
    LiteralTokens(pieces);
    forall k | 0 <= k < n ensures StandsFor(ts[0 + k], parts[k], sub) {
      assert ts[k] == pieces[k];
      assert ts[k].Interp? ==> |ts[k].source| < |s|;
    }
    StringsAreTheirParts(ts, 0, sub, parts);
    StringIsExpr(ts, sub, StrExpr(parts), n);
    SourceIs(s, ts, StrExpr(parts), n);
  }

  lemma {:induction false} StringIsExpr(ts: seq<Token>, sub: Nested, e: Expr, n: nat)
    requires EndsOnce(ts) && n == |ts| - 1 && n > 0 && (ts[0].Quote? || ts[0].Interp?) && StringAt(ts, 0, sub) == Done(e, n)
    ensures ExprAt(ts, 0, sub) == Done(e, n)
  {
    hide StringAt, ExprAt, LevelAt, UnaryAt;
    assert BaseAt(ts, 0, sub) == Done(e, n);
    PrimaryStep(ts, 0, n, sub, e);
    TermStep(ts, 0, n, sub, e);
    Climb(ts, 0, n, sub, 0, e);
    SingleStep(ts, 0, sub, e, n);
  }

  lemma {:induction false} SourceIs(s: string, ts: seq<Token>, e: Expr, n: nat)
    requires Tokens(s, 0) == Ok(ts) && n == |ts| - 1 && ExprAt(ts, 0, Shorter(s)) == Done(e, n)
    ensures Source(s) == Ok(e)
  {
    hide ExprAt, Tokens;
  }
}
