/** Compiling a source string into an expression, plain text or a template, and evaluating it. */
module TemplateEngine {
  import opened Wrappers
  import opened Json
  import opened Syntax
  import opened Lexing
  import opened Grammar
  import opened Parsing
  import opened Evaluation
  import opened Template

  datatype Piece = Lit(text: string) | Block(expr: Expr)

  datatype Prepared = Single(expr: Expr) | Plain(text: string) | Interpolated(pieces: seq<Piece>)

  type Compiled<T> = Result<T, ExpressionError>

  // ----- One block -----

  function FirstNonBlank(s: string, i: nat): (r: Option<nat>)
    requires i <= |s|
    ensures r.Some? ==> i <= r.value < |s| && !IsWhitespace(s[r.value])
    ensures forall k | i <= k < (if r.Some? then r.value else |s|) :: IsWhitespace(s[k])
    decreases |s| - i
  {
    if i == |s| then None else if IsWhitespace(s[i]) then FirstNonBlank(s, i + 1) else Some(i)
  }

  /** The inner text of a source that is one block, blanks around it aside. */
  function SingleBlockIn(s: string): Option<string> {
    var start := FirstNonBlank(s, 0);
    if start.None? || !OpensBlock(s, start.value) then None
    else
      match CloseAt(s, start.value + 1, 0)
      case None => None
      case Some(close) =>
        if Blank(s[close + 1..]) then Some(s[start.value + 2..close]) else None
  }

  method SingleBlock(source: string) returns (r: Option<string>)
    ensures r == if SingleBlockIn(source).Some? then Some(Trim(SingleBlockIn(source).value)) else None
  {
    hide Trim, CloseAt, FirstNonBlank, IsWhitespace;
    var start := FirstNonBlank(source, 0);
    if start.None? || !OpensBlock(source, start.value) {
      return None;
    }
    var close := FindBlockClose(source, start.value + 1);
    if close.None? || !Blank(source[close.value + 1..]) {
      return None;
    }
    return Some(Trim(source[start.value + 2..close.value]));
  }

  /** The sections of a source that is one block from end to end. */
  predicate OneBlock(sections: seq<Section>) {
    |sections| == 1 && sections[0].Code?
  }

  predicate Trimmed(s: string) {
    s != "" ==> !IsWhitespace(s[0]) && !IsWhitespace(s[|s| - 1])
  }

  lemma {:induction false} TrimIsTrimmed(s: string)
    ensures Trimmed(Trim(s))
  {
    var t := TrimStart(s);
    var u := TrimEnd(t);
    if u != "" {
      assert u[0] == t[0];
    }
  }

  lemma SplitNonEmpty(s: string, i: nat, literal: string)
    requires i <= |s|
    ensures Split(s, i, literal) == [] <==> i == |s| && literal == ""
    decreases |s| - i
  {
    if i < |s| && !OpensBlock(s, i) {
      SplitNonEmpty(s, i + 1, literal + [s[i]]);
    }
  }

  lemma {:induction false} LiteralComesFirst(s: string, i: nat, literal: string)
    requires i <= |s| && literal != ""
    ensures Split(s, i, literal) != [] && Split(s, i, literal)[0].Words?
    decreases |s| - i
  {
    if i < |s| && !OpensBlock(s, i) {
      LiteralComesFirst(s, i + 1, literal + [s[i]]);
    }
  }

  /** A trimmed source is a single block exactly when its split is one expression piece. */
  lemma SingleBlockIsWholeSplit(s: string)
    requires Trimmed(s)
    ensures SingleBlockIn(s) == if OneBlock(Split(s, 0, "")) then Some(Split(s, 0, "")[0].inner) else None
  {
    hide CloseAt;
    if s != "" {
      assert FirstNonBlank(s, 0) == Some(0);
      if OpensBlock(s, 0) {
        var close := CloseAt(s, 1, 0);
        if close.Some? {
          SplitNonEmpty(s, close.value + 1, "");
          assert s[close.value + 1..] != "" ==> s[close.value + 1..][|s| - close.value - 2] == s[|s| - 1];
          assert Split(s, 0, "") == [] + [Code(s[2..close.value])] + Split(s, close.value + 1, "");
        }
      } else {
        LiteralComesFirst(s, 1, [s[0]]);
        assert "" + [s[0]] == [s[0]];
      }
    }
  }

  // ----- Several blocks -----

  /** How the inner text of a block becomes an expression. */
  type Reader = string -> Compiled<Expr>

  ghost function ReadBlock(inner: string): Compiled<Expr> {
    Source(Trim(inner))
  }

  ghost function Compile(sections: seq<Section>, read: Reader): Compiled<seq<Piece>> {
    if sections == [] then Ok([])
    else
      match sections[0]
      case Words(text) =>
        var rest :- Compile(sections[1..], read);
        Ok([Lit(text)] + rest)
      case Code(inner) =>
        var e :- read(inner);
        var rest :- Compile(sections[1..], read);
        Ok([Block(e)] + rest)
      case Unclosed(pos) => Err(ParseError(pos))
  }

  ghost function After(pieces: seq<Piece>, rest: Compiled<seq<Piece>>): Compiled<seq<Piece>> {
    if rest.Ok? then Ok(pieces + rest.value) else rest
  }

  function Push(pieces: seq<Piece>, literal: string): seq<Piece> {
    if literal == "" then pieces else pieces + [Lit(literal)]
  }

  lemma CompileWords(literal: string, pieces: seq<Piece>, rest: seq<Section>, read: Reader)
    ensures After(pieces, Compile(Pending(literal) + rest, read)) == After(Push(pieces, literal), Compile(rest, read))
  {
    if literal == "" {
      assert [] + rest == rest;
    } else {
      var all := [Words(literal)] + rest;
      assert all[1..] == rest;
      var r := Compile(rest, read);
      assert r.Ok? ==> pieces + ([Lit(literal)] + r.value) == pieces + [Lit(literal)] + r.value;
    }
  }

  lemma CompileBlock(inner: string, pieces: seq<Piece>, rest: seq<Section>, read: Reader)
    ensures After(pieces, Compile([Code(inner)] + rest, read)) ==
            if read(inner).Err? then Err(read(inner).error)
            else After(pieces + [Block(read(inner).value)], Compile(rest, read))
  {
    var all := [Code(inner)] + rest;
    assert all[1..] == rest;
    var r, e := Compile(rest, read), read(inner);
    assert e.Ok? && r.Ok? ==> pieces + ([Block(e.value)] + r.value) == pieces + [Block(e.value)] + r.value;
  }

  /** The compiled pieces of the text from i on, with a literal pending. */
  ghost function Blocks(s: string, i: nat, literal: string, read: Reader): Compiled<seq<Piece>>
    requires i <= |s|
  {
    Compile(Split(s, i, literal), read)
  }

  lemma BlocksAtEnd(s: string, pieces: seq<Piece>, literal: string, read: Reader)
    ensures After(pieces, Blocks(s, |s|, literal, read)) == Ok(Push(pieces, literal))
  {
    CompileWords(literal, pieces, [], read);
    assert Pending(literal) + [] == Pending(literal);
    assert Push(pieces, literal) + [] == Push(pieces, literal);
  }

  lemma BlocksAtChar(s: string, i: nat, literal: string, read: Reader)
    requires i < |s| && !OpensBlock(s, i)
    ensures Blocks(s, i, literal, read) == Blocks(s, i + 1, literal + [s[i]], read)
  {
  }

  lemma BlocksUnclosed(s: string, i: nat, pieces: seq<Piece>, literal: string, read: Reader)
    requires i < |s| && OpensBlock(s, i) && CloseAt(s, i + 1, 0).None?
    ensures After(pieces, Blocks(s, i, literal, read)) == Err(ParseError(i))
  {
    CompileWords(literal, pieces, [Unclosed(i)], read);
  }

  lemma BlocksAtBlock(s: string, i: nat, pieces: seq<Piece>, literal: string, close: nat, read: Reader)
    requires i < |s| && OpensBlock(s, i) && CloseAt(s, i + 1, 0) == Some(close)
    ensures i + 2 <= close
    ensures After(pieces, Blocks(s, i, literal, read)) ==
            var e := read(s[i + 2..close]);
            if e.Err? then Err(e.error)
            else After(Push(pieces, literal) + [Block(e.value)], Blocks(s, close + 1, "", read))
  {
    hide Compile, CloseAt;
    var inner, rest := s[i + 2..close], Split(s, close + 1, "");
    assert Split(s, i, literal) == Pending(literal) + ([Code(inner)] + rest);
    CompileWords(literal, pieces, [Code(inner)] + rest, read);
    CompileBlock(inner, Push(pieces, literal), rest, read);
  }

  /** Compiles the pieces of the split, left to right; the empty text is one empty literal. */
  method ParseBlocks(source: string) returns (r: Compiled<seq<Piece>>)
    ensures source != "" ==> r == Blocks(source, 0, "", ReadBlock)
    ensures source == "" ==> r == Ok([Lit("")])
  {
    hide Blocks, Source, Trim, CloseAt;
    var pieces: seq<Piece> := [];
    var i := 0;
    var literal := "";
    ghost var whole := Blocks(source, 0, "", ReadBlock);
    assert whole.Ok? ==> [] + whole.value == whole.value;
    while i < |source|
      invariant i <= |source|
      invariant whole == After(pieces, Blocks(source, i, literal, ReadBlock))
      invariant pieces == [] && literal == "" <==> i == 0
    {
      if OpensBlock(source, i) {
        var close := FindBlockClose(source, i + 1);
        if close.None? {
          BlocksUnclosed(source, i, pieces, literal, ReadBlock);
          return Err(ParseError(i));
        }
        BlocksAtBlock(source, i, pieces, literal, close.value, ReadBlock);
        if literal != "" {
          pieces := pieces + [Lit(literal)];
          literal := "";
        }
        var e := Parse(Trim(source[i + 2..close.value]));
        if e.Err? {
          return Err(e.error);
        }
        pieces := pieces + [Block(e.value)];
        i := close.value + 1;
      } else {
        BlocksAtChar(source, i, literal, ReadBlock);
        literal := literal + [source[i]];
        i := i + 1;
      }
    }
    BlocksAtEnd(source, pieces, literal, ReadBlock);
    if literal != "" {
      pieces := pieces + [Lit(literal)];
    }
    if pieces == [] {
      pieces := pieces + [Lit("")];
      assert pieces == [Lit("")];
    }
    return Ok(pieces);
  }

  // ----- Compiling a source -----

  /** What the shape of the split makes of a source: one block is an expression, no block leaves plain text. */
  ghost function PreparedFrom(source: string): Compiled<Prepared> {
    var sections := Split(Trim(source), 0, "");
    if OneBlock(sections) then
      var e :- ReadBlock(sections[0].inner);
      Ok(Single(e))
    else if AllWords(sections) then Ok(Plain(source))
    else
      var pieces :- Compile(sections, ReadBlock);
      Ok(Interpolated(pieces))
  }

  predicate AllWords(sections: seq<Section>) {
    forall i | 0 <= i < |sections| :: sections[i].Words?
  }

  predicate NoBlockFrom(s: string, i: nat) {
    forall k | i <= k < |s| :: !OpensBlock(s, k)
  }

  lemma {:induction false} MarkersAreSections(s: string, i: nat, literal: string)
    requires i <= |s|
    ensures NoBlockFrom(s, i) <==> AllWords(Split(s, i, literal))
    decreases |s| - i
  {
    hide CloseAt;
    if i < |s| {
      if OpensBlock(s, i) {
        assert !Split(s, i, literal)[|Pending(literal)|].Words?;
        assert !NoBlockFrom(s, i);
      } else {
        MarkersAreSections(s, i + 1, literal + [s[i]]);
        assert NoBlockFrom(s, i) <==> NoBlockFrom(s, i + 1) by {
          hide OpensBlock;
        }
      }
    }
  }

  method Prepare(source: string) returns (r: Compiled<Prepared>)
    ensures r == PreparedFrom(source)
  {
    hide Source, Compile, Split, Trim, SingleBlockIn;
    var trimmed := Trim(source);
    TrimIsTrimmed(source);
    SingleBlockIsWholeSplit(trimmed);
    MarkersAreSections(trimmed, 0, "");
    var inner := SingleBlock(trimmed);
    if inner.Some? {
      var e := Parse(inner.value);
      return if e.Err? then Err(e.error) else Ok(Single(e.value));
    }
    if HasMarker(trimmed) {
      var pieces := ParseBlocks(trimmed);
      return if pieces.Err? then Err(pieces.error) else Ok(Interpolated(pieces.value));
    }
    return Ok(Plain(source));
  }

  // ----- Evaluating -----

  type Answer = Result<Value, ExpressionError>

  function LastOf(e: Expr, input: Value, env: Env): Answer {
    var s :- Eval(e, input, env);
    Ok(Last(s))
  }

  function Spliced(pieces: seq<Piece>, input: Value, env: Env): Result<string, ExpressionError> {
    if pieces == [] then Ok("")
    else
      var head :- PieceText(pieces[0], input, env);
      var tail :- Spliced(pieces[1..], input, env);
      Ok(head + tail)
  }

  function PieceText(piece: Piece, input: Value, env: Env): Result<string, ExpressionError> {
    match piece
    case Lit(text) => Ok(text)
    case Block(e) =>
      var v :- LastOf(e, input, env);
      Ok(ToText(v))
  }

  function Behind(text: string, rest: Result<string, ExpressionError>): Result<string, ExpressionError> {
    if rest.Ok? then Ok(text + rest.value) else rest
  }

  lemma SplicedStep(out: string, pieces: seq<Piece>, i: nat, input: Value, env: Env)
    requires i < |pieces|
    ensures Behind(out, Spliced(pieces[i..], input, env)) ==
            (match PieceText(pieces[i], input, env)
             case Err(e) => Err(e)
             case Ok(text) => Behind(out + text, Spliced(pieces[i + 1..], input, env)))
  {
    hide PieceText;
    assert pieces[i..][1..] == pieces[i + 1..];
    var head, tail := PieceText(pieces[i], input, env), Spliced(pieces[i + 1..], input, env);
    assert head.Ok? && tail.Ok? ==> out + (head.value + tail.value) == out + head.value + tail.value;
  }

  method Interpolate(pieces: seq<Piece>, input: Value, env: Env) returns (r: Answer)
    ensures match Spliced(pieces, input, env)
            case Ok(text) => r == Ok(Str(text))
            case Err(e) => r == Err(e)
  {
    hide PieceText;
    var out := "";
    ghost var whole := Spliced(pieces, input, env);
    assert pieces[0..] == pieces;
    assert whole.Ok? ==> "" + whole.value == whole.value;
    for i := 0 to |pieces|
      invariant whole == Behind(out, Spliced(pieces[i..], input, env))
    {
      SplicedStep(out, pieces, i, input, env);
      var text := PieceText(pieces[i], input, env);
      if text.Err? {
        return Err(text.error);
      }
      out := out + text.value;
    }
    assert out + "" == out;
    return Ok(Str(out));
  }

  /** In expression position plain text is a bare expression. */
  ghost function ValueOf(prepared: Prepared, input: Value, env: Env): Answer {
    match prepared
    case Single(e) => LastOf(e, input, env)
    case Plain(text) =>
      var e :- Source(text);
      LastOf(e, input, env)
    case Interpolated(pieces) =>
      var text :- Spliced(pieces, input, env);
      Ok(Str(text))
  }

  method EvaluateValue(prepared: Prepared, input: Value, env: Env) returns (r: Answer)
    ensures r == ValueOf(prepared, input, env)
  {
    hide LastOf, Spliced, Source;
    match prepared
    case Single(e) => r := LastOf(e, input, env);
    case Plain(text) =>
      var e := Parse(text);
      r := if e.Err? then Err(e.error) else LastOf(e.value, input, env);
    case Interpolated(pieces) => r := Interpolate(pieces, input, env);
  }

  /** In interpolation position plain text stands for itself. */
  method EvaluateInterpolation(source: string, input: Value, env: Env) returns (r: Answer)
    ensures match PreparedFrom(source)
            case Err(e) => r == Err(e)
            case Ok(Plain(_)) => r == Ok(Str(source))
            case Ok(prepared) => r == ValueOf(prepared, input, env)
  {
    hide PreparedFrom, ValueOf;
    var prepared := Prepare(source);
    if prepared.Err? {
      return Err(prepared.error);
    }
    PlainIsSource(source);
    match prepared.value
    case Plain(text) => r := Ok(Str(text));
    case Single(_) => r := EvaluateValue(prepared.value, input, env);
    case Interpolated(_) => r := EvaluateValue(prepared.value, input, env);
  }

  lemma PlainIsSource(source: string)
    ensures PreparedFrom(source).Ok? && PreparedFrom(source).value.Plain? ==> PreparedFrom(source).value.text == source
  {
    hide Source, Compile, Split, Trim, ReadBlock;
  }
}
