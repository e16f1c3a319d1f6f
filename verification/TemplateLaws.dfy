/** What a prepared source answers: a template is the string expression with the same parts. */
module TemplateLaws {
  import opened Wrappers
  import opened Json
  import opened Syntax
  import opened Grammar
  import opened Evaluation
  import opened Template
  import opened TemplateEngine
  import ValueLaws

  function PartOf(piece: Piece): InterpPart {
    match piece
    case Lit(text) => LiteralPart(text)
    case Block(e) => ExprPart(e)
  }

  function PartsOf(pieces: seq<Piece>): (parts: seq<InterpPart>)
    ensures |parts| == |pieces|
  {
    seq(|pieces|, i requires 0 <= i < |pieces| => PartOf(pieces[i]))
  }

  lemma {:induction false} PartOfFirst(piece: Piece, input: Value, env: Env)
    ensures PieceText(piece, input, env) == EvalPart(PartOf(piece), input, env)
  {
    hide Eval, ToText;
  }

  lemma {:induction false} SplicedIsString(pieces: seq<Piece>, input: Value, env: Env)
    ensures Spliced(pieces, input, env) == EvalParts(PartsOf(pieces), input, env)
    decreases |pieces|
  {
    hide PieceText, EvalPart;
    var parts := PartsOf(pieces);
    if pieces != [] {
      PartOfFirst(pieces[0], input, env);
      SplicedIsString(pieces[1..], input, env);
      assert parts[1..] == PartsOf(pieces[1..]);
    }
  }

  /** A template answers what the string with the same parts evaluates to, errors included. */
  lemma {:induction false} TemplatesAreStrings(pieces: seq<Piece>, input: Value, env: Env)
    ensures var r, s := ValueOf(Interpolated(pieces), input, env), Eval(StrExpr(PartsOf(pieces)), input, env);
            s == if r.Ok? then Ok([r.value]) else Err(r.error)
  {
    hide Eval, EvalParts, Spliced;
    SplicedIsString(pieces, input, env);
    ValueLaws.StringCase(PartsOf(pieces), input, env);
  }

  /** A single block, or in expression position plain text, answers the last value of its stream, or null. */
  lemma {:induction false} BlocksAnswerTheirLast(e: Expr, text: string, input: Value, env: Env)
    ensures var s := Eval(e, input, env);
            ValueOf(Single(e), input, env) ==
            if s.Err? then Err(s.error) else Ok(if s.value == [] then Null else s.value[|s.value| - 1])
    ensures ValueOf(Plain(text), input, env) ==
            if Source(text).Ok? then ValueOf(Single(Source(text).value), input, env) else Err(Source(text).error)
  {
    hide Eval, Source;
  }

  // ----- Preparing -----

  /** Text stands for itself, a block for the tree its trimmed inner text parses to. */
  ghost predicate CompilesTo(section: Section, piece: Piece) {
    match section
    case Words(text) => piece == Lit(text)
    case Code(inner) => piece.Block? && Source(Trim(inner)) == Ok(piece.expr)
    case Unclosed(_) => false
  }

  lemma {:induction false} SectionsCompile(sections: seq<Section>, pieces: seq<Piece>)
    requires |sections| == |pieces| && forall i | 0 <= i < |pieces| :: CompilesTo(sections[i], pieces[i])
    ensures Compile(sections, ReadBlock) == Ok(pieces)
    decreases |sections|
  {
    hide Trim, Source;
    if sections != [] {
      assert CompilesTo(sections[0], pieces[0]);
      forall i | 0 <= i < |pieces| - 1 ensures CompilesTo(sections[1..][i], pieces[1..][i]) {
        assert CompilesTo(sections[i + 1], pieces[i + 1]);
      }
      SectionsCompile(sections[1..], pieces[1..]);
      assert [pieces[0]] + pieces[1..] == pieces;
    }
  }

  /** A source with blocks and anything else is the template of its sections, in order; one that is a single block is
      that block's expression; one without blocks is itself, blanks included. */
  lemma {:induction false} SourcesArePrepared(source: string, pieces: seq<Piece>)
    requires var sections := Split(Trim(source), 0, "");
             |sections| == |pieces| && forall i | 0 <= i < |pieces| :: CompilesTo(sections[i], pieces[i])
    ensures PreparedFrom(source) ==
            Ok(if |pieces| == 1 && pieces[0].Block? then Single(pieces[0].expr)
               else if exists i :: 0 <= i < |pieces| && pieces[i].Block? then Interpolated(pieces)
               else Plain(source))
  {
    hide Trim, Source, Split, Compile;
    var sections := Split(Trim(source), 0, "");
    forall i | 0 <= i < |pieces| ensures sections[i].Words? <==> !pieces[i].Block? {
      assert CompilesTo(sections[i], pieces[i]);
    }
    SectionsCompile(sections, pieces);
    if |pieces| == 1 {
      assert CompilesTo(sections[0], pieces[0]);
    }
  }

  /** The first section that cannot be compiled fails the source, where it has blocks: an unclosed one with its position. */
  lemma {:induction false} SectionsFail(sections: seq<Section>, n: nat)
    requires n < |sections| && !sections[n].Words? && (sections[n].Code? ==> Source(Trim(sections[n].inner)).Err?)
    requires forall i | 0 <= i < n :: sections[i].Words? || (sections[i].Code? && Source(Trim(sections[i].inner)).Ok?)
    ensures Compile(sections, ReadBlock) ==
            Err(if sections[n].Code? then Source(Trim(sections[n].inner)).error else ParseError(sections[n].pos))
    decreases n
  {
    hide Trim, Source;
    if n > 0 {
      SectionsFail(sections[1..], n - 1);
    }
  }
}
