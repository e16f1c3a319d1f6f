/** Every tree can be printed, and no pair of parentheses in its printing can be left out. */
module Parentheses {
  import opened Json
  import opened Syntax
  import opened Grammar
  import opened Printing
  import opened Precedence

  // ----- Printing puts tokens in front of what follows -----

  /** One or more tokens, none of them the end marker, stand in front of rest. */
  predicate Extends(longer: Tape, rest: Tape) {
    longer.Cut? && longer.head != Eof && (longer.tail == rest || Extends(longer.tail, rest))
  }

  lemma {:induction false} ShowExtends(e: Expr, min: int, tight: bool, rest: Tape)
    requires Denotable(e)
    ensures Extends(Show(e, min, tight, rest), rest)
    decreases e, 2
  {
    hide Body, Denotable, Extends;
    if Wrapped(e, min, tight) {
      BodyExtends(e, false, Cut(RParen, rest));
      Enclosed(LParen, Body(e, false, Cut(RParen, rest)), RParen, rest);
    } else {
      BodyExtends(e, tight, rest);
    }
  }

  lemma Prefixed(t: Token, longer: Tape, rest: Tape)
    requires t != Eof && (longer == rest || Extends(longer, rest))
    ensures Extends(Cut(t, longer), rest)
  {
  }

  lemma {:induction false} Before(longer: Tape, t: Token, tail: Tape, rest: Tape)
    requires t != Eof && Extends(longer, Cut(t, tail)) && (tail == rest || Extends(tail, rest))
    ensures Extends(longer, rest)
  {
    if longer.tail != Cut(t, tail) {
      Before(longer.tail, t, tail, rest);
    }
  }

  lemma {:induction false} BodyExtends(e: Expr, tight: bool, rest: Tape)
    requires Denotable(e)
    ensures Extends(Body(e, tight, rest), rest)
    decreases e, 1
  {
    hide Extends, Show, ShowAll, ShowEntries, ShowParts, AllDenotable, EntriesDenotable;
    match e
    case Identity => Prefixed(Dot, rest, rest);
    case Variable(name) => Prefixed(VariableName(name), rest, rest);
    case Literal(value) => LiteralExtends(value, rest);
    case StrExpr(parts) => PartsExtend(parts, rest);
    case Field(_, _) => SuffixExtends(e, rest);
    case Index(_, _) => SuffixExtends(e, rest);
    case Iterate(_) => SuffixExtends(e, rest);
    case Binary(op, left, right) => InfixExtends(e, left, OpLevel(op), OpToken(op), right, tight, rest);
    case Pipe(left, right) => InfixExtends(e, left, 0, Bar, right, tight, rest);
    case Unary(op, inner) =>
      ShowExtends(inner, UNARY_LEVEL, tight, rest);
      Prefixed(UnaryToken(op), Show(inner, UNARY_LEVEL, tight, rest), rest);
    case ArrayExpr(elems) =>
      var tail := ShowAll(elems, false, Cut(RBracket, rest));
      AllExtend(elems, false, Cut(RBracket, rest));
      Enclosed(LBracket, tail, RBracket, rest);
    case ObjectExpr(entries) =>
      var tail := ShowEntries(entries, Cut(RBrace, rest));
      EntriesExtend(entries, Cut(RBrace, rest));
      Enclosed(LBrace, tail, RBrace, rest);
    case If(_, _, _) => IfExtends(e, rest);
    case Call(name, args) =>
      var tail := ShowAll(args, false, Cut(RParen, rest));
      AllExtend(args, false, Cut(RParen, rest));
      Enclosed(LParen, tail, RParen, rest);
      Prefixed(Ident(name), Cut(LParen, tail), rest);
      Prefixed(Ident(name), rest, rest);
    case Stream(elems) => AllExtend(elems, tight, rest);
  }

  lemma Enclosed(open: Token, inner: Tape, close: Token, rest: Tape)
    requires open != Eof && close != Eof && (inner == Cut(close, rest) || Extends(inner, Cut(close, rest)))
    ensures Extends(Cut(open, inner), rest)
  {
    hide Extends;
    Prefixed(close, rest, rest);
    if inner != Cut(close, rest) {
      Before(inner, close, rest, rest);
    }
    Prefixed(open, inner, rest);
  }

  lemma LiteralExtends(value: Value, rest: Tape)
    requires Denotable(Literal(value))
    ensures Extends(ShowLiteral(value, rest), rest)
  {
  }

  lemma {:induction false} InfixExtends(
    e: Expr, left: Expr, level: nat, op: Token, right: Expr, tight: bool, rest: Tape)
    requires Denotable(left) && Denotable(right) && left < e && right < e && op != Eof
    ensures Extends(Show(left, level, op.Ident?, Cut(op, Show(right, level + 1, tight, rest))), rest)
    decreases e, 0
  {
    hide Extends, Show, Denotable;
    var tail := Show(right, level + 1, tight, rest);
    ShowExtends(right, level + 1, tight, rest);
    ShowExtends(left, level, op.Ident?, Cut(op, tail));
    Before(Show(left, level, op.Ident?, Cut(op, tail)), op, tail, rest);
  }

  lemma Operand(e: Expr, rest: Tape)
    requires Denotable(e) && (e.Field? || e.Index? || e.Iterate?)
    ensures Denotable(e.base) && (e.Index? ==> Denotable(e.index))
    ensures Body(e, false, rest) ==
            if e.Field? && e.base.Identity? then Suffix(e, rest) else Show(e.base, POSTFIX, false, Suffix(e, rest))
  {
  }

  lemma {:induction false} SuffixExtends(e: Expr, rest: Tape)
    requires Denotable(e) && (e.Field? || e.Index? || e.Iterate?)
    ensures Extends(Body(e, false, rest), rest)
    decreases e, 0
  {
    hide Extends, Show, Denotable;
    Operand(e, rest);
    if e.Field? {
      Prefixed(Ident(e.name), rest, rest);
      Prefixed(Dot, Cut(Ident(e.name), rest), rest);
    } else if e.Index? {
      ShowExtends(e.index, COMMA, false, Cut(RBracket, rest));
      Prefixed(RBracket, rest, rest);
      Before(Show(e.index, COMMA, false, Cut(RBracket, rest)), RBracket, rest, rest);
      Enclosed(LBracket, Show(e.index, COMMA, false, Cut(RBracket, rest)), RBracket, rest);
    } else {
      Prefixed(RBracket, rest, rest);
    }
    var suffix := Suffix(e, rest);
    if !(e.Field? && e.base.Identity?) {
      ShowExtends(e.base, POSTFIX, false, suffix);
      Before(Body(e, false, rest), suffix.head, suffix.tail, rest);
    }
  }

  lemma IfExtends(e: Expr, rest: Tape)
    requires Denotable(e) && e.If?
    ensures Extends(Body(e, false, rest), rest)
    decreases e, 0
  {
    hide Extends, Show, Denotable;
    assert Denotable(e.cond) && Denotable(e.thn) && Denotable(e.els) by { Branches(e); }
    var els := Show(e.els, COMMA, true, Cut(Ident("end"), rest));
    var thn := Show(e.thn, COMMA, true, Cut(Ident("else"), els));
    var cond := Show(e.cond, COMMA, true, Cut(Ident("then"), thn));
    ShowExtends(e.els, COMMA, true, Cut(Ident("end"), rest));
    ShowExtends(e.thn, COMMA, true, Cut(Ident("else"), els));
    ShowExtends(e.cond, COMMA, true, Cut(Ident("then"), thn));
    Prefixed(Ident("end"), rest, rest);
    Before(els, Ident("end"), rest, rest);
    Before(thn, Ident("else"), els, rest);
    Before(cond, Ident("then"), thn, rest);
    Prefixed(Ident("if"), cond, rest);
  }

  lemma Branches(e: Expr)
    requires Denotable(e) && e.If?
    ensures Denotable(e.cond) && Denotable(e.thn) && Denotable(e.els)
  {
  }

  lemma {:induction false} AllExtend(es: seq<Expr>, tight: bool, rest: Tape)
    requires AllDenotable(es)
    ensures ShowAll(es, tight, rest) == rest || Extends(ShowAll(es, tight, rest), rest)
    ensures es != [] ==> Extends(ShowAll(es, tight, rest), rest)
    decreases es, 0
  {
    hide Show, Denotable;
    if es != [] {
      AllShown(es, tight, rest);
      if |es| == 1 {
        ShowExtends(es[0], 0, tight, rest);
      } else {
        AllExtend(es[1..], tight, rest);
        var tail := ShowAll(es[1..], tight, rest);
        ShowExtends(es[0], 0, false, Cut(Comma, tail));
        Before(Show(es[0], 0, false, Cut(Comma, tail)), Comma, tail, rest);
      }
    }
  }

  lemma {:induction false} PartsExtend(parts: seq<InterpPart>, rest: Tape)
    ensures (parts == [] && ShowParts(parts, rest) == rest) || Extends(ShowParts(parts, rest), rest)
    decreases |parts|
  {
    hide TextOf;
    if parts != [] {
      PartsExtend(parts[1..], rest);
    }
  }

  lemma {:induction false} EntriesExtend(entries: seq<Entry>, rest: Tape)
    requires EntriesDenotable(entries)
    ensures ShowEntries(entries, rest) == rest || Extends(ShowEntries(entries, rest), rest)
    decreases entries, 0
  {
    hide ShowEntry, DenotableEntry;
    if entries != [] {
      EntriesShown(entries, rest);
      if |entries| == 1 {
        EntryExtends(entries[0], rest);
      } else {
        EntriesExtend(entries[1..], rest);
        var tail := ShowEntries(entries[1..], rest);
        EntryExtends(entries[0], Cut(Comma, tail));
        Before(ShowEntry(entries[0], Cut(Comma, tail)), Comma, tail, rest);
      }
    }
  }

  lemma {:induction false} EntryExtends(entry: Entry, rest: Tape)
    requires DenotableEntry(entry)
    ensures Extends(ShowEntry(entry, rest), rest)
    decreases entry, 0
  {
    hide Show, Denotable;
    ShowExtends(entry.value, 0, false, rest);
    var after := Cut(Colon, Show(entry.value, 0, false, rest));
    Prefixed(Colon, after.tail, rest);
    if entry.key.Computed? {
      ShowExtends(entry.key.key, 0, false, Cut(RParen, after));
      Before(Show(entry.key.key, 0, false, Cut(RParen, after)), RParen, after, rest);
    }
  }

  // ----- Every tree has a token vector -----

  /** The token vector printed for a tree. */
  function Printed(e: Expr): seq<Token> {
    Flat(Show(e, COMMA, false, Cut(Eof, End)))
  }

  lemma {:induction false} ClosedEndsOnce(tape: Tape)
    requires Extends(tape, Cut(Eof, End))
    ensures EndsOnce(Flat(tape))
  {
    if tape.tail == Cut(Eof, End) {
      assert Flat(tape.tail) == [Eof] + Flat(End);
    } else {
      ClosedEndsOnce(tape.tail);
    }
  }

  /** Every tree is what some token vector parses to, if its interpolated sources are understood. */
  lemma EveryTreeIsParsed(e: Expr, sub: Nested)
    requires Denotable(e) && Understands(Printed(e), sub)
    ensures EndsOnce(Printed(e)) && From(Printed(e), 0, Show(e, COMMA, false, Cut(Eof, End)))
    ensures ExprAt(Printed(e), 0, sub) == Done(e, |Printed(e)| - 1)
  {
    hide Show, Denotable, From, ExprAt;
    var tape := Show(e, COMMA, false, Cut(Eof, End));
    ShowExtends(e, COMMA, false, Cut(Eof, End));
    ClosedEndsOnce(tape);
    FlatIsFrom([], tape);
    assert [] + Flat(tape) == Flat(tape);
    PrintedTreesParseBack(Printed(e), sub, e);
  }

  // ----- Words after paths -----

  lemma SwallowStep(ts: seq<Token>, p: nat, q: nat, sub: Nested, e: Expr, w: string)
    requires EndsOnce(ts) && p < |ts| && q < |ts| && ts[q] == Ident(w) && BaseAt(ts, p, sub) == ChainRest(ts, q, sub, e)
    ensures BaseAt(ts, p, sub) == ChainRest(ts, q + 1, sub, Field(e, w))
    ensures PostfixAt(ts, p, sub).Done? ==> PostfixAt(ts, p, sub).pos > q
  {
    assert IsName(ts[q]);
  }

  /** A word behind a bare path is left alone exactly when the path does not glue; else it becomes one more field. */
  lemma {:induction false} WordsAfterPaths(ts: seq<Token>, p: nat, sub: Nested, e: Expr, w: string, rest: Tape)
    returns (q: nat)
    requires EndsOnce(ts) && Understands(ts, sub) && Denotable(e) && Rank(e) >= POSTFIX && From(ts, p, Body(e, false, Cut(Ident(w), rest)))
    ensures p < |ts| && q < |ts| && ts[q] == Ident(w) && From(ts, q + 1, rest)
    ensures PostfixAt(ts, p, sub) == Done(e, q) <==> !Glues(e)
    ensures Glues(e) ==> BaseAt(ts, p, sub) == ChainRest(ts, q + 1, sub, Field(e, w))
    ensures Glues(e) && PostfixAt(ts, p, sub).Done? ==> PostfixAt(ts, p, sub).pos > q
  {
    hide Glues, Denotable, From, Body, BaseAt, PostfixAt, ChainRest;
    if Glues(e) {
      q := ParseChainBack(ts, p, sub, e, Cut(Ident(w), rest));
      SwallowStep(ts, p, q, sub, e, w);
    } else {
      q := ParsePostfixBack(ts, p, sub, e, Cut(Ident(w), rest));
      assert PostfixRest(ts, q, sub, e) == Done(e, q);
    }
  }

  /** For instance `.a and .b` reads the keyword as a field name. */
  lemma DotPathsSwallowKeywords(sub: Nested)
    ensures var ts := [Dot, Ident("a"), Ident("and"), Dot, Ident("b"), Eof];
            EndsOnce(ts) && ExprAt(ts, 0, sub) == Done(Field(Field(Field(Identity, "a"), "and"), "b"), 5)
  {
    DotPathsSwallow(sub, "a", "and", "b");
  }

  lemma DotPathsSwallow(sub: Nested, a: string, word: string, b: string)
    ensures var ts := [Dot, Ident(a), Ident(word), Dot, Ident(b), Eof];
            EndsOnce(ts) && ExprAt(ts, 0, sub) == Done(Field(Field(Field(Identity, a), word), b), 5)
  {
    var ts := [Dot, Ident(a), Ident(word), Dot, Ident(b), Eof];
    hide BracketAt, LevelAt, ExprAt;
    var path := Field(Field(Identity, a), word);
    var whole := Field(path, b);
    assert ChainRest(ts, 3, sub, path) == Done(path, 3);
    assert BaseAt(ts, 0, sub) == Done(path, 3) by {
      assert ChainRest(ts, 2, sub, Field(Identity, a)) == Done(path, 3);
      assert ChainRest(ts, 1, sub, Identity) == Done(path, 3);
    }
    assert PostfixRest(ts, 5, sub, whole) == Done(whole, 5);
    assert PostfixRest(ts, 3, sub, path) == Done(whole, 5);
    assert UnaryAt(ts, 0, sub) == Done(whole, 5);
    Climb(ts, 0, 5, sub, 0, whole);
    SingleStep(ts, 0, sub, whole, 5);
  }

  // ----- What a place reads binds tightly enough for it -----

  /** What is read at a place for expressions of rank min and above. */
  ghost function ReadAt(ts: seq<Token>, p: nat, sub: Nested, min: int): Parsed<Expr>
    requires EndsOnce(ts) && p < |ts| && COMMA <= min <= POSTFIX
  {
    if min < 0 then ExprAt(ts, p, sub)
    else if min <= UNARY_LEVEL then LevelAt(ts, p, sub, min)
    else PostfixAt(ts, p, sub)
  }

  lemma {:induction false} ChainBinds(ts: seq<Token>, p: nat, sub: Nested, base: Expr)
    requires EndsOnce(ts) && p < |ts| && Rank(base) >= POSTFIX
    ensures ChainRest(ts, p, sub, base).Done? ==> Rank(ChainRest(ts, p, sub, base).value) >= POSTFIX
    decreases |ts| - p
  {
    hide ExprAt;
    if IsName(ts[p]) {
      ChainBinds(ts, p + 1, sub, Field(base, NameText(ts[p])));
    } else if ts[p] == LBracket {
      var next := BracketAt(ts, p, sub, base);
      if next.Done? { ChainBinds(ts, next.pos, sub, next.value); }
    }
  }

  lemma {:induction false} PostfixBinds(ts: seq<Token>, p: nat, sub: Nested, base: Expr)
    requires EndsOnce(ts) && p < |ts| && Rank(base) >= POSTFIX
    ensures PostfixRest(ts, p, sub, base).Done? ==> Rank(PostfixRest(ts, p, sub, base).value) >= POSTFIX
    decreases |ts| - p
  {
    hide ExprAt;
    if ts[p] == Dot && IsName(ts[p + 1]) {
      PostfixBinds(ts, p + 2, sub, Field(base, NameText(ts[p + 1])));
    } else if ts[p] == LBracket {
      var next := BracketAt(ts, p, sub, base);
      if next.Done? { PostfixBinds(ts, next.pos, sub, next.value); }
    }
  }

  lemma WordBinds(ts: seq<Token>, p: nat, sub: Nested)
    requires EndsOnce(ts) && p < |ts| && ts[p].Ident?
    ensures WordAt(ts, p, sub).Done? ==> Rank(WordAt(ts, p, sub).value) == PRIMARY
  {
    hide ExprAt, BranchAt, ElseAt, ArgsAt;
    assert IfAt(ts, p, sub).Done? ==> IfAt(ts, p, sub).value.If?;
  }

  lemma BaseBinds(ts: seq<Token>, p: nat, sub: Nested)
    requires EndsOnce(ts) && p < |ts| && ts[p] != LParen
    ensures BaseAt(ts, p, sub).Done? ==> Rank(BaseAt(ts, p, sub).value) >= POSTFIX
  {
    hide ChainRest, ExprAt, PartsRest, ElemsRest, EntriesRest, WordAt;
    if ts[p] == Dot {
      ChainBinds(ts, p + 1, sub, Identity);
    } else if ts[p].Ident? {
      WordBinds(ts, p, sub);
    } else if ts[p] == LBracket {
      assert ArrayAt(ts, p, sub).Done? ==> ArrayAt(ts, p, sub).value.ArrayExpr?;
    } else if ts[p] == LBrace {
      assert ObjectAt(ts, p, sub).Done? ==> ObjectAt(ts, p, sub).value.ObjectExpr?;
    }
  }

  lemma {:induction false} RestBinds(ts: seq<Token>, p: nat, sub: Nested, level: nat, left: Expr)
    requires EndsOnce(ts) && p < |ts| && level < UNARY_LEVEL && Rank(left) >= level
    ensures LevelRest(ts, p, sub, level, left).Done? ==> Rank(LevelRest(ts, p, sub, level, left).value) >= level
    decreases |ts| - p
  {
    hide LevelAt;
    var joiner := JoinerAt(level, ts[p]);
    if joiner.Some? {
      var right := LevelAt(ts, p + 1, sub, level + 1);
      if right.Done? {
        RestBinds(ts, right.pos, sub, level, Join(joiner.value, left, right.value));
      }
    }
  }

  lemma LevelOpens(ts: seq<Token>, p: nat, sub: Nested, level: nat)
    requires EndsOnce(ts) && p < |ts| && level <= UNARY_LEVEL
    ensures level == UNARY_LEVEL ==>
              LevelAt(ts, p, sub, level) == UnaryAt(ts, p, sub)
              && (ts[p] != Ident("not") && ts[p] != Minus ==> UnaryAt(ts, p, sub) == PostfixAt(ts, p, sub))
              && (ts[p] == Ident("not") || ts[p] == Minus ==>
                    UnaryAt(ts, p, sub).Failed? || UnaryAt(ts, p, sub).value.Unary?)
    ensures level < UNARY_LEVEL ==>
              var left := LevelAt(ts, p, sub, level + 1);
              LevelAt(ts, p, sub, level) ==
              if left.Failed? then Failed(left.error) else LevelRest(ts, left.pos, sub, level, left.value)
  {
    hide LevelRest, PostfixAt;
  }

  /** Only a parenthesis lets a place read an expression that binds more loosely than the place asks for. */
  lemma {:induction false} PlaceBinds(ts: seq<Token>, p: nat, sub: Nested, min: nat)
    requires EndsOnce(ts) && p < |ts| && ts[p] != LParen && min <= POSTFIX
    ensures ReadAt(ts, p, sub, min).Done? ==> Rank(ReadAt(ts, p, sub, min).value) >= min
    decreases POSTFIX - min
  {
    hide BaseAt, PostfixRest, LevelRest;
    if min == POSTFIX {
      BaseBinds(ts, p, sub);
      var base := BaseAt(ts, p, sub);
      if base.Done? { PostfixBinds(ts, base.pos, sub, base.value); }
    } else {
      PlaceBinds(ts, p, sub, min + 1);
      LevelOpens(ts, p, sub, min);
      if min < UNARY_LEVEL {
        var left := LevelAt(ts, p, sub, min + 1);
        if left.Done? { RestBinds(ts, left.pos, sub, min, left.value); }
      }
    }
  }

  // ----- Every pair of parentheses is needed -----

  lemma {:induction false} RestFollows(ts: seq<Token>, p: nat, longer: Tape, rest: Tape) returns (q: nat)
    requires Extends(longer, rest) && From(ts, p, longer)
    ensures p < q <= |ts| && From(ts, q, rest)
    decreases longer
  {
    q := p + 1;
    if longer.tail != rest {
      q := RestFollows(ts, p + 1, longer.tail, rest);
    }
  }

  lemma {:induction false} FromLength(ts: seq<Token>, p: nat, tape: Tape)
    requires From(ts, p, tape)
    ensures p + Length(tape) == |ts|
    decreases tape
  {
    if tape.Cut? {
      FromLength(ts, p + 1, tape.tail);
    }
  }

  /** A place reads at least what every tighter place reads. */
  lemma {:induction false} LooserReadsOn(ts: seq<Token>, p: nat, sub: Nested, min: int)
    requires EndsOnce(ts) && p < |ts| && ts[p] != Ident("not") && ts[p] != Minus && COMMA <= min <= POSTFIX
    ensures ReadAt(ts, p, sub, min).Done? ==>
              PostfixAt(ts, p, sub).Done? && PostfixAt(ts, p, sub).pos <= ReadAt(ts, p, sub, min).pos
    decreases POSTFIX - min
  {
    hide PostfixAt, LevelRest, LevelAt, UnaryAt, CommaRest;
    if min < POSTFIX {
      LooserReadsOn(ts, p, sub, min + 1);
      if min >= 0 {
        LevelOpens(ts, p, sub, min);
      }
    }
  }

  /** An operand that opens with a parenthesis ends before a token that the place does not join. */
  lemma {:induction false} OperandEnds(
    ts: seq<Token>, p: nat, sub: Nested, left: Expr, level: nat, tight: bool, after: Tape, min: nat)
    returns (m: nat)
    requires EndsOnce(ts) && Understands(ts, sub) && Denotable(left) && level <= min <= POSTFIX && level <= UNARY_LEVEL
    requires From(ts, p, Show(left, level, tight, after)) && after.Cut? && Stops(after.head, min, tight)
    ensures p < |ts| && m < |ts| && From(ts, m, after)
    ensures ts[p] == LParen && ReadAt(ts, p, sub, min).Done? ==> ReadAt(ts, p, sub, min).pos <= m
    decreases left, 1
  {
    hide Show, Body, Denotable, From, LevelAt, PostfixAt, UnaryAt, BaseAt;
    Shown(left, level, tight, after);
    if Wrapped(left, level, tight) {
      m := ParseGroupBack(ts, p, sub, left, after);
      GroupStep(ts, p, m, sub, left);
      GroupEnds(ts, p, m, sub, left, min);
    } else if Rank(left) < min && left.Unary? {
      UnaryOpens(ts, p, left, tight, after);
      BodyExtends(left, tight, after);
      m := RestFollows(ts, p, Body(left, tight, after), after);
    } else if Rank(left) < min {
      m := StopsEarly(ts, p, sub, left, min, tight, after);
    } else {
      m := TermEnds(ts, p, sub, left, min, tight, after);
    }
    FromCut(ts, m, after);
  }

  lemma Shown(e: Expr, min: int, tight: bool, rest: Tape)
    ensures Show(e, min, tight, rest) ==
            if Wrapped(e, min, tight) then Cut(LParen, Body(e, false, Cut(RParen, rest))) else Body(e, tight, rest)
  {
    hide Body;
  }

  lemma GroupEnds(ts: seq<Token>, p: nat, m: nat, sub: Nested, e: Expr, min: nat)
    requires EndsOnce(ts) && p < |ts| && m < |ts| && min <= POSTFIX && ts[p] == LParen
    requires BaseAt(ts, p, sub) == UnaryAt(ts, p, sub) == Done(e, m) && Stops(ts[m], min, true)
    ensures ReadAt(ts, p, sub, min) == Done(e, m)
  {
    hide BaseAt, UnaryAt, LevelAt;
    if min == POSTFIX {
      assert PostfixRest(ts, m, sub, e) == Done(e, m);
    } else {
      Climb(ts, p, m, sub, min, e);
      ResumeEnds(ts, m, sub, min, e);
    }
  }

  lemma ResumeEnds(ts: seq<Token>, m: nat, sub: Nested, level: nat, e: Expr)
    requires EndsOnce(ts) && m < |ts| && level <= UNARY_LEVEL && JoinLevel(ts[m]) < level
    ensures Resume(ts, m, sub, level, e) == Done(e, m)
  {
    JoinerAtItsLevel(level, ts[m]);
  }

  lemma TermEnds(ts: seq<Token>, p: nat, sub: Nested, e: Expr, min: nat, tight: bool, after: Tape) returns (m: nat)
    requires EndsOnce(ts) && Understands(ts, sub) && Denotable(e) && min <= Rank(e) && min <= POSTFIX && !Wrapped(e, min, tight)
    requires From(ts, p, Body(e, tight, after)) && after.Cut? && Stops(after.head, min, tight)
    ensures p < |ts| && m < |ts| && From(ts, m, after) && ReadAt(ts, p, sub, min) == Done(e, m)
  {
    hide Show, Body, Denotable, From, LevelAt, PostfixAt;
    Shown(e, min, tight, after);
    if min == POSTFIX {
      TermShown(e, UNARY_LEVEL, tight, after);
      m := ParsePostfixBack(ts, p, sub, e, after);
      assert PostfixRest(ts, m, sub, e) == Done(e, m);
    } else {
      m := ParseLevelBack(ts, p, sub, e, min, tight, after);
      ResumeEnds(ts, m, sub, min, e);
    }
    FromCut(ts, m, after);
  }

  /** The first operand of a stream, a pipe or a binary operator, and how it is printed. */
  function First(e: Expr): Expr
    requires Denotable(e) && Rank(e) < UNARY_LEVEL
  {
    if e.Stream? then e.elems[0] else e.left
  }

  function FirstLevel(e: Expr): nat
    requires Rank(e) < UNARY_LEVEL
  {
    if e.Binary? then OpLevel(e.op) else 0
  }

  predicate FirstTight(e: Expr) {
    e.Binary? && OpToken(e.op).Ident?
  }

  function Others(e: Expr, tight: bool, rest: Tape): Tape
    requires Denotable(e) && Rank(e) < UNARY_LEVEL
  {
    match e
    case Stream(elems) => Cut(Comma, ShowAll(elems[1..], tight, rest))
    case Pipe(_, right) => Cut(Bar, Show(right, 1, tight, rest))
    case Binary(op, _, right) => Cut(OpToken(op), Show(right, OpLevel(op) + 1, tight, rest))
  }

  lemma OperatorShown(e: Expr, tight: bool, rest: Tape, min: int)
    requires Denotable(e) && Rank(e) < UNARY_LEVEL && Rank(e) < min
    ensures Denotable(First(e)) && First(e) < e && FirstLevel(e) <= min && FirstLevel(e) <= UNARY_LEVEL
    ensures Body(e, tight, rest) == Show(First(e), FirstLevel(e), FirstTight(e), Others(e, tight, rest))
    ensures Others(e, tight, rest).Cut? && Stops(Others(e, tight, rest).head, min, FirstTight(e))
  {
    hide Show;
    match e
    case Stream(elems) => AllShown(elems, tight, rest);
    case Binary(op, _, _) => OpStops(op);
    case Pipe(_, _) => BarStops();
  }

  lemma OthersExtend(e: Expr, tight: bool, rest: Tape)
    requires Denotable(e) && Rank(e) < UNARY_LEVEL
    ensures Extends(Others(e, tight, rest), rest)
  {
    hide Extends, Show, ShowAll;
    match e
    case Stream(elems) =>
      AllShown(elems, tight, rest);
      AllExtend(elems[1..], tight, rest);
      Prefixed(Comma, ShowAll(elems[1..], tight, rest), rest);
    case Pipe(_, right) =>
      ShowExtends(right, 1, tight, rest);
      Prefixed(Bar, Show(right, 1, tight, rest), rest);
    case Binary(op, _, right) =>
      ShowExtends(right, OpLevel(op) + 1, tight, rest);
      Prefixed(OpToken(op), Show(right, OpLevel(op) + 1, tight, rest), rest);
  }

  /** A bare operator whose text opens with a parenthesis is cut short where the place does not join its operator. */
  lemma {:induction false} StopsEarly(ts: seq<Token>, p: nat, sub: Nested, e: Expr, min: nat, tight: bool, rest: Tape)
    returns (q: nat)
    requires EndsOnce(ts) && Understands(ts, sub) && Denotable(e) && Rank(e) < min <= POSTFIX && Rank(e) < UNARY_LEVEL
    requires From(ts, p, Body(e, tight, rest)) && rest.Cut?
    ensures p < |ts| && q < |ts| && From(ts, q, rest)
    ensures ts[p] == LParen && ReadAt(ts, p, sub, min).Done? ==> ReadAt(ts, p, sub, min).pos < q
    decreases e, 0
  {
    hide *;
    OperatorShown(e, tight, rest, min);
    OthersExtend(e, tight, rest);
    var others := Others(e, tight, rest);
    var m := OperandEnds(ts, p, sub, First(e), FirstLevel(e), FirstTight(e), others, min);
    q := RestFollows(ts, m, others, rest);
    FromCut(ts, q, rest);
  }

  lemma UnaryOpens(ts: seq<Token>, p: nat, e: Expr, tight: bool, rest: Tape)
    requires e.Unary? && From(ts, p, Body(e, tight, rest))
    ensures p < |ts| && ts[p] != LParen
  {
    hide Show;
    FromCut(ts, p, Body(e, tight, rest));
  }

  /**
   * Without the parentheses that Show puts around a tree, the place does not read that tree there:
   * it stops short of the end, reads past it, reads another tree or fails.
   */
  lemma ParenthesesAreNeeded(
    ts: seq<Token>, p: nat, q: nat, sub: Nested, e: Expr, min: int, tight: bool, rest: Tape)
    requires EndsOnce(ts) && Understands(ts, sub) && Denotable(e) && COMMA <= min <= POSTFIX && Wrapped(e, min, tight)
    requires rest.Cut? && (tight ==> rest.head.Ident?)
    requires From(ts, p, Body(e, tight, rest)) && From(ts, q, rest)
    ensures p < |ts| && ReadAt(ts, p, sub, min) != Done(e, q)
  {
    hide Body, Denotable, From, ReadAt, Glues, Extends;
    BodyExtends(e, tight, rest);
    var end := RestFollows(ts, p, Body(e, tight, rest), rest);
    FromLength(ts, q, rest);
    FromLength(ts, end, rest);
    if Rank(e) >= min {
      GlueReadsOn(ts, p, q, sub, e, min, tight, rest);
    } else if ts[p] != LParen {
      PlaceBinds(ts, p, sub, min);
    } else if Rank(e) < UNARY_LEVEL {
      end := StopsEarly(ts, p, sub, e, min, tight, rest);
      FromLength(ts, end, rest);
    } else {
      UnaryOpens(ts, p, e, tight, rest);
    }
  }

  lemma GlueReadsOn(
    ts: seq<Token>, p: nat, q: nat, sub: Nested, e: Expr, min: int, tight: bool, rest: Tape)
    requires EndsOnce(ts) && Understands(ts, sub) && Denotable(e) && COMMA <= min <= POSTFIX && Glues(e)
    requires rest.Cut? && rest.head.Ident? && From(ts, p, Body(e, tight, rest)) && From(ts, q, rest)
    ensures p < |ts| && ReadAt(ts, p, sub, min) != Done(e, q)
  {
    hide Denotable, From, ReadAt, PostfixAt, BaseAt, ChainRest;
    GlueShown(e, tight, rest);
    FromCut(ts, p, Body(e, tight, rest));
    var m := WordsAfterPaths(ts, p, sub, e, rest.head.name, rest.tail);
    FromCut(ts, m, rest);
    FromLength(ts, m, rest);
    FromLength(ts, q, rest);
    LooserReadsOn(ts, p, sub, min);
  }

  lemma {:induction false} GlueShown(e: Expr, tight: bool, rest: Tape)
    requires Glues(e) && Denotable(e)
    ensures Rank(e) >= POSTFIX && Body(e, tight, rest) == Body(e, false, rest)
    ensures Body(e, tight, rest).Cut? && Body(e, tight, rest).head == Dot
  {
    if e.Index? || e.Iterate? {
      GlueShown(e.base, false, Suffix(e, rest));
    }
  }
}
