/** The parser returns every printed tree unchanged. */
module Precedence {
  import opened Wrappers
  import opened Syntax
  import opened Grammar
  import opened Printing

  // ----- Interpolated sources -----

  /** The nested parser reads the text of a tree as that tree. */
  ghost predicate Understood(source: string, sub: Nested) {
    forall e | Writable(e) && TextOf(e) == source :: sub(source) == Ok(e)
  }

  ghost predicate Understands(ts: seq<Token>, sub: Nested) {
    forall i | 0 <= i < |ts| && ts[i].Interp? :: Understood(ts[i].source, sub)
  }

  // ----- What may follow -----

  /** The level of the binary operator t stands for, if any. */
  function JoinLevel(t: Token): int {
    match t
    case Bar => 0
    case Ident(name) => if name == "or" then 1 else if name == "and" then 2 else -1
    case EqEq => 3 case NotEq => 3 case Less => 3 case LessEq => 3 case Greater => 3 case GreaterEq => 3
    case Plus => 4 case Minus => 4 case Alternative => 4
    case Star => 5 case Slash => 5 case Percent => 5
    case _ => -1
  }

  predicate Stops(t: Token, level: int, tight: bool) {
    t != Dot && t != LBracket && t != LParen && !t.Quote? && !t.Interp? && (t.Ident? ==> tight) && JoinLevel(t) < level
  }

  lemma JoinerAtItsLevel(level: nat, t: Token)
    ensures JoinerAt(level, t).Some? <==> JoinLevel(t) == level
  {
  }

  lemma OpStops(op: BinOp)
    ensures Stops(OpToken(op), OpLevel(op) + 1, OpToken(op).Ident?)
    ensures JoinerAt(OpLevel(op), OpToken(op)) == Some(BinaryJoin(op))
  {
  }

  lemma Next(ts: seq<Token>, p: nat, t: Token, rest: Tape)
    requires From(ts, p, Cut(t, rest))
    ensures p < |ts| && ts[p] == t && From(ts, p + 1, rest)
  {
  }

  lemma FromCut(ts: seq<Token>, p: nat, tape: Tape)
    requires tape.Cut?
    ensures From(ts, p, tape) <==> p < |ts| && ts[p] == tape.head && From(ts, p + 1, tape.tail)
  {
  }

  // ----- What Show prints -----

  lemma TopShown(e: Expr, tight: bool, rest: Tape)
    requires Denotable(e)
    ensures e.Stream? ==> Show(e, COMMA, tight, rest) == ShowAll(e.elems, tight, rest) && AllDenotable(e.elems) && |e.elems| >= 2
    ensures !e.Stream? ==> Show(e, COMMA, tight, rest) == Show(e, 0, tight, rest) && Wrapped(e, 0, tight) == Wrapped(e, COMMA, tight)
  {
  }

  lemma LevelShown(e: Expr, level: nat, tight: bool, rest: Tape)
    requires level <= UNARY_LEVEL && rest.Cut? && Stops(rest.head, level + 1, tight)
    ensures Stops(rest.head, level + 1, true) && Stops(rest.head, level + 2, tight) && JoinLevel(rest.head) <= level
    ensures Wrapped(e, level, tight) ==> Show(e, level, tight, rest) == Cut(LParen, Body(e, false, Cut(RParen, rest)))
    ensures !Wrapped(e, level, tight) ==> Show(e, level, tight, rest) == Body(e, tight, rest) && level <= Rank(e)
    ensures !Wrapped(e, level, tight) && level < Rank(e) ==>
              Show(e, level + 1, tight, rest) == Show(e, level, tight, rest) && !Wrapped(e, level + 1, tight)
    ensures level < POSTFIX == UNARY_LEVEL + 1
  {
  }

  lemma ChainShown(e: Expr, rest: Tape)
    requires Glues(e) && Denotable(e)
    ensures e.Identity? ==> Body(e, false, rest) == Cut(Dot, rest)
    ensures e.Field? ==> Body(e, false, rest) == Cut(Dot, Cut(Ident(e.name), rest)) && e.base.Identity?
    ensures !e.Identity? && !e.Field? ==>
              && (e.Index? || e.Iterate?) && Denotable(e.base) && Glues(e.base)
              && Suffix(e, rest).Cut? && Suffix(e, rest).head == LBracket
              && Body(e, false, rest) == Body(e.base, false, Suffix(e, rest))
  {
  }

  lemma TermShown(e: Expr, level: nat, tight: bool, rest: Tape)
    requires Rank(e) >= POSTFIX && level <= UNARY_LEVEL && !Wrapped(e, level, tight)
    requires rest.Cut? && Stops(rest.head, level + 1, tight)
    ensures Body(e, tight, rest) == Body(e, false, rest) == Show(e, POSTFIX, false, rest)
    ensures Calm(rest.head) && (Glues(e) ==> !rest.head.Ident? && rest.head != LBracket)
    ensures rest.head != Dot && rest.head != LBracket && JoinLevel(rest.head) <= level
  {
  }

  lemma GroupShown(e: Expr, rest: Tape)
    ensures Show(e, COMMA, false, rest) == Body(e, false, rest) && !Wrapped(e, COMMA, false) && Stops(RParen, 0, false)
  {
  }

  lemma SuffixShown(e: Expr, rest: Tape)
    requires Denotable(e) && Rank(e) == POSTFIX && !Glues(e)
    ensures e.Field? || e.Index? || e.Iterate?
    ensures Denotable(e.base) && Body(e, false, rest) == Show(e.base, POSTFIX, false, Suffix(e, rest))
    ensures var s := Suffix(e, rest); s.Cut? && (s.head == Dot || (s.head == LBracket && !Glues(e.base)))
    ensures e.Field? ==> Suffix(e, rest) == Cut(Dot, Cut(Ident(e.name), rest))
    ensures !e.Field? ==> Suffix(e, rest).head == LBracket
  {
  }

  lemma PrimaryShown(e: Expr, rest: Tape)
    requires Denotable(e) && Rank(e) == PRIMARY && !e.Identity? && rest.Cut? && Calm(rest.head)
    ensures e.Variable? || e.Literal? || e.Call? || e.StrExpr? || e.ArrayExpr? || e.ObjectExpr? || e.If?
    ensures !rest.head.Quote? && !rest.head.Interp? && rest.head != LParen
    ensures e.Variable? || e.Literal? || (e.Call? && e.args == []) ==>
              var word := Body(e, false, rest); word.Cut? && word.tail == rest
    ensures e.StrExpr? ==> (Body(e, false, rest) == ShowParts(e.parts, rest) && e.parts != []
                            && PartsWritable(e.parts))
    ensures e.ArrayExpr? ==> (Body(e, false, rest) == Cut(LBracket, ShowAll(e.elems, false, Cut(RBracket, rest)))
                              && AllDenotable(e.elems) && NoStreams(e.elems))
    ensures e.ObjectExpr? ==> (Body(e, false, rest) == Cut(LBrace, ShowEntries(e.entries, Cut(RBrace, rest)))
                               && EntriesDenotable(e.entries))
    ensures e.If? ==> (Denotable(e.cond) && Denotable(e.thn) && Denotable(e.els)
                       && Body(e, false, rest) ==
                          Cut(Ident("if"), Show(e.cond, COMMA, true, Cut(Ident("then"), Show(e.thn, COMMA, true,
                            Cut(Ident("else"), Show(e.els, COMMA, true, Cut(Ident("end"), rest))))))))
    ensures e.Call? ==> AllDenotable(e.args) && !Reserved(e.name)
    ensures e.Call? && e.args != [] ==>
              Body(e, false, rest) == Cut(Ident(e.name), Cut(LParen, ShowAll(e.args, false, Cut(RParen, rest))))
  {
  }

  lemma IndexShown(e: Expr, rest: Tape)
    requires e.Index? && Denotable(e)
    ensures Denotable(e.index) && Stops(RBracket, 0, false)
    ensures Suffix(e, rest) == Cut(LBracket, Show(e.index, COMMA, false, Cut(RBracket, rest)))
  {
  }

  lemma IterateShown(e: Expr, rest: Tape)
    requires e.Iterate?
    ensures Suffix(e, rest) == Cut(LBracket, Cut(RBracket, rest))
  {
  }

  lemma AllShown(es: seq<Expr>, tight: bool, rest: Tape)
    requires es != [] && AllDenotable(es)
    ensures Denotable(es[0]) && AllDenotable(es[1..]) && (NoStreams(es) ==> !es[0].Stream? && NoStreams(es[1..]))
    ensures Stops(Comma, 0, false) && Stops(RParen, 0, false) && Stops(RBracket, 0, false)
    ensures ShowAll(es, tight, rest) ==
            if |es| == 1 then Show(es[0], 0, tight, rest)
            else Show(es[0], 0, false, Cut(Comma, ShowAll(es[1..], tight, rest)))
  {
  }

  lemma EntriesShown(es: seq<Entry>, rest: Tape)
    requires es != [] && EntriesDenotable(es)
    ensures DenotableEntry(es[0]) && EntriesDenotable(es[1..])
    ensures ShowEntries(es, rest) ==
            if |es| == 1 then ShowEntry(es[0], rest)
            else ShowEntry(es[0], Cut(Comma, ShowEntries(es[1..], rest)))
  {
  }

  lemma EmptyShown(rest: Tape)
    ensures ShowAll([], false, rest) == rest && ShowEntries([], rest) == rest
  {
  }

  lemma KeywordsStop()
    ensures Stops(Ident("then"), 0, true) && Stops(Ident("else"), 0, true) && Stops(Ident("end"), 0, true)
  {
  }

  lemma NotName(t: Token)
    requires !t.Ident? && Calm(t)
    ensures !IsName(t)
  {
  }

  lemma GluesIdentity(e: Expr)
    ensures e.Identity? ==> Glues(e)
  {
  }

  lemma RankOfPostfix(e: Expr)
    ensures POSTFIX <= Rank(e) && Rank(e) != PRIMARY ==> Rank(e) == POSTFIX
  {
  }

  // ----- Steps of the parser -----

  /** How parsing at a level goes on once it has read e up to q. */
  ghost function Resume(ts: seq<Token>, q: nat, sub: Nested, level: nat, e: Expr): Parsed<Expr>
    requires EndsOnce(ts) && q < |ts| && level <= UNARY_LEVEL
  {
    if level == UNARY_LEVEL then Done(e, q) else LevelRest(ts, q, sub, level, e)
  }

  lemma {:induction false} Climb(ts: seq<Token>, p: nat, q: nat, sub: Nested, level: nat, e: Expr)
    requires EndsOnce(ts) && p < |ts| && q < |ts| && level <= UNARY_LEVEL
    requires UnaryAt(ts, p, sub) == Done(e, q)
    requires JoinLevel(ts[q]) <= level
    ensures LevelAt(ts, p, sub, level) == Resume(ts, q, sub, level, e)
    decreases UNARY_LEVEL - level
  {
    if level < UNARY_LEVEL {
      Climb(ts, p, q, sub, level + 1, e);
      LevelStep(ts, p, q, sub, level, e);
    }
  }

  lemma InfixStep(ts: seq<Token>, p: nat, m: nat, q: nat, sub: Nested, left: Expr, right: Expr, level: nat, joiner: Joiner)
    requires EndsOnce(ts) && level < UNARY_LEVEL && p < |ts| && m < |ts| && q < |ts|
    requires LevelAt(ts, p, sub, level) == LevelRest(ts, m, sub, level, left)
    requires JoinerAt(level, ts[m]) == Some(joiner) && ts[m] != Eof
    requires LevelAt(ts, m + 1, sub, level + 1) == Resume(ts, q, sub, level + 1, right)
    requires JoinLevel(ts[q]) <= level
    ensures LevelAt(ts, p, sub, level) == LevelRest(ts, q, sub, level, Join(joiner, left, right))
  {
    JoinerAtItsLevel(level + 1, ts[q]);
  }

  lemma GroupStep(ts: seq<Token>, p: nat, q: nat, sub: Nested, e: Expr)
    requires EndsOnce(ts) && p < |ts| && q < |ts| && ts[p] == LParen && ts[q] != Dot && ts[q] != LBracket
    requires BaseAt(ts, p, sub) == Done(e, q)
    ensures UnaryAt(ts, p, sub) == Done(e, q)
  {
    assert PostfixRest(ts, q, sub, e) == Done(e, q);
  }

  lemma TermStep(ts: seq<Token>, p: nat, q: nat, sub: Nested, e: Expr)
    requires EndsOnce(ts) && p < |ts| && q < |ts| && ts[q] != Dot && ts[q] != LBracket
    requires ts[p] != Ident("not") && ts[p] != Minus && PostfixAt(ts, p, sub) == PostfixRest(ts, q, sub, e)
    ensures UnaryAt(ts, p, sub) == Done(e, q)
  {
    assert PostfixRest(ts, q, sub, e) == Done(e, q);
  }

  lemma WordStep(ts: seq<Token>, p: nat, sub: Nested, e: Expr, rest: Tape)
    requires EndsOnce(ts) && Denotable(e) && p + 1 < |ts| && ts[p + 1] != LParen
    requires e.Variable? || e.Literal? || (e.Call? && e.args == [])
    requires Body(e, false, rest) == Cut(ts[p], rest)
    ensures BaseAt(ts, p, sub) == Done(e, p + 1)
  {
  }

  lemma StringStep(ts: seq<Token>, p: nat, q: nat, sub: Nested, e: Expr)
    requires EndsOnce(ts) && e.StrExpr? && p < |ts| && (ts[p].Quote? || ts[p].Interp?) && PartsRest(ts, p, sub, []) == Done([] + e.parts, q)
    ensures BaseAt(ts, p, sub) == Done(e, q)
  {
    assert [] + e.parts == e.parts;
  }

  lemma PrimaryStep(ts: seq<Token>, p: nat, q: nat, sub: Nested, e: Expr)
    requires EndsOnce(ts) && p < |ts| && q < |ts| && BaseAt(ts, p, sub) == Done(e, q)
    ensures PostfixAt(ts, p, sub) == PostfixRest(ts, q, sub, e)
  {
  }

  lemma ChainStep(ts: seq<Token>, p: nat, q: nat, sub: Nested, e: Expr)
    requires EndsOnce(ts) && p < |ts| && q < |ts| && !IsName(ts[q]) && ts[q] != LBracket
    requires BaseAt(ts, p, sub) == ChainRest(ts, q, sub, e)
    ensures PostfixAt(ts, p, sub) == PostfixRest(ts, q, sub, e)
  {
    assert ChainRest(ts, q, sub, e) == Done(e, q);
  }

  lemma DotStep(ts: seq<Token>, p: nat, sub: Nested)
    requires EndsOnce(ts) && p + 1 < |ts| && ts[p] == Dot
    ensures BaseAt(ts, p, sub) == ChainRest(ts, p + 1, sub, Identity)
  {
  }

  lemma DotNameStep(ts: seq<Token>, p: nat, sub: Nested, e: Expr)
    requires EndsOnce(ts) && e.Field? && e.base.Identity? && p + 2 < |ts| && ts[p + 1] == Ident(e.name)
    ensures ChainRest(ts, p + 1, sub, Identity) == ChainRest(ts, p + 2, sub, e)
  {
  }

  lemma FieldStep(ts: seq<Token>, m: nat, sub: Nested, e: Expr)
    requires EndsOnce(ts) && e.Field? && m + 2 < |ts| && ts[m] == Dot && ts[m + 1] == Ident(e.name)
    ensures PostfixRest(ts, m, sub, e.base) == PostfixRest(ts, m + 2, sub, e)
  {
  }

  lemma BracketStep(ts: seq<Token>, m: nat, q: nat, sub: Nested, e: Expr)
    requires EndsOnce(ts) && (e.Index? || e.Iterate?) && m < |ts| && q < |ts| && ts[m] == LBracket
    requires BracketAt(ts, m, sub, e.base) == Done(e, q)
    ensures PostfixRest(ts, m, sub, e.base) == PostfixRest(ts, q, sub, e)
  {
  }

  lemma ChainBracketStep(ts: seq<Token>, m: nat, q: nat, sub: Nested, e: Expr)
    requires EndsOnce(ts) && (e.Index? || e.Iterate?) && m < |ts| && q < |ts| && ts[m] == LBracket
    requires BracketAt(ts, m, sub, e.base) == Done(e, q)
    ensures ChainRest(ts, m, sub, e.base) == ChainRest(ts, q, sub, e)
  {
  }

  lemma IterateStep(ts: seq<Token>, p: nat, sub: Nested, e: Expr)
    requires EndsOnce(ts) && e.Iterate? && p + 1 < |ts| && ts[p] == LBracket && ts[p + 1] == RBracket
    ensures BracketAt(ts, p, sub, e.base) == Done(e, p + 2)
  {
  }

  lemma IndexStep(ts: seq<Token>, p: nat, m: nat, sub: Nested, e: Expr)
    requires EndsOnce(ts) && e.Index? && p + 1 < |ts| && m < |ts|
    requires ts[p] == LBracket && ts[p + 1] != RBracket && ts[m] == RBracket && ExprAt(ts, p + 1, sub) == Done(e.index, m)
    ensures BracketAt(ts, p, sub, e.base) == Done(e, m + 1)
  {
  }

  lemma ParenStep(ts: seq<Token>, p: nat, m: nat, sub: Nested, e: Expr)
    requires EndsOnce(ts) && p + 1 < |ts| && m < |ts|
    requires ts[p] == LParen && ts[m] == RParen && ExprAt(ts, p + 1, sub) == Done(e, m)
    ensures BaseAt(ts, p, sub) == Done(e, m + 1)
  {
  }

  lemma EmptyArrayStep(ts: seq<Token>, p: nat, sub: Nested)
    requires EndsOnce(ts) && p + 1 < |ts| && ts[p] == LBracket && ts[p + 1] == RBracket
    ensures BaseAt(ts, p, sub) == Done(ArrayExpr([]), p + 2)
  {
  }

  lemma ArrayStep(ts: seq<Token>, p: nat, m: nat, sub: Nested, e: Expr)
    requires EndsOnce(ts) && e.ArrayExpr? && p + 1 < |ts| && m < |ts|
    requires ts[p] == LBracket && ts[p + 1] != RBracket && ts[m] == RBracket
    requires ElemsRest(ts, p + 1, sub, []) == Done([] + e.elems, m)
    ensures BaseAt(ts, p, sub) == Done(e, m + 1)
  {
    assert [] + e.elems == e.elems;
  }

  lemma EmptyObjectStep(ts: seq<Token>, p: nat, sub: Nested)
    requires EndsOnce(ts) && p + 1 < |ts| && ts[p] == LBrace && ts[p + 1] == RBrace
    ensures BaseAt(ts, p, sub) == Done(ObjectExpr([]), p + 2)
  {
  }

  lemma ObjectStep(ts: seq<Token>, p: nat, m: nat, sub: Nested, e: Expr)
    requires EndsOnce(ts) && e.ObjectExpr? && p + 1 < |ts| && m < |ts|
    requires ts[p] == LBrace && ts[p + 1] != RBrace && ts[m] == RBrace
    requires EntriesRest(ts, p + 1, sub, []) == Done([] + e.entries, m)
    ensures BaseAt(ts, p, sub) == Done(e, m + 1)
  {
    assert [] + e.entries == e.entries;
  }

  lemma IfStep(ts: seq<Token>, p: nat, c: nat, t: nat, f: nat, sub: Nested, e: Expr)
    requires EndsOnce(ts) && e.If? && p + 1 < |ts| && c + 1 < |ts| && t + 1 < |ts| && f < |ts|
    requires ts[p] == Ident("if") && ts[c] == Ident("then") && ts[t] == Ident("else") && ts[f] == Ident("end")
    requires ExprAt(ts, p + 1, sub) == Done(e.cond, c)
    requires ExprAt(ts, c + 1, sub) == Done(e.thn, t)
    requires ExprAt(ts, t + 1, sub) == Done(e.els, f)
    ensures BaseAt(ts, p, sub) == Done(e, f + 1)
  {
    hide ExprAt, LevelAt, CommaRest;
    assert BranchAt(ts, p + 1, sub) == Done((e.cond, e.thn), t);
    hide BranchAt;
    assert ElseAt(ts, t, sub) == Done(e.els, f);
    hide ElseAt;
    assert IfAt(ts, p, sub) == Done(e, f + 1);
    hide IfAt;
    assert WordAt(ts, p, sub) == IfAt(ts, p, sub);
  }

  lemma CallStep(ts: seq<Token>, p: nat, q: nat, sub: Nested, e: Expr)
    requires EndsOnce(ts) && e.Call? && !Reserved(e.name) && p + 2 < |ts| && q < |ts|
    requires ts[p] == Ident(e.name) && ts[p + 1] == LParen && ts[p + 2] != RParen && ts[q] == RParen
    requires ArgsRest(ts, p + 2, sub, []) == Done([] + e.args, q)
    ensures BaseAt(ts, p, sub) == Done(e, q + 1)
  {
    assert [] + e.args == e.args;
    assert WordAt(ts, p, sub) == Done(e, q + 1);
  }

  lemma LevelStep(ts: seq<Token>, p: nat, q: nat, sub: Nested, level: nat, e: Expr)
    requires EndsOnce(ts) && p < |ts| && q < |ts| && level < UNARY_LEVEL && JoinLevel(ts[q]) <= level
    requires LevelAt(ts, p, sub, level + 1) == Resume(ts, q, sub, level + 1, e)
    ensures LevelAt(ts, p, sub, level) == Resume(ts, q, sub, level, e)
  {
    JoinerAtItsLevel(level + 1, ts[q]);
  }

  lemma CommaStep(ts: seq<Token>, q: nat, sub: Nested, acc: seq<Expr>)
    requires EndsOnce(ts) && q < |ts| && acc != []
    ensures CommaRest(ts, q, sub, acc) ==
            if ts[q] != Comma then Done(acc, q)
            else
              var next := LevelAt(ts, q + 1, sub, 0);
              if next.Failed? then Failed(next.error) else CommaRest(ts, next.pos, sub, acc + [next.value])
  {
    hide LevelAt;
  }

  lemma ArgsStep(ts: seq<Token>, p: nat, q: nat, sub: Nested, e: Expr, acc: seq<Expr>)
    requires EndsOnce(ts) && p < |ts| && q < |ts| && LevelAt(ts, p, sub, 0) == Done(e, q)
    ensures ArgsRest(ts, p, sub, acc) ==
            if ts[q] == Comma || ts[q] == Semicolon then ArgsRest(ts, q + 1, sub, acc + [e]) else Done(acc + [e], q)
  {
    hide LevelAt;
  }

  lemma ElemsStep(ts: seq<Token>, p: nat, q: nat, sub: Nested, e: Expr, acc: seq<Expr>)
    requires EndsOnce(ts) && p < |ts| && q < |ts| && !e.Stream? && LevelAt(ts, p, sub, 0) == Done(e, q)
    ensures ElemsRest(ts, p, sub, acc) ==
            if ts[q] == Comma then ElemsRest(ts, q + 1, sub, acc + [e]) else Done(acc + [e], q)
  {
    hide LevelAt;
  }

  lemma EntriesStep(ts: seq<Token>, p: nat, q: nat, sub: Nested, entry: Entry, acc: seq<Entry>)
    requires EndsOnce(ts) && p < |ts| && q < |ts| && EntryAt(ts, p, sub) == Done(entry, q)
    ensures EntriesRest(ts, p, sub, acc) ==
            if ts[q] == Comma then EntriesRest(ts, q + 1, sub, acc + [entry]) else Done(acc + [entry], q)
  {
    hide EntryAt;
  }

  lemma SingleStep(ts: seq<Token>, p: nat, sub: Nested, e: Expr, q: nat)
    requires EndsOnce(ts) && p < |ts| && q < |ts| && ts[q] != Comma
    requires LevelAt(ts, p, sub, 0) == Done(e, q)
    ensures ExprAt(ts, p, sub) == Done(e, q)
  {
    assert CommaRest(ts, q, sub, [e]) == Done([e], q);
  }

  lemma StreamStep(ts: seq<Token>, p: nat, sub: Nested, es: seq<Expr>, q: nat)
    requires EndsOnce(ts) && p < |ts| && LevelAt(ts, p, sub, 0).Done? && |es| >= 2
    requires var first := LevelAt(ts, p, sub, 0);
             CommaRest(ts, first.pos, sub, [] + [first.value]) == Done([] + es, q)
    ensures ExprAt(ts, p, sub) == Done(Stream(es), q)
  {
    var first := LevelAt(ts, p, sub, 0);
    assert [] + [first.value] == [first.value] && [] + es == es;
  }

  // ----- Parsing printed trees back -----

  predicate Opens(t: Token) {
    t != RBracket && t != RParen && t != Eof
  }

  /** Printed trees start with a token that no enclosing production could mistake for its own. */
  lemma {:induction false} FirstToken(e: Expr, min: int, tight: bool, rest: Tape)
    requires Denotable(e)
    ensures Show(e, min, tight, rest).Cut?
    ensures var t := Show(e, min, tight, rest).head; t != RBracket && t != RParen && t != Eof
    ensures min >= POSTFIX ==>
              Show(e, min, tight, rest).head != Ident("not") && Show(e, min, tight, rest).head != Minus
    decreases e, 1
  {
    hide Body, Denotable, Glues;
    if !Wrapped(e, min, tight) {
      FirstOfBody(e, tight, rest);
    }
  }

  lemma {:induction false} FirstOfBody(e: Expr, tight: bool, rest: Tape)
    requires Denotable(e)
    ensures Body(e, tight, rest).Cut? && Opens(Body(e, tight, rest).head)
    ensures Rank(e) >= POSTFIX ==> Body(e, tight, rest).head != Ident("not") && Body(e, tight, rest).head != Minus
    decreases e, 0
  {
    hide Show, ShowAll, ShowEntries, ShowParts, TextOf, Writable, PartToken, AllDenotable, PartsWritable, EntriesDenotable;
    match e
    case Field(base, name) =>
      if !base.Identity? { FirstToken(base, POSTFIX, false, Cut(Dot, Cut(Ident(name), rest))); }
    case Index(base, index) =>
      FirstToken(base, POSTFIX, false, Cut(LBracket, Show(index, COMMA, false, Cut(RBracket, rest))));
    case Iterate(base) => FirstToken(base, POSTFIX, false, Cut(LBracket, Cut(RBracket, rest)));
    case Binary(op, left, right) =>
      FirstToken(left, OpLevel(op), OpToken(op).Ident?, Cut(OpToken(op), Show(right, OpLevel(op) + 1, tight, rest)));
    case Pipe(left, right) => FirstToken(left, 0, false, Cut(Bar, Show(right, 1, tight, rest)));
    case Stream(elems) =>
      AllShown(elems, tight, rest);
      FirstToken(elems[0], 0, false, Cut(Comma, ShowAll(elems[1..], tight, rest)));
    case StrExpr(parts) => PartsShown(parts, rest);
    case _ =>
  }

  lemma {:induction false} PartsShown(parts: seq<InterpPart>, rest: Tape)
    requires parts != []
    ensures ShowParts(parts, rest) == Cut(PartToken(parts[0]), ShowParts(parts[1..], rest))
  {
    hide PartToken;
  }

  lemma {:induction false} PartStep(ts: seq<Token>, p: nat, sub: Nested, part: InterpPart, acc: seq<InterpPart>)
    requires EndsOnce(ts) && Understands(ts, sub) && PartWritable(part) && p < |ts| && ts[p] == PartToken(part)
    ensures p + 1 < |ts| && PartsRest(ts, p, sub, acc) == PartsRest(ts, p + 1, sub, acc + [part])
  {
    hide TextOf, Writable;
    if part.ExprPart? {
      assert Understood(ts[p].source, sub);
    }
  }

  lemma {:induction false} ParseExprBack(ts: seq<Token>, p: nat, sub: Nested, e: Expr, tight: bool, rest: Tape) returns (q: nat)
    requires EndsOnce(ts) && Understands(ts, sub) && Denotable(e) && From(ts, p, Show(e, COMMA, tight, rest))
    requires rest.Cut? && Stops(rest.head, 0, tight) && rest.head != Comma
    ensures p < |ts| && q < |ts| && ts[q] == rest.head && From(ts, q + 1, rest.tail)
    ensures ExprAt(ts, p, sub) == Done(e, q)
    decreases e, Wrapped(e, COMMA, tight), 20
  {
    hide *;
    TopShown(e, tight, rest);
    if e.Stream? {
      q := ParseCommaBack(ts, p, sub, e.elems, tight, rest, []);
      StreamStep(ts, p, sub, e.elems, q);
    } else {
      q := ParseItemBack(ts, p, sub, e, tight, rest);
      SingleStep(ts, p, sub, e, q);
    }
  }

  lemma {:induction false} ParseLevelBack(ts: seq<Token>, p: nat, sub: Nested, e: Expr, level: nat, tight: bool, rest: Tape)
    returns (q: nat)
    requires EndsOnce(ts) && Understands(ts, sub) && Denotable(e) && level <= UNARY_LEVEL && From(ts, p, Show(e, level, tight, rest))
    requires rest.Cut? && Stops(rest.head, level + 1, tight)
    ensures p < |ts| && q < |ts| && ts[q] == rest.head && From(ts, q + 1, rest.tail)
    ensures LevelAt(ts, p, sub, level) == Resume(ts, q, sub, level, e)
    decreases e, Wrapped(e, level, tight), 10 + UNARY_LEVEL - level
  {
    hide *;
    LevelShown(e, level, tight, rest);
    if Wrapped(e, level, tight) {
      q := ParseWrappedBack(ts, p, sub, e, level, rest);
    } else if Rank(e) >= POSTFIX {
      q := ParseTermBack(ts, p, sub, e, level, tight, rest);
    } else if level < Rank(e) {
      q := ParseLevelBack(ts, p, sub, e, level + 1, tight, rest);
      LevelStep(ts, p, q, sub, level, e);
    } else {
      q := ParseOperatorBack(ts, p, sub, e, tight, rest);
    }
  }

  lemma {:induction false} ParseWrappedBack(ts: seq<Token>, p: nat, sub: Nested, e: Expr, level: nat, rest: Tape) returns (q: nat)
    requires EndsOnce(ts) && Understands(ts, sub) && Denotable(e) && level <= UNARY_LEVEL
    requires From(ts, p, Cut(LParen, Body(e, false, Cut(RParen, rest))))
    requires rest.Cut? && Stops(rest.head, level + 1, true)
    ensures p < |ts| && q < |ts| && ts[q] == rest.head && From(ts, q + 1, rest.tail)
    ensures LevelAt(ts, p, sub, level) == Resume(ts, q, sub, level, e)
    decreases e, true, 1
  {
    hide Body, LevelAt, LevelRest, UnaryAt, BaseAt, Denotable, From, Resume;
    q := ParseGroupBack(ts, p, sub, e, rest);
    GroupStep(ts, p, q, sub, e);
    Climb(ts, p, q, sub, level, e);
  }

  /** Postfix and primary expressions at any binary level. */
  lemma {:induction false} ParseTermBack(ts: seq<Token>, p: nat, sub: Nested, e: Expr, level: nat, tight: bool, rest: Tape)
    returns (q: nat)
    requires EndsOnce(ts) && Understands(ts, sub) && Denotable(e) && Rank(e) >= POSTFIX && level <= UNARY_LEVEL
    requires !Wrapped(e, level, tight) && From(ts, p, Body(e, tight, rest))
    requires rest.Cut? && Stops(rest.head, level + 1, tight)
    ensures p < |ts| && q < |ts| && ts[q] == rest.head && From(ts, q + 1, rest.tail)
    ensures LevelAt(ts, p, sub, level) == Resume(ts, q, sub, level, e)
    decreases e, false, 5
  {
    hide *;
    TermShown(e, level, tight, rest);
    FirstToken(e, POSTFIX, false, rest);
    var first := Show(e, POSTFIX, false, rest);
    Next(ts, p, first.head, first.tail);
    q := ParsePostfixBack(ts, p, sub, e, rest);
    TermStep(ts, p, q, sub, e);
    Climb(ts, p, q, sub, level, e);
  }

  /** An unwrapped operator at its own level. */
  lemma {:induction false} ParseOperatorBack(ts: seq<Token>, p: nat, sub: Nested, e: Expr, tight: bool, rest: Tape) returns (q: nat)
    requires EndsOnce(ts) && Understands(ts, sub) && Denotable(e) && 0 <= Rank(e) <= UNARY_LEVEL && From(ts, p, Body(e, tight, rest))
    requires rest.Cut? && Stops(rest.head, Rank(e) + 1, tight)
    ensures p < |ts| && q < |ts| && ts[q] == rest.head && From(ts, q + 1, rest.tail)
    ensures LevelAt(ts, p, sub, Rank(e)) == Resume(ts, q, sub, Rank(e), e)
    decreases e, false, 6
  {
    hide Show, LevelRest, UnaryAt, From, Stops, ShowParts, ShowAll, ShowEntries, TextOf, Writable, AllDenotable;
    hide PartsWritable, EntriesDenotable, JoinLevel, Understands;
    if e.Unary? {
      q := ParseUnaryBack(ts, p, sub, e, tight, rest);
    } else if e.Binary? {
      OpStops(e.op);
      q := ParseInfixBack(ts, p, sub, e, e.left, e.right, OpLevel(e.op), OpToken(e.op), BinaryJoin(e.op), tight, rest);
    } else {
      assert Stops(Bar, 1, false) by { BarStops(); }
      q := ParseInfixBack(ts, p, sub, e, e.left, e.right, 0, Bar, PipeJoin, tight, rest);
    }
  }

  lemma BarStops()
    ensures Stops(Bar, 1, false)
  {
  }

  lemma {:induction false} ParseUnaryBack(ts: seq<Token>, p: nat, sub: Nested, e: Expr, tight: bool, rest: Tape) returns (q: nat)
    requires EndsOnce(ts) && Understands(ts, sub) && e.Unary? && Denotable(e.inner)
    requires From(ts, p, Cut(UnaryToken(e.uop), Show(e.inner, UNARY_LEVEL, tight, rest)))
    requires rest.Cut? && Stops(rest.head, UNARY_LEVEL + 1, tight)
    ensures p < |ts| && q < |ts| && ts[q] == rest.head && From(ts, q + 1, rest.tail)
    ensures UnaryAt(ts, p, sub) == Done(e, q)
    decreases e, false, 4
  {
    Next(ts, p, UnaryToken(e.uop), Show(e.inner, UNARY_LEVEL, tight, rest));
    q := ParseLevelBack(ts, p + 1, sub, e.inner, UNARY_LEVEL, tight, rest);
    hide Show, LevelRest, From, Denotable;
    assert UnaryAt(ts, p + 1, sub) == Done(e.inner, q);
  }

  lemma {:induction false} ParseInfixBack(ts: seq<Token>, p: nat, sub: Nested, e: Expr, left: Expr, right: Expr,
                                          level: nat, t: Token, joiner: Joiner, tight: bool, rest: Tape)
    returns (q: nat)
    requires EndsOnce(ts) && Understands(ts, sub) && Denotable(left) && Denotable(right) && left < e && right < e && level < UNARY_LEVEL
    requires JoinerAt(level, t) == Some(joiner) && Stops(t, level + 1, t.Ident?) && t != Eof
    requires From(ts, p, Show(left, level, t.Ident?, Cut(t, Show(right, level + 1, tight, rest))))
    requires rest.Cut? && Stops(rest.head, level + 1, tight)
    ensures p < |ts| && q < |ts| && ts[q] == rest.head && From(ts, q + 1, rest.tail)
    ensures LevelAt(ts, p, sub, level) == LevelRest(ts, q, sub, level, Join(joiner, left, right))
    decreases e, false, 4
  {
    hide Show, From, LevelAt, LevelRest, UnaryAt, Denotable, JoinerAt;
    var after := Cut(t, Show(right, level + 1, tight, rest));
    var m := ParseLevelBack(ts, p, sub, left, level, t.Ident?, after);
    q := ParseLevelBack(ts, m + 1, sub, right, level + 1, tight, rest);
    InfixStep(ts, p, m, q, sub, left, right, level, joiner);
  }

  predicate Calm(t: Token) {
    t != LParen && !t.Quote? && !t.Interp?
  }

  /** A parenthesised tree. */
  lemma {:induction false} ParseGroupBack(ts: seq<Token>, p: nat, sub: Nested, e: Expr, rest: Tape) returns (q: nat)
    requires EndsOnce(ts) && Understands(ts, sub) && Denotable(e) && From(ts, p, Cut(LParen, Body(e, false, Cut(RParen, rest)))) && rest.Cut?
    ensures p < |ts| && q < |ts| && ts[q] == rest.head && From(ts, q + 1, rest.tail)
    ensures ts[p] == LParen && BaseAt(ts, p, sub) == Done(e, q)
    decreases e, true, 0
  {
    hide *;
    GroupShown(e, Cut(RParen, rest));
    Next(ts, p, LParen, Body(e, false, Cut(RParen, rest)));
    var m := ParseExprBack(ts, p + 1, sub, e, false, Cut(RParen, rest));
    Next(ts, m + 1, rest.head, rest.tail);
    q := m + 1;
    ParenStep(ts, p, m, sub, e);
  }

  /** Postfix expressions: after e the postfix loop goes on with whatever follows. */
  lemma {:induction false} ParsePostfixBack(ts: seq<Token>, p: nat, sub: Nested, e: Expr, rest: Tape) returns (q: nat)
    requires EndsOnce(ts) && Understands(ts, sub) && Denotable(e) && Rank(e) >= POSTFIX && From(ts, p, Body(e, false, rest))
    requires rest.Cut? && Calm(rest.head) && (Glues(e) ==> !rest.head.Ident? && rest.head != LBracket)
    ensures p < |ts| && q < |ts| && ts[q] == rest.head && From(ts, q + 1, rest.tail)
    ensures PostfixAt(ts, p, sub) == PostfixRest(ts, q, sub, e)
    decreases e, false, 4
  {
    hide *;
    if Glues(e) {
      q := ParseChainBack(ts, p, sub, e, rest);
      NotName(rest.head);
      ChainStep(ts, p, q, sub, e);
    } else if Rank(e) == PRIMARY {
      GluesIdentity(e);
      q := ParsePrimaryBack(ts, p, sub, e, rest);
      PrimaryStep(ts, p, q, sub, e);
    } else {
      RankOfPostfix(e);
      q := ParseSuffixBack(ts, p, sub, e, rest);
    }
  }

  /** What a postfix form prints after its operand. */
  function Suffix(e: Expr, rest: Tape): Tape
    requires e.Field? || e.Index? || e.Iterate?
  {
    match e
    case Field(_, name) => Cut(Dot, Cut(Ident(name), rest))
    case Index(_, index) => Cut(LBracket, Show(index, COMMA, false, Cut(RBracket, rest)))
    case Iterate(_) => Cut(LBracket, Cut(RBracket, rest))
  }

  lemma {:induction false} ParseSuffixBack(ts: seq<Token>, p: nat, sub: Nested, e: Expr, rest: Tape) returns (q: nat)
    requires EndsOnce(ts) && Understands(ts, sub) && Denotable(e) && Rank(e) == POSTFIX && !Glues(e)
    requires From(ts, p, Body(e, false, rest)) && rest.Cut?
    ensures p < |ts| && q < |ts| && ts[q] == rest.head && From(ts, q + 1, rest.tail)
    ensures PostfixAt(ts, p, sub) == PostfixRest(ts, q, sub, e)
    decreases e, false, 3
  {
    hide *;
    SuffixShown(e, rest);
    var suffix := Suffix(e, rest);
    var m := ParseOperandBack(ts, p, sub, e.base, suffix);
    if e.Field? {
      Next(ts, m + 1, Ident(e.name), rest);
      Next(ts, m + 2, rest.head, rest.tail);
      q := m + 2;
      FieldStep(ts, m, sub, e);
    } else {
      FromCut(ts, m, suffix);
      q := ParseBracketBack(ts, m, sub, e, rest);
      BracketStep(ts, m, q, sub, e);
    }
  }

  /** The operand of a postfix form, wrapped or not. */
  lemma {:induction false} ParseOperandBack(ts: seq<Token>, p: nat, sub: Nested, base: Expr, rest: Tape) returns (q: nat)
    requires EndsOnce(ts) && Understands(ts, sub) && Denotable(base) && From(ts, p, Show(base, POSTFIX, false, rest))
    requires rest.Cut? && (rest.head == Dot || (rest.head == LBracket && !Glues(base)))
    ensures p < |ts| && q < |ts| && ts[q] == rest.head && From(ts, q + 1, rest.tail)
    ensures PostfixAt(ts, p, sub) == PostfixRest(ts, q, sub, base)
    decreases base, Wrapped(base, POSTFIX, false), 5
  {
    hide Body, Denotable, From, BaseAt, PostfixAt, PostfixRest;
    if Wrapped(base, POSTFIX, false) {
      q := ParseGroupBack(ts, p, sub, base, rest);
      PrimaryStep(ts, p, q, sub, base);
    } else {
      q := ParsePostfixBack(ts, p, sub, base, rest);
    }
  }

  /** The bracket suffix of an index or an iteration. */
  lemma {:induction false} ParseBracketBack(ts: seq<Token>, p: nat, sub: Nested, e: Expr, rest: Tape) returns (q: nat)
    requires EndsOnce(ts) && Understands(ts, sub) && Denotable(e) && (e.Index? || e.Iterate?) && From(ts, p, Suffix(e, rest)) && rest.Cut?
    ensures p < |ts| && q < |ts| && ts[q] == rest.head && From(ts, q + 1, rest.tail)
    ensures ts[p] == LBracket && BracketAt(ts, p, sub, e.base) == Done(e, q)
    decreases e, false, 2
  {
    hide *;
    if e.Iterate? {
      IterateShown(e, rest);
      Next(ts, p, LBracket, Cut(RBracket, rest));
      Next(ts, p + 1, RBracket, rest);
      Next(ts, p + 2, rest.head, rest.tail);
      q := p + 2;
      IterateStep(ts, p, sub, e);
    } else {
      IndexShown(e, rest);
      var index := Show(e.index, COMMA, false, Cut(RBracket, rest));
      Next(ts, p, LBracket, index);
      FirstToken(e.index, COMMA, false, Cut(RBracket, rest));
      Next(ts, p + 1, index.head, index.tail);
      var m := ParseExprBack(ts, p + 1, sub, e.index, false, Cut(RBracket, rest));
      Next(ts, m + 1, rest.head, rest.tail);
      q := m + 1;
      IndexStep(ts, p, m, sub, e);
    }
  }

  /** Dot-rooted paths that are still inside the dot's own chain when they end. */
  lemma {:induction false} ParseChainBack(ts: seq<Token>, p: nat, sub: Nested, e: Expr, rest: Tape) returns (q: nat)
    requires EndsOnce(ts) && Understands(ts, sub) && Denotable(e) && Glues(e) && From(ts, p, Body(e, false, rest)) && rest.Cut?
    ensures p < |ts| && q < |ts| && ts[q] == rest.head && From(ts, q + 1, rest.tail)
    ensures BaseAt(ts, p, sub) == ChainRest(ts, q, sub, e)
    decreases e, false, 3
  {
    hide *;
    ChainShown(e, rest);
    if e.Identity? {
      Next(ts, p, Dot, rest);
      q := p + 1;
      DotStep(ts, p, sub);
    } else if e.Field? {
      Next(ts, p, Dot, Cut(Ident(e.name), rest));
      Next(ts, p + 1, Ident(e.name), rest);
      q := p + 2;
      DotStep(ts, p, sub);
      DotNameStep(ts, p, sub, e);
    } else {
      var m := ParseChainBack(ts, p, sub, e.base, Suffix(e, rest));
      FromCut(ts, m, Suffix(e, rest));
      q := ParseBracketBack(ts, m, sub, e, rest);
      ChainBracketStep(ts, m, q, sub, e);
    }
    FromCut(ts, q, rest);
  }

  lemma {:induction false} ParsePrimaryBack(ts: seq<Token>, p: nat, sub: Nested, e: Expr, rest: Tape) returns (q: nat)
    requires EndsOnce(ts) && Understands(ts, sub) && Denotable(e) && Rank(e) == PRIMARY && !e.Identity? && From(ts, p, Body(e, false, rest))
    requires rest.Cut? && Calm(rest.head)
    ensures p < |ts| && q < |ts| && ts[q] == rest.head && From(ts, q + 1, rest.tail)
    ensures BaseAt(ts, p, sub) == Done(e, q)
    decreases e, false, 3
  {
    hide *;
    PrimaryShown(e, rest);
    if e.Variable? || e.Literal? || (e.Call? && e.args == []) {
      var word := Body(e, false, rest);
      Next(ts, p, word.head, rest);
      Next(ts, p + 1, rest.head, rest.tail);
      q := p + 1;
      WordStep(ts, p, sub, e, rest);
    } else if e.StrExpr? {
      q := ParsePartsBack(ts, p, sub, e.parts, rest, []);
      StringStep(ts, p, q, sub, e);
    } else if e.ArrayExpr? {
      q := ParseArrayBack(ts, p, sub, e, rest);
    } else if e.ObjectExpr? {
      q := ParseObjectBack(ts, p, sub, e, rest);
    } else if e.If? {
      q := ParseIfBack(ts, p, sub, e, rest);
    } else {
      q := ParseCallBack(ts, p, sub, e, rest);
    }
  }

  lemma {:induction false} ParseArrayBack(ts: seq<Token>, p: nat, sub: Nested, e: Expr, rest: Tape) returns (q: nat)
    requires EndsOnce(ts) && Understands(ts, sub) && e.ArrayExpr? && AllDenotable(e.elems) && NoStreams(e.elems)
    requires From(ts, p, Cut(LBracket, ShowAll(e.elems, false, Cut(RBracket, rest)))) && rest.Cut?
    ensures p < |ts| && q < |ts| && ts[q] == rest.head && From(ts, q + 1, rest.tail)
    ensures BaseAt(ts, p, sub) == Done(e, q)
    decreases e, false, 1
  {
    var all := ShowAll(e.elems, false, Cut(RBracket, rest));
    hide *;
    EmptyShown(Cut(RBracket, rest));
    Next(ts, p, LBracket, all);
    if e.elems == [] {
      Next(ts, p + 1, RBracket, rest);
      Next(ts, p + 2, rest.head, rest.tail);
      q := p + 2;
      EmptyArrayStep(ts, p, sub);
    } else {
      q := ParseElementsBack(ts, p, sub, e, rest);
    }
  }

  lemma {:induction false} ParseElementsBack(ts: seq<Token>, p: nat, sub: Nested, e: Expr, rest: Tape) returns (q: nat)
    requires EndsOnce(ts) && Understands(ts, sub) && e.ArrayExpr? && e.elems != [] && AllDenotable(e.elems) && NoStreams(e.elems) && rest.Cut?
    requires p < |ts| && ts[p] == LBracket && From(ts, p + 1, ShowAll(e.elems, false, Cut(RBracket, rest)))
    ensures q < |ts| && ts[q] == rest.head && From(ts, q + 1, rest.tail)
    ensures BaseAt(ts, p, sub) == Done(e, q)
    decreases e, false, 0
  {
    hide *;
    FirstOfAll(e.elems, Cut(RBracket, rest));
    FromCut(ts, p + 1, ShowAll(e.elems, false, Cut(RBracket, rest)));
    var m := ParseElemsBack(ts, p + 1, sub, e.elems, Cut(RBracket, rest), []);
    FromCut(ts, m + 1, rest);
    q := m + 1;
    ArrayStep(ts, p, m, sub, e);
  }

  lemma {:induction false} ParseObjectBack(ts: seq<Token>, p: nat, sub: Nested, e: Expr, rest: Tape) returns (q: nat)
    requires EndsOnce(ts) && Understands(ts, sub) && e.ObjectExpr? && EntriesDenotable(e.entries)
    requires From(ts, p, Cut(LBrace, ShowEntries(e.entries, Cut(RBrace, rest)))) && rest.Cut?
    ensures p < |ts| && q < |ts| && ts[q] == rest.head && From(ts, q + 1, rest.tail)
    ensures BaseAt(ts, p, sub) == Done(e, q)
    decreases e, false, 1
  {
    var all := ShowEntries(e.entries, Cut(RBrace, rest));
    hide *;
    EmptyShown(Cut(RBrace, rest));
    Next(ts, p, LBrace, all);
    if e.entries == [] {
      Next(ts, p + 1, RBrace, rest);
      Next(ts, p + 2, rest.head, rest.tail);
      q := p + 2;
      EmptyObjectStep(ts, p, sub);
    } else {
      q := ParseMembersBack(ts, p, sub, e, rest);
    }
  }

  lemma {:induction false} ParseMembersBack(ts: seq<Token>, p: nat, sub: Nested, e: Expr, rest: Tape) returns (q: nat)
    requires EndsOnce(ts) && Understands(ts, sub) && e.ObjectExpr? && e.entries != [] && EntriesDenotable(e.entries)
    requires rest.Cut? && p < |ts| && ts[p] == LBrace && From(ts, p + 1, ShowEntries(e.entries, Cut(RBrace, rest)))
    ensures q < |ts| && ts[q] == rest.head && From(ts, q + 1, rest.tail)
    ensures BaseAt(ts, p, sub) == Done(e, q)
    decreases e, false, 0
  {
    hide *;
    var m := ParseEntriesBack(ts, p + 1, sub, e.entries, Cut(RBrace, rest), []);
    FromCut(ts, m + 1, rest);
    q := m + 1;
    ObjectStep(ts, p, m, sub, e);
  }

  lemma {:induction false} ParseCallBack(ts: seq<Token>, p: nat, sub: Nested, e: Expr, rest: Tape) returns (q: nat)
    requires EndsOnce(ts) && Understands(ts, sub) && e.Call? && e.args != [] && AllDenotable(e.args) && !Reserved(e.name) && rest.Cut?
    requires From(ts, p, Cut(Ident(e.name), Cut(LParen, ShowAll(e.args, false, Cut(RParen, rest)))))
    ensures p < |ts| && q < |ts| && ts[q] == rest.head && From(ts, q + 1, rest.tail)
    ensures BaseAt(ts, p, sub) == Done(e, q)
    decreases e, false, 1
  {
    hide *;
    var all := ShowAll(e.args, false, Cut(RParen, rest));
    Next(ts, p, Ident(e.name), Cut(LParen, all));
    Next(ts, p + 1, LParen, all);
    FirstOfAll(e.args, Cut(RParen, rest));
    Next(ts, p + 2, all.head, all.tail);
    var m := ParseArgsBack(ts, p + 2, sub, e.args, Cut(RParen, rest), []);
    Next(ts, m + 1, rest.head, rest.tail);
    q := m + 1;
    CallStep(ts, p, m, sub, e);
  }

  lemma {:induction false} ParseIfBack(ts: seq<Token>, p: nat, sub: Nested, e: Expr, rest: Tape) returns (q: nat)
    requires EndsOnce(ts) && Understands(ts, sub) && e.If? && Denotable(e.cond) && Denotable(e.thn) && Denotable(e.els) && rest.Cut?
    requires From(ts, p, Cut(Ident("if"), Show(e.cond, COMMA, true, Cut(Ident("then"), Show(e.thn, COMMA, true,
               Cut(Ident("else"), Show(e.els, COMMA, true, Cut(Ident("end"), rest))))))))
    ensures p < |ts| && q < |ts| && ts[q] == rest.head && From(ts, q + 1, rest.tail)
    ensures BaseAt(ts, p, sub) == Done(e, q)
    decreases e, false, 1
  {
    hide *;
    KeywordsStop();
    var end := Cut(Ident("end"), rest);
    var els := Cut(Ident("else"), Show(e.els, COMMA, true, end));
    var thn := Cut(Ident("then"), Show(e.thn, COMMA, true, els));
    Next(ts, p, Ident("if"), Show(e.cond, COMMA, true, thn));
    var c := ParseExprBack(ts, p + 1, sub, e.cond, true, thn);
    var t := ParseExprBack(ts, c + 1, sub, e.thn, true, els);
    var f := ParseExprBack(ts, t + 1, sub, e.els, true, end);
    Next(ts, f + 1, rest.head, rest.tail);
    q := f + 1;
    IfStep(ts, p, c, t, f, sub, e);
  }

  lemma {:induction false} ParsePartsBack(ts: seq<Token>, p: nat, sub: Nested, parts: seq<InterpPart>, rest: Tape, acc: seq<InterpPart>)
    returns (q: nat)
    requires EndsOnce(ts) && Understands(ts, sub) && PartsWritable(parts) && From(ts, p, ShowParts(parts, rest))
    requires rest.Cut? && !rest.head.Quote? && !rest.head.Interp?
    ensures p < |ts| && q < |ts| && ts[q] == rest.head && From(ts, q + 1, rest.tail)
    ensures (parts != [] ==> ts[p].Quote? || ts[p].Interp?) && PartsRest(ts, p, sub, acc) == Done(acc + parts, q)
    decreases |parts|
  {
    hide TextOf, Writable, Understands, PartToken, PartWritable;
    if parts != [] {
      PartsShown(parts, rest);
      Next(ts, p, PartToken(parts[0]), ShowParts(parts[1..], rest));
      PartStep(ts, p, sub, parts[0], acc);
      q := ParsePartsBack(ts, p + 1, sub, parts[1..], rest, acc + [parts[0]]);
      assert acc + [parts[0]] + parts[1..] == acc + parts;
    } else {
      q := p;
      assert acc + parts == acc;
    }
  }

  // ----- Comma-separated lists -----

  lemma FirstOfAll(es: seq<Expr>, rest: Tape)
    requires es != [] && AllDenotable(es)
    ensures ShowAll(es, false, rest).Cut?
    ensures ShowAll(es, false, rest).head != RBracket && ShowAll(es, false, rest).head != RParen
  {
    FirstToken(es[0], 0, false, if |es| == 1 then rest else Cut(Comma, ShowAll(es[1..], false, rest)));
  }

  /** One list item: read at the pipe level, up to a token that ends it. */
  lemma {:induction false} ParseItemBack(ts: seq<Token>, p: nat, sub: Nested, e: Expr, tight: bool, rest: Tape) returns (q: nat)
    requires EndsOnce(ts) && Understands(ts, sub) && Denotable(e) && From(ts, p, Show(e, 0, tight, rest))
    requires rest.Cut? && Stops(rest.head, 0, tight)
    ensures p < |ts| && q < |ts| && ts[q] == rest.head && From(ts, q + 1, rest.tail)
    ensures LevelAt(ts, p, sub, 0) == Done(e, q)
    decreases e, Wrapped(e, 0, tight), 18
  {
    hide Show, Denotable, From, LevelAt, UnaryAt;
    q := ParseLevelBack(ts, p, sub, e, 0, tight, rest);
    JoinerAtItsLevel(0, rest.head);
  }

  lemma {:induction false} ParseCommaBack(ts: seq<Token>, p: nat, sub: Nested, es: seq<Expr>, tight: bool, rest: Tape, acc: seq<Expr>)
    returns (q: nat)
    requires EndsOnce(ts) && Understands(ts, sub) && es != [] && AllDenotable(es)
    requires From(ts, p, ShowAll(es, tight, rest)) && rest.Cut? && Stops(rest.head, 0, tight) && rest.head != Comma
    ensures p < |ts| && q < |ts| && ts[q] == rest.head && From(ts, q + 1, rest.tail)
    ensures LevelAt(ts, p, sub, 0).Done?
    ensures var first := LevelAt(ts, p, sub, 0);
            CommaRest(ts, first.pos, sub, acc + [first.value]) == Done(acc + es, q)
    decreases es, false, 1
  {
    hide *;
    AllShown(es, tight, rest);
    if |es| == 1 {
      q := ParseItemBack(ts, p, sub, es[0], tight, rest);
      assert [es[0]] == es;
      CommaStep(ts, q, sub, acc + es);
    } else {
      var after := Cut(Comma, ShowAll(es[1..], tight, rest));
      var m := ParseItemBack(ts, p, sub, es[0], false, after);
      q := ParseCommaBack(ts, m + 1, sub, es[1..], tight, rest, acc + [es[0]]);
      assert acc + [es[0]] + es[1..] == acc + es;
      CommaStep(ts, m, sub, acc + [es[0]]);
    }
  }

  lemma {:induction false} ParseArgsBack(ts: seq<Token>, p: nat, sub: Nested, es: seq<Expr>, rest: Tape, acc: seq<Expr>)
    returns (q: nat)
    requires EndsOnce(ts) && Understands(ts, sub) && es != [] && AllDenotable(es)
    requires From(ts, p, ShowAll(es, false, rest)) && rest.Cut? && rest.head == RParen
    ensures p < |ts| && q < |ts| && ts[q] == rest.head && From(ts, q + 1, rest.tail)
    ensures ArgsRest(ts, p, sub, acc) == Done(acc + es, q)
    decreases es, false, 1
  {
    hide *;
    AllShown(es, false, rest);
    if |es| == 1 {
      q := ParseItemBack(ts, p, sub, es[0], false, rest);
      assert [es[0]] == es;
      ArgsStep(ts, p, q, sub, es[0], acc);
    } else {
      var after := Cut(Comma, ShowAll(es[1..], false, rest));
      var m := ParseItemBack(ts, p, sub, es[0], false, after);
      q := ParseArgsBack(ts, m + 1, sub, es[1..], rest, acc + [es[0]]);
      assert acc + [es[0]] + es[1..] == acc + es;
      ArgsStep(ts, p, m, sub, es[0], acc);
    }
  }

  lemma {:induction false} ParseElemsBack(ts: seq<Token>, p: nat, sub: Nested, es: seq<Expr>, rest: Tape, acc: seq<Expr>)
    returns (q: nat)
    requires EndsOnce(ts) && Understands(ts, sub) && es != [] && AllDenotable(es) && NoStreams(es)
    requires From(ts, p, ShowAll(es, false, rest)) && rest.Cut? && rest.head == RBracket
    ensures p < |ts| && q < |ts| && ts[q] == rest.head && From(ts, q + 1, rest.tail)
    ensures ElemsRest(ts, p, sub, acc) == Done(acc + es, q)
    decreases es, false, 1
  {
    hide *;
    AllShown(es, false, rest);
    if |es| == 1 {
      q := ParseItemBack(ts, p, sub, es[0], false, rest);
      assert [es[0]] == es;
      ElemsStep(ts, p, q, sub, es[0], acc);
    } else {
      var after := Cut(Comma, ShowAll(es[1..], false, rest));
      var m := ParseItemBack(ts, p, sub, es[0], false, after);
      q := ParseElemsBack(ts, m + 1, sub, es[1..], rest, acc + [es[0]]);
      assert acc + [es[0]] + es[1..] == acc + es;
      ElemsStep(ts, p, m, sub, es[0], acc);
    }
  }

  lemma {:induction false} ParseEntryBack(ts: seq<Token>, p: nat, sub: Nested, entry: Entry, rest: Tape) returns (q: nat)
    requires EndsOnce(ts) && Understands(ts, sub) && DenotableEntry(entry) && From(ts, p, ShowEntry(entry, rest))
    requires rest.Cut? && (rest.head == Comma || rest.head == RBrace)
    ensures p < |ts| && q < |ts| && ts[q] == rest.head && From(ts, q + 1, rest.tail)
    ensures ts[p] != RBrace && EntryAt(ts, p, sub) == Done(entry, q)
    decreases entry, false, 1
  {
    hide Show, ShowKey, Denotable, LevelAt, KeyAt, From;
    var value := Cut(Colon, Show(entry.value, 0, false, rest));
    var m := ParseKeyBack(ts, p, sub, entry.key, value);
    q := ParseItemBack(ts, m + 1, sub, entry.value, false, rest);
  }

  lemma {:induction false} ParseKeyBack(ts: seq<Token>, p: nat, sub: Nested, key: ObjKey, rest: Tape) returns (q: nat)
    requires EndsOnce(ts) && Understands(ts, sub) && (key.Computed? ==> Denotable(key.key)) && From(ts, p, ShowKey(key, rest)) && rest.Cut?
    ensures p < |ts| && q < |ts| && ts[q] == rest.head && From(ts, q + 1, rest.tail)
    ensures ts[p] != RBrace && KeyAt(ts, p, sub) == Done(key, q)
    decreases key, false, 1
  {
    hide Show, Denotable, LevelAt;
    if key.Computed? {
      Next(ts, p, LParen, Show(key.key, 0, false, Cut(RParen, rest)));
      var m := ParseItemBack(ts, p + 1, sub, key.key, false, Cut(RParen, rest));
      Next(ts, m + 1, rest.head, rest.tail);
      q := m + 1;
    } else {
      FromCut(ts, p + 1, rest);
      q := p + 1;
    }
  }

  lemma {:induction false} ParseEntriesBack(ts: seq<Token>, p: nat, sub: Nested, es: seq<Entry>, rest: Tape, acc: seq<Entry>)
    returns (q: nat)
    requires EndsOnce(ts) && Understands(ts, sub) && es != [] && EntriesDenotable(es)
    requires From(ts, p, ShowEntries(es, rest)) && rest.Cut? && rest.head == RBrace
    ensures p < |ts| && q < |ts| && ts[q] == rest.head && From(ts, q + 1, rest.tail)
    ensures ts[p] != RBrace && EntriesRest(ts, p, sub, acc) == Done(acc + es, q)
    decreases es, false, 2
  {
    hide *;
    EntriesShown(es, rest);
    if |es| == 1 {
      q := ParseEntryBack(ts, p, sub, es[0], rest);
      assert [es[0]] == es;
      EntriesStep(ts, p, q, sub, es[0], acc);
    } else {
      var after := Cut(Comma, ShowEntries(es[1..], rest));
      var m := ParseEntryBack(ts, p, sub, es[0], after);
      q := ParseEntriesBack(ts, m + 1, sub, es[1..], rest, acc + [es[0]]);
      assert acc + [es[0]] + es[1..] == acc + es;
      EntriesStep(ts, p, m, sub, es[0], acc);
    }
  }

  // ----- Main results -----

  /** Round trip: the vector printed for a tree, closed by the end marker, parses to exactly that tree. */
  lemma {:induction false} PrintedTreesParseBack(ts: seq<Token>, sub: Nested, e: Expr)
    requires EndsOnce(ts) && Understands(ts, sub) && Denotable(e) && From(ts, 0, Show(e, COMMA, false, Cut(Eof, End)))
    ensures ExprAt(ts, 0, sub) == Done(e, |ts| - 1)
  {
    hide *;
    EofStops();
    var q := ParseExprBack(ts, 0, sub, e, false, Cut(Eof, End));
    LastToken(ts, q);
  }

  lemma EofStops()
    ensures Stops(Eof, 0, false)
  {
  }

  lemma LastToken(ts: seq<Token>, q: nat)
    requires EndsOnce(ts) && q < |ts| && ts[q] == Eof
    ensures q == |ts| - 1
  {
  }

  /** So printing is injective: no two trees share a printing. */
  lemma {:induction false} PrintingIsUnambiguous(ts: seq<Token>, sub: Nested, e: Expr, f: Expr)
    requires EndsOnce(ts) && Understands(ts, sub) && Denotable(e) && Denotable(f)
    requires From(ts, 0, Show(e, COMMA, false, Cut(Eof, End))) && From(ts, 0, Show(f, COMMA, false, Cut(Eof, End)))
    ensures e == f
  {
    PrintedTreesParseBack(ts, sub, e);
    PrintedTreesParseBack(ts, sub, f);
  }
}
