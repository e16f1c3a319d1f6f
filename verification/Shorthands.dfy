/** Source forms that no printing contains: `elif`, a missing `else`, quoted field names and other ways to write the same tree. */
module Shorthands {
  import opened Wrappers
  import opened Json
  import opened Syntax
  import opened Lexing
  import opened Grammar
  import opened Spelling
  import opened Printing
  import opened Precedence
  import opened JsonLexing
  import opened WrittenTrees

  // ----- Conditionals -----

  /** `word a then b`, in front of what follows. */
  function Branch(word: string, a: Expr, b: Expr, rest: Tape): Tape {
    Cut(Ident(word), Show(a, COMMA, true, Cut(Ident("then"), Show(b, COMMA, true, rest))))
  }

  /** `else e end`, or `end` alone. */
  function Otherwise(e: Option<Expr>, rest: Tape): Tape {
    if e.None? then Cut(Ident("end"), rest)
    else Cut(Ident("else"), Show(e.value, COMMA, true, Cut(Ident("end"), rest)))
  }

  function OrNull(e: Option<Expr>): Expr {
    if e.None? then Literal(Null) else e.value
  }

  lemma {:induction false} BranchBack(
    ts: seq<Token>, p: nat, sub: Nested, word: string, a: Expr, b: Expr, rest: Tape) returns (q: nat)
    requires EndsOnce(ts) && Understands(ts, sub) && Denotable(a) && Denotable(b)
    requires From(ts, p, Branch(word, a, b, rest)) && rest.Cut? && Stops(rest.head, 0, true) && rest.head != Comma
    ensures p + 1 < |ts| && q < |ts| && ts[p] == Ident(word) && ts[q] == rest.head && From(ts, q + 1, rest.tail)
    ensures BranchAt(ts, p + 1, sub) == Done((a, b), q)
  {
    hide Denotable, Show, From, ExprAt, Understands, Stops, BranchAt;
    KeywordsStop();
    var thn := Cut(Ident("then"), Show(b, COMMA, true, rest));
    Next(ts, p, Ident(word), Show(a, COMMA, true, thn));
    var c := ParseExprBack(ts, p + 1, sub, a, true, thn);
    q := ParseExprBack(ts, c + 1, sub, b, true, rest);
    BranchStep(ts, p + 1, sub, a, c, b, q);
  }

  lemma {:induction false} BranchStep(ts: seq<Token>, p: nat, sub: Nested, a: Expr, c: nat, b: Expr, q: nat)
    requires EndsOnce(ts) && p < |ts| && c + 1 < |ts| && ts[c] == Ident("then")
    requires ExprAt(ts, p, sub) == Done(a, c) && ExprAt(ts, c + 1, sub) == Done(b, q)
    ensures BranchAt(ts, p, sub) == Done((a, b), q)
  {
    hide ExprAt;
  }

  lemma {:induction false} OtherwiseBack(ts: seq<Token>, p: nat, sub: Nested, e: Option<Expr>, rest: Tape) returns (q: nat)
    requires EndsOnce(ts) && Understands(ts, sub) && (e.Some? ==> Denotable(e.value)) && From(ts, p, Otherwise(e, rest))
    ensures p < |ts| && q < |ts| && ts[q] == Ident("end") && From(ts, q + 1, rest)
    ensures ElseAt(ts, p, sub) == Done(OrNull(e), q)
  {
    hide Denotable, Show, From, ExprAt, Understands;
    KeywordsStop();
    if e.None? {
      Next(ts, p, Ident("end"), rest);
      q := p;
    } else {
      var end := Cut(Ident("end"), rest);
      Next(ts, p, Ident("else"), Show(e.value, COMMA, true, end));
      q := ParseExprBack(ts, p + 1, sub, e.value, true, end);
    }
  }

  lemma {:induction false} KeywordStops(word: string)
    requires word != "or" && word != "and"
    ensures Stops(Ident(word), 0, true)
  {
  }

  lemma {:induction false} OtherwiseStarts(e: Option<Expr>, rest: Tape)
    ensures var t := Otherwise(e, rest);
            t.Cut? && Stops(t.head, 0, true) && t.head != Comma && t.head != Ident("elif")
  {
    hide Show;
    KeywordsStop();
  }

  lemma {:induction false} AfterIf(ts: seq<Token>, p: nat, sub: Nested, a: Expr, b: Expr, m: nat, e: Expr, q: nat)
    requires EndsOnce(ts) && p + 1 < |ts| && ts[p] == Ident("if") && BranchAt(ts, p + 1, sub) == Done((a, b), m)
    requires m < |ts| && ts[m] != Ident("elif") && ElseAt(ts, m, sub) == Done(e, q) && q < |ts| && ts[q] == Ident("end")
    ensures BaseAt(ts, p, sub) == Done(If(a, b, e), q + 1)
  {
    hide BranchAt, ElseAt;
    assert IfAt(ts, p, sub) == Done(If(a, b, e), q + 1);
  }

  lemma {:induction false} AfterElif(
    ts: seq<Token>, p: nat, sub: Nested, a: Expr, b: Expr, m: nat, c: Expr, d: Expr, n: nat, e: Expr, q: nat)
    requires EndsOnce(ts) && p + 1 < |ts| && ts[p] == Ident("if") && BranchAt(ts, p + 1, sub) == Done((a, b), m)
    requires m + 1 < |ts| && ts[m] == Ident("elif") && BranchAt(ts, m + 1, sub) == Done((c, d), n)
    requires n < |ts| && ElseAt(ts, n, sub) == Done(e, q) && q < |ts| && ts[q] == Ident("end")
    ensures BaseAt(ts, p, sub) == Done(If(a, b, If(c, d, e)), q + 1)
  {
    hide BranchAt, ElseAt;
    assert IfAt(ts, p, sub) == Done(If(a, b, If(c, d, e)), q + 1);
  }

  /** Without `else` a conditional answers null. */
  lemma {:induction false} MissingElseIsNull(
    ts: seq<Token>, p: nat, sub: Nested, a: Expr, b: Expr, e: Option<Expr>, rest: Tape) returns (q: nat)
    requires EndsOnce(ts) && Understands(ts, sub) && Denotable(a) && Denotable(b) && (e.Some? ==> Denotable(e.value))
    requires From(ts, p, Branch("if", a, b, Otherwise(e, rest)))
    ensures p < |ts| && From(ts, q, rest) && BaseAt(ts, p, sub) == Done(If(a, b, OrNull(e)), q)
  {
    hide Denotable, Otherwise, Branch, From, Understands, BranchAt, ElseAt, BaseAt, Stops;
    OtherwiseStarts(e, rest);
    var m := BranchBack(ts, p, sub, "if", a, b, Otherwise(e, rest));
    FromCut(ts, m, Otherwise(e, rest));
    q := OtherwiseBack(ts, m, sub, e, rest);
    AfterIf(ts, p, sub, a, b, m, OrNull(e), q);
    q := q + 1;
  }

  /** `elif` is a conditional in the other branch. */
  lemma {:induction false} ElifIsNestedIf(
    ts: seq<Token>, p: nat, sub: Nested, a: Expr, b: Expr, c: Expr, d: Expr, e: Option<Expr>, rest: Tape)
    returns (q: nat)
    requires EndsOnce(ts) && Understands(ts, sub) && Denotable(a) && Denotable(b) && Denotable(c) && Denotable(d)
    requires e.Some? ==> Denotable(e.value)
    requires From(ts, p, Branch("if", a, b, Branch("elif", c, d, Otherwise(e, rest))))
    ensures p < |ts| && From(ts, q, rest) && BaseAt(ts, p, sub) == Done(If(a, b, If(c, d, OrNull(e))), q)
  {
    hide Denotable, Otherwise, From, Understands, BranchAt, ElseAt, BaseAt, Stops, Show;
    OtherwiseStarts(e, rest);
    KeywordStops("elif");
    var elif := Branch("elif", c, d, Otherwise(e, rest));
    var m := BranchBack(ts, p, sub, "if", a, b, elif);
    FromCut(ts, m, elif);
    var n := BranchBack(ts, m, sub, "elif", c, d, Otherwise(e, rest));
    FromCut(ts, n, Otherwise(e, rest));
    q := OtherwiseBack(ts, n, sub, e, rest);
    AfterElif(ts, p, sub, a, b, m, c, d, n, OrNull(e), q);
    q := q + 1;
  }

  /** A second `elif` is no branch: the word is read as a call, and what follows it is not expected there. */
  lemma {:induction false} SecondElifFails(ts: seq<Token>, p: nat, sub: Nested, a: Expr, b: Expr, m: nat, c: Expr, d: Expr, n: nat)
    requires EndsOnce(ts) && p + 1 < |ts| && ts[p] == Ident("if") && BranchAt(ts, p + 1, sub) == Done((a, b), m)
    requires m + 1 < |ts| && ts[m] == Ident("elif") && BranchAt(ts, m + 1, sub) == Done((c, d), n)
    requires n + 1 < |ts| && ts[n] == Ident("elif") && Stops(ts[n + 1], 0, true)
    requires ts[n + 1] != Comma && ts[n + 1] != Ident("end")
    ensures BaseAt(ts, p, sub) == Failed(ParseError(n + 1))
  {
    hide BranchAt, ElseAt, BaseAt;
    ElifIsCall(ts, n, sub);
    EndIsMissing(ts, p, sub, a, b, m, c, d, n, Call("elif", []), n + 1);
  }

  lemma {:induction false} EndIsMissing(
    ts: seq<Token>, p: nat, sub: Nested, a: Expr, b: Expr, m: nat, c: Expr, d: Expr, n: nat, e: Expr, q: nat)
    requires EndsOnce(ts) && p + 1 < |ts| && ts[p] == Ident("if") && BranchAt(ts, p + 1, sub) == Done((a, b), m)
    requires m + 1 < |ts| && ts[m] == Ident("elif") && BranchAt(ts, m + 1, sub) == Done((c, d), n)
    requires n < |ts| && ElseAt(ts, n, sub) == Done(e, q) && q < |ts| && ts[q] != Ident("end")
    ensures BaseAt(ts, p, sub) == Failed(ParseError(q))
  {
    hide BranchAt, ElseAt;
    assert IfAt(ts, p, sub) == Failed(ParseError(q));
  }

  lemma {:induction false} ElifIsCall(ts: seq<Token>, n: nat, sub: Nested)
    requires EndsOnce(ts) && n + 1 < |ts| && ts[n] == Ident("elif") && Stops(ts[n + 1], 0, true) && ts[n + 1] != Comma
    ensures ElseAt(ts, n, sub) == Done(Call("elif", []), n + 1)
  {
    hide ExprAt, LevelAt, UnaryAt, PostfixAt;
    var call := Call("elif", []);
    assert WordAt(ts, n, sub) == Done(call, n + 1);
    assert BaseAt(ts, n, sub) == Done(call, n + 1);
    PrimaryStep(ts, n, n + 1, sub, call);
    TermStep(ts, n, n + 1, sub, call);
    Climb(ts, n, n + 1, sub, 0, call);
    JoinerAtItsLevel(0, ts[n + 1]);
    SingleStep(ts, n, sub, call, n + 1);
  }

  // ----- Other ways to write the same tree -----

  /** A field name may be quoted, and behind a leading dot the next dot may be missing. */
  lemma {:induction false} QuotedNamesAreFields(ts: seq<Token>, p: nat, sub: Nested, base: Expr, name: string)
    requires EndsOnce(ts) && p + 1 < |ts|
    ensures ts[p] == Dot && ts[p + 1] in {Ident(name), Quote(name)} && p + 2 < |ts| ==>
              PostfixRest(ts, p, sub, base) == PostfixRest(ts, p + 2, sub, Field(base, name))
    ensures ts[p] in {Ident(name), Quote(name)} ==>
              ChainRest(ts, p, sub, base) == ChainRest(ts, p + 1, sub, Field(base, name))
  {
    hide BracketAt;
  }

  /** `..` is the input itself, and a variable's name can be a key. */
  lemma {:induction false} DotsAndKeys(ts: seq<Token>, p: nat, sub: Nested, name: string)
    requires EndsOnce(ts) && p + 1 < |ts|
    ensures ts[p] == RecursiveDot ==> BaseAt(ts, p, sub) == Done(Identity, p + 1)
    ensures ts[p] == VariableName(name) ==> KeyAt(ts, p, sub) == Done(IdentKey(name), p + 1)
  {
    hide LevelAt, ExprAt;
  }

  /** Arguments may be separated by semicolons as well. */
  lemma {:induction false} SemicolonsSeparate(
    ts: seq<Token>, p: nat, sub: Nested, f: string, a: Expr, b: Expr, rest: Tape) returns (q: nat)
    requires EndsOnce(ts) && Understands(ts, sub) && !Reserved(f) && Denotable(a) && Denotable(b)
    requires From(ts, p, Cut(Ident(f), Cut(LParen, Show(a, 0, false, Cut(Semicolon, Show(b, 0, false, Cut(RParen, rest)))))))
    ensures p < |ts| && From(ts, q, rest) && BaseAt(ts, p, sub) == Done(Call(f, [a, b]), q)
  {
    hide Denotable, Show, From, Understands, LevelAt, ArgsRest, BaseAt;
    var second := Cut(Semicolon, Show(b, 0, false, Cut(RParen, rest)));
    Next(ts, p, Ident(f), Cut(LParen, Show(a, 0, false, second)));
    Next(ts, p + 1, LParen, Show(a, 0, false, second));
    FirstToken(a, 0, false, second);
    FromCut(ts, p + 2, Show(a, 0, false, second));
    assert Stops(Semicolon, 0, false) && Stops(RParen, 0, false);
    var m := ParseItemBack(ts, p + 2, sub, a, false, second);
    var n := ParseItemBack(ts, m + 1, sub, b, false, Cut(RParen, rest));
    ArgsStep(ts, p + 2, m, sub, a, []);
    ArgsStep(ts, m + 1, n, sub, b, [] + [a]);
    assert [] + [a] + [b] == [] + [a, b];
    CallStep(ts, p, n, sub, Call(f, [a, b]));
    q := n + 1;
  }

  /** A parenthesised stream in an array contributes its members as elements. */
  lemma {:induction false} StreamsAreSpliced(ts: seq<Token>, p: nat, sub: Nested, es: seq<Expr>, rest: Tape) returns (q: nat)
    requires EndsOnce(ts) && Understands(ts, sub) && Denotable(Stream(es))
    requires From(ts, p, Cut(LBracket, Show(Stream(es), 0, false, Cut(RBracket, rest))))
    ensures p < |ts| && From(ts, q, rest) && BaseAt(ts, p, sub) == Done(ArrayExpr(es), q)
  {
    hide Denotable, Show, From, Understands, LevelAt, ElemsRest, BaseAt;
    var inner, tape := Stream(es), Show(Stream(es), 0, false, Cut(RBracket, rest));
    Next(ts, p, LBracket, tape);
    FirstToken(inner, 0, false, Cut(RBracket, rest));
    FromCut(ts, p + 1, tape);
    assert Stops(RBracket, 0, false);
    var m := ParseItemBack(ts, p + 1, sub, inner, false, Cut(RBracket, rest));
    SpliceStep(ts, p + 1, m, sub, es);
    ArrayStep(ts, p, m, sub, ArrayExpr(es));
    q := m + 1;
  }

  lemma {:induction false} SpliceStep(ts: seq<Token>, p: nat, m: nat, sub: Nested, es: seq<Expr>)
    requires EndsOnce(ts) && p < |ts| && m < |ts| && ts[m] != Comma && LevelAt(ts, p, sub, 0) == Done(Stream(es), m)
    ensures ElemsRest(ts, p, sub, []) == Done([] + es, m)
  {
    hide LevelAt;
  }

  // ----- What cannot start an expression -----

  predicate StartsNothing(t: Token) {
    t in {RBracket, RBrace, RParen, Bar, Comma, Colon, Semicolon, EqEq, NotEq, Less, LessEq, Greater, GreaterEq,
          Plus, Star, Slash, Percent, Alternative, Assign, Eof}
  }

  /** A mark that no expression starts with fails where it stands, at every level. */
  lemma {:induction false} MarksStartNothing(ts: seq<Token>, p: nat, sub: Nested, level: nat)
    requires EndsOnce(ts) && p < |ts| && StartsNothing(ts[p]) && level <= UNARY_LEVEL
    ensures LevelAt(ts, p, sub, level) == ExprAt(ts, p, sub) == Failed(ParseError(p))
    decreases UNARY_LEVEL - level
  {
    hide StartsNothing;
    AllLevelsFail(ts, p, sub, level);
    AllLevelsFail(ts, p, sub, 0);
    hide LevelAt;
  }

  lemma {:induction false} AllLevelsFail(ts: seq<Token>, p: nat, sub: Nested, level: nat)
    requires EndsOnce(ts) && p < |ts| && StartsNothing(ts[p]) && level <= UNARY_LEVEL
    ensures LevelAt(ts, p, sub, level) == Failed(ParseError(p))
    decreases UNARY_LEVEL - level
  {
    if level < UNARY_LEVEL {
      hide UnaryAt, StartsNothing, LevelRest;
      AllLevelsFail(ts, p, sub, level + 1);
    } else {
      hide StartsNothing, BaseAt, LevelRest;
      BaseFails(ts, p, sub);
      assert PostfixAt(ts, p, sub) == Failed(ParseError(p));
      assert UnaryAt(ts, p, sub) == Failed(ParseError(p));
    }
  }

  lemma {:induction false} BaseFails(ts: seq<Token>, p: nat, sub: Nested)
    requires EndsOnce(ts) && p < |ts| && StartsNothing(ts[p])
    ensures BaseAt(ts, p, sub) == Failed(ParseError(p)) && ts[p] != Minus && !ts[p].Ident?
  {
  }
}
