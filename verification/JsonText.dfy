/** The compact text of a value is an expression for that value. */
module JsonText {
  import opened Wrappers
  import opened Json
  import opened Syntax
  import opened Lexing
  import opened Grammar
  import opened Printing
  import opened Spelling
  import opened Precedence
  import opened Evaluation
  import opened JsonLexing
  import opened SelfEvaluation
  import opened WrittenTrees

  // ----- Lexing the text of a value -----

  /** An integer, or a float whose text is a number token, behind a minus sign if need be, that denotes the float. */
  predicate LegibleNumber(n: Json.Number) {
    n.Int?
    || (n.f >= 0.0 && Numeral(FLOAT_TEXT(n.f), n.f))
    || (n.f < 0.0 && |FLOAT_TEXT(n.f)| > 1 && FLOAT_TEXT(n.f)[0] == '-' && Numeral(FLOAT_TEXT(n.f)[1..], -n.f))
  }

  predicate Legible(v: Value)
    decreases v
  {
    match v
    case Num(n) => LegibleNumber(n)
    case Arr(items) => forall i | 0 <= i < |items| :: Legible(items[i])
    case Obj(fields) => forall k | k in fields :: Legible(fields[k])
    case _ => true
  }

  /** The text of a number is the numeral of its magnitude, behind a minus sign if it is negative. */
  function Magnitude(n: Json.Number): string
    requires LegibleNumber(n)
  {
    if n.Float? then (if n.f < 0.0 then FLOAT_TEXT(n.f)[1..] else FLOAT_TEXT(n.f))
    else NatText(if n.i < 0 then -n.i else n.i)
  }

  lemma NumberTokens(s: string, p: nat, n: Json.Number, rest: Tape)
    requires LegibleNumber(n) && At(s, p, NumberText(n)) && Delimited(s, p + |NumberText(n)|)
    requires Reads(s, p + |NumberText(n)|, rest)
    ensures Reads(s, p, Show(AsExpr(Num(n)), 0, false, rest))
  {
    hide Reads, NatText, Delimited, Numeral;
    var r, text := n.AsReal(), Magnitude(n);
    NumberShown(r, rest);
    if r < 0.0 {
      assert NumberText(n) == "-" + text;
      AtSplit(s, p, "-", text);
      assert s[p] == s[p..p + 1][0] == '-';
      MagnitudeToken(s, p + 1, n, rest);
      Punctuation(s, p, Cut(Syntax.Number(-r), rest));
    } else {
      MagnitudeToken(s, p, n, rest);
    }
  }

  lemma MagnitudeToken(s: string, p: nat, n: Json.Number, rest: Tape)
    requires LegibleNumber(n) && At(s, p, Magnitude(n)) && Delimited(s, p + |Magnitude(n)|)
    requires Reads(s, p + |Magnitude(n)|, rest)
    ensures Reads(s, p, Cut(Syntax.Number(if n.AsReal() < 0.0 then -n.AsReal() else n.AsReal()), rest))
  {
    hide Reads, NatText, Delimited, Numeral, At;
    if n.Int? {
      var size := if n.i < 0 then -n.i else n.i;
      NaturalToken(s, p, size, rest);
      assert size as real == if n.AsReal() < 0.0 then -n.AsReal() else n.AsReal();
    } else {
      NumeralToken(s, p, Magnitude(n), if n.f < 0.0 then -n.f else n.f, rest);
    }
  }

  lemma NumberShown(r: real, rest: Tape)
    ensures forall n: Json.Number | n.AsReal() == r ::
              Show(AsExpr(Num(n)), 0, false, rest) ==
              if r < 0.0 then Cut(Minus, Cut(Syntax.Number(-r), rest)) else Cut(Syntax.Number(r), rest)
  {
    JsonNumIsStable(r);
    JsonNumIsStable(-r);
    hide JsonNum;
    assert Show(Literal(Num(JsonNum(-r))), UNARY_LEVEL, false, rest) == Cut(Syntax.Number(-r), rest);
  }

  lemma ShowString(text: string, rest: Tape)
    ensures Show(StrExpr([LiteralPart(text)]), 0, false, rest) == Cut(Quote(text), rest)
  {
    var parts := [LiteralPart(text)];
    assert parts[1..] == [];
    assert ShowParts(parts[1..], rest) == rest;
    assert ShowParts(parts, rest) == Cut(Quote(text), rest);
    assert Body(StrExpr(parts), false, rest) == ShowParts(parts, rest);
  }

  lemma ShowArray(es: seq<Expr>, rest: Tape)
    ensures Show(ArrayExpr(es), 0, false, rest) == Cut(LBracket, ShowAll(es, false, Cut(RBracket, rest)))
  {
    hide ShowAll;
  }

  lemma ShowObject(entries: seq<Entry>, rest: Tape)
    ensures Show(ObjectExpr(entries), 0, false, rest) == Cut(LBrace, ShowEntries(entries, Cut(RBrace, rest)))
  {
    hide ShowEntries;
  }

  /** A bracketed piece: an opening mark, an inner text that is read, and a closing mark. */
  lemma Closing(s: string, p: nat, mark: char, rest: Tape)
    requires At(s, p, [mark]) && mark in "[]{},:-" && Reads(s, p + 1, rest)
    ensures SingleToken(mark).Some? && Reads(s, p, Cut(SingleToken(mark).value, rest))
    ensures mark in ",:]}" ==> Delimited(s, p)
  {
    hide Tokens;
    assert s[p] == s[p..p + 1][0] == mark;
    Punctuation(s, p, rest);
  }

  lemma {:induction false} ValueTokens(s: string, p: nat, v: Value, rest: Tape)
    requires Legible(v)
    requires At(s, p, Text(v)) && Delimited(s, p + |Text(v)|)
    requires Reads(s, p + |Text(v)|, rest)
    ensures Reads(s, p, Show(AsExpr(v), 0, false, rest))
    decreases v, 2, 0
  {
    hide Reads, At, Delimited, Show;
    match v
    case Null => WordTokens(s, p, v, rest);
    case Bool(b) => WordTokens(s, p, v, rest);
    case Num(n) => NumberTokens(s, p, n, rest);
    case Str(text) =>
      StringToken(s, p, text, rest);
      ShowString(text, rest);
    case Arr(items) => ArrayTokens(s, p, v, rest);
    case Obj(fields) => ObjectTokens(s, p, v, rest);
  }

  lemma WordTokens(s: string, p: nat, v: Value, rest: Tape)
    requires v.Null? || v.Bool?
    requires At(s, p, Text(v)) && Delimited(s, p + |Text(v)|)
    requires Reads(s, p + |Text(v)|, rest)
    ensures Reads(s, p, Show(AsExpr(v), 0, false, rest))
  {
    hide Reads, At, Delimited;
    assert IsWord(Text(v));
    WordToken(s, p, Text(v), rest);
  }

  lemma {:induction false} ArrayTokens(s: string, p: nat, v: Value, rest: Tape)
    requires v.Arr? && Legible(v)
    requires At(s, p, Text(v))
    requires Reads(s, p + |Text(v)|, rest)
    ensures Reads(s, p, Show(AsExpr(v), 0, false, rest))
    decreases v, 1, 0
  {
    hide Reads, At, Delimited, Show, ShowAll, ItemsText;
    var inner := ItemsText(v.items);
    assert Text(v) == "[" + (inner + "]");
    AtSplit(s, p, "[", inner + "]");
    AtSplit(s, p + 1, inner, "]");
    Closing(s, p + 1 + |inner|, ']', rest);
    ItemsTokens(s, p + 1, v.items, Cut(RBracket, rest));
    Closing(s, p, '[', ShowAll(AsExprs(v.items), false, Cut(RBracket, rest)));
    ShowArray(AsExprs(v.items), rest);
  }

  lemma {:induction false} ItemsTokens(s: string, p: nat, items: seq<Value>, rest: Tape)
    requires forall i | 0 <= i < |items| :: Legible(items[i])
    requires At(s, p, ItemsText(items)) && Delimited(s, p + |ItemsText(items)|)
    requires Reads(s, p + |ItemsText(items)|, rest)
    ensures Reads(s, p, ShowAll(AsExprs(items), false, rest))
    decreases items, 0, 0
  {
    hide Reads, At, Delimited, Show, Legible;
    if items == [] {
    } else if |items| == 1 {
      ValueTokens(s, p, items[0], rest);
      assert AsExprs(items) == [AsExpr(items[0])];
    } else {
      var head, tail := Text(items[0]), ItemsText(items[1..]);
      assert ItemsText(items) == head + ("," + tail);
      AtSplit(s, p, head, "," + tail);
      AtSplit(s, p + |head|, ",", tail);
      ItemsTokens(s, p + |head| + 1, items[1..], rest);
      var after := ShowAll(AsExprs(items[1..]), false, rest);
      Closing(s, p + |head|, ',', after);
      ValueTokens(s, p, items[0], Cut(Comma, after));
      assert AsExprs(items)[1..] == AsExprs(items[1..]);
    }
  }

  lemma {:induction false} ObjectTokens(s: string, p: nat, v: Value, rest: Tape)
    requires v.Obj? && Legible(v)
    requires At(s, p, Text(v))
    requires Reads(s, p + |Text(v)|, rest)
    ensures Reads(s, p, Show(AsExpr(v), 0, false, rest))
    decreases v, 1, |v.fields| + 1
  {
    hide Reads, At, Delimited, Show, ShowEntries, FieldsText;
    SortedKeysEnumerate(v.fields.Keys);
    var keys := SortedKeys(v.fields.Keys);
    var inner := FieldsText(v, keys);
    assert Text(v) == "{" + (inner + "}");
    AtSplit(s, p, "{", inner + "}");
    AtSplit(s, p + 1, inner, "}");
    Closing(s, p + 1 + |inner|, '}', rest);
    FieldsTokens(s, p + 1, v, keys, Cut(RBrace, rest));
    Closing(s, p, '{', ShowEntries(AsEntries(v, keys), Cut(RBrace, rest)));
    ShowObject(AsEntries(v, keys), rest);
  }

  lemma {:induction false} FieldTokens(s: string, p: nat, obj: Value, key: string, rest: Tape)
    requires obj.Obj? && Legible(obj) && key in obj.fields
    requires At(s, p, FieldText(obj, key)) && Delimited(s, p + |FieldText(obj, key)|)
    requires Reads(s, p + |FieldText(obj, key)|, rest)
    ensures Reads(s, p, ShowEntry(Entry(StrKey(key), AsExpr(obj.fields[key])), rest))
    decreases obj, 0, 0
  {
    hide Reads, At, Delimited, Show, Quoted;
    var name, value := Quoted(key), obj.fields[key];
    assert FieldText(obj, key) == name + (":" + Text(value));
    AtSplit(s, p, name, ":" + Text(value));
    AtSplit(s, p + |name|, ":", Text(value));
    ValueTokens(s, p + |name| + 1, value, rest);
    var after := Show(AsExpr(value), 0, false, rest);
    Closing(s, p + |name|, ':', after);
    StringToken(s, p, key, Cut(Colon, after));
  }

  lemma {:induction false} FieldsTokens(s: string, p: nat, obj: Value, keys: seq<string>, rest: Tape)
    requires obj.Obj? && Legible(obj) && forall k | k in keys :: k in obj.fields
    requires At(s, p, FieldsText(obj, keys)) && Delimited(s, p + |FieldsText(obj, keys)|)
    requires Reads(s, p + |FieldsText(obj, keys)|, rest)
    ensures Reads(s, p, ShowEntries(AsEntries(obj, keys), rest))
    decreases obj, 1, |keys|
  {
    hide Reads, At, Delimited, ShowEntry, FieldText, AsExpr, Legible;
    if keys == [] {
    } else if |keys| == 1 {
      FieldTokens(s, p, obj, keys[0], rest);
      assert AsEntries(obj, keys) == [Entry(StrKey(keys[0]), AsExpr(obj.fields[keys[0]]))];
    } else {
      var head, tail := FieldText(obj, keys[0]), FieldsText(obj, keys[1..]);
      assert FieldsText(obj, keys) == head + ("," + tail);
      AtSplit(s, p, head, "," + tail);
      AtSplit(s, p + |head|, ",", tail);
      FieldsTokens(s, p + |head| + 1, obj, keys[1..], rest);
      var after := ShowEntries(AsEntries(obj, keys[1..]), rest);
      Closing(s, p + |head|, ',', after);
      FieldTokens(s, p, obj, keys[0], Cut(Comma, after));
      assert AsEntries(obj, keys)[1..] == AsEntries(obj, keys[1..]);
    }
  }

  // ----- The whole way -----

  lemma EndOfText(s: string)
    ensures Reads(s, |s|, Cut(Eof, End))
  {
    assert Flat(Cut(Eof, End)) == [Eof];
  }

  lemma RankOfTextTree(v: Value)
    ensures Rank(AsExpr(v)) >= UNARY_LEVEL
  {
    hide AsExprs, AsEntries, JsonNum;
  }

  lemma TextTokens(v: Value)
    requires Legible(v)
    ensures Tokens(Text(v), 0).Ok?
    ensures From(Tokens(Text(v), 0).value, 0, Show(AsExpr(v), COMMA, false, Cut(Eof, End)))
  {
    hide Text, Legible, AsExpr, Rank, From, Flat, Body, Tokens, Glues;
    var s, end := Text(v), Cut(Eof, End);
    assert s[0..0 + |s|] == s;
    EndOfText(s);
    ValueTokens(s, 0, v, end);
    RankOfTextTree(v);
    assert Show(AsExpr(v), COMMA, false, end) == Show(AsExpr(v), 0, false, end);
    FlatIsFrom([], Show(AsExpr(v), 0, false, end));
    assert [] + Flat(Show(AsExpr(v), 0, false, end)) == Flat(Show(AsExpr(v), 0, false, end));
  }

  lemma TextParses(v: Value)
    requires Legible(v)
    ensures Source(Text(v)) == Ok(AsExpr(v))
  {
    hide Text, Legible, AsExpr, From, Tokens, Show, ExprAt, Denotable, Understands;
    TextTokens(v);
    SourcesAreUnderstood(Text(v));
    TextTreeIsDenotable(v);
    PrintedTreesParseBack(Tokens(Text(v), 0).value, Shorter(Text(v)), AsExpr(v));
  }

  /** What a source evaluates to, parsing included. */
  ghost function Run(source: string, input: Value, env: Env): Outcome {
    var e :- Source(source);
    Eval(e, input, env)
  }

  /** The text of a value evaluates, on every input, to one result: the value with its numbers read as floats.
      That is the value itself exactly when its integers lie below 2^53 in magnitude and none of its floats equals
      such an integer. */
  lemma TextEvaluatesToItself(v: Value, input: Value, env: Env)
    requires Legible(v)
    ensures Run(Text(v), input, env) == Ok([AsRead(v)])
    ensures Run(Text(v), input, env) == Ok([v]) <==> Exact(v)
  {
    hide Text, Legible, AsExpr, Exact, AsRead, Source, Eval;
    TextParses(v);
    TextTreeEvaluates(v, input, env);
    ReadBackUnchanged(v);
    assert [AsRead(v)] == [v] <==> AsRead(v) == v by {
      if [AsRead(v)] == [v] { assert [AsRead(v)][0] == [v][0]; }
    }
  }

  /** The first integer that does not survive comes back as a float. */
  lemma LargeIntegerChangesKind(input: Value, env: Env)
    ensures Run(Text(Num(Int(EXACT_LIMIT))), input, env) == Ok([Num(Float(EXACT_LIMIT as real))])
  {
    hide Run, Text;
    TextEvaluatesToItself(Num(Int(EXACT_LIMIT)), input, env);
  }

  // ----- What the text looks like -----

  /** Texts of lists, the first item taken apart: no blanks, a comma between items. */
  lemma {:induction false} ArrayText(v: Value, rest: seq<Value>)
    ensures Text(Arr([])) == "[]"
    ensures Text(Arr([v] + rest)) == "[" + Text(v) + if rest == [] then "]" else "," + Text(Arr(rest))[1..]
  {
    var all := [v] + rest;
    assert all[0] == v && all[1..] == rest;
    hide Text;
    ArrayIs(all);
    ArrayIs(rest);
    ArrayIs([]);
    hide ItemsText;
    if rest != [] {
      assert "[" + (Text(v) + "," + ItemsText(rest)) + "]" == "[" + Text(v) + ("," + (ItemsText(rest) + "]"));
      assert ("[" + ItemsText(rest) + "]")[1..] == ItemsText(rest) + "]";
    }
  }

  lemma ArrayIs(items: seq<Value>)
    ensures Text(Arr(items)) == "[" + ItemsText(items) + "]"
    ensures ItemsText(items) ==
            if items == [] then "" else if |items| == 1 then Text(items[0]) else Text(items[0]) + "," + ItemsText(items[1..])
  {
    ArrayIsBracketed(items);
    hide Text;
  }

  lemma ArrayIsBracketed(items: seq<Value>)
    ensures Text(Arr(items)) == "[" + ItemsText(items) + "]"
  {
    hide ItemsText, FieldsText, SortedKeys, Quoted, NumberText;
  }

  /** Texts of objects, the least key taken out: keys are quoted and ascend. */
  lemma {:induction false} ObjectText(fields: map<string, Value>, k: string)
    requires IsLeast(k, fields.Keys)
    ensures Text(Obj(map[])) == "{}"
    ensures var rest := fields - {k};
            Text(Obj(fields)) ==
            "{" + Text(Str(k)) + ":" + Text(fields[k]) + if rest == map[] then "}" else "," + Text(Obj(rest))[1..]
  {
    hide Text, SortedKeys, FieldsText, StringLess, Quoted, IsLeast;
    var rest, v := fields - {k}, Obj(fields);
    ObjectIs(fields);
    ObjectIs(rest);
    EmptyObject();
    LeastIsFirst(fields.Keys, k);
    assert rest.Keys == fields.Keys - {k};
    var tail := SortedKeys(rest.Keys);
    var keys := [k] + tail;
    assert keys[0] in keys && keys[1..] == tail;
    NothingRemains(rest);
    FieldsAre(v, keys);
    StringIs(k);
    forall f | f in tail ensures f in fields && f in rest && fields[f] == rest[f] {
    }
    SameFields(v, Obj(rest), tail);
    var inner := FieldsText(Obj(rest), tail);
    assert ("{" + inner + "}")[1..] == inner + "}";
    Bracketed(Quoted(k) + ":" + Text(fields[k]), inner);
  }

  lemma Bracketed(head: string, tail: string)
    ensures "{" + (head + "") + "}" == "{" + head + "}"
    ensures "{" + (head + ("," + tail)) + "}" == "{" + head + ("," + (tail + "}"))
  {
  }

  lemma NothingRemains(fields: map<string, Value>)
    ensures fields == map[] <==> SortedKeys(fields.Keys) == []
  {
    SortedKeysEnumerate(fields.Keys);
    assert fields == map[] <==> fields.Keys == {};
  }

  lemma StringIs(s: string)
    ensures Text(Str(s)) == Quoted(s)
  {
  }

  lemma EmptyObject()
    ensures Text(Obj(map[])) == "{}"
  {
    assert SortedKeys({}) == [];
  }

  lemma ObjectIs(fields: map<string, Value>)
    ensures forall k :: k in SortedKeys(fields.Keys) <==> k in fields
    ensures Text(Obj(fields)) == "{" + FieldsText(Obj(fields), SortedKeys(fields.Keys)) + "}"
  {
    SortedKeysEnumerate(fields.Keys);
  }

  lemma {:induction false} LeastIsFirst(keys: set<string>, k: string)
    requires IsLeast(k, keys)
    ensures SortedKeys(keys) == [k] + SortedKeys(keys - {k})
  {
    LeastUnique(keys);
  }

  lemma FieldsAre(obj: Value, keys: seq<string>)
    requires obj.Obj? && keys != [] && forall k | k in keys :: k in obj.fields
    ensures FieldsText(obj, keys) ==
            Quoted(keys[0]) + ":" + Text(obj.fields[keys[0]]) + if |keys| == 1 then "" else "," + FieldsText(obj, keys[1..])
  {
    hide Text, Quoted;
    var head := FieldText(obj, keys[0]);
    assert head == Quoted(keys[0]) + ":" + Text(obj.fields[keys[0]]);
  }

  lemma {:induction false} SameFields(a: Value, b: Value, keys: seq<string>)
    requires a.Obj? && b.Obj? && forall k | k in keys :: k in a.fields && k in b.fields && a.fields[k] == b.fields[k]
    ensures FieldsText(a, keys) == FieldsText(b, keys)
    decreases |keys|
  {
    hide Text, Quoted;
    if keys != [] {
      FieldsAre(a, keys);
      FieldsAre(b, keys);
      SameFields(a, b, keys[1..]);
    }
  }

  /** How a character is written inside quotes: control characters have a letter or two lower-case hexadecimal digits. */
  function WrittenChar(c: char): string {
    var n := c as int;
    if c == '\"' || c == '\\' then ['\\', c]
    else if n == 8 then "\\b" else if n == 9 then "\\t" else if n == 10 then "\\n"
    else if n == 12 then "\\f" else if n == 13 then "\\r"
    else if n < 32 then "\\u00" + ["01"[n / 16], "0123456789abcdef"[n % 16]]
    else [c]
  }

  lemma {:induction false} StringText(c: char, rest: string)
    ensures Text(Str("")) == "\"\""
    ensures Text(Str([c] + rest)) == "\"" + WrittenChar(c) + Text(Str(rest))[1..]
  {
    var all := [c] + rest;
    assert all[0] == c && all[1..] == rest;
    CharIs(c);
    StringIs("");
    StringIs(rest);
    StringIs(all);
    hide Text, EscapeChar, WrittenChar;
    assert EscapeText(all) == EscapeChar(c) + EscapeText(rest);
    assert ("\"" + (EscapeText(rest) + "\""))[1..] == EscapeText(rest) + "\"";
  }

  lemma CharIs(c: char)
    ensures EscapeChar(c) == WrittenChar(c)
  {
  }

  /** Words and integers. */
  lemma {:induction false} ScalarText(n: nat)
    ensures Text(Null) == "null" && Text(Bool(true)) == "true" && Text(Bool(false)) == "false"
    ensures AllDigits(Text(Num(Int(n)))) && NatOf(Text(Num(Int(n)))) == n && (n > 0 ==> Text(Num(Int(n)))[0] != '0')
    ensures n > 0 ==> Text(Num(Int(-(n as int)))) == "-" + Text(Num(Int(n)))
  {
    NatTextDigits(n);
    NoLeadingZero(n);
  }
}
