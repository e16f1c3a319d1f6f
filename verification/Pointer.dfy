/** Compiling every expression of a definition, and the JSON Pointer that names the first one that fails. */
module Pointer {
  import opened Wrappers
  import opened Json
  import opened Lexing
  import opened JsonLexing
  import Template

  // What compiling a source yields, if it compiles.
  datatype Compiled = Compiled(source: string)

  const COMPILE: string -> Result<Compiled, string>

  // ----- Reference tokens (sections 3 and 4 of RFC 6901) -----

  function ReplaceChar(s: string, c: char, to: string): string {
    if s == "" then "" else (if s[0] == c then to else [s[0]]) + ReplaceChar(s[1..], c, to)
  }

  function ReplacePair(s: string, a: char, b: char, to: char): string {
    if |s| >= 2 && s[0] == a && s[1] == b then [to] + ReplacePair(s[2..], a, b, to)
    else if s == "" then ""
    else [s[0]] + ReplacePair(s[1..], a, b, to)
  }

  function EscapeToken(token: string): string {
    ReplaceChar(ReplaceChar(token, '~', "~0"), '/', "~1")
  }

  function UnescapeToken(text: string): string {
    ReplacePair(ReplacePair(text, '~', '1', '/'), '~', '0', '~')
  }

  lemma {:induction false} SlashesRestored(s: string)
    requires forall i | 0 <= i < |s| - 1 :: s[i] == '~' ==> s[i + 1] == '0'
    requires s != "" ==> s[|s| - 1] != '~'
    ensures ReplacePair(ReplaceChar(s, '/', "~1"), '~', '1', '/') == s
    decreases |s|
  {
    if s != "" {
      var rest := ReplaceChar(s[1..], '/', "~1");
      SlashesRestored(s[1..]);
      if s[0] == '/' {
        assert ("~1" + rest)[2..] == rest;
      } else {
        var all := [s[0]] + rest;
        assert all[1..] == rest;
        if s[0] == '~' {
          assert s[1] == '0' && rest[0] == '0';
        }
      }
    }
  }

  lemma {:induction false} TildesDoubled(token: string)
    ensures var s := ReplaceChar(token, '~', "~0");
            && (forall i | 0 <= i < |s| - 1 :: s[i] == '~' ==> s[i + 1] == '0')
            && (s != "" ==> s[|s| - 1] != '~')
            && (forall i | 0 <= i < |s| :: s[i] == '/' ==> '/' in token)
  {
    if token != "" {
      TildesDoubled(token[1..]);
    }
  }

  lemma {:induction false} TildesRestored(token: string)
    ensures ReplacePair(ReplaceChar(token, '~', "~0"), '~', '0', '~') == token
  {
    if token != "" {
      var rest := ReplaceChar(token[1..], '~', "~0");
      TildesRestored(token[1..]);
      if token[0] == '~' {
        assert ("~0" + rest)[2..] == rest;
      } else {
        assert ([token[0]] + rest)[1..] == rest;
      }
    }
  }

  /** Unescaping undoes escaping. */
  lemma EscapeRoundTrip(token: string)
    ensures UnescapeToken(EscapeToken(token)) == token
  {
    var s := ReplaceChar(token, '~', "~0");
    TildesDoubled(token);
    SlashesRestored(s);
    TildesRestored(token);
  }

  /** Escaping works character by character. */
  lemma {:induction false} EscapesAre(c: char, rest: string)
    ensures EscapeToken("") == ""
    ensures EscapeToken([c] + rest) == (if c == '~' then "~0" else if c == '/' then "~1" else [c]) + EscapeToken(rest)
  {
    var all := [c] + rest;
    assert all[0] == c && all[1..] == rest;
    var inner := ReplaceChar(rest, '~', "~0");
    if c == '~' {
      assert ReplaceChar(all, '~', "~0") == ['~'] + (['0'] + inner);
      assert (['~'] + (['0'] + inner))[1..] == ['0'] + inner && (['0'] + inner)[1..] == inner;
      assert ReplaceChar(['0'] + inner, '/', "~1") == ['0'] + ReplaceChar(inner, '/', "~1");
    } else {
      assert ReplaceChar(all, '~', "~0") == [c] + inner;
      assert ([c] + inner)[1..] == inner;
    }
  }

  lemma {:induction false} EscapedHasNoSlash(s: string)
    ensures '/' !in ReplaceChar(s, '/', "~1")
  {
    if s != "" {
      EscapedHasNoSlash(s[1..]);
    }
  }

  function PointerTo(tokens: seq<string>): string {
    if tokens == [] then "" else PointerTo(tokens[..|tokens| - 1]) + "/" + EscapeToken(tokens[|tokens| - 1])
  }

  // ----- Reading a pointer -----

  function SlashAt(text: string, i: nat): (r: nat)
    requires i <= |text|
    ensures i <= r <= |text| && (r < |text| ==> text[r] == '/') && forall k | i <= k < r :: text[k] != '/'
    decreases |text| - i
  {
    if i == |text| || text[i] == '/' then i else SlashAt(text, i + 1)
  }

  /** The reference tokens of a pointer; anything that does not start with a slash is none. */
  function TokensOf(text: string): Option<seq<string>>
    decreases |text|
  {
    if text == "" then Some([])
    else if text[0] != '/' then None
    else
      var end := SlashAt(text, 1);
      match TokensOf(text[end..])
      case None => None
      case Some(rest) => Some([UnescapeToken(text[1..end])] + rest)
  }

  /** The array index a token stands for: digits without a leading zero. */
  function IndexOf(token: string): Option<nat> {
    if token != "" && AllDigits(token) && (|token| > 1 ==> token[0] != '0') then Some(NatOf(token)) else None
  }

  function Resolve(v: Value, tokens: seq<string>): Option<Value> {
    if tokens == [] then Some(v)
    else
      match v
      case Arr(items) =>
        var index := IndexOf(tokens[0]);
        if index.Some? && index.value < |items| then Resolve(items[index.value], tokens[1..]) else None
      case Obj(fields) =>
        if tokens[0] in fields then Resolve(fields[tokens[0]], tokens[1..]) else None
      case _ => None
  }

  /** What a pointer evaluates to in a document (section 4 of RFC 6901). */
  function Evaluate(v: Value, pointer: string): Option<Value> {
    match TokensOf(pointer)
    case None => None
    case Some(tokens) => Resolve(v, tokens)
  }

  lemma SlashAfter(token: string, rest: string)
    requires '/' !in token && (rest != "" ==> rest[0] == '/')
    ensures SlashAt("/" + token + rest, 1) == 1 + |token|
  {
    var text := "/" + token + rest;
    var end := SlashAt(text, 1);
    forall k | 1 <= k < 1 + |token| ensures text[k] != '/' {
      assert text[k] == token[k - 1] && token[k - 1] in token;
    }
    if rest != "" {
      assert text[1 + |token|] == rest[0];
    }
  }

  lemma {:induction false} TokensOfFirst(token: string, rest: string)
    requires rest != "" ==> rest[0] == '/'
    ensures TokensOf("/" + EscapeToken(token) + rest) ==
            (match TokensOf(rest) case None => None case Some(tokens) => Some([token] + tokens))
  {
    var escaped := EscapeToken(token);
    EscapedHasNoSlash(ReplaceChar(token, '~', "~0"));
    SlashAfter(escaped, rest);
    EscapeRoundTrip(token);
    var text := "/" + escaped + rest;
    assert text[1..1 + |escaped|] == escaped;
    assert text[1 + |escaped|..] == rest;
  }

  lemma PointerLast(tokens: seq<string>)
    requires tokens != []
    ensures PointerTo(tokens) == PointerTo(tokens[..|tokens| - 1]) + "/" + EscapeToken(tokens[|tokens| - 1])
    ensures PointerTo([]) == ""
  {
    hide EscapeToken;
  }

  lemma Regroup(a: string, b: string, c: string)
    ensures "/" + a + b + "/" + c == "/" + a + (b + "/" + c)
  {
  }

  lemma {:induction false} PointerFirst(tokens: seq<string>)
    requires tokens != []
    ensures PointerTo(tokens) == "/" + EscapeToken(tokens[0]) + PointerTo(tokens[1..])
    decreases |tokens|
  {
    hide EscapeToken, PointerTo;
    PointerLast(tokens);
    if |tokens| == 1 {
      assert tokens[..0] == [] && tokens[1..] == [];
      assert "" + "/" + EscapeToken(tokens[0]) == "/" + EscapeToken(tokens[0]) + "";
    } else {
      var init, tail, last := tokens[..|tokens| - 1], tokens[1..], tokens[|tokens| - 1];
      PointerFirst(init);
      PointerLast(tail);
      assert tail[..|tail| - 1] == init[1..] && tail[|tail| - 1] == last;
      Regroup(EscapeToken(tokens[0]), PointerTo(init[1..]), EscapeToken(last));
    }
  }

  lemma {:induction false} PointerStartsWithSlash(tokens: seq<string>)
    ensures PointerTo(tokens) != "" ==> PointerTo(tokens)[0] == '/'
  {
    if tokens != [] {
      PointerFirst(tokens);
    }
  }

  /** Reading a pointer gives back the tokens it was made from, so distinct paths have distinct pointers. */
  lemma {:induction false} PointerRoundTrip(tokens: seq<string>)
    ensures TokensOf(PointerTo(tokens)) == Some(tokens)
    decreases |tokens|
  {
    hide EscapeToken;
    if tokens == [] {
      assert TokensOf("") == Some([]);
    } else {
      PointerFirst(tokens);
      PointerStartsWithSlash(tokens[1..]);
      TokensOfFirst(tokens[0], PointerTo(tokens[1..]));
      PointerRoundTrip(tokens[1..]);
      assert [tokens[0]] + tokens[1..] == tokens;
    }
  }

  lemma PointersAreDistinct(a: seq<string>, b: seq<string>)
    requires a != b
    ensures PointerTo(a) != PointerTo(b)
  {
    PointerRoundTrip(a);
    PointerRoundTrip(b);
  }

  lemma IndexRoundTrip(n: nat)
    ensures IndexOf(NatText(n)) == Some(n)
  {
    NatTextDigits(n);
    NoLeadingZero(n);
  }

  // ----- Which strings are expressions -----

  const EXPRESSION_FIELDS := {"if", "when", "while", "in", "as", "from", "exceptWhen", "until", "set"}

  predicate BearsExpression(source: string, key: Option<string>) {
    (key.Some? && key.value in EXPRESSION_FIELDS) || Template.HasMarker(source)
  }

  /** Every expression-bearing string of the tree compiles. */
  predicate Accepts(v: Value, key: Option<string>)
    decreases v
  {
    match v
    case Str(source) => BearsExpression(source, key) ==> COMPILE(source).Ok?
    case Arr(items) => forall i | 0 <= i < |items| :: Accepts(items[i], None)
    case Obj(fields) => forall k | k in fields :: Accepts(fields[k], Some(k))
    case _ => true
  }

  /** Nine fields hold expressions as plain text; anywhere else a string is one only if it has a block. */
  lemma {:induction false} ExpressionsAre(source: string, field: string)
    requires COMPILE(source).Err?
    ensures Accepts(Obj(map[field := Str(source)]), None) <==>
            !Template.HasMarker(source)
            && field !in {"if", "when", "while", "in", "as", "from", "exceptWhen", "until", "set"}
    ensures Accepts(Str(source), None) <==> !Template.HasMarker(source)
    ensures Accepts(Obj(map[field := Arr([Str(source)])]), None) <==> !Template.HasMarker(source)
  {
    hide Template.HasMarker;
    var inner, list := map[field := Str(source)], map[field := Arr([Str(source)])];
    assert Accepts(Obj(inner), None) <==> Accepts(Str(source), Some(field)) by {
      assert field in inner && forall k | k in inner :: k == field;
    }
    assert Accepts(Obj(list), None) <==> Accepts(Arr([Str(source)]), Some(field)) by {
      assert field in list && forall k | k in list :: k == field;
    }
    assert [Str(source)][0] == Str(source);
  }

  /** A string that compiles is never in the way, and scalars never are. */
  lemma {:induction false} OthersAreAccepted(v: Value, key: Option<string>)
    ensures v.Str? && COMPILE(v.s).Ok? ==> Accepts(v, key)
    ensures v.Null? || v.Bool? || v.Num? ==> Accepts(v, key)
  {
  }

  // ----- The first failure -----

  datatype Failure = Failure(tokens: seq<string>, source: string, error: string)

  function Below(token: string, f: Option<Failure>): Option<Failure> {
    if f.Some? then Some(f.value.(tokens := [token] + f.value.tokens)) else None
  }

  function FirstFailure(v: Value, key: Option<string>): Option<Failure>
    decreases v, 2, 0
  {
    match v
    case Str(source) =>
      if BearsExpression(source, key) && COMPILE(source).Err? then Some(Failure([], source, COMPILE(source).error)) else None
    case Arr(items) => FirstInItems(v, 0)
    case Obj(fields) =>
      SortedKeysEnumerate(fields.Keys);
      FirstInFields(v, SortedKeys(fields.Keys))
    case _ => None
  }

  function FirstInItems(v: Value, i: nat): Option<Failure>
    requires v.Arr? && i <= |v.items|
    decreases v, 1, |v.items| - i
  {
    if i == |v.items| then None
    else
      var here := FirstFailure(v.items[i], None);
      if here.Some? then Below(NatText(i), here) else FirstInItems(v, i + 1)
  }

  function FirstInFields(v: Value, keys: seq<string>): Option<Failure>
    requires v.Obj? && forall k | k in keys :: k in v.fields
    decreases v, 1, |keys|
  {
    if keys == [] then None
    else
      var here := FirstFailure(v.fields[keys[0]], Some(keys[0]));
      if here.Some? then Below(keys[0], here) else FirstInFields(v, keys[1..])
  }

  /** A failure points at a string that bears an expression and does not compile. */
  ghost predicate PointsAt(v: Value, f: Failure) {
    Resolve(v, f.tokens) == Some(Str(f.source)) && COMPILE(f.source) == Err(f.error)
  }

  lemma {:induction false} FailureIsReal(v: Value, key: Option<string>)
    ensures FirstFailure(v, key).None? <==> Accepts(v, key)
    ensures FirstFailure(v, key).Some? ==> PointsAt(v, FirstFailure(v, key).value)
    decreases v, 2, 0
  {
    hide FirstInItems, FirstInFields, BearsExpression, SortedKeys, StringLess;
    match v
    case Arr(items) => ItemFailureIsReal(v, 0);
    case Obj(fields) =>
      SortedKeysEnumerate(fields.Keys);
      FieldFailureIsReal(v, SortedKeys(fields.Keys));
    case Str(_) =>
    case Null =>
    case Bool(_) =>
    case Num(_) =>
  }

  lemma {:induction false} ItemFailureIsReal(v: Value, i: nat)
    requires v.Arr? && i <= |v.items|
    ensures FirstInItems(v, i).None? <==> forall j | i <= j < |v.items| :: Accepts(v.items[j], None)
    ensures FirstInItems(v, i).Some? ==> PointsAt(v, FirstInItems(v, i).value)
    decreases v, 1, |v.items| - i
  {
    hide FirstFailure, Accepts;
    if i < |v.items| {
      FailureIsReal(v.items[i], None);
      var here := FirstFailure(v.items[i], None);
      if here.Some? {
        IndexRoundTrip(i);
        hide NatText;
        assert ([NatText(i)] + here.value.tokens)[1..] == here.value.tokens;
      } else {
        ItemFailureIsReal(v, i + 1);
      }
    }
  }

  lemma {:induction false} FieldFailureIsReal(v: Value, keys: seq<string>)
    requires v.Obj? && forall k | k in keys :: k in v.fields
    ensures FirstInFields(v, keys).None? <==> forall k | k in keys :: Accepts(v.fields[k], Some(k))
    ensures FirstInFields(v, keys).Some? ==> PointsAt(v, FirstInFields(v, keys).value)
    decreases v, 1, |keys|
  {
    hide FirstFailure, Accepts;
    if keys != [] {
      FailureIsReal(v.fields[keys[0]], Some(keys[0]));
      var here := FirstFailure(v.fields[keys[0]], Some(keys[0]));
      if here.Some? {
        assert ([keys[0]] + here.value.tokens)[1..] == here.value.tokens;
      } else {
        FieldFailureIsReal(v, keys[1..]);
        assert forall k :: k in keys <==> k == keys[0] || k in keys[1..];
      }
    }
  }

  /** The same failure, one level further in. */
  predicate IsBelow(f: Failure, token: string, g: Failure) {
    f.tokens == [token] + g.tokens && f.source == g.source && f.error == g.error
  }

  /** The failure found is the first one: items before it are accepted, and so are entries with smaller keys. */
  lemma {:induction false} FailuresComeInOrder(v: Value, key: Option<string>)
    requires FirstFailure(v, key).Some?
    ensures v.Str? || v.Arr? || v.Obj?
    ensures v.Str? ==> BearsExpression(v.s, key) && FirstFailure(v, key) == Some(Failure([], v.s, COMPILE(v.s).error))
    ensures v.Arr? ==>
              exists i: nat | i < |v.items| && FirstFailure(v.items[i], None).Some? ::
                && IsBelow(FirstFailure(v, key).value, NatText(i), FirstFailure(v.items[i], None).value)
                && forall j | 0 <= j < i :: Accepts(v.items[j], None)
    ensures v.Obj? ==>
              exists k | k in v.fields && FirstFailure(v.fields[k], Some(k)).Some? ::
                && IsBelow(FirstFailure(v, key).value, k, FirstFailure(v.fields[k], Some(k)).value)
                && forall other | other in v.fields && StringLess(other, k) :: Accepts(v.fields[other], Some(other))
  {
    hide FirstFailure, Accepts, BearsExpression, SortedKeys, FirstInItems, FirstInFields, StringLess, NatText;
    FailureIn(v, key);
    if v.Arr? {
      var i := FirstItem(v, 0);
    } else if v.Obj? {
      SortedKeysEnumerate(v.fields.Keys);
      var keys := SortedKeys(v.fields.Keys);
      var n := FirstField(v, keys);
      forall other | other in v.fields && StringLess(other, keys[n]) ensures Accepts(v.fields[other], Some(other)) {
        var m :| 0 <= m < |keys| && keys[m] == other;
        StringLessTotal(other, keys[n]);
        assert m < n;
      }
    }
  }

  lemma {:induction false} FirstItem(v: Value, from: nat) returns (i: nat)
    requires v.Arr? && from <= |v.items| && FirstInItems(v, from).Some?
    ensures from <= i < |v.items| && FirstFailure(v.items[i], None).Some?
    ensures IsBelow(FirstInItems(v, from).value, NatText(i), FirstFailure(v.items[i], None).value)
    ensures forall j | from <= j < i :: Accepts(v.items[j], None)
    decreases |v.items| - from
  {
    hide FirstFailure, Accepts, NatText;
    FailureIsReal(v.items[from], None);
    i := from;
    if FirstFailure(v.items[from], None).None? {
      i := FirstItem(v, from + 1);
    }
  }

  lemma {:induction false} FirstField(v: Value, keys: seq<string>) returns (n: nat)
    requires v.Obj? && (forall k | k in keys :: k in v.fields) && FirstInFields(v, keys).Some?
    ensures n < |keys| && FirstFailure(v.fields[keys[n]], Some(keys[n])).Some?
    ensures IsBelow(FirstInFields(v, keys).value, keys[n], FirstFailure(v.fields[keys[n]], Some(keys[n])).value)
    ensures forall m | 0 <= m < n :: Accepts(v.fields[keys[m]], Some(keys[m]))
    decreases |keys|
  {
    hide FirstFailure, Accepts;
    n := 0;
    FailureIsReal(v.fields[keys[0]], Some(keys[0]));
    if FirstFailure(v.fields[keys[0]], Some(keys[0])).None? {
      var tail := keys[1..];
      n := FirstField(v, tail);
      forall m | 0 <= m < n + 1 ensures Accepts(v.fields[keys[m]], Some(keys[m])) {
        assert m > 0 ==> keys[m] == tail[m - 1];
      }
      n := n + 1;
    }
  }

  /** A rejection's pointer evaluates, in the definition, to the string that failed to compile. */
  lemma RejectionPointsAtCulprit(definition: Value)
    requires FirstFailure(definition, None).Some?
    ensures var f := FirstFailure(definition, None).value;
            Evaluate(definition, PointerTo(f.tokens)) == Some(Str(f.source)) && COMPILE(f.source) == Err(f.error)
  {
    hide FirstFailure, Resolve, TokensOf, PointerTo;
    FailureIsReal(definition, None);
    PointerRoundTrip(FirstFailure(definition, None).value.tokens);
  }

  // ----- The pass -----

  class Checker {
    var path: string
    var cache: map<string, Compiled>

    ghost predicate Valid()
      reads this
    {
      forall source | source in cache :: COMPILE(source) == Ok(cache[source])
    }

    constructor ()
      ensures Valid() && path == "" && cache == map[]
    {
      path, cache := "", map[];
    }

    /** Compiles a source once and remembers it. */
    method CompiledExpression(source: string) returns (r: Result<Compiled, string>)
      requires Valid()
      modifies `cache
      ensures Valid() && r == COMPILE(source)
    {
      if source in cache {
        return Ok(cache[source]);
      }
      r := COMPILE(source);
      if r.Ok? {
        cache := cache[source := r.value];
      }
    }

    /** Finds the first failure in document order; on success the path is as it was, on failure it is the pointer. */
    method ValidateValue(v: Value, key: Option<string>) returns (r: Option<string>)
      requires Valid()
      modifies this
      ensures Valid()
      ensures match FirstFailure(v, key)
              case None => r == None && path == old(path)
              case Some(f) => r == Some(f.error) && path == old(path) + PointerTo(f.tokens)
      decreases v, 2, 0
    {
      hide FirstFailure, PointerTo, BearsExpression;
      FailureIn(v, key);
      r := None;
      match v
      case Str(source) =>
        if BearsExpression(source, key) {
          var compiled := CompiledExpression(source);
          if compiled.Err? {
            return Some(compiled.error);
          }
        }
      case Arr(items) => r := ValidateItems(v);
      case Obj(fields) => r := ValidateFields(v);
      case Null =>
      case Bool(_) =>
      case Num(_) =>
    }

    method ValidateItems(v: Value) returns (r: Option<string>)
      requires Valid() && v.Arr?
      modifies this
      ensures Valid()
      ensures match FirstInItems(v, 0)
              case None => r == None && path == old(path)
              case Some(f) => r == Some(f.error) && path == old(path) + PointerTo(f.tokens)
      decreases v, 1, 0
    {
      hide FirstFailure, PointerTo, NatText, EscapeToken;
      for i := 0 to |v.items|
        invariant Valid() && path == old(path) && FirstInItems(v, 0) == FirstInItems(v, i)
      {
        var previous := |path|;
        path := path + "/" + NatText(i);
        r := ValidateValue(v.items[i], None);
        if r.Some? {
          IndexIsItsOwnEscape(i);
          PointerBelow(old(path), NatText(i), FirstFailure(v.items[i], None).value.tokens);
          return;
        }
        path := path[..previous];
        assert path == old(path);
      }
      r := None;
    }

    method ValidateFields(v: Value) returns (r: Option<string>)
      requires Valid() && v.Obj?
      modifies this
      ensures Valid()
      ensures forall k :: k in SortedKeys(v.fields.Keys) <==> k in v.fields
      ensures match FirstInFields(v, SortedKeys(v.fields.Keys))
              case None => r == None && path == old(path)
              case Some(f) => r == Some(f.error) && path == old(path) + PointerTo(f.tokens)
      decreases v, 1, 0
    {
      hide FirstFailure, FirstInFields, PointerTo, EscapeToken, SortedKeys, StringLess;
      SortedKeysEnumerate(v.fields.Keys);
      var keys := SortedKeys(v.fields.Keys);
      assert keys[0..] == keys;
      var i := 0;
      while i < |keys|
        invariant i <= |keys| && Valid() && path == old(path)
        invariant FirstInFields(v, keys) == FirstInFields(v, keys[i..])
      {
        FieldStep(v, keys, i);
        var previous := |path|;
        path := path + "/" + EscapeToken(keys[i]);
        r := ValidateValue(v.fields[keys[i]], Some(keys[i]));
        if r.Some? {
          PointerBelow(old(path), keys[i], FirstFailure(v.fields[keys[i]], Some(keys[i])).value.tokens);
          return;
        }
        path := path[..previous];
        assert path == old(path);
        i := i + 1;
      }
      FieldsEnd(v, keys);
      r := None;
    }

    /** Accepts a definition exactly when all its expressions compile; otherwise the path names the first culprit. */
    method ValidateExpressions(definition: Value) returns (r: Option<string>)
      requires Valid()
      modifies this
      ensures Valid() && (r.None? <==> Accepts(definition, None))
      ensures r.Some? ==>
                exists source :: Evaluate(definition, path) == Some(Str(source)) && COMPILE(source) == Err(r.value)
    {
      hide FirstFailure, PointerTo, Accepts, Evaluate;
      path := "";
      r := ValidateValue(definition, None);
      FailureIsReal(definition, None);
      if r.Some? {
        RejectionPointsAtCulprit(definition);
        var f := FirstFailure(definition, None).value;
        assert path == PointerTo(f.tokens);
      }
    }
  }

  lemma FailureIn(v: Value, key: Option<string>)
    ensures v.Str? ==>
              FirstFailure(v, key) == (if BearsExpression(v.s, key) && COMPILE(v.s).Err?
                                       then Some(Failure([], v.s, COMPILE(v.s).error)) else None)
    ensures v.Arr? ==> FirstFailure(v, key) == FirstInItems(v, 0)
    ensures v.Obj? ==>
              && (forall k :: k in SortedKeys(v.fields.Keys) <==> k in v.fields)
              && FirstFailure(v, key) == FirstInFields(v, SortedKeys(v.fields.Keys))
    ensures !v.Str? && !v.Arr? && !v.Obj? ==> FirstFailure(v, key) == None
    ensures PointerTo([]) == ""
  {
    if v.Obj? {
      SortedKeysEnumerate(v.fields.Keys);
    }
  }

  lemma FieldStep(v: Value, keys: seq<string>, i: nat)
    requires v.Obj? && i < |keys| && forall k | k in keys :: k in v.fields
    ensures keys[i] in v.fields
    ensures var here := FirstFailure(v.fields[keys[i]], Some(keys[i]));
            FirstInFields(v, keys[i..]) ==
            if here.Some? then Some(here.value.(tokens := [keys[i]] + here.value.tokens))
            else FirstInFields(v, keys[i + 1..])
  {
    hide FirstFailure;
    assert keys[i..][1..] == keys[i + 1..];
    assert keys[i] in keys;
  }

  lemma FieldsEnd(v: Value, keys: seq<string>)
    requires v.Obj? && forall k | k in keys :: k in v.fields
    ensures FirstInFields(v, keys[|keys|..]) == None
  {
  }

  lemma PointerBelow(before: string, token: string, tokens: seq<string>)
    ensures before + "/" + EscapeToken(token) + PointerTo(tokens) == before + PointerTo([token] + tokens)
  {
    hide EscapeToken, PointerTo;
    var all := [token] + tokens;
    assert all[1..] == tokens;
    PointerFirst(all);
  }

  lemma {:induction false} PlainToken(token: string)
    requires forall i | 0 <= i < |token| :: token[i] != '~' && token[i] != '/'
    ensures ReplaceChar(token, '~', "~0") == token && ReplaceChar(token, '/', "~1") == token
  {
    if token != "" {
      PlainToken(token[1..]);
    }
  }

  lemma IndexIsItsOwnEscape(n: nat)
    ensures EscapeToken(NatText(n)) == NatText(n)
  {
    NatTextDigits(n);
    PlainToken(NatText(n));
  }
}
