/** The stream evaluator: one input value yields a stream of results or an error. */
module Evaluation {
  import opened Wrappers
  import opened Json
  import opened Syntax
  import opened Comparison

  type Env = map<string, Value>

  type Values = seq<Value>

  type Outcome = Result<Values, ExpressionError>

  type Single = Result<Value, ExpressionError>

  // What the arithmetic operators do to two values, and what a built-in function other than `map` and `select`
  // makes of its input and of its arguments' outcomes on that input, stays open: no result depends on it.
  const ARITHMETIC: (BinOp, Value, Value) -> Single
  const BUILTIN: (string, Value, seq<Outcome>) -> Outcome

  // ----- Single values -----

  function First(s: Values): Value {
    if s == [] then Null else s[0]
  }

  function Last(s: Values): Value {
    if s == [] then Null else s[|s| - 1]
  }

  function Lookup(fields: map<string, Value>, name: string): Value {
    if name in fields then fields[name] else Null
  }

  function FieldAccess(v: Value, name: string): Value {
    match v
    case Obj(fields) => Lookup(fields, name)
    case Arr(items) =>
      Arr(seq(|items|, i requires 0 <= i < |items| =>
        if items[i].Obj? then Lookup(items[i].fields, name) else Null))
    case _ => Null
  }

  function Truncate(r: real): int {
    if r >= 0.0 then r.Floor else -((-r).Floor)
  }

  /** Negative indices count from the end. */
  function IndexFrom(n: Number, length: nat): Option<nat> {
    var i := Truncate(n.AsReal());
    var at := if i < 0 then length + i else i;
    if 0 <= at < length then Some(at) else None
  }

  function IndexAccess(v: Value, index: Value): Single {
    match (v, index)
    case (Arr(items), Num(n)) =>
      var at := IndexFrom(n, |items|); Ok(if at.Some? then items[at.value] else Null)
    case (Arr(_), Str(_)) => Ok(Null)
    case (Arr(_), _) => Err(TypeError)
    case (Obj(fields), Str(name)) => Ok(Lookup(fields, name))
    case (Obj(_), Num(_)) => Ok(Null)
    case (Obj(_), _) => Err(TypeError)
    case (Str(s), Num(n)) =>
      var at := IndexFrom(n, |s|); Ok(if at.Some? then Str([s[at.value]]) else Null)
    case (Str(_), _) => Err(TypeError)
    case _ => Ok(Null)
  }

  function Items(v: Value): Values {
    match v
    case Arr(items) => items
    case Obj(fields) =>
      SortedKeysEnumerate(fields.Keys);
      var keys := SortedKeys(fields.Keys);
      seq(|keys|, i requires 0 <= i < |keys| => fields[keys[i]])
    case _ => [v]
  }

  function ApplyUnary(op: UnaryOp, v: Value): Single {
    match op
    case Not => Ok(Bool(!Truthy(v)))
    case Negate => if v.Num? then Ok(Num(JsonNum(-v.n.AsReal()))) else Err(TypeError)
  }

  function ApplyBinary(op: BinOp, l: Value, r: Value): Single {
    match op
    case Eq => Ok(Bool(Equal(l, r)))
    case Ne => Ok(Bool(!Equal(l, r)))
    case Lt => Ordered(l, r, o => o == Before)
    case Le => Ordered(l, r, o => o != After)
    case Gt => Ordered(l, r, o => o == After)
    case Ge => Ordered(l, r, o => o != Before)
    case _ => ARITHMETIC(op, l, r)
  }

  function Ordered(l: Value, r: Value, holds: Ordering -> bool): Single {
    match Compare(l, r)
    case Some(o) => Ok(Bool(holds(o)))
    case None => Err(TypeError)
  }

  // ----- Streams -----

  function Append(a: Outcome, b: Outcome): Outcome {
    if a.Err? then a else if b.Err? then b else Ok(a.value + b.value)
  }

  function Cons(v: Single, rest: Outcome): Outcome {
    if v.Err? then Err(v.error) else if rest.Err? then rest else Ok([v.value] + rest.value)
  }

  function EachField(s: Values, name: string): Values {
    seq(|s|, i requires 0 <= i < |s| => FieldAccess(s[i], name))
  }

  function EachItems(s: Values): Values {
    if s == [] then [] else Items(s[0]) + EachItems(s[1..])
  }

  function EachUnary(op: UnaryOp, s: Values): Outcome {
    if s == [] then Ok([]) else Cons(ApplyUnary(op, s[0]), EachUnary(op, s[1..]))
  }

  function EachIndex(v: Value, indices: Values): Outcome {
    if indices == [] then Ok([]) else Cons(IndexAccess(v, indices[0]), EachIndex(v, indices[1..]))
  }

  function AllIndices(values: Values, indices: Values): Outcome {
    if values == [] then Ok([]) else Append(EachIndex(values[0], indices), AllIndices(values[1..], indices))
  }

  function EachRight(op: BinOp, l: Value, rights: Values): Outcome {
    if rights == [] then Ok([]) else Cons(ApplyBinary(op, l, rights[0]), EachRight(op, l, rights[1..]))
  }

  function AllPairs(op: BinOp, lefts: Values, rights: Values): Outcome {
    if lefts == [] then Ok([]) else Append(EachRight(op, lefts[0], rights), AllPairs(op, lefts[1..], rights))
  }

  // ----- Objects -----

  type Fields = map<string, Value>

  datatype Choice = Choice(key: string, values: Values)

  /** Every object so far, with the key set to every value in turn; an empty stream sets it to null. */
  function Extend(objects: seq<Fields>, c: Choice): seq<Fields> {
    if objects == [] then [] else WithEach(objects[0], c.key, Alternatives(c)) + Extend(objects[1..], c)
  }

  function Alternatives(c: Choice): (values: Values)
    ensures |values| >= 1
  {
    if c.values == [] then [Null] else c.values
  }

  function WithEach(fields: Fields, key: string, values: Values): seq<Fields> {
    seq(|values|, i requires 0 <= i < |values| => fields[key := values[i]])
  }

  function Product(choices: seq<Choice>): seq<Fields> {
    if choices == [] then [map[]]
    else Extend(Product(choices[..|choices| - 1]), choices[|choices| - 1])
  }

  function ObjectStream(objects: seq<Fields>): Values {
    seq(|objects|, i requires 0 <= i < |objects| => Obj(objects[i]))
  }

  // ----- The evaluator -----

  function Eval(e: Expr, input: Value, env: Env): Outcome
    decreases e, 0
  {
    match e
    case Identity => Ok([input])
    case Literal(v) => Ok([v])
    case Variable(name) => if name in env then Ok([env[name]]) else Err(TypeError)
    case StrExpr(parts) =>
      var text :- EvalParts(parts, input, env);
      Ok([Str(text)])
    case Field(base, name) =>
      var s :- Eval(base, input, env);
      Ok(EachField(s, name))
    case Index(base, index) =>
      var values :- Eval(base, input, env);
      var indices :- Eval(index, input, env);
      AllIndices(values, indices)
    case Iterate(base) =>
      var s :- Eval(base, input, env);
      Ok(EachItems(s))
    case Binary(op, left, right) =>
      var lefts :- Eval(left, input, env);
      if op == And && !Truthy(Last(lefts)) then Ok([Bool(false)])
      else if op == Or && Truthy(Last(lefts)) then Ok([Bool(true)])
      else if op == Alt && Truthy(Last(lefts)) then Ok(lefts)
      else
        var rights :- Eval(right, input, env);
        if op == And || op == Or then Ok([Bool(Truthy(Last(rights)))])
        else if op == Alt then Ok(rights)
        else AllPairs(op, lefts, rights)
    case Unary(op, inner) =>
      var s :- Eval(inner, input, env);
      EachUnary(op, s)
    case Pipe(left, right) =>
      var s :- Eval(left, input, env);
      EvalEach(right, s, env)
    case ArrayExpr(elems) =>
      var s :- EvalAll(elems, input, env);
      Ok([Arr(s)])
    case ObjectExpr(entries) =>
      var choices :- EvalEntries(entries, input, env);
      Ok(ObjectStream(Product(choices)))
    case If(cond, thn, els) =>
      var c :- Eval(cond, input, env);
      if Truthy(First(c)) then Eval(thn, input, env) else Eval(els, input, env)
    case Call(name, args) =>
      if name == "map" then
        if args == [] then Err(EvalError)
        else if !input.Arr? then Err(TypeError)
        else
          var s :- EvalEach(args[0], input.items, env);
          Ok([Arr(s)])
      else if name == "select" then
        if args == [] then Err(EvalError)
        else
          var c :- Eval(args[0], input, env);
          Ok(if Truthy(First(c)) then [input] else [])
      else BUILTIN(name, input, ArgOutcomes(args, input, env))
    case Stream(elems) => EvalAll(elems, input, env)
  }

  /** Evaluates e on every value of a stream and joins the results. */
  function EvalEach(e: Expr, s: Values, env: Env): Outcome
    decreases e, 1, |s|
  {
    if s == [] then Ok([]) else Append(Eval(e, s[0], env), EvalEach(e, s[1..], env))
  }

  function EvalAll(es: seq<Expr>, input: Value, env: Env): Outcome
    decreases es, 0
  {
    if es == [] then Ok([]) else Append(Eval(es[0], input, env), EvalAll(es[1..], input, env))
  }

  function ArgOutcomes(es: seq<Expr>, input: Value, env: Env): seq<Outcome>
    decreases es, 0
  {
    if es == [] then [] else [Eval(es[0], input, env)] + ArgOutcomes(es[1..], input, env)
  }

  function EvalParts(parts: seq<InterpPart>, input: Value, env: Env): Result<string, ExpressionError>
    decreases parts, 0
  {
    if parts == [] then Ok("")
    else
      var head :- EvalPart(parts[0], input, env);
      var tail :- EvalParts(parts[1..], input, env);
      Ok(head + tail)
  }

  function EvalPart(part: InterpPart, input: Value, env: Env): Result<string, ExpressionError>
    decreases part, 0
  {
    match part
    case LiteralPart(text) => Ok(text)
    case ExprPart(e) =>
      var s :- Eval(e, input, env);
      Ok(ToText(Last(s)))
  }

  function EvalKey(key: ObjKey, input: Value, env: Env): Result<string, ExpressionError>
    decreases key, 0
  {
    match key
    case IdentKey(name) => Ok(name)
    case StrKey(text) => Ok(text)
    case Computed(e) =>
      var s :- Eval(e, input, env);
      Ok(ToText(Last(s)))
  }

  function EvalEntry(entry: Entry, input: Value, env: Env): Result<Choice, ExpressionError>
    decreases entry, 0
  {
    var key :- EvalKey(entry.key, input, env);
    var values :- Eval(entry.value, input, env);
    Ok(Choice(key, values))
  }

  function EvalEntries(entries: seq<Entry>, input: Value, env: Env): Result<seq<Choice>, ExpressionError>
    decreases entries, 0
  {
    if entries == [] then Ok([])
    else
      var head :- EvalEntry(entries[0], input, env);
      var tail :- EvalEntries(entries[1..], input, env);
      Ok([head] + tail)
  }
}
