/** JSON values as the runtime holds them, and their compact text. */
module Json {

  /** A number is kept either as an integer or as a 64-bit float. Floats are modelled by the real they stand for. */
  datatype Number = Int(i: int) | Float(f: real) {
    function AsReal(): real {
      if Int? then i as real else f
    }
  }

  /** An object is a map: the text and every iteration go through its keys in ascending order. */
  datatype Value =
    | Null
    | Bool(b: bool)
    | Num(n: Number)
    | Str(s: string)
    | Arr(items: seq<Value>)
    | Obj(fields: map<string, Value>)

  // From here on a double no longer tells neighbouring integers apart.
  const EXACT_LIMIT := 9_007_199_254_740_992

  /** Rebuilds a number from a float, preferring an integer when that is exact. */
  function JsonNum(r: real): Number {
    if r == r.Floor as real && -EXACT_LIMIT < r.Floor < EXACT_LIMIT then Int(r.Floor) else Float(r)
  }

  predicate Truthy(v: Value) {
    v != Null && v != Bool(false)
  }

  // ----- Strings in code point order -----

  predicate StringLess(a: string, b: string) {
    if b == "" then false
    else if a == "" then true
    else a[0] < b[0] || (a[0] == b[0] && StringLess(a[1..], b[1..]))
  }

  lemma {:induction false} StringLessTotal(a: string, b: string)
    ensures StringLess(a, b) || a == b || StringLess(b, a)
    ensures !(StringLess(a, b) && StringLess(b, a))
    ensures !StringLess(a, a)
  {
    if a != "" {
      StringLessTotal(a[1..], a[1..]);
      if b != "" && a[0] == b[0] {
        StringLessTotal(a[1..], b[1..]);
        assert a == [a[0]] + a[1..] && b == [b[0]] + b[1..];
      }
    }
  }

  lemma {:induction false} StringLessTransitive(a: string, b: string, c: string)
    requires StringLess(a, b) && StringLess(b, c)
    ensures StringLess(a, c)
  {
    if a != "" && a[0] == b[0] == c[0] {
      StringLessTransitive(a[1..], b[1..], c[1..]);
    }
  }

  predicate IsLeast(k: string, keys: set<string>) {
    k in keys && forall other | other in keys :: other == k || StringLess(k, other)
  }

  lemma {:induction false} LeastExists(keys: set<string>)
    requires keys != {}
    ensures exists k :: IsLeast(k, keys)
    decreases |keys|
  {
    var k :| k in keys;
    if keys == {k} {
      assert IsLeast(k, keys);
    } else {
      var rest := keys - {k};
      LeastExists(rest);
      var least :| IsLeast(least, rest);
      StringLessTotal(k, least);
      if StringLess(k, least) {
        forall other | other in rest && other != least ensures StringLess(k, other) {
          StringLessTransitive(k, least, other);
        }
        assert IsLeast(k, keys);
      } else {
        assert IsLeast(least, keys);
      }
    }
  }

  lemma LeastUnique(keys: set<string>)
    ensures forall a, b | IsLeast(a, keys) && IsLeast(b, keys) :: a == b
  {
    forall a, b | IsLeast(a, keys) && IsLeast(b, keys) ensures a == b {
      StringLessTotal(a, b);
    }
  }

  /** The keys in ascending order, as the runtime's ordered map yields them. */
  function SortedKeys(keys: set<string>): seq<string>
    decreases |keys|
  {
    if keys == {} then []
    else
      LeastExists(keys);
      LeastUnique(keys);
      var k :| IsLeast(k, keys);
      [k] + SortedKeys(keys - {k})
  }

  lemma {:induction false} SortedKeysEnumerate(keys: set<string>)
    ensures |SortedKeys(keys)| == |keys|
    ensures forall k :: k in SortedKeys(keys) <==> k in keys
    ensures forall i, j :: 0 <= i < j < |SortedKeys(keys)| ==> StringLess(SortedKeys(keys)[i], SortedKeys(keys)[j])
    decreases |keys|
  {
    if keys != {} {
      LeastExists(keys);
      var s := SortedKeys(keys);
      SortedKeysEnumerate(keys - {s[0]});
      assert s[1..] == SortedKeys(keys - {s[0]});
      forall k ensures k in s <==> k in keys {
        assert k in s <==> k == s[0] || k in s[1..];
      }
      forall i, j | 0 <= i < j < |s| ensures StringLess(s[i], s[j]) {
        assert s[j] == s[1..][j - 1];
        assert s[j] in s[1..];
        if i > 0 {
          assert s[i] == s[1..][i - 1];
        }
      }
    }
  }

  // ----- Compact text -----

  // The text of a float is the number formatter's business and stays open here.
  const FLOAT_TEXT: real -> string

  const DIGITS := "0123456789"
  const HEX_DIGITS := "0123456789abcdef"

  function NatText(n: nat): (text: string)
    ensures |text| > 0
  {
    if n < 10 then [DIGITS[n]] else NatText(n / 10) + [DIGITS[n % 10]]
  }

  function NumberText(n: Number): string {
    match n
    case Int(i) => if i < 0 then "-" + NatText(-i) else NatText(i)
    case Float(f) => FLOAT_TEXT(f)
  }

  function EscapeChar(c: char): (text: string)
    ensures |text| > 0
  {
    if c == '\"' then "\\\""
    else if c == '\\' then "\\\\"
    else if c as int == 8 then "\\b"
    else if c == '\t' then "\\t"
    else if c == '\n' then "\\n"
    else if c as int == 12 then "\\f"
    else if c == '\r' then "\\r"
    else if c as int < 0x20 then "\\u00" + [HEX_DIGITS[c as int / 16], HEX_DIGITS[c as int % 16]]
    else [c]
  }

  function EscapeText(s: string): string {
    if s == "" then "" else EscapeChar(s[0]) + EscapeText(s[1..])
  }

  function Quoted(s: string): string {
    "\"" + EscapeText(s) + "\""
  }

  function Text(v: Value): string
    decreases v, 2, 0
  {
    match v
    case Null => "null"
    case Bool(b) => if b then "true" else "false"
    case Num(n) => NumberText(n)
    case Str(s) => Quoted(s)
    case Arr(items) => "[" + ItemsText(items) + "]"
    case Obj(fields) =>
      SortedKeysEnumerate(fields.Keys);
      "{" + FieldsText(v, SortedKeys(fields.Keys)) + "}"
  }

  function ItemsText(items: seq<Value>): string
    decreases items, 0, 0
  {
    if items == [] then ""
    else if |items| == 1 then Text(items[0])
    else Text(items[0]) + "," + ItemsText(items[1..])
  }

  function FieldText(obj: Value, key: string): string
    requires obj.Obj? && key in obj.fields
    decreases obj, 0, 0
  {
    Quoted(key) + ":" + Text(obj.fields[key])
  }

  function FieldsText(obj: Value, keys: seq<string>): string
    requires obj.Obj? && forall k | k in keys :: k in obj.fields
    decreases obj, 1, |keys|
  {
    if keys == [] then ""
    else if |keys| == 1 then FieldText(obj, keys[0])
    else FieldText(obj, keys[0]) + "," + FieldsText(obj, keys[1..])
  }

  /** The string form used when a value is spliced into text: strings are not quoted. */
  function ToText(v: Value): string {
    if v.Str? then v.s else Text(v)
  }
}
