/** Decoded JSON, read the way Python reads it. */
module JsonValues {
  datatype Json =
    | Null | Bool(b: bool) | Int(i: int) | Float(r: real) | Str(s: string)
    | Arr(items: seq<Json>) | Obj(fields: map<string, Json>)

  /** `dict.get(key)`: an absent key reads as None. */
  function Get(j: Json, key: string): Json
    requires j.Obj?
  {
    if key in j.fields then j.fields[key] else Null
  }

  /** `dict.get(key, default)` */
  function GetOr(j: Json, key: string, default: Json): Json
    requires j.Obj?
  {
    if key in j.fields then j.fields[key] else default
  }

  predicate Truthy(j: Json) {
    match j
    case Null => false
    case Bool(b) => b
    case Int(i) => i != 0
    case Float(r) => r != 0.0
    case Str(s) => s != ""
    case Arr(items) => items != []
    case Obj(fields) => fields != map[]
  }

  /** What Python counts as false: None, False, zero, and every empty text, list or object. */
  lemma FalsyValues(j: Json)
    ensures !Truthy(j) <==>
              j == Null || j == Bool(false) || j == Int(0) || j == Float(0.0) || j == Str("") || j == Arr([])
                || j == Obj(map[])
  {
  }

  /** `j == n`: booleans and floats are numbers too. */
  predicate EqualsInt(j: Json, n: int) {
    match j
    case Bool(b) => (if b then 1 else 0) == n
    case Int(i) => i == n
    case Float(r) => r == n as real
    case _ => false
  }

  /** A non-negative integer that is not a boolean. */
  predicate IsCount(j: Json) {
    j.Int? && j.i >= 0
  }

  /** What Python counts as equal to a number, and as a count. */
  lemma EqualNumbers(j: Json, n: int)
    ensures EqualsInt(j, n) <==>
              || j == Int(n) || j == Float(n as real) || (j == Bool(true) && n == 1) || (j == Bool(false) && n == 0)
    ensures IsCount(j) <==> exists k: nat :: j == Int(k)
  {
    if j.Int? && j.i >= 0 {
      var k: nat := j.i;
      assert j == Int(k);
    }
  }
}
