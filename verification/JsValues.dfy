/**
 The slice of JavaScript value semantics that the context loader and the
 JSON-LD dispatch code depend on: which values are truthy, what `typeof`
 answers, and which own properties an object spread (`{...v}`) copies.
 Values are immutable trees; functions are opaque and known only by name.
 */
module JsValues {

  datatype Value =
    | Undefined
    | Null
    | Bool(b: bool)
    | Num(n: real)
    | NaN
    | Str(s: string)
    | Arr(elems: seq<Value>)
    | Obj(fields: map<string, Value>)
    | Fn(name: string)

  /** A JavaScript value that may be absent (`null` in the source). */
  datatype Option<+T> = None | Some(value: T)

  /** The result of a call that may throw: any JavaScript value can be thrown. */
  datatype Outcome<+T> = Ok(value: T) | Thrown(error: Value)

  /** The conversion `if (v)` and `&&` apply: false, 0, NaN, "", null and undefined are falsy. */
  predicate Truthy(v: Value) {
    match v
    case Undefined => false
    case Null => false
    case Bool(b) => b
    case Num(n) => n != 0.0
    case NaN => false
    case Str(s) => s != ""
    case Arr(_) => true
    case Obj(_) => true
    case Fn(_) => true
  }

  /** The string the `typeof` operator yields; note that `typeof null` is "object". */
  function TypeOf(v: Value): string {
    match v
    case Undefined => "undefined"
    case Null => "object"
    case Bool(_) => "boolean"
    case Num(_) => "number"
    case NaN => "number"
    case Str(_) => "string"
    case Arr(_) => "object"
    case Obj(_) => "object"
    case Fn(_) => "function"
  }

  function Bit(b: bool): nat {
    if b then 1 else 0
  }

  function Digit(d: nat): char
    requires d < 10
  {
    ('0' as int + d) as char
  }

  /** The canonical decimal spelling of an array index used as a property key. */
  function DecimalString(n: nat): (s: string)
    ensures |s| > 0
    ensures n < 10 <==> |s| == 1
  {
    if n < 10 then [Digit(n)] else DecimalString(n / 10) + [Digit(n % 10)]
  }

  /** Distinct indices have distinct spellings, so no array element hides another. */
  lemma {:induction false} DecimalStringInjective(n: nat, m: nat)
    requires DecimalString(n) == DecimalString(m)
    ensures n == m
    decreases n
  {
    var s := DecimalString(n);
    if n >= 10 {
      assert m >= 10;
      assert s[..|s| - 1] == DecimalString(n / 10);
      assert DecimalString(m)[..|s| - 1] == DecimalString(m / 10);
      DecimalStringInjective(n / 10, m / 10);
      assert Digit(n % 10) == s[|s| - 1] == Digit(m % 10);
    }
  }

  lemma EarlierIndicesDiffer(k: nat)
    ensures forall i :: 0 <= i < k ==> DecimalString(i) != DecimalString(k)
  {
    forall i | 0 <= i < k
      ensures DecimalString(i) != DecimalString(k)
    {
      if DecimalString(i) == DecimalString(k) {
        DecimalStringInjective(i, k);
      }
    }
  }

  /** The property keys of an array of length `n`. */
  function IndexKeys(n: nat): set<string> {
    set i | 0 <= i < n :: DecimalString(i)
  }

  lemma IndexKeysGrow(n: nat)
    requires n > 0
    ensures IndexKeys(n) == IndexKeys(n - 1) + {DecimalString(n - 1)}
  {
  }

  /** The index-keyed own properties of an array: "0" -> es[0], "1" -> es[1], and nothing else. */
  function IndexProperties(es: seq<Value>): (m: map<string, Value>)
    ensures m.Keys == IndexKeys(|es|)
    ensures forall i :: 0 <= i < |es| ==> m[DecimalString(i)] == es[i]
    decreases |es|
  {
    if |es| == 0 then map[]
    else
      EarlierIndicesDiffer(|es| - 1);
      IndexKeysGrow(|es|);
      IndexProperties(es[..|es| - 1])[DecimalString(|es| - 1) := es[|es| - 1]]
  }

  /**
   The own enumerable properties `{...v}` copies into an object literal, for
   the values whose `typeof` is "object": `null` contributes none.
   */
  function Spread(v: Value): map<string, Value>
    requires TypeOf(v) == "object"
  {
    match v
    case Obj(fields) => fields
    case Arr(elems) => IndexProperties(elems)
    case Null => map[]
  }
}
