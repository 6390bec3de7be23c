/** JSON-like values: the shapes the configuration object of the interceptor
    can take, together with the two pieces of JavaScript object semantics the
    deep merge relies on — the "plain object" test and the shallow copy done by
    `Object.assign({}, x)`. */
module Json {

  /** A JavaScript value as it can appear in a configuration tree.  Numbers are
      modelled as integers; functions and symbols do not occur in configuration. */
  datatype Value =
    | Obj(fields: map<string, Value>)
    | Arr(items: seq<Value>)
    | Str(s: string)
    | Num(n: int)
    | Bool(b: bool)
    | Null

  /** JavaScript truthiness: the empty string, zero, `false` and `null` are
      falsy; every object and array is truthy. */
  predicate Truthy(v: Value)
  {
    match v
    case Obj(_) => true
    case Arr(_) => true
    case Str(s) => s != ""
    case Num(n) => n != 0
    case Bool(b) => b
    case Null => false
  }

  /** The `typeof` operator. */
  function TypeOf(v: Value): string
  {
    match v
    case Str(_) => "string"
    case Num(_) => "number"
    case Bool(_) => "boolean"
    case _ => "object"
  }

  /** `isObject(item)`: truthy, of type 'object' and not an array.  `null` has
      type 'object' but is falsy, so of all values exactly the plain objects pass. */
  predicate IsObject(v: Value)
    ensures IsObject(v) <==> v.Obj?
  {
    Truthy(v) && TypeOf(v) == "object" && !v.Arr?
  }

  /** The decimal digit for `d`. */
  function Digit(d: nat): (c: char)
    requires d < 10
    ensures '0' <= c <= '9'
  {
    "0123456789"[d]
  }

  /** The property name under which an array stores its `n`-th element: the
      shortest decimal spelling of `n`. */
  function IndexKey(n: nat): (k: string)
    ensures |k| >= 1
    ensures n < 10 <==> |k| == 1
    ensures k[|k| - 1] == Digit(n % 10)
    decreases n
  {
    if n < 10 then [Digit(n)] else IndexKey(n / 10) + [Digit(n % 10)]
  }

  lemma DigitInjective(a: nat, b: nat)
    requires a < 10 && b < 10
    requires Digit(a) == Digit(b)
    ensures a == b
  {
  }

  /** Distinct indices name distinct properties, so an array copied into an
      object keeps every element under its own key. */
  lemma {:induction false} IndexKeyInjective(a: nat, b: nat)
    requires IndexKey(a) == IndexKey(b)
    ensures a == b
    decreases a
  {
    var ka, kb := IndexKey(a), IndexKey(b);
    DigitInjective(a % 10, b % 10);
    if a >= 10 {
      assert b >= 10;
      assert IndexKey(a / 10) == ka[..|ka| - 1];
      assert IndexKey(b / 10) == kb[..|kb| - 1];
      IndexKeyInjective(a / 10, b / 10);
    }
  }

  /** The own enumerable properties of an array: element `i` under `IndexKey(i)`. */
  function IndexedEntries(items: seq<Value>): (m: map<string, Value>)
    ensures forall i :: 0 <= i < |items| ==> IndexKey(i) in m && m[IndexKey(i)] == items[i]
    ensures forall k :: k in m ==> exists i :: 0 <= i < |items| && k == IndexKey(i)
  {
    forall i, j | 0 <= i < |items| && 0 <= j < |items| && IndexKey(i) == IndexKey(j)
      ensures i == j
    {
      IndexKeyInjective(i, j);
    }
    map i | 0 <= i < |items| :: IndexKey(i) := items[i]
  }

  /** `Object.assign({}, v)`: a fresh object holding the own enumerable
      properties of `v`.  A plain object is copied key for key, an array turns
      into an object indexed by decimal keys, and numbers, booleans and null own
      no enumerable properties.  A string is treated like the other primitives
      here (its indexed characters are not modelled). */
  function AssignCopy(v: Value): (m: map<string, Value>)
    ensures v.Obj? ==> m == v.fields
    ensures v.Arr? ==> forall i :: 0 <= i < |v.items| ==> IndexKey(i) in m && m[IndexKey(i)] == v.items[i]
    ensures v.Arr? ==> forall k :: k in m ==> exists i :: 0 <= i < |v.items| && k == IndexKey(i)
    ensures !v.Obj? && !v.Arr? ==> m == map[]
  {
    match v
    case Obj(fields) => fields
    case Arr(items) => IndexedEntries(items)
    case _ => map[]
  }
}
