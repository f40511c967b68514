/** Decoded JSON as Python holds it after `response.json()`, with the parts of
    Python's semantics that the eBay normalizer depends on: truthiness,
    `dict.get`, `or`, `float()`, `int()`, `hash()` and `str()`, and the
    exceptions they raise. */
module PyJson {
  import opened PyText

  datatype Option<+T> = None | Some(value: T)

  /** The Python exceptions the normalizer can raise. `NumberFromText` stands
      for `float()` or `int()` applied to a string: Python parses the text
      (and raises `ValueError` when it is not a number); this model does not
      parse numeric text and reports the call instead. */
  datatype PyError = AttributeError | TypeError | KeyError | NumberFromText

  /** A value, or the exception that interrupted its computation. */
  datatype Result<+T> = Ok(value: T) | Err(error: PyError) {
    predicate IsFailure() {
      Err?
    }

    function PropagateFailure<U>(): Result<U>
      requires Err?
    {
      Err(error)
    }

    function Extract(): T
      requires Ok?
    {
      value
    }
  }

  /** A JSON value: `None`, `bool`, `int`, `float`, `str`, `list` or `dict`. */
  datatype Json =
    | JNull
    | JBool(b: bool)
    | JInt(i: int)
    | JFloat(f: real)
    | JStr(s: string)
    | JList(items: seq<Json>)
    | JObj(fields: map<string, Json>)

  /** `bool(v)`: None, False, zero, and empty strings, lists and dicts are false. */
  predicate Truthy(v: Json) {
    match v
    case JNull => false
    case JBool(b) => b
    case JInt(i) => i != 0
    case JFloat(f) => f != 0.0
    case JStr(s) => s != []
    case JList(l) => l != []
    case JObj(m) => m != map[]
  }

  /** `a or b`: `a` when it is truthy, otherwise `b`. */
  function Or(a: Json, b: Json): (r: Json)
    ensures Truthy(r) <==> Truthy(a) || Truthy(b)
    ensures Truthy(a) ==> r == a
    ensures !Truthy(a) ==> r == b
  {
    if Truthy(a) then a else b
  }

  /** `m.get(key, default)` on a dict. */
  function Get(m: map<string, Json>, key: string, default: Json): (r: Json)
    ensures key in m ==> r == m[key]
    ensures key !in m ==> r == default
  {
    if key in m then m[key] else default
  }

  /** `m.get(key) is not None`: the key is present with a non-null value. */
  predicate Present(m: map<string, Json>, key: string) {
    Get(m, key, JNull) != JNull
  }

  /** The receiver of a `.get(...)` call: only a dict has that method. */
  function AsDict(v: Json): (r: Result<map<string, Json>>)
    ensures r.Ok? <==> v.JObj?
    ensures r.Ok? ==> r.value == v.fields
    ensures r.Err? ==> r.error == AttributeError
  {
    if v.JObj? then Ok(v.fields) else Err(AttributeError)
  }

  /** Booleans take part in arithmetic as 0 and 1. */
  predicate IsNumber(v: Json)
    ensures v.JBool? ==> IsNumber(v)
    ensures v.JNull? || v.JStr? || v.JList? || v.JObj? ==> !IsNumber(v)
  {
    v.JBool? || v.JInt? || v.JFloat?
  }

  /** The number as a real: `True` is 1 and `False` is 0, and a number is
      truthy exactly when it is not zero. */
  function NumberValue(v: Json): (r: real)
    requires IsNumber(v)
    ensures Truthy(v) <==> r != 0.0
    ensures v.JBool? ==> r == if v.b then 1.0 else 0.0
    ensures v.JInt? ==> r == v.i as real
    ensures v.JFloat? ==> r == v.f
  {
    match v
    case JBool(b) => if b then 1.0 else 0.0
    case JInt(i) => i as real
    case JFloat(f) => f
  }

  /** `int(x)` for a real `x`: truncation toward zero. */
  function Trunc(x: real): (n: int)
    ensures 0.0 <= x ==> n as real <= x < n as real + 1.0
    ensures x < 0.0 ==> n as real - 1.0 < x <= n as real
  {
    if x >= 0.0 then x.Floor else -((-x).Floor)
  }

  /** Truncation toward zero is monotone. */
  lemma TruncMonotone(x: real, y: real)
    requires x <= y
    ensures Trunc(x) <= Trunc(y)
  {
  }

  /** `float(v)` */
  function ToFloat(v: Json): (r: Result<real>)
    ensures IsNumber(v) <==> r.Ok?
    ensures r.Ok? ==> r.value == NumberValue(v)
    ensures v.JStr? ==> r == Err(NumberFromText)
  {
    if IsNumber(v) then Ok(NumberValue(v))
    else if v.JStr? then Err(NumberFromText)
    else Err(TypeError)
  }

  /** `int(v)` */
  function ToInt(v: Json): (r: Result<int>)
    ensures IsNumber(v) <==> r.Ok?
    ensures r.Ok? ==> r.value == Trunc(NumberValue(v))
    ensures v.JStr? ==> r == Err(NumberFromText)
  {
    if IsNumber(v) then Ok(Trunc(NumberValue(v)))
    else if v.JStr? then Err(NumberFromText)
    else Err(TypeError)
  }

  /** `hash(v)` succeeds exactly on immutable values: lists and dicts raise `TypeError`. */
  predicate Hashable(v: Json) {
    !v.JList? && !v.JObj?
  }

  /** `str(v)`. Exact for None, booleans, integers and strings. A float is
      rendered by its integer part only, and a list or a dict by its
      brackets alone, without the `repr` of its elements. */
  function PyStr(v: Json): string {
    match v
    case JNull => "None"
    case JBool(b) => if b then "True" else "False"
    case JInt(i) => IntText(i)
    case JFloat(f) => IntText(Trunc(f))
    case JStr(s) => s
    case JList(_) => "[]"
    case JObj(_) => "{}"
  }

  /** `[f(x) for x in items]`, evaluated left to right: the first element
      whose `f` raises ends the comprehension with that exception. */
  function MapResults<A, B>(f: A -> Result<B>, items: seq<A>): (r: Result<seq<B>>)
    ensures r.Ok? <==> forall i :: 0 <= i < |items| ==> f(items[i]).Ok?
    ensures r.Ok? ==>
      |r.value| == |items| && forall i :: 0 <= i < |items| ==> f(items[i]) == Ok(r.value[i])
    ensures r.Err? ==> exists i :: 0 <= i < |items| && FirstFailure(f, items, i, r.error)
  {
    if items == [] then Ok([])
    else
      match f(items[0])
      case Err(e) =>
        assert FirstFailure(f, items, 0, e);
        Err(e)
      case Ok(first) =>
        match MapResults(f, items[1..])
        case Err(e) =>
          FirstFailureOfTail(f, items, e);
          Err(e)
        case Ok(rest) =>
          Ok([first] + rest)
  }

  /** `items[i]` is the first element on which `f` raises, and it raises `e`. */
  predicate FirstFailure<A, B>(f: A -> Result<B>, items: seq<A>, i: nat, e: PyError)
    requires i < |items|
  {
    && f(items[i]) == Err(e)
    && forall j :: 0 <= j < i ==> f(items[j]).Ok?
  }

  /** A failure first raised in the tail, after a head that succeeds, is the
      first failure of the whole sequence. */
  lemma FirstFailureOfTail<A, B>(f: A -> Result<B>, items: seq<A>, e: PyError)
    requires items != [] && f(items[0]).Ok?
    requires exists i :: 0 <= i < |items| - 1 && FirstFailure(f, items[1..], i, e)
    ensures exists i :: 0 <= i < |items| && FirstFailure(f, items, i, e)
  {
    var i :| 0 <= i < |items| - 1 && FirstFailure(f, items[1..], i, e);
    assert FirstFailure(f, items, i + 1, e);
  }
}
