/** The parts of JavaScript value semantics the chat clients rely on when they read a webhook
    reply: a parsed JSON value, property reads on it, truthiness and `a || b || …` chains. */
module ChatJson {
  import opened Wrappers

  /** A value produced by `JSON.parse`. Numbers are kept as integers: the clients only test
      them for truthiness (zero or not). */
  datatype Json =
    | JNull
    | JBool(b: bool)
    | JNum(n: int)
    | JStr(s: string)
    | JArr(items: seq<Json>)
    | JObj(fields: map<string, Json>)

  /** `JSON.parse(text)` (or `response.json()`): a `SyntaxError` with its message, or a value. */
  datatype Parsed = SyntaxError(message: string) | Value(v: Json)

  /** JavaScript truthiness of a property read; `None` is `undefined`. */
  predicate Truthy(v: Option<Json>) {
    match v
    case None => false
    case Some(j) =>
      match j
      case JNull => false
      case JBool(b) => b
      case JNum(n) => n != 0
      case JStr(s) => s != ""
      case _ => true
  }

  /** `v[key]` on a non-null value. Of the properties the clients read (`output`, `response`,
      `message`, `text`, `data`, …) only objects can have one; strings, arrays, numbers and
      booleans give `undefined`. Reading a property of `null` throws, hence the precondition. */
  function Prop(v: Json, key: string): (r: Option<Json>)
    requires !v.JNull?
    ensures r.Some? ==> v.JObj? && key in v.fields && r.value == v.fields[key]
    ensures v.JObj? && key in v.fields ==> r.Some?
  {
    if v.JObj? && key in v.fields then Some(v.fields[key]) else None
  }

  /** `v.k0 || v.k1 || …` without its final fallback: the first truthy property, if any. */
  function FirstTruthyProp(v: Json, keys: seq<string>): Option<Json>
    requires !v.JNull?
    decreases |keys|
  {
    if keys == [] then None
    else if Truthy(Prop(v, keys[0])) then Prop(v, keys[0])
    else FirstTruthyProp(v, keys[1..])
  }

  /** The chain yields the property at the first key whose property is truthy, and nothing
      exactly when every property is falsy. */
  lemma {:induction false} FirstTruthyPropSpec(v: Json, keys: seq<string>)
    requires !v.JNull?
    ensures FirstTruthyProp(v, keys).None? <==> forall i | 0 <= i < |keys| :: !Truthy(Prop(v, keys[i]))
    ensures FirstTruthyProp(v, keys).Some? ==>
              exists i | 0 <= i < |keys| ::
                FirstTruthyProp(v, keys) == Prop(v, keys[i]) && Truthy(Prop(v, keys[i])) &&
                forall j | 0 <= j < i :: !Truthy(Prop(v, keys[j]))
    decreases |keys|
  {
    if keys != [] {
      FirstTruthyPropSpec(v, keys[1..]);
      if !Truthy(Prop(v, keys[0])) {
        if FirstTruthyProp(v, keys[1..]).Some? {
          var i :| 0 <= i < |keys[1..]| && FirstTruthyProp(v, keys[1..]) == Prop(v, keys[1..][i]) &&
                   Truthy(Prop(v, keys[1..][i])) && forall j | 0 <= j < i :: !Truthy(Prop(v, keys[1..][j]));
          assert keys[1..][i] == keys[i + 1];
          forall j | 0 <= j < i + 1 ensures !Truthy(Prop(v, keys[j])) {
            if j > 0 {
              assert keys[j] == keys[1..][j - 1];
            }
          }
        } else {
          forall i | 0 <= i < |keys| ensures !Truthy(Prop(v, keys[i])) {
            if i > 0 {
              assert keys[i] == keys[1..][i - 1];
            }
          }
        }
      }
    }
  }

  /** Whatever the chain yields is truthy. */
  lemma {:induction false} FirstTruthyPropTruthy(v: Json, keys: seq<string>)
    requires !v.JNull?
    ensures FirstTruthyProp(v, keys).Some? ==> Truthy(FirstTruthyProp(v, keys))
    decreases |keys|
  {
    if keys != [] && !Truthy(Prop(v, keys[0])) {
      FirstTruthyPropTruthy(v, keys[1..]);
    }
  }

  /** The chain settles on key `i` when its property is truthy and every earlier one is falsy. */
  lemma {:induction false} FirstTruthyPropAt(v: Json, keys: seq<string>, i: nat)
    requires !v.JNull? && i < |keys| && Truthy(Prop(v, keys[i]))
    requires forall j | 0 <= j < i :: !Truthy(Prop(v, keys[j]))
    ensures FirstTruthyProp(v, keys) == Prop(v, keys[i])
    decreases i
  {
    if i > 0 {
      assert !Truthy(Prop(v, keys[0]));
      forall j | 0 <= j < i - 1 ensures !Truthy(Prop(v, keys[1..][j])) {
        assert keys[1..][j] == keys[j + 1];
      }
      FirstTruthyPropAt(v, keys[1..], i - 1);
    }
  }
}
