/**
 * What the jobs call on a provider (`IProvider`), and the JavaScript
 * coercion `String(value)` the mappers use to turn ids into column text.
 */
module Interfaces {
  import opened Wrappers
  import opened Strings
  import opened Json
  import opened Rows

  /**
   * The mapper surface of `IProvider` (src/common/providers/interfaces.ts),
   * with inputs and outputs as JSON items. The patch mapper is not part of
   * the declared interface: a provider may lack it, and then calling it
   * throws.
   */
  datatype Capabilities = Capabilities(
    provider: InputProvider,
    fromInputToPersistence: Json -> InputRow,
    fromPersistenceToInput: InputRow -> Result<Json>,
    fromOutputToPersistence: (InputRow, Json) -> OutputRow,
    fromOutputToJsonPatchPersistance: Option<(InputRow, Json) -> OutputRow>)

  /** `String(v)` for a JSON value; arrays join their elements with ",", `null` elements as "". */
  function JsValueString(j: Json): (r: string)
    ensures j.Num? ==> r == NumberToString(j.n)
    ensures j.Str? ==> r == j.s
    decreases j
  {
    match j
    case Null => "null"
    case Bool(b) => if b then "true" else "false"
    case Num(n) => NumberToString(n)
    case Str(s) => s
    case Obj(_) => "[object Object]"
    case Arr(items) =>
      Join(seq(|items|, i requires 0 <= i < |items| => if items[i] == Null then "" else JsValueString(items[i])), ',')
  }

  /** `String(x)` where `x` may be `undefined` (`None`). */
  function JsString(v: Option<Json>): string
  {
    if v.None? then "undefined" else JsValueString(v.value)
  }

  /** The members `{...j}` copies: an object's own members; none for the other JSON values the model uses. */
  function Spread(j: Json): seq<Member>
  {
    if j.Obj? then j.members else []
  }

  /** `{...j, [k]: v}`: `k` holds `v`, every other member is copied. */
  function With(j: Json, k: string, v: Json): (r: Json)
    ensures r.Obj? && Prop(r, k) == Some(v)
    ensures forall k' :: k' != k ==> Prop(r, k') == Prop(j, k')
  {
    Obj(Put(Spread(j), k, v))
  }

  /** `j?.[k1]?.[k2]`. */
  function Path(j: Json, k1: string, k2: string): Option<Json>
  {
    var v := Prop(j, k1);
    if v.None? then None else Prop(v.value, k2)
  }

  /** JavaScript truthiness of a member value; `undefined` is falsy. */
  predicate Truthy(v: Option<Json>)
  {
    match v
    case None => false
    case Some(Null) => false
    case Some(Bool(b)) => b
    case Some(Num(n)) => n != 0
    case Some(Str(s)) => s != ""
    case Some(_) => true
  }

  /** A number read back from its `String` rendering is the same number: ids made this way are stable. */
  lemma IdRoundTrip(n: int)
    ensures JsNumber(JsString(Some(Num(n)))) == Some(n)
  {
    NumberRoundTrip(n);
  }
}
