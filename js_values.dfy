/** Untyped JavaScript values, for the helpers that inspect the runtime type of
    their argument or convert it with `String(v)`. Numbers are integers here. */
module JsValues {
  import Text

  datatype JsValue =
    | Undefined
    | Null
    | Bool(b: bool)
    | Num(n: int)
    | Str(s: string)
    | BigNumber(v: int)   // an ethers BigNumber object
    | Arr(elems: seq<JsValue>)
    | Obj                 // any other object

  predicate Nullish(v: JsValue)
  {
    v.Undefined? || v.Null?
  }

  /** `String(v)`. An array renders as its elements joined with ",", a
      `null` or `undefined` element as the empty string. */
  function ToJsString(v: JsValue): string
    decreases v
  {
    match v
    case Undefined => "undefined"
    case Null => "null"
    case Bool(b) => if b then "true" else "false"
    case Num(n) => Text.IntToDecimal(n)
    case Str(s) => s
    case BigNumber(n) => Text.IntToDecimal(n)
    case Arr(xs) =>
      Text.Join(seq(|xs|, i requires 0 <= i < |xs| => if Nullish(xs[i]) then "" else ToJsString(xs[i])), ',')
    case Obj => "[object Object]"
  }

  lemma {:induction false} JoinEmptyIff(parts: seq<string>, sep: char)
    ensures |Text.Join(parts, sep)| == 0 <==> |parts| == 0 || (|parts| == 1 && |parts[0]| == 0)
    decreases |parts|
  {
    if |parts| > 1 {
      assert |Text.Join(parts, sep)| >= 1;
    }
  }

  /** `String(v)` is empty exactly for the empty string, the empty array, and
      a one-element array whose element renders empty (or is nullish). */
  lemma {:induction false} EmptyRendering(v: JsValue)
    ensures |ToJsString(v)| == 0 <==>
      v == Str("") ||
      (v.Arr? && (|v.elems| == 0 || (|v.elems| == 1 && (Nullish(v.elems[0]) || |ToJsString(v.elems[0])| == 0))))
  {
    match v
    case Arr(xs) =>
      var parts := seq(|xs|, i requires 0 <= i < |xs| => if Nullish(xs[i]) then "" else ToJsString(xs[i]));
      JoinEmptyIff(parts, ',');
    case Num(n) =>
    case BigNumber(n) =>
    case _ =>
  }
}
