/** The deployment scripts' configuration helpers over plain objects, an
    object being a map from its own keys to its values. */
module ScriptConfig {
  import opened JsValues

  /** `checkForEmptyObjectValues(obj)`: every value renders non-empty under
      `String(v)`. */
  predicate CheckForEmptyObjectValues(obj: map<string, JsValue>)
    ensures obj == map[] ==> CheckForEmptyObjectValues(obj)
    ensures (exists k :: k in obj && obj[k] == Str("")) ==> !CheckForEmptyObjectValues(obj)
  {
    forall k :: k in obj ==> |ToJsString(obj[k])| > 0
  }

  /** The values that render empty: the empty string, the empty array and a
      one-element array whose element renders empty or is `null`/`undefined`. */
  predicate RendersEmpty(v: JsValue)
  {
    v == Str("") ||
    (v.Arr? && (|v.elems| == 0 || (|v.elems| == 1 && (Nullish(v.elems[0]) || |ToJsString(v.elems[0])| == 0))))
  }

  /** The check fails exactly when some value is one of the values that render
      empty; in particular `null`, `undefined`, `0` and `false` all pass. */
  lemma CheckIff(obj: map<string, JsValue>)
    ensures CheckForEmptyObjectValues(obj) <==> forall k :: k in obj ==> !RendersEmpty(obj[k])
  {
    forall k | k in obj
      ensures |ToJsString(obj[k])| == 0 <==> RendersEmpty(obj[k])
    {
      EmptyRendering(obj[k]);
    }
  }

  /** An object whose values are all non-empty strings passes. */
  lemma NonEmptyStringsPass(obj: map<string, JsValue>)
    requires forall k :: k in obj ==> obj[k].Str? && |obj[k].s| > 0
    ensures CheckForEmptyObjectValues(obj)
  {
    CheckIff(obj);
  }

  /** `Object.fromEntries(Object.entries(obj).filter(filterFn))`. */
  function GetFilteredValuesFromObject(obj: map<string, JsValue>, filterFn: (string, JsValue) -> bool): (r: map<string, JsValue>)
    ensures r.Keys <= obj.Keys
    ensures forall k :: k in r ==> r[k] == obj[k]
  {
    map k | k in obj && filterFn(k, obj[k]) :: obj[k]
  }

  /** Exactly the entries the filter accepts are kept. */
  lemma FilterKeeps(obj: map<string, JsValue>, filterFn: (string, JsValue) -> bool, k: string)
    ensures k in GetFilteredValuesFromObject(obj, filterFn) <==> k in obj && filterFn(k, obj[k])
  {
  }

  lemma FilterAll(obj: map<string, JsValue>, filterFn: (string, JsValue) -> bool)
    requires forall k :: k in obj ==> filterFn(k, obj[k])
    ensures GetFilteredValuesFromObject(obj, filterFn) == obj
  {
  }

  lemma FilterNone(obj: map<string, JsValue>, filterFn: (string, JsValue) -> bool)
    requires forall k :: k in obj ==> !filterFn(k, obj[k])
    ensures GetFilteredValuesFromObject(obj, filterFn) == map[]
  {
    var r := GetFilteredValuesFromObject(obj, filterFn);
    assert forall k :: k !in r;
  }

  /** Filtering twice with the same filter is filtering once. */
  lemma FilterIdempotent(obj: map<string, JsValue>, filterFn: (string, JsValue) -> bool)
    ensures var once := GetFilteredValuesFromObject(obj, filterFn);
      GetFilteredValuesFromObject(once, filterFn) == once
  {
  }

  /** Filtering with one filter and then another is filtering with both. */
  lemma FilterCompose(obj: map<string, JsValue>, f: (string, JsValue) -> bool, g: (string, JsValue) -> bool)
    ensures GetFilteredValuesFromObject(GetFilteredValuesFromObject(obj, f), g) ==
      GetFilteredValuesFromObject(obj, (k, v) => f(k, v) && g(k, v))
  {
  }
}
