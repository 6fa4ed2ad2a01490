/** `useSafeValue` (src/hooks/useSafeState.ts): a fallback for `null` and `undefined` only. */
module SafeValue {
  import opened JsValues

  function UseSafeValue(value: JsValue, fallback: JsValue): (r: JsValue)
    ensures value == Null || value == Undefined ==> r == fallback
    ensures value != Null && value != Undefined ==> r == value
  {
    if value == Undefined || value == Null then fallback else value
  }

  /** Applying it twice with the same fallback is applying it once; a usable fallback makes the result usable. */
  lemma {:induction false} SafeValueSettles(value: JsValue, fallback: JsValue)
    ensures UseSafeValue(UseSafeValue(value, fallback), fallback) == UseSafeValue(value, fallback)
    ensures fallback != Null && fallback != Undefined ==>
              UseSafeValue(value, fallback) != Null && UseSafeValue(value, fallback) != Undefined
  {
  }

  /** Falsy values other than `null` and `undefined` (`0`, `""`, `false`) are kept. */
  lemma {:induction false} FalsyValuesKept(value: JsValue, fallback: JsValue)
    requires !Truthy(value) && value != Null && value != Undefined
    ensures UseSafeValue(value, fallback) == value
    ensures value == Num(0) || value == Str("") || value == Bool(false)
  {
  }
}
