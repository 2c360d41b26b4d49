/** The response envelope every handler result is wrapped in: `data`, plus `meta` when the
    result is a page that carries one. */
module TransformInterceptor {
  import opened JsValues

  /** The map callback: `meta` is `value?.meta`; the body is `{ data, ...(meta && { meta }) }`
      with `data` taken from `value.data` when meta is truthy and the value itself otherwise. */
  function Envelope(value: JsValue): (r: map<string, JsValue>)
    ensures "data" in r
    ensures "meta" in r <==> value.Get("meta").Truthy()
    ensures r.Keys <= {"data", "meta"}
    ensures value.Get("meta").Truthy() ==> r["data"] == value.Get("data") && r["meta"] == value.Get("meta")
    ensures !value.Get("meta").Truthy() ==> r == map["data" := value]
  {
    var meta := value.Get("meta");
    if meta.Truthy() then map["data" := value.Get("data"), "meta" := meta]
    else map["data" := value]
  }

  /** Null, undefined and primitives pass through as data without failing. */
  lemma EnvelopeOfPlainValue(value: JsValue)
    requires !value.Obj?
    ensures Envelope(value) == map["data" := value]
  {
  }

  /** A page — an object whose meta is truthy — is already in envelope form once its
      other keys are dropped: enveloping the envelope gives it back. */
  lemma EnvelopeOfPageIsFixed(value: JsValue)
    requires value.Get("meta").Truthy()
    ensures Envelope(Obj(Envelope(value))) == Envelope(value)
  {
    var r := Envelope(value);
    assert Obj(r).Get("meta") == value.Get("meta");
    assert Obj(r).Get("data") == value.Get("data");
  }

  /** Without meta the wrapping nests: the envelope of an envelope holds the first
      envelope as its data. */
  lemma EnvelopeWithoutMetaNests(value: JsValue)
    requires !value.Get("meta").Truthy()
    ensures Envelope(Obj(Envelope(value))) == map["data" := Obj(map["data" := value])]
  {
    assert Obj(Envelope(value)).Get("meta") == Undefined;
  }
}
