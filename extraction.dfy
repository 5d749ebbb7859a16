/** `extract_document`: the call to the extraction service, the unwrapping of
    its response and the conversion of any exception into `None`. */
module Extraction {
  import opened Values

  /** What the extraction service call (file upload plus extraction) does:
      raise, or return a response. */
  datatype Outcome = Raised | Returned(response: Value)

  /** The payload of a response: its `data` attribute if it has one, else for a
      dict its "data" entry (the dict itself when absent), else the response. */
  function Unwrap(response: Value): Value {
    match response
    case Obj(Some(payload), _) => payload
    case Dict(fields, _) => Get(fields, "data", response)
    case _ => response
  }

  /** `extract_document`: never raises; an exception becomes `None`. */
  function ExtractDocument(o: Outcome): (data: Value)
    ensures o.Raised? ==> data == NoneValue && !Truthy(data)
  {
    match o
    case Raised => NoneValue
    case Returned(response) => Unwrap(response)
  }

  /** Both response shapes deliver their payload, and a dict without a "data"
      entry, an object without a `data` attribute and any other value (None, a
      str, a number, a bool, a list) are taken whole. */
  lemma UnwrapResponseShapes(payload: Value, fields: map<string, Value>, text: string)
    ensures Unwrap(Obj(Some(payload), text)) == payload
    ensures Unwrap(Dict(fields["data" := payload], text)) == payload
    ensures "data" !in fields ==> Unwrap(Dict(fields, text)) == Dict(fields, text)
    ensures Unwrap(Obj(None, text)) == Obj(None, text)
    ensures forall v: Value :: !v.Dict? && !v.Obj? ==> Unwrap(v) == v
  {
  }

  /** Unwrapping peels one level only: a nested "data" entry stays in the payload. */
  lemma UnwrapIsSingleLevel(payload: Value, inner: string, outer: string)
    ensures Unwrap(Dict(map["data" := Dict(map["data" := payload], inner)], outer))
         == Dict(map["data" := payload], inner)
  {
  }

  /** A truthy response can unwrap to a falsy payload (a present but empty "data"). */
  lemma UnwrapMayYieldFalsy(text: string)
    ensures Truthy(Dict(map["data" := NoneValue], text))
    ensures !Truthy(ExtractDocument(Returned(Dict(map["data" := NoneValue], text))))
  {
  }
}
