/**
 Request bodies as the handlers see them after `request.get_json()`.

 Only string and `null` values are modelled: a body is a map from each key the
 client sent to either a string (`Some`) or JSON `null` (`None`).
 */
module Json {

  /** A value that may be JSON `null` (Python's `None`). */
  datatype Option<+T> = None | Some(value: T)

  /** A decoded JSON object whose values are strings or `null`. */
  type Body = map<string, Option<string>>

  /** `data.get(key)`: a missing key and an explicit `null` both read as `None`. */
  function Get(body: Body, key: string): Option<string>
  {
    if key in body then body[key] else None
  }

  /** `data.get(key, fallback)`: the fallback is used only when the key is absent,
      so an explicit `null` in the body wins over it. */
  function GetOr(body: Body, key: string, fallback: Option<string>): Option<string>
  {
    if key in body then body[key] else fallback
  }

  /** Every key of `keys` was sent, so `data[key]` does not raise `KeyError`. */
  predicate HasKeys(body: Body, keys: set<string>)
  {
    keys <= body.Keys
  }
}
