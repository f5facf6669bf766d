/** Values shared by the backend handlers and the frontend pages. */
module Common {

  datatype Option<T> = None | Some(value: T)

  /** A JSON request-body value as a JavaScript handler sees it. `Undefined` stands for a
      field that is absent from the body. Numbers are integers in this model. */
  datatype JsValue =
    | Undefined
    | Null
    | Bool(b: bool)
    | Num(n: int)
    | Str(s: string)
    | Arr(elems: seq<JsValue>)
    | Obj(fields: seq<(string, JsValue)>)

  /** JavaScript truthiness: `undefined`, `null`, `false`, `0` and `""` are falsy;
      every array and object, even an empty one, is truthy. */
  predicate Truthy(v: JsValue)
  {
    match v
    case Undefined => false
    case Null => false
    case Bool(b) => b
    case Num(n) => n != 0
    case Str(s) => s != ""
    case Arr(_) => true
    case Obj(_) => true
  }

  /** The outcome of `JSON.parse` on a text: a thrown error, or the value. */
  datatype Parsed = ParseFailed | ParsedValue(v: JsValue)

  /** The loose test `v == null`, true of `null` and of `undefined` only. */
  predicate IsNullish(v: JsValue)
  {
    v.Undefined? || v.Null?
  }

  /** `s || null` on an optional string: an absent or empty string becomes null. */
  function NullIfEmpty(s: Option<string>): (r: Option<string>)
    ensures r.None? <==> (s.None? || s == Some(""))
    ensures r.Some? ==> r == s
  {
    match s
    case None => None
    case Some(t) => if t == "" then None else Some(t)
  }

  /** The HTTP status of a handler's reply, with the id the created-row replies carry. */
  datatype Reply =
    | Ok            // 200 {ok: true}
    | Created       // 201 {ok: true}
    | CreatedId(id: int)  // 201 {id, ok: true}
    | BadRequest    // 400
    | Unauthorized  // 401
    | NotFound      // 404
}
