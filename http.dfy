/**
 * The values a handler reads and writes: JavaScript values (the request body,
 * what the driver resolves to, what `res.json` serialises), responses, and
 * the hand-off of a thrown error to Express's error middleware.
 */
module Http {
  import opened Common
  import opened Database

  /** A JavaScript value, as far as the handlers use one. */
  datatype Json =
    | Undefined
    | Null
    | Bool(b: bool)
    | Num(n: int)
    | Str(s: string)
    | Arr(items: seq<Json>)
    | Obj(fields: map<string, Json>)

  /** JavaScript truthiness: every array and object is truthy, even an empty one. */
  predicate Truthy(v: Json) {
    match v
    case Undefined => false
    case Null => false
    case Bool(b) => b
    case Num(n) => n != 0
    case Str(s) => s != ""
    case Arr(_) => true
    case Obj(_) => true
  }

  /** `v[k]`, which is also what array destructuring `const [x] = v` reads. */
  function Index(v: Json, k: nat): Json {
    if v.Arr? && k < |v.items| then v.items[k] else Undefined
  }

  /** `v.name` for the property names the handlers read; arrays have none of them. */
  function Prop(v: Json, name: string): Json {
    if v.Obj? && name in v.fields then v.fields[name] else Undefined
  }

  /** A nullable column as JSON: SQL NULL is `null`. */
  function Column(v: Option<string>): Json {
    match v
    case None => Null
    case Some(s) => Str(s)
  }

  /** A response: its status and the value handed to `res.json`, or no body (`res.send()`). */
  datatype Response = Response(status: nat, body: Option<Json>)

  /** `res.status(status).json({ key: text })`. */
  function MessageResponse(status: nat, key: string, text: string): Response {
    Response(status, Some(Obj(map[key := Str(text)])))
  }

  /** How a handler ends: it answers, or it passes the error to `next`. */
  datatype Reply = Send(response: Response) | Next(error: Error)

  /** The global error middleware of the server: every forwarded error becomes a 500. */
  function Deliver(reply: Reply): (r: Response)
    ensures reply.Next? ==> r == MessageResponse(500, "error", "Erro interno do servidor")
    ensures reply.Send? ==> r == reply.response
  {
    match reply
    case Send(response) => response
    case Next(_) => MessageResponse(500, "error", "Erro interno do servidor")
  }

  /** `items.map(f)`: a list of values, each written as JSON by `f`. */
  function JsonList<T>(items: seq<T>, f: T -> Json): (js: seq<Json>)
    ensures |js| == |items|
    ensures forall i | 0 <= i < |items| :: js[i] == f(items[i])
  {
    seq(|items|, i requires 0 <= i < |items| => f(items[i]))
  }

  /** A parsed JSON request body whose fields are strings. */
  type Body = map<string, string>

  /** `req.body.key`: `undefined` when the field is absent. */
  function Field(body: Body, key: string): Option<string> {
    if key in body then Some(body[key]) else None
  }

  /** `!value` for a body field: absent or the empty string. */
  predicate Falsy(v: Option<string>) {
    v.None? || v.value == ""
  }

  /** The body as a JavaScript object. */
  function BodyJson(body: Body): map<string, Json> {
    map k | k in body :: Str(body[k])
  }

  /** `{ id, ...body }`: every field of the body, and `id` unless the body has its own. */
  function Spread(id: Json, body: Body): (m: map<string, Json>)
    ensures m.Keys == body.Keys + {"id"}
    ensures m["id"] == if "id" in body then Str(body["id"]) else id
    ensures forall k | k in body :: m[k] == Str(body[k])
  {
    map["id" := id] + BodyJson(body)
  }

  /** `String(n)`: the decimal digits of a key, as Express gives `req.params.id`. */
  function NatToString(n: nat): (s: string)
    ensures s != []
    decreases n
  {
    if n < 10 then [('0' as int + n) as char]
    else NatToString(n / 10) + [('0' as int + n % 10) as char]
  }
}
