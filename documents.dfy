/** JSON documents as the handlers receive and store them, the `$set`
    update operator, JavaScript truthiness, and what `new ObjectId(x)` makes
    of a document field. */
module Documents {

  datatype Option<+T> = None | Some(value: T)

  /** A stored ObjectId. Only its identity matters here. */
  type Oid = nat

  /** A JSON value from a parsed request body. JavaScript numbers are read
      as reals (no NaN or infinities: JSON has none). */
  datatype Value =
    | Text(s: string)
    | Number(n: real)
    | Flag(b: bool)
    | Null
    | List(items: seq<Value>)
    | Object(fields: map<string, Value>)

  /** A document: a request body or a stored record, field name to value. */
  type Doc = map<string, Value>

  /** The driver's conversion of a hex string to an ObjectId: `None` when
      `ObjectId.isValid` rejects the string and `new ObjectId(s)` throws. */
  type IdParser = string -> Option<Oid>

  /** `doc.key`: `None` stands for `undefined`. */
  function Field(d: Doc, key: string): (r: Option<Value>)
    ensures r.Some? <==> key in d
    ensures r.Some? ==> r.value == d[key]
  {
    if key in d then Some(d[key]) else None
  }

  /** JavaScript truthiness of a field (`!x` is its negation): the falsy
      values JSON can carry are `undefined`, `null`, `""`, `0` and
      `false`; arrays and objects, even empty ones, are truthy. */
  predicate Truthy(v: Option<Value>)
    ensures Truthy(v) <==> v.Some? && v.value !in {Null, Text(""), Number(0.0), Flag(false)}
  {
    match v
    case None => false
    case Some(Text(s)) => s != ""
    case Some(Number(n)) => n != 0.0
    case Some(Flag(b)) => b
    case Some(Null) => false
    case Some(List(_)) => true
    case Some(Object(_)) => true
  }

  /** The document after `{ $set: patch }`: every field of the patch is
      written, every other field is kept. */
  function SetFields(d: Doc, patch: Doc): (r: Doc)
    ensures r.Keys == d.Keys + patch.Keys
    ensures forall k :: k in patch ==> r[k] == patch[k]
    ensures forall k :: k in d && k !in patch ==> r[k] == d[k]
  {
    d + patch
  }

  /** A `{ $set: patch }` leaves the document as it was (MongoDB then reports
      `modifiedCount == 0`) exactly when every patched field already holds
      the patched value. */
  lemma SetFieldsUnchangedIff(d: Doc, patch: Doc)
    ensures SetFields(d, patch) == d <==> forall k :: k in patch ==> k in d && d[k] == patch[k]
  {
  }

  /** What the filter `{ _id: new ObjectId(x) }` selects. */
  datatype IdFilter =
    | Matches(oid: Oid)   // the ObjectId parsed from a hex string
    | MatchesNothing      // a freshly generated ObjectId, which no stored document has

  /** `new ObjectId(x)` for a field `x`; `None` when the constructor throws.
      Given `undefined`, `null` or a number it generates a new ObjectId;
      given a string it parses it; given anything else it throws. */
  function ObjectIdOf(parse: IdParser, v: Option<Value>): (r: Option<IdFilter>)
    ensures r == Some(MatchesNothing) <==> (v.None? || v == Some(Null) || (v.Some? && v.value.Number?))
    ensures forall c: Oid :: r == Some(Matches(c)) <==> (v.Some? && v.value.Text? && parse(v.value.s) == Some(c))
  {
    match v
    case None => Some(MatchesNothing)
    case Some(Null) => Some(MatchesNothing)
    case Some(Number(_)) => Some(MatchesNothing)
    case Some(Text(s)) => if parse(s).Some? then Some(Matches(parse(s).value)) else None
    case Some(Flag(_)) => None
    case Some(List(_)) => None
    case Some(Object(_)) => None
  }
}
