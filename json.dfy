/** The two JSON value universes the editor-side code moves between.

    `JToken` is a Newtonsoft.Json token tree (`JObject`, `JArray`, `JValue`)
    as read from and written to the RPG Maker data files.  `Obj` is the plain
    .NET object graph that command payloads arrive in: `Dictionary<string,
    object>`, `List<object>`, boxed `int`/`long`/`string`/`bool`, `null`, and
    occasionally a `JToken` left inside a dictionary by Newtonsoft. */
module Json {
  import opened Wrappers
  import opened Text

  /** A Newtonsoft token.  `JOther` stands for the remaining value kinds
      (dates, GUIDs, URIs, raw text) through the text they print as.
      Floating-point tokens are not part of this model. */
  datatype JToken =
    | JObject(props: map<string, JToken>)
    | JArray(items: seq<JToken>)
    | JInteger(n: int)
    | JString(s: string)
    | JBoolean(b: bool)
    | JNull
    | JUndefined
    | JOther(text: string)

  /** A boxed .NET value.  `Int32` and `Int64` keep the CLR type apart
      because the modelled code branches on it (`value is long`, `value is int`). */
  datatype Obj =
    | Null
    | Int32(i: int)
    | Int64(l: int)
    | Str(s: string)
    | Boolean(b: bool)
    | List(elems: seq<Obj>)
    | Dict(entries: map<string, Obj>)
    | Token(t: JToken)

  const Int32Min: int := -0x8000_0000
  const Int32Max: int := 0x7FFF_FFFF
  const Int64Min: int := -0x8000_0000_0000_0000
  const Int64Max: int := 0x7FFF_FFFF_FFFF_FFFF

  predicate InInt32(n: int) {
    Int32Min <= n <= Int32Max
  }

  predicate InInt64(n: int) {
    Int64Min <= n <= Int64Max
  }

  /** An unchecked C# cast to `int`: keeps the low 32 bits, two's complement. */
  function Wrap32(n: int): (r: int)
    ensures InInt32(r)
    ensures InInt32(n) ==> r == n
  {
    (n - Int32Min) % 0x1_0000_0000 + Int32Min
  }

  /** The cast changes a value by a multiple of 2^32 only. */
  lemma Wrap32Congruent(n: int)
    ensures (Wrap32(n) - n) % 0x1_0000_0000 == 0
  {
  }

  /** `token[key]` on a `JObject`: the property value, or C# `null` when absent. */
  function Prop(t: JToken, key: string): Option<JToken> {
    if t.JObject? && key in t.props then Some(t.props[key]) else None
  }

  /** `token.ToString()` of a value token: the string itself, an integer in
      decimal, `True`/`False`, the empty string for a null value.  Newtonsoft
      prints an object or array as its indented JSON text; that text depends
      on property order, which `JObject`'s map does not keep, so it is not
      modelled here (`None`). */
  function TokenText(t: JToken): Option<string> {
    match t
    case JString(s) => Some(s)
    case JInteger(n) => Some(IntToString(n))
    case JBoolean(b) => Some(if b then "True" else "False")
    case JNull => Some("")
    case JUndefined => Some("")
    case JOther(text) => Some(text)
    case JObject(_) => None
    case JArray(_) => None
  }

  /** `token[key]?.ToString()`. */
  function PropText(t: JToken, key: string): Option<string> {
    match Prop(t, key)
    case None => None
    case Some(v) => TokenText(v)
  }

  /** `JToken.FromObject(o)`: dictionaries become objects, lists arrays,
      boxed scalars value tokens; a token already inside the graph is kept. */
  function FromObject(o: Obj): (r: JToken)
    ensures o.Dict? ==> r.JObject? && r.props.Keys == o.entries.Keys
    ensures o.List? ==> r.JArray? && |r.items| == |o.elems|
    ensures o.Str? ==> r == JString(o.s)
    ensures o.Null? ==> r == JNull
  {
    match o
    case Null => JNull
    case Int32(i) => JInteger(i)
    case Int64(l) => JInteger(l)
    case Str(s) => JString(s)
    case Boolean(b) => JBoolean(b)
    case List(elems) => JArray(seq(|elems|, k requires 0 <= k < |elems| => FromObject(elems[k])))
    case Dict(entries) => JObject(map k | k in entries :: FromObject(entries[k]))
    case Token(t) => t
  }

  /** `value?.ToString()` for a boxed payload value; containers print their
      CLR type name, which is not modelled (`None`). */
  function ObjText(o: Obj): Option<string> {
    match o
    case Null => None
    case Int32(i) => Some(IntToString(i))
    case Int64(l) => Some(IntToString(l))
    case Str(s) => Some(s)
    case Boolean(b) => Some(if b then "True" else "False")
    case List(_) => None
    case Dict(_) => None
    case Token(t) => TokenText(t)
  }
}
