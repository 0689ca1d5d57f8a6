/** The editor bridge's JSON front end (`Editor/MCPBridge/MiniJson.cs`):
    text is parsed into a Newtonsoft token tree and converted into plain .NET
    objects.  The parser is not part of this model; `Deserialize` takes it as
    a parameter that yields a token tree or fails with the exception's
    message.  Date parsing is switched off in the parser settings, so a
    date-looking string arrives as a string token and stays a string. */
module MiniJson {
  import opened Wrappers
  import opened Json

  /** Every integer token in the tree fits in a `long`; `token.Value<long>()`
      throws on any other. */
  predicate IntegersFitInt64(t: JToken) {
    match t
    case JInteger(n) => InInt64(n)
    case JObject(props) => forall k :: k in props ==> IntegersFitInt64(props[k])
    case JArray(items) => forall i :: 0 <= i < |items| ==> IntegersFitInt64(items[i])
    case _ => true
  }

  /** The conversion of one token: objects to dictionaries with the same
      property names, arrays to lists in the same order, an integer to `int`
      when it fits in 32 bits and to `long` otherwise, null and undefined to
      `null`, strings and booleans to themselves, and any other value kind
      to its text. */
  function Convert(t: JToken): (r: Obj)
    requires IntegersFitInt64(t)
    ensures t.JObject? ==> r.Dict? && r.entries.Keys == t.props.Keys
    ensures t.JArray? ==> r.List? && |r.elems| == |t.items|
    ensures t.JInteger? ==> (r == Int32(t.n) <==> InInt32(t.n)) && (r == Int64(t.n) <==> !InInt32(t.n))
    ensures t.JNull? || t.JUndefined? <==> r.Null?
    ensures t.JString? ==> r == Str(t.s)
  {
    match t
    case JObject(props) => Dict(map k | k in props :: Convert(props[k]))
    case JArray(items) => List(seq(|items|, i requires 0 <= i < |items| => Convert(items[i])))
    case JInteger(n) => if InInt32(n) then Int32(n) else Int64(n)
    case JString(s) => Str(s)
    case JBoolean(b) => Boolean(b)
    case JNull => Null
    case JUndefined => Null
    case JOther(text) => Str(text)
  }

  const Int64OverflowMessage: string := "Value was either too large or too small for an Int64."

  /** `ConvertJToken`. */
  function ConvertJToken(t: JToken): (r: Result<Obj, string>)
    ensures r.Ok? <==> IntegersFitInt64(t)
    ensures r.Ok? ==> r.value == Convert(t)
  {
    if IntegersFitInt64(t) then Ok(Convert(t)) else Err(Int64OverflowMessage)
  }

  /** `Deserialize`: `null` for missing or empty text, otherwise the
      converted parse result. */
  function Deserialize(json: Option<string>, parse: string -> Result<JToken, string>): (r: Result<Obj, string>)
    ensures json.None? || json.value == "" ==> r == Ok(Null)
    ensures json.Some? && json.value != "" && parse(json.value).Err? ==> r == Err(parse(json.value).error)
    ensures json.Some? && json.value != "" && parse(json.value).Ok? ==> r == ConvertJToken(parse(json.value).value)
  {
    match json
    case None => Ok(Null)
    case Some(text) =>
      if text == "" then Ok(Null)
      else
        match parse(text)
        case Err(e) => Err(e)
        case Ok(t) => ConvertJToken(t)
  }

  /** The token tree the conversion can tell apart: undefined reads as null
      and the remaining value kinds as their text. */
  function Canonical(t: JToken): JToken {
    match t
    case JObject(props) => JObject(map k | k in props :: Canonical(props[k]))
    case JArray(items) => JArray(seq(|items|, i requires 0 <= i < |items| => Canonical(items[i])))
    case JUndefined => JNull
    case JOther(text) => JString(text)
    case _ => t
  }

  /** Converting to .NET objects and back (`JToken.FromObject`) loses
      nothing but the distinctions `Canonical` erases: structure, property
      names, order and every integer, string and boolean survive. */
  lemma {:induction false} ConvertRoundTrip(t: JToken)
    requires IntegersFitInt64(t)
    ensures FromObject(Convert(t)) == Canonical(t)
    decreases t, 1
  {
    match t
    case JObject(_) => ObjectRoundTrip(t);
    case JArray(_) => ArrayRoundTrip(t);
    case _ =>
  }

  lemma {:induction false} ObjectRoundTrip(t: JToken)
    requires t.JObject? && IntegersFitInt64(t)
    ensures FromObject(Convert(t)) == Canonical(t)
    decreases t, 0
  {
    var props := t.props;
    var entries := Convert(t).entries;
    var back := map k | k in entries :: FromObject(entries[k]);
    var canon := map k | k in props :: Canonical(props[k]);
    forall k | k in props
      ensures k in back && back[k] == canon[k]
    {
      ConvertRoundTrip(props[k]);
    }
    assert back == canon;
  }

  lemma {:induction false} ArrayRoundTrip(t: JToken)
    requires t.JArray? && IntegersFitInt64(t)
    ensures FromObject(Convert(t)) == Canonical(t)
    decreases t, 0
  {
    var items := t.items;
    forall i | 0 <= i < |items|
      ensures FromObject(Convert(items[i])) == Canonical(items[i])
    {
      ConvertRoundTrip(items[i]);
    }
    var elems := Convert(t).elems;
    assert elems == seq(|items|, i requires 0 <= i < |items| => Convert(items[i]));
    var back := seq(|elems|, i requires 0 <= i < |elems| => FromObject(elems[i]));
    assert back == seq(|items|, i requires 0 <= i < |items| => Canonical(items[i]));
  }

  /** Canonicalising keeps every integer and converts alike. */
  lemma {:induction false} ConvertCanonical(t: JToken)
    requires IntegersFitInt64(t)
    ensures IntegersFitInt64(Canonical(t))
    ensures Convert(Canonical(t)) == Convert(t)
  {
    match t
    case JObject(props) =>
      forall k | k in props
        ensures IntegersFitInt64(Canonical(props[k])) && Convert(Canonical(props[k])) == Convert(props[k])
      {
        ConvertCanonical(props[k]);
      }
      assert Convert(Canonical(t)).entries == Convert(t).entries;
    case JArray(items) =>
      forall i | 0 <= i < |items|
        ensures IntegersFitInt64(Canonical(items[i])) && Convert(Canonical(items[i])) == Convert(items[i])
      {
        ConvertCanonical(items[i]);
      }
      assert Convert(Canonical(t)).elems == Convert(t).elems;
    case _ =>
  }

  /** Writing converted objects back as tokens and converting again gives
      the same objects. */
  lemma ReconvertIsStable(t: JToken)
    requires IntegersFitInt64(t)
    ensures IntegersFitInt64(FromObject(Convert(t)))
    ensures Convert(FromObject(Convert(t))) == Convert(t)
  {
    ConvertRoundTrip(t);
    ConvertCanonical(t);
  }
}
