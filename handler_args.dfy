/** Payload accessors the RPG Maker command handlers share: `GetInt`, and
    `GetPayloadValue<Dictionary<string, object>>`, which both the event and the
    game-state handler define identically, plus C#'s `??` on optional strings
    and `string.IsNullOrEmpty`.  A missing payload or key is `None`. */
module HandlerArgs {
  import opened Wrappers
  import opened Text
  import opened Json

  /** `a ?? b` on strings. */
  function FirstGiven(a: Option<string>, b: Option<string>): (r: Option<string>)
    ensures a.Some? ==> r == a
    ensures a.None? ==> r == b
  {
    if a.Some? then a else b
  }

  /** `string.IsNullOrEmpty`. */
  predicate Blank(s: Option<string>) {
    s.None? || s.value == ""
  }

  /** `int.TryParse` of the value's text: a decimal integer in the 32-bit range. */
  function TryParseInt32(text: Option<string>): (r: Option<int>)
    ensures r.Some? ==> InInt32(r.value) && text.Some? && ParseInteger(text.value) == r
    ensures text.Some? && ParseInteger(text.value).Some? && InInt32(ParseInteger(text.value).value) ==> r.Some?
  {
    if text.None? then None
    else
      match ParseInteger(text.value)
      case None => None
      case Some(n) => if InInt32(n) then Some(n) else None
  }

  /** `GetInt(payload, key, defaultValue)`: a `long` is cast to `int`
      (keeping its low 32 bits), an `int` is taken as it is, any other value
      counts when its text parses as a 32-bit integer, and everything else
      falls back to the default.  The `double` branch is not modelled. */
  function GetInt(payload: Option<map<string, Obj>>, key: string, defaultValue: int): (r: int)
    ensures payload.None? || key !in payload.value ==> r == defaultValue
    ensures payload.Some? && key in payload.value && payload.value[key].Int64? ==>
              r == Wrap32(payload.value[key].l) && InInt32(r)
    ensures payload.Some? && key in payload.value && payload.value[key].Int32? ==> r == payload.value[key].i
    ensures payload.Some? && key in payload.value && !payload.value[key].Int64? && !payload.value[key].Int32? ==>
              r == TryParseInt32(ObjText(payload.value[key])).GetOr(defaultValue)
  {
    if payload.None? || key !in payload.value then defaultValue
    else
      match payload.value[key]
      case Int64(l) => Wrap32(l)
      case Int32(i) => i
      case v => TryParseInt32(ObjText(v)).GetOr(defaultValue)
  }

  /** Numeric text round-trips: a payload string holding a 32-bit integer's
      decimal form reads as that integer, whatever the default. */
  lemma GetIntReadsDecimalText(payload: map<string, Obj>, key: string, n: int, defaultValue: int)
    requires InInt32(n)
    requires key in payload && payload[key] == Str(IntToString(n))
    ensures GetInt(Some(payload), key, defaultValue) == n
  {
    ParseIntToString(n);
  }

  /** A value with no digit in its text, a container or `null` yields the default. */
  lemma GetIntFallsBack(payload: map<string, Obj>, key: string, defaultValue: int)
    requires key in payload
    requires payload[key].Null? || payload[key].List? || payload[key].Dict? ||
             (payload[key].Str? && forall i :: 0 <= i < |payload[key].s| ==> !IsDigit(payload[key].s[i]))
    ensures GetInt(Some(payload), key, defaultValue) == defaultValue
  {
    if payload[key].Str? {
      NoDigitNoParse(payload[key].s);
    }
  }

  /** `GetPayloadValue<Dictionary<string, object>>`: the value when it is a
      dictionary, `null` otherwise. */
  function GetDict(payload: Option<map<string, Obj>>, key: string): (r: Option<map<string, Obj>>)
    ensures r.Some? <==> payload.Some? && key in payload.value && payload.value[key].Dict?
    ensures r.Some? ==> r.value == payload.value[key].entries
  {
    if payload.Some? && key in payload.value && payload.value[key].Dict? then Some(payload.value[key].entries) else None
  }
}
