/** Dictionary utilities of the editor bridge
    (`Editor/MCPBridge/Services/DataModelMapper.cs`): recursive merge,
    dotted-path lookup and assignment, and field extraction for listings.

    Dictionaries are values here (`map<string, Obj>`): a nested dictionary
    that the source shares between the input and the result, or updates in
    place through a reference the caller also holds, is copied instead. */
module DataModelMapper {
  import opened Wrappers
  import opened Text
  import opened Json

  // ---------------------------------------------------------------------------
  // MergeDicts
  // ---------------------------------------------------------------------------

  /** Both-sides-present merge: every key of either side; where both sides
      hold a dictionary the two are merged, otherwise the update wins. */
  function Merge(original: map<string, Obj>, updates: map<string, Obj>): (r: map<string, Obj>)
    ensures r.Keys == original.Keys + updates.Keys
    ensures forall k :: k in original && k !in updates ==> r[k] == original[k]
    ensures forall k :: k in updates && !(updates[k].Dict? && k in original && original[k].Dict?) ==>
              r[k] == updates[k]
    ensures forall k :: k in updates && updates[k].Dict? && k in original && original[k].Dict? ==>
              r[k] == Dict(Merge(original[k].entries, updates[k].entries))
    decreases Dict(updates)
  {
    map k | k in original.Keys + updates.Keys ::
      if k in updates then
        if updates[k].Dict? && k in original && original[k].Dict? then
          Dict(Merge(original[k].entries, updates[k].entries))
        else updates[k]
      else original[k]
  }

  /** `MergeDicts`: a missing side yields the other one unchanged. */
  function MergeDicts(original: Option<map<string, Obj>>, updates: Option<map<string, Obj>>): (r: Option<map<string, Obj>>)
    ensures original.None? ==> r == updates
    ensures original.Some? && updates.None? ==> r == original
    ensures original.Some? && updates.Some? ==> r == Some(Merge(original.value, updates.value))
  {
    if original.None? then updates
    else if updates.None? then original
    else Some(Merge(original.value, updates.value))
  }

  /** Merging a dictionary into itself changes nothing. */
  lemma {:induction false} MergeSelf(m: map<string, Obj>)
    ensures Merge(m, m) == m
    decreases Dict(m)
  {
    forall k | k in m && m[k].Dict?
      ensures Merge(m[k].entries, m[k].entries) == m[k].entries
    {
      MergeSelf(m[k].entries);
    }
  }

  /** Applying the same updates twice is the same as applying them once. */
  lemma {:induction false} MergeIdempotent(original: map<string, Obj>, updates: map<string, Obj>)
    ensures Merge(Merge(original, updates), updates) == Merge(original, updates)
    decreases Dict(updates)
  {
    var once := Merge(original, updates);
    forall k | k in updates && updates[k].Dict? && once[k].Dict?
      ensures Merge(once[k].entries, updates[k].entries) == once[k].entries
    {
      if k in original && original[k].Dict? {
        MergeIdempotent(original[k].entries, updates[k].entries);
      } else {
        MergeSelf(updates[k].entries);
      }
    }
  }

  // ---------------------------------------------------------------------------
  // GetNestedValue
  // ---------------------------------------------------------------------------

  /** Following `parts` from `current`: through dictionaries and through
      Newtonsoft objects left inside them; `null` on a missing key or on a
      value that is neither. */
  function Lookup(current: Obj, parts: seq<string>): Obj
    decreases |parts|
  {
    if parts == [] then current
    else
      match current
      case Dict(m) => if parts[0] in m then Lookup(m[parts[0]], parts[1..]) else Null
      case Token(JObject(props)) => if parts[0] in props then Lookup(Token(props[parts[0]]), parts[1..]) else Null
      case _ => Null
  }

  /** The value at a dotted path, `null` for a missing dictionary or an empty path. */
  function NestedValue(dict: Option<map<string, Obj>>, path: string): Obj {
    if dict.None? || path == "" then Null else Lookup(Dict(dict.value), Split(path, '.'))
  }

  /** `GetNestedValue`: walks the path one segment at a time. */
  method GetNestedValue(dict: Option<map<string, Obj>>, path: string) returns (r: Obj)
    ensures dict.None? || path == "" ==> r == Null
    ensures dict.Some? && path != "" ==> r == Lookup(Dict(dict.value), Split(path, '.'))
  {
    if dict.None? || path == "" {
      return Null;
    }
    var parts := Split(path, '.');
    var current := Dict(dict.value);
    var i := 0;
    while i < |parts|
      invariant 0 <= i <= |parts|
      invariant Lookup(current, parts[i..]) == Lookup(Dict(dict.value), parts)
    {
      var part := parts[i];
      assert parts[i..][1..] == parts[i + 1..];
      if current.Dict? {
        if part !in current.entries {
          return Null;
        }
        current := current.entries[part];
      } else if current.Token? && current.t.JObject? {
        if part !in current.t.props {
          return Null;
        }
        current := Token(current.t.props[part]);
      } else {
        return Null;
      }
      i := i + 1;
    }
    return current;
  }

  // ---------------------------------------------------------------------------
  // SetNestedValue
  // ---------------------------------------------------------------------------

  /** Every intermediate segment that already exists holds a dictionary
      (a missing one is created on the way down). */
  predicate PathOpen(d: map<string, Obj>, parts: seq<string>)
    decreases |parts|
  {
    |parts| <= 1 || parts[0] !in d || (d[parts[0]].Dict? && PathOpen(d[parts[0]].entries, parts[1..]))
  }

  /** The assignment along `parts`, creating missing intermediates and
      leaving everything unchanged when an existing intermediate is not a
      dictionary. */
  function SetNested(d: map<string, Obj>, parts: seq<string>, value: Obj): (r: map<string, Obj>)
    requires |parts| >= 1
    ensures PathOpen(d, parts) ==> r.Keys == d.Keys + {parts[0]}
    ensures !PathOpen(d, parts) ==> r == d
    ensures forall k :: k in d && k != parts[0] ==> r[k] == d[k]
    decreases |parts|
  {
    var p := parts[0];
    if |parts| == 1 then d[p := value]
    else if p !in d then d[p := Dict(SetNested(map[], parts[1..], value))]
    else if d[p].Dict? then
      var inner := SetNested(d[p].entries, parts[1..], value);
      if PathOpen(d[p].entries, parts[1..]) then d[p := Dict(inner)] else d
    else d
  }

  /** `SetNestedValue` on the caller's dictionary; `None` when there is none. */
  function SetNestedValue(dict: Option<map<string, Obj>>, path: string, value: Obj): (r: Option<map<string, Obj>>)
    ensures dict.None? ==> r.None?
    ensures dict.Some? && path == "" ==> r == dict
    ensures dict.Some? && path != "" ==> r == Some(SetNested(dict.value, Split(path, '.'), value))
  {
    if dict.None? || path == "" then dict else Some(SetNested(dict.value, Split(path, '.'), value))
  }

  /** Reading back a value just set along an open path yields that value. */
  lemma {:induction false} SetThenLookup(d: map<string, Obj>, parts: seq<string>, value: Obj)
    requires |parts| >= 1
    requires PathOpen(d, parts)
    ensures Lookup(Dict(SetNested(d, parts, value)), parts) == value
    decreases |parts|
  {
    var p := parts[0];
    if |parts| > 1 {
      if p !in d {
        SetThenLookup(map[], parts[1..], value);
      } else {
        SetThenLookup(d[p].entries, parts[1..], value);
      }
    }
  }

  /** Setting along `parts` leaves every path that leaves `parts` at some
      level where it names another key: siblings of the nested dictionaries
      on the way down keep their values, and a freshly created dictionary
      holds nothing but the next segment. */
  lemma {:induction false} SetNestedKeepsOtherPaths(d: map<string, Obj>, parts: seq<string>, value: Obj,
                                                    q: seq<string>, i: nat)
    requires |parts| >= 1
    requires i < |parts| && i < |q| && q[..i] == parts[..i] && q[i] != parts[i]
    ensures Lookup(Dict(SetNested(d, parts, value)), q) == Lookup(Dict(d), q)
    decreases |parts|
  {
    var p := parts[0];
    if i > 0 {
      assert q[0] == q[..i][0] == parts[..i][0] == p;
      assert q[1..][..i - 1] == q[..i][1..] == parts[..i][1..] == parts[1..][..i - 1];
      assert q[1..][i - 1] == q[i] && parts[1..][i - 1] == parts[i];
      if p !in d {
        SetNestedKeepsOtherPaths(map[], parts[1..], value, q[1..], i - 1);
      } else if d[p].Dict? {
        SetNestedKeepsOtherPaths(d[p].entries, parts[1..], value, q[1..], i - 1);
      }
    }
  }

  /** The dotted-path round trip: `GetNestedValue` after `SetNestedValue`. */
  lemma SetThenGet(d: map<string, Obj>, path: string, value: Obj)
    requires path != ""
    requires PathOpen(d, Split(path, '.'))
    ensures NestedValue(SetNestedValue(Some(d), path, value), path) == value
  {
    SetThenLookup(d, Split(path, '.'), value);
  }

  /** A blocked path sets nothing. */
  lemma SetBlockedIsNoOp(d: map<string, Obj>, path: string, value: Obj)
    requires path != ""
    requires !PathOpen(d, Split(path, '.'))
    ensures SetNestedValue(Some(d), path, value) == Some(d)
  {
  }

  /** Updates win along every path they set to a non-dictionary value,
      however the original is shaped. */
  lemma {:induction false} MergeUpdatesWin(original: map<string, Obj>, updates: map<string, Obj>, parts: seq<string>)
    requires var v := Lookup(Dict(updates), parts); !v.Null? && !v.Dict?
    ensures Lookup(Dict(Merge(original, updates)), parts) == Lookup(Dict(updates), parts)
    decreases |parts|
  {
    var p := parts[0];
    var merged := Merge(original, updates);
    if updates[p].Dict? && p in original && original[p].Dict? {
      MergeUpdatesWin(original[p].entries, updates[p].entries, parts[1..]);
    }
  }

  // ---------------------------------------------------------------------------
  // ExtractFields
  // ---------------------------------------------------------------------------

  /** The result key of a field path: its last dotted segment. */
  function FieldKey(path: string): (r: string)
    ensures r == Last(Split(path, '.'))
  {
    if '.' in path then Last(Split(path, '.')) else path
  }

  /** The listing that `ExtractFields` builds: paths in order, later paths
      overwriting earlier ones with the same key, `null` values skipped. */
  function Extracted(d: map<string, Obj>, paths: seq<string>): map<string, Obj> {
    if paths == [] then map[]
    else
      var prev := Extracted(d, paths[..|paths| - 1]);
      var path := paths[|paths| - 1];
      var v := NestedValue(Some(d), path);
      if v.Null? then prev else prev[FieldKey(path) := v]
  }

  /** `ExtractFields` over the model's dictionary form (`None` when the model
      is `null` or cannot be converted). */
  method ExtractFields(fullDict: Option<map<string, Obj>>, fieldPaths: seq<string>) returns (r: Option<map<string, Obj>>)
    ensures fullDict.None? ==> r.None?
    ensures fullDict.Some? ==> r == Some(Extracted(fullDict.value, fieldPaths))
  {
    if fullDict.None? {
      return None;
    }
    var result: map<string, Obj> := map[];
    var i := 0;
    while i < |fieldPaths|
      invariant 0 <= i <= |fieldPaths|
      invariant result == Extracted(fullDict.value, fieldPaths[..i])
    {
      var path := fieldPaths[i];
      var value := GetNestedValue(fullDict, path);
      assert fieldPaths[..i + 1][..i] == fieldPaths[..i];
      if !value.Null? {
        var key := if '.' in path then Last(Split(path, '.')) else path;
        result := result[key := value];
      }
      i := i + 1;
    }
    assert fieldPaths[..|fieldPaths|] == fieldPaths;
    return Some(result);
  }

  /** Path `j` is the last of `paths` whose key is `k` and whose value is
      not null. */
  predicate LastWithValue(d: map<string, Obj>, paths: seq<string>, k: string, j: int) {
    && 0 <= j < |paths| && FieldKey(paths[j]) == k && !NestedValue(Some(d), paths[j]).Null?
    && forall j' :: j < j' < |paths| && FieldKey(paths[j']) == k ==> NestedValue(Some(d), paths[j']).Null?
  }

  /** A key is listed exactly when some requested path ending in that key
      has a non-null value, and each listed value is the value of the last
      such path: a later path overwrites an earlier one. */
  lemma {:induction false} ExtractedKeys(d: map<string, Obj>, paths: seq<string>)
    ensures forall k :: k in Extracted(d, paths) <==>
              exists j :: 0 <= j < |paths| && FieldKey(paths[j]) == k && !NestedValue(Some(d), paths[j]).Null?
    ensures forall k :: k in Extracted(d, paths) ==>
              exists j :: LastWithValue(d, paths, k, j) && NestedValue(Some(d), paths[j]) == Extracted(d, paths)[k]
  {
    if paths != [] {
      var init := paths[..|paths| - 1];
      ExtractedKeys(d, init);
      assert forall j :: 0 <= j < |init| ==> init[j] == paths[j];
    }
    forall k | k in Extracted(d, paths)
      ensures exists j :: LastWithValue(d, paths, k, j) && NestedValue(Some(d), paths[j]) == Extracted(d, paths)[k]
    {
      var j := LastIndexFor(d, paths, k);
    }
  }


  /** One step of `Extracted`: the last path sets its key when its value is
      not null. */
  lemma ExtractedStep(d: map<string, Obj>, paths: seq<string>)
    requires paths != []
    ensures var v := NestedValue(Some(d), paths[|paths| - 1]);
            Extracted(d, paths) == if v.Null? then Extracted(d, paths[..|paths| - 1])
                                   else Extracted(d, paths[..|paths| - 1])[FieldKey(paths[|paths| - 1]) := v]
  {
  }

  /** The index of the path that supplies the listed value of `k`. */
  lemma {:induction false} LastIndexFor(d: map<string, Obj>, paths: seq<string>, k: string) returns (j: int)
    requires k in Extracted(d, paths)
    ensures LastWithValue(d, paths, k, j) && NestedValue(Some(d), paths[j]) == Extracted(d, paths)[k]
  {
    var init := paths[..|paths| - 1];
    var last := paths[|paths| - 1];
    var v := NestedValue(Some(d), last);
    ExtractedStep(d, paths);
    if k == FieldKey(last) && !v.Null? {
      j := |paths| - 1;
    } else {
      assert k in Extracted(d, init) && Extracted(d, paths)[k] == Extracted(d, init)[k];
      j := LastIndexFor(d, init, k);
      LastWithValueExtends(d, init, last, k, j);
      assert init + [last] == paths;
    }
  }

  /** Appending a path with another key or a null value keeps the last
      path with a value for `k`. */
  lemma LastWithValueExtends(d: map<string, Obj>, init: seq<string>, last: string, k: string, j: int)
    requires LastWithValue(d, init, k, j)
    requires FieldKey(last) != k || NestedValue(Some(d), last).Null?
    ensures LastWithValue(d, init + [last], k, j)
  {
    var paths := init + [last];
    forall j' | j < j' < |paths| && FieldKey(paths[j']) == k
      ensures NestedValue(Some(d), paths[j']).Null?
    {
      if j' < |init| {
        assert paths[j'] == init[j'];
      }
    }
    assert paths[j] == init[j];
  }
}
