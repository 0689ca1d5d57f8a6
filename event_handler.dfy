/** The RPG Maker event handler
    (`Editor/MCPBridge/Handlers/RPGMaker/RPGMakerEventHandler.cs`): common
    events stored as JSON arrays in the event files, their pages and the
    command lists inside the pages, edited in place and written back.

    The event directory is the field `files` of `EventStore`: a map from a
    file's name without `.json` to the token tree it holds (a missing key is
    a missing file).  Reading a file is a lookup, writing it an update; a
    failed operation writes nothing, because the source only writes after
    all its checks have passed.  Payload values arrive already extracted
    (`GetString`, `GetBool` and the payload dictionary belong to the handler
    base class, which is not part of this model); a fresh GUID is a parameter.
    A partial update's `JObject.Merge` is a parameter `merge`. */
module RPGMakerEventHandler {
  import opened Wrappers
  import opened Text
  import opened Json
  import opened Seqs
  import opened HandlerArgs

  /** The files every lookup scans, in this order. */
  const EventFiles: seq<string> := ["eventCommon", "eventBattle", "eventMap"]

  /** How an operation fails.  `Rejected` carries the message of an
      exception the handler throws itself; the others are the runtime
      exceptions Newtonsoft and the CLR raise on malformed data. */
  datatype EventError =
    | Rejected(message: string)
    | NotAnObject(file: string, index: nat)  // `item["id"]` on an element that is not an object
    | IndexOutOfRange                        // a negative index into a `JArray`
    | NullPage                               // a member access on a page that is not an object
    | NotAList                               // `ToObject<List<object>>()` on a token that is no array

  const IdRequired: string := "ID (uuId) is required."
  const SourceIdRequired: string := "Source ID (uuId) is required."

  function EventNotFound(id: string): string {
    "Event with id '" + id + "' not found."
  }

  function CommonEventNotFound(id: string): string {
    "Common event with id '" + id + "' not found."
  }

  function SourceEventNotFound(id: string): string {
    "Source event with id '" + id + "' not found."
  }

  // ---------------------------------------------------------------------------
  // Locating an event
  // ---------------------------------------------------------------------------

  /** The elements of a file that exists and holds an array. */
  function Items(files: map<string, JToken>, file: string): (r: Option<seq<JToken>>)
    ensures r.Some? <==> file in files && files[file].JArray?
    ensures r.Some? ==> r.value == files[file].items
  {
    if file in files && files[file].JArray? then Some(files[file].items) else None
  }

  /** `item["id"]?.ToString() == id` for an element that is an object. */
  predicate HasId(item: JToken, id: string) {
    PropText(item, "id") == Some(id)
  }

  datatype Location = Location(file: string, index: nat)

  predicate ValidLocation(files: map<string, JToken>, loc: Location) {
    Items(files, loc.file).Some? && loc.index < |Items(files, loc.file).value|
  }

  function EventAt(files: map<string, JToken>, loc: Location): JToken
    requires ValidLocation(files, loc)
  {
    files[loc.file].items[loc.index]
  }

  /** The scan of one array from index `i`: the first element with the id,
      failing at an element that is not an object. */
  function ScanFrom(file: string, items: seq<JToken>, id: string, i: nat): (r: Result<Option<nat>, EventError>)
    requires i <= |items|
    ensures r.Ok? && r.value.Some? ==>
              && i <= r.value.value < |items| && items[r.value.value].JObject? && HasId(items[r.value.value], id)
              && forall m :: i <= m < r.value.value ==> items[m].JObject? && !HasId(items[m], id)
    ensures r == Ok(None) ==> forall m :: i <= m < |items| ==> items[m].JObject? && !HasId(items[m], id)
    ensures r.Err? ==>
              && r.error.NotAnObject? && r.error.file == file
              && i <= r.error.index < |items| && !items[r.error.index].JObject?
              && forall m :: i <= m < r.error.index ==> items[m].JObject? && !HasId(items[m], id)
    decreases |items| - i
  {
    if i == |items| then Ok(None)
    else if !items[i].JObject? then Err(NotAnObject(file, i))
    else if HasId(items[i], id) then Ok(Some(i))
    else ScanFrom(file, items, id, i + 1)
  }

  /** The scan of the event files from the `k`-th on; missing files and
      files not holding an array are skipped. */
  function FindFrom(files: map<string, JToken>, id: string, k: nat): (r: Result<Option<Location>, EventError>)
    requires k <= |EventFiles|
    ensures r.Ok? && r.value.Some? ==>
              && ValidLocation(files, r.value.value)
              && r.value.value.file in EventFiles[k..]
              && EventAt(files, r.value.value).JObject?
              && HasId(EventAt(files, r.value.value), id)
              && forall m :: 0 <= m < r.value.value.index ==>
                   files[r.value.value.file].items[m].JObject? && !HasId(files[r.value.value.file].items[m], id)
    decreases |EventFiles| - k
  {
    if k == |EventFiles| then Ok(None)
    else
      var file := EventFiles[k];
      match Items(files, file)
      case None => FindFrom(files, id, k + 1)
      case Some(items) =>
        match ScanFrom(file, items, id, 0)
        case Err(e) => Err(e)
        case Ok(None) => FindFrom(files, id, k + 1)
        case Ok(Some(i)) => Ok(Some(Location(file, i)))
  }

  /** The lookup every id-based operation starts with. */
  function FindEvent(files: map<string, JToken>, id: string): (r: Result<Option<Location>, EventError>)
    ensures r.Ok? && r.value.Some? ==>
              && ValidLocation(files, r.value.value)
              && r.value.value.file in EventFiles
              && EventAt(files, r.value.value).JObject?
              && HasId(EventAt(files, r.value.value), id)
              && forall m :: 0 <= m < r.value.value.index ==>
                   files[r.value.value.file].items[m].JObject? && !HasId(files[r.value.value.file].items[m], id)
  {
    FindFrom(files, id, 0)
  }

  /** The id names an event the lookup finds. */
  predicate Located(files: map<string, JToken>, id: string) {
    FindEvent(files, id).Ok? && FindEvent(files, id).value.Some?
  }

  /** Where the lookup finds the event with the id. */
  function FoundAt(files: map<string, JToken>, id: string): (loc: Location)
    requires Located(files, id)
    ensures ValidLocation(files, loc) && loc.file in EventFiles
    ensures EventAt(files, loc).JObject? && HasId(EventAt(files, loc), id)
  {
    FindEvent(files, id).value.value
  }

  /** What the scan has seen before file `k`: no element with the id and
      no element that is not an object. */
  predicate ScannedClean(files: map<string, JToken>, id: string, k: nat)
    requires k <= |EventFiles|
  {
    forall j :: 0 <= j < k && Items(files, EventFiles[j]).Some? ==>
      forall m :: 0 <= m < |Items(files, EventFiles[j]).value| ==>
        Items(files, EventFiles[j]).value[m].JObject? && !HasId(Items(files, EventFiles[j]).value[m], id)
  }

  /** The event found is the first with the id in scan order: every file
      before it and every element before it in its file is an object
      without that id; and nothing is found only when nothing has the id. */
  lemma {:induction false} FindFromIsFirst(files: map<string, JToken>, id: string, k: nat)
    requires k <= |EventFiles|
    requires ScannedClean(files, id, k)
    ensures var r := FindFrom(files, id, k);
            r.Ok? && r.value.Some? ==>
              exists j :: k <= j < |EventFiles| && EventFiles[j] == r.value.value.file && ScannedClean(files, id, j)
    ensures FindFrom(files, id, k) == Ok(None) ==> ScannedClean(files, id, |EventFiles|)
    decreases |EventFiles| - k
  {
    if k < |EventFiles| {
      var file := EventFiles[k];
      match Items(files, file)
      case None =>
        assert ScannedClean(files, id, k + 1);
        FindFromIsFirst(files, id, k + 1);
      case Some(items) =>
        match ScanFrom(file, items, id, 0)
        case Err(e) =>
        case Ok(None) =>
          assert ScannedClean(files, id, k + 1);
          FindFromIsFirst(files, id, k + 1);
        case Ok(Some(i)) =>
          assert EventFiles[k] == file;
    }
  }

  /** `FindEvent` from the first file: the first match in scan order. */
  lemma FindEventIsFirst(files: map<string, JToken>, id: string)
    ensures var r := FindEvent(files, id);
            r.Ok? && r.value.Some? ==>
              exists j :: 0 <= j < |EventFiles| && EventFiles[j] == r.value.value.file && ScannedClean(files, id, j)
    ensures FindEvent(files, id) == Ok(None) ==> ScannedClean(files, id, |EventFiles|)
  {
    FindFromIsFirst(files, id, 0);
  }

  // ---------------------------------------------------------------------------
  // The state and the shared steps of every operation
  // ---------------------------------------------------------------------------

  /** The outcome of an operation on the files: the files afterwards and
      the reply, or the failure (and then the files are left as they were). */
  predicate Applied<T(==)>(before: map<string, JToken>, after: map<string, JToken>, r: Result<T, EventError>,
                       spec: Result<(map<string, JToken>, T), EventError>)
  {
    match spec
    case Err(e) => r == Err(e) && after == before
    case Ok(out) => r == Ok(out.1) && after == out.0
  }

  /** The files with the event at `loc` replaced. */
  function PutEvent(files: map<string, JToken>, loc: Location, ev: JToken): (r: map<string, JToken>)
    requires ValidLocation(files, loc)
    ensures r.Keys == files.Keys
    ensures forall f :: f in files && f != loc.file ==> r[f] == files[f]
    ensures r[loc.file] == JArray(files[loc.file].items[loc.index := ev])
  {
    files[loc.file := JArray(files[loc.file].items[loc.index := ev])]
  }

  /** The replaced event is where it was. */
  lemma PutEventAt(files: map<string, JToken>, loc: Location, ev: JToken)
    requires ValidLocation(files, loc)
    ensures ValidLocation(PutEvent(files, loc, ev), loc) && EventAt(PutEvent(files, loc, ev), loc) == ev
  {
  }

  /** `item["pages"] as JArray`. */
  function PagesOf(ev: JToken): Option<seq<JToken>> {
    match Prop(ev, "pages")
    case Some(JArray(pages)) => Some(pages)
    case _ => None
  }

  /** `page["list"] as JArray`. */
  function ListOf(page: JToken): Option<seq<JToken>> {
    match Prop(page, "list")
    case Some(JArray(list)) => Some(list)
    case _ => None
  }

  /** An object with one property replaced or added (`token[key] = value`). */
  function SetProp(t: JToken, key: string, value: JToken): (r: JToken)
    requires t.JObject?
    ensures r.JObject? && r.props == t.props[key := value]
  {
    JObject(t.props[key := value])
  }

  /** `JObject.FromObject(dictionary)`. */
  function FromDict(d: map<string, Obj>): (r: JToken)
    ensures r.JObject? && r.props.Keys == d.Keys
  {
    FromObject(Dict(d))
  }

  /** `token.ToString()` of an event's name, or the default when there is
      none. */
  function NameOr(ev: JToken, default: string): string {
    match Prop(ev, "name")
    case None => default
    case Some(t) => TokenText(t).GetOr("")
  }

  // ---------------------------------------------------------------------------
  // Listing (`ListCommonEvents`, `GetCommonEvents`)
  // ---------------------------------------------------------------------------

  /** One listed event.  `ListCommonEvents` reports the first three fields,
      `GetCommonEvents` also the event itself. */
  datatype Summary = Summary(id: string, name: string, filename: string, data: JToken)

  /** The entries one file contributes from index `i` on: each object with a
      non-empty id, in order; the first element that is not an object ends
      the file's contribution (its exception is caught and logged), keeping
      what was listed before it. */
  function FileListing(file: string, items: seq<JToken>, i: nat): (r: seq<Summary>)
    requires i <= |items|
    ensures |r| <= |items| - i
    decreases |items| - i
  {
    if i == |items| || !items[i].JObject? then []
    else
      var rest := FileListing(file, items, i + 1);
      match PropText(items[i], "id")
      case Some(id) =>
        if id != "" then [Summary(id, NameOr(items[i], "Unnamed Event"), file, items[i])] + rest else rest
      case None => rest
  }

  /** Every entry a file lists is one of its elements from index `i` on,
      an object whose non-empty id the entry reports. */
  lemma {:induction false} FileListingIsSound(file: string, items: seq<JToken>, i: nat)
    requires i <= |items|
    ensures forall e :: e in FileListing(file, items, i) ==>
              e.filename == file && e.id != "" &&
              exists m :: i <= m < |items| && items[m] == e.data && items[m].JObject? && HasId(items[m], e.id)
    decreases |items| - i
  {
    if i < |items| && items[i].JObject? {
      FileListingIsSound(file, items, i + 1);
      forall e | e in FileListing(file, items, i + 1)
        ensures exists m :: i <= m < |items| && items[m] == e.data && items[m].JObject? && HasId(items[m], e.id)
      {
        var m :| i + 1 <= m < |items| && items[m] == e.data && items[m].JObject? && HasId(items[m], e.id);
      }
    }
  }

  /** A file whose elements are all objects lists every one with a
      non-empty id. */
  lemma {:induction false} FileListingIsComplete(file: string, items: seq<JToken>, i: nat, m: nat)
    requires i <= m < |items|
    requires forall j :: i <= j < |items| ==> items[j].JObject?
    requires PropText(items[m], "id").Some? && PropText(items[m], "id").value != ""
    ensures Summary(PropText(items[m], "id").value, NameOr(items[m], "Unnamed Event"), file, items[m])
              in FileListing(file, items, i)
    decreases |items| - i
  {
    var rest := FileListing(file, items, i + 1);
    if i < m {
      FileListingIsComplete(file, items, i + 1, m);
      var id := PropText(items[i], "id");
      if id.Some? && id.value != "" {
        assert FileListing(file, items, i) == [Summary(id.value, NameOr(items[i], "Unnamed Event"), file, items[i])] + rest;
      } else {
        assert FileListing(file, items, i) == rest;
      }
    }
  }

  /** A listed entry names an element of an event file, an object whose
      non-empty id it reports. */
  predicate Listed(files: map<string, JToken>, e: Summary) {
    && e.filename in EventFiles && e.id != "" && Items(files, e.filename).Some?
    && e.data in Items(files, e.filename).value && HasId(e.data, e.id)
  }

  /** The entries of the event files from the `k`-th on. */
  function ListingFrom(files: map<string, JToken>, k: nat): seq<Summary>
    requires k <= |EventFiles|
    decreases |EventFiles| - k
  {
    if k == |EventFiles| then []
    else
      var file := EventFiles[k];
      var here := if Items(files, file).Some? then FileListing(file, Items(files, file).value, 0) else [];
      here + ListingFrom(files, k + 1)
  }

  /** The entries `ListCommonEvents` and `GetCommonEvents` report. */
  function Listing(files: map<string, JToken>): seq<Summary> {
    ListingFrom(files, 0)
  }

  /** Every entry of the listing from file `k` on is an event of one of the
      event files. */
  lemma {:induction false} ListingFromIsSound(files: map<string, JToken>, k: nat)
    requires k <= |EventFiles|
    ensures forall e :: e in ListingFrom(files, k) ==> Listed(files, e)
    decreases |EventFiles| - k
  {
    if k < |EventFiles| {
      ListingFromIsSound(files, k + 1);
      var file := EventFiles[k];
      if Items(files, file).Some? {
        FileListingIsSound(file, Items(files, file).value, 0);
      }
    }
  }

  /** Every listed entry is an element, with a non-empty id, of an event file. */
  lemma ListingIsSound(files: map<string, JToken>)
    ensures forall e :: e in Listing(files) ==> Listed(files, e)
  {
    ListingFromIsSound(files, 0);
  }

  /** Every element with a non-empty id of an event file whose elements are
      all objects is listed. */
  lemma {:induction false} ListingFromIsComplete(files: map<string, JToken>, k: nat, j: nat, m: nat)
    requires k <= j < |EventFiles|
    requires Items(files, EventFiles[j]).Some? && m < |Items(files, EventFiles[j]).value|
    requires forall n :: 0 <= n < |Items(files, EventFiles[j]).value| ==> Items(files, EventFiles[j]).value[n].JObject?
    requires var item := Items(files, EventFiles[j]).value[m]; PropText(item, "id").Some? && PropText(item, "id").value != ""
    ensures var item := Items(files, EventFiles[j]).value[m];
            Summary(PropText(item, "id").value, NameOr(item, "Unnamed Event"), EventFiles[j], item) in ListingFrom(files, k)
    decreases j - k
  {
    if k < j {
      ListingFromIsComplete(files, k + 1, j, m);
    } else {
      FileListingIsComplete(EventFiles[j], Items(files, EventFiles[j]).value, 0, m);
    }
  }

  // ---------------------------------------------------------------------------
  // Common events
  // ---------------------------------------------------------------------------

  datatype EventRef = EventRef(id: string, filename: string)

  /** `GetCommonEventById`: the id comes from `uuId`, else `id`, else `filename`. */
  function GetCommonEventByIdSpec(files: map<string, JToken>, uuId: Option<string>, idArg: Option<string>,
                                  filename: Option<string>): (r: Result<Summary, EventError>)
    ensures var id := FirstGiven(FirstGiven(uuId, idArg), filename);
            && (Blank(id) ==> r == Err(Rejected(IdRequired)))
            && (!Blank(id) && FindEvent(files, id.value) == Ok(None) ==> r == Err(Rejected(CommonEventNotFound(id.value))))
            && (r.Ok? ==> !Blank(id) && r.value.id == id.value && r.value.filename in EventFiles &&
                          Items(files, r.value.filename).Some? && r.value.data in Items(files, r.value.filename).value &&
                          HasId(r.value.data, id.value))
  {
    var id := FirstGiven(FirstGiven(uuId, idArg), filename);
    if Blank(id) then Err(Rejected(IdRequired))
    else
      match FindEvent(files, id.value)
      case Err(e) => Err(e)
      case Ok(None) => Err(Rejected(CommonEventNotFound(id.value)))
      case Ok(Some(loc)) =>
        var ev := EventAt(files, loc);
        Ok(Summary(id.value, NameOr(ev, "Unnamed Event"), loc.file, ev))
  }

  /** `CreateCommonEvent`: the event data gets the given id, or a fresh one,
      and is appended to the target file (by default `eventCommon`), which
      starts over as an empty array when it is missing or holds no array. */
  function CreateCommonEventSpec(files: map<string, JToken>, eventData: Option<map<string, Obj>>,
                                 filename: Option<string>, uuId: Option<string>, idArg: Option<string>,
                                 freshId: string): (r: Result<(map<string, JToken>, EventRef), EventError>)
    ensures eventData.None? <==> r == Err(Rejected("Event data is required."))
  {
    var targetFile := filename.GetOr("eventCommon");
    if eventData.None? then Err(Rejected("Event data is required."))
    else
      var given := FirstGiven(uuId, idArg);
      var id := if Blank(given) then freshId else given.value;
      var existing := Items(files, targetFile).GetOr([]);
      Ok((files[targetFile := JArray(existing + [FromDict(eventData.value["id" := Str(id)])])], EventRef(id, targetFile)))
  }

  /** Creating appends exactly one element, an object carrying the id, to
      the target file; the file's earlier elements and all other files stay. */
  lemma CreateAppendsOneEvent(files: map<string, JToken>, eventData: map<string, Obj>, filename: Option<string>,
                              uuId: Option<string>, idArg: Option<string>, freshId: string)
    ensures var r := CreateCommonEventSpec(files, Some(eventData), filename, uuId, idArg, freshId);
            var target := filename.GetOr("eventCommon");
            var id := r.value.1.id;
            && r.Ok? && r.value.1.filename == target
            && (Blank(FirstGiven(uuId, idArg)) ==> id == freshId)
            && (!Blank(FirstGiven(uuId, idArg)) ==> id == FirstGiven(uuId, idArg).value)
            && r.value.0.Keys == files.Keys + {target}
            && (forall f :: f in files && f != target ==> r.value.0[f] == files[f])
            && Items(r.value.0, target).Some?
            && var after := Items(r.value.0, target).value;
               && after[..|after| - 1] == Items(files, target).GetOr([])
               && after[|after| - 1].JObject? && HasId(after[|after| - 1], id)
  {
    var r := CreateCommonEventSpec(files, Some(eventData), filename, uuId, idArg, freshId);
    var id := r.value.1.id;
    var ev := FromDict(eventData["id" := Str(id)]);
    assert ev.props["id"] == JString(id);
  }

  /** `MergeData`: an object is merged with the updates, anything else is
      replaced by them. */
  function MergeData(existing: JToken, updates: map<string, Obj>, merge: (JToken, JToken) -> JToken): JToken {
    if existing.JObject? then merge(existing, FromDict(updates)) else FromDict(updates)
  }

  /** `UpdateCommonEvent`: the first event with the id is merged with the
      event data (`partial`) or replaced by it with the id kept. */
  function UpdateCommonEventSpec(files: map<string, JToken>, uuId: Option<string>, idArg: Option<string>,
                                 eventData: Option<map<string, Obj>>, partial: bool,
                                 merge: (JToken, JToken) -> JToken): (r: Result<(map<string, JToken>, EventRef), EventError>)
    ensures Blank(FirstGiven(uuId, idArg)) ==> r == Err(Rejected(IdRequired))
    ensures !Blank(FirstGiven(uuId, idArg)) && eventData.None? ==> r == Err(Rejected("Event data is required."))
    ensures !Blank(FirstGiven(uuId, idArg)) && eventData.Some? && FindEvent(files, FirstGiven(uuId, idArg).value) == Ok(None) ==>
              r == Err(Rejected(CommonEventNotFound(FirstGiven(uuId, idArg).value)))
  {
    var id := FirstGiven(uuId, idArg);
    if Blank(id) then Err(Rejected(IdRequired))
    else if eventData.None? then Err(Rejected("Event data is required."))
    else
      match FindEvent(files, id.value)
      case Err(e) => Err(e)
      case Ok(None) => Err(Rejected(CommonEventNotFound(id.value)))
      case Ok(Some(loc)) =>
        var ev := if partial then MergeData(EventAt(files, loc), eventData.value, merge)
                  else FromDict(eventData.value["id" := Str(id.value)]);
        Ok((PutEvent(files, loc, ev), EventRef(id.value, loc.file)))
  }

  /** A full update replaces the found event in place by an object that
      still carries the id; nothing else changes. */
  lemma FullUpdateKeepsId(files: map<string, JToken>, uuId: Option<string>, idArg: Option<string>,
                          eventData: map<string, Obj>, merge: (JToken, JToken) -> JToken)
    requires UpdateCommonEventSpec(files, uuId, idArg, Some(eventData), false, merge).Ok?
    ensures var id := FirstGiven(uuId, idArg).value;
            var loc := FoundAt(files, id);
            var after := UpdateCommonEventSpec(files, uuId, idArg, Some(eventData), false, merge).value.0;
            && after.Keys == files.Keys
            && (forall f :: f in files && f != loc.file ==> after[f] == files[f])
            && Items(after, loc.file).Some?
            && |Items(after, loc.file).value| == |Items(files, loc.file).value|
            && (forall m :: 0 <= m < |Items(after, loc.file).value| && m != loc.index ==>
                  Items(after, loc.file).value[m] == Items(files, loc.file).value[m])
            && Items(after, loc.file).value[loc.index].JObject?
            && HasId(Items(after, loc.file).value[loc.index], id)
  {
    var id := FirstGiven(uuId, idArg).value;
    var ev := FromDict(eventData["id" := Str(id)]);
    assert ev.props["id"] == JString(id);
  }

  /** An update that goes through replaces exactly the found event: by the
      event data with the id written back for a full update, or by the event
      merged with the data for a partial one; every other event and file
      stays. */
  lemma UpdateEventReplacesOne(files: map<string, JToken>, uuId: Option<string>, idArg: Option<string>,
                               eventData: map<string, Obj>, partial: bool, merge: (JToken, JToken) -> JToken)
    requires UpdateCommonEventSpec(files, uuId, idArg, Some(eventData), partial, merge).Ok?
    ensures !Blank(FirstGiven(uuId, idArg)) && Located(files, FirstGiven(uuId, idArg).value)
    ensures var id := FirstGiven(uuId, idArg).value;
            var loc := FoundAt(files, id);
            var r := UpdateCommonEventSpec(files, uuId, idArg, Some(eventData), partial, merge).value;
            && OthersUnchanged(files, r.0, loc)
            && EventAt(r.0, loc) == (if partial then MergeData(EventAt(files, loc), eventData, merge)
                                     else FromDict(eventData["id" := Str(id)]))
            && r.1 == EventRef(id, loc.file)
  {
    var id := FirstGiven(uuId, idArg).value;
    var loc := FoundAt(files, id);
    PutEventAt(files, loc, if partial then MergeData(EventAt(files, loc), eventData, merge)
                           else FromDict(eventData["id" := Str(id)]));
  }

  /** `DeleteCommonEvent`: the first event with the id is removed. */
  function DeleteCommonEventSpec(files: map<string, JToken>, uuId: Option<string>, idArg: Option<string>)
    : (r: Result<(map<string, JToken>, EventRef), EventError>)
    ensures Blank(FirstGiven(uuId, idArg)) ==> r == Err(Rejected(IdRequired))
    ensures !Blank(FirstGiven(uuId, idArg)) && FindEvent(files, FirstGiven(uuId, idArg).value) == Ok(None) ==>
              r == Err(Rejected(CommonEventNotFound(FirstGiven(uuId, idArg).value)))
  {
    var id := FirstGiven(uuId, idArg);
    if Blank(id) then Err(Rejected(IdRequired))
    else
      match FindEvent(files, id.value)
      case Err(e) => Err(e)
      case Ok(None) => Err(Rejected(CommonEventNotFound(id.value)))
      case Ok(Some(loc)) =>
        Ok((files[loc.file := JArray(RemoveAt(files[loc.file].items, loc.index))], EventRef(id.value, loc.file)))
  }

  /** Deleting removes exactly the first element with the id from its file;
      the other elements keep their order and the other files stay. */
  lemma DeleteRemovesExactlyOne(files: map<string, JToken>, uuId: Option<string>, idArg: Option<string>)
    requires DeleteCommonEventSpec(files, uuId, idArg).Ok?
    ensures var id := FirstGiven(uuId, idArg).value;
            var after := DeleteCommonEventSpec(files, uuId, idArg).value.0;
            var file := DeleteCommonEventSpec(files, uuId, idArg).value.1.filename;
            && file in EventFiles
            && after.Keys == files.Keys
            && (forall f :: f in files && f != file ==> after[f] == files[f])
            && Items(after, file).Some?
            && exists i :: 0 <= i < |Items(files, file).value| && HasId(Items(files, file).value[i], id) &&
                 (forall m :: 0 <= m < i ==> !HasId(Items(files, file).value[m], id)) &&
                 Items(after, file).value == Items(files, file).value[..i] + Items(files, file).value[i + 1..]
  {
    var id := FirstGiven(uuId, idArg).value;
    var loc := FoundAt(files, id);
    var items := files[loc.file].items;
    var rest := items[..loc.index] + items[loc.index + 1..];
    var after := files[loc.file := JArray(rest)];
    assert DeleteCommonEventSpec(files, uuId, idArg).value == (after, EventRef(id, loc.file));
    assert Items(after, loc.file) == Some(rest);
    assert HasId(items[loc.index], id);
  }

  // ---------------------------------------------------------------------------
  // Event commands
  // ---------------------------------------------------------------------------

  /** `item["pages"] as JArray ?? item["eventCommands"] as JArray`. */
  function PagesOrCommands(ev: JToken): Option<seq<JToken>> {
    if PagesOf(ev).Some? then PagesOf(ev)
    else
      match Prop(ev, "eventCommands")
      case Some(JArray(pages)) => Some(pages)
      case _ => None
  }

  datatype CommandsReply = NoCommands | Commands(commands: seq<JToken>, id: string, pageIndex: int)

  /** `GetEventCommands`: the command list of one page.  A missing page
      array or a page index past its end is answered with an empty result;
      a page that is not an object has no commands; a page object without a
      list array fails to convert. */
  function GetEventCommandsSpec(files: map<string, JToken>, uuId: Option<string>, idArg: Option<string>,
                                pageIndex: int): (r: Result<CommandsReply, EventError>)
    ensures Blank(FirstGiven(uuId, idArg)) ==> r == Err(Rejected(IdRequired))
    ensures r.Ok? && r.value.Commands? ==>
              !Blank(FirstGiven(uuId, idArg)) && Located(files, FirstGiven(uuId, idArg).value) &&
              var loc := FoundAt(files, FirstGiven(uuId, idArg).value);
              var pages := PagesOrCommands(EventAt(files, loc));
              && pages.Some? && 0 <= pageIndex < |pages.value|
              && (pages.value[pageIndex].JObject? ==> ListOf(pages.value[pageIndex]) == Some(r.value.commands))
              && (!pages.value[pageIndex].JObject? ==> r.value.commands == [])
    ensures !Blank(FirstGiven(uuId, idArg)) && FindEvent(files, FirstGiven(uuId, idArg).value) == Ok(None) ==>
              r == Err(Rejected(EventNotFound(FirstGiven(uuId, idArg).value)))
    ensures !Blank(FirstGiven(uuId, idArg)) && Located(files, FirstGiven(uuId, idArg).value) ==>
              var id := FirstGiven(uuId, idArg).value;
              var pages := PagesOrCommands(EventAt(files, FoundAt(files, id)));
              && (pages.None? || pageIndex >= |pages.value| ==> r == Ok(NoCommands))
              && (pages.Some? && pageIndex < 0 ==> r == Err(IndexOutOfRange))
              && (pages.Some? && 0 <= pageIndex < |pages.value| ==>
                    var page := pages.value[pageIndex];
                    && (!page.JObject? ==> r == Ok(Commands([], id, pageIndex)))
                    && (page.JObject? && ListOf(page).Some? ==> r == Ok(Commands(ListOf(page).value, id, pageIndex)))
                    && (page.JObject? && ListOf(page).None? ==> r == Err(NotAList)))
  {
    var id := FirstGiven(uuId, idArg);
    if Blank(id) then Err(Rejected(IdRequired))
    else
      match FindEvent(files, id.value)
      case Err(e) => Err(e)
      case Ok(None) => Err(Rejected(EventNotFound(id.value)))
      case Ok(Some(loc)) =>
        var pages := PagesOrCommands(EventAt(files, loc));
        if pages.None? || pageIndex >= |pages.value| then Ok(NoCommands)
        else if pageIndex < 0 then Err(IndexOutOfRange)
        else
          var page := pages.value[pageIndex];
          if !page.JObject? then Ok(Commands([], id.value, pageIndex))
          else
            match ListOf(page)
            case Some(list) => Ok(Commands(list, id.value, pageIndex))
            case None => Err(NotAList)
  }

  /** The page `CreateEventCommand` pads with: `{"list": []}`. */
  const EmptyPage: JToken := JObject(map["list" := JArray([])])

  /** The pages after padding until `pageIndex` is an index into them. */
  function Padded(pages: seq<JToken>, pageIndex: int): (r: seq<JToken>)
    ensures |r| == if pageIndex < |pages| then |pages| else pageIndex + 1
    ensures r[..|pages|] == pages
    ensures forall j :: |pages| <= j < |r| ==> r[j] == EmptyPage
    ensures pageIndex >= 0 ==> pageIndex < |r|
  {
    if pageIndex < |pages| then pages else pages + seq(pageIndex + 1 - |pages|, _ => EmptyPage)
  }

  /** The padding loop of `CreateEventCommand`. */
  method PadPages(pages: seq<JToken>, pageIndex: int) returns (r: seq<JToken>)
    ensures r == Padded(pages, pageIndex)
  {
    r := pages;
    while |r| <= pageIndex
      invariant |pages| <= |r| && (|r| > |pages| ==> |r| <= pageIndex + 1)
      invariant r == pages + seq(|r| - |pages|, _ => EmptyPage)
      decreases pageIndex - |r|
    {
      r := r + [EmptyPage];
    }
  }

  datatype PageRef = PageRef(id: string, pageIndex: int)

  /** `CreateEventCommand`: pads the pages, then appends the command to the
      list of the page at `pageIndex`. */
  function CreateEventCommandSpec(files: map<string, JToken>, uuId: Option<string>, idArg: Option<string>,
                                  pageIndex: int, commandData: Option<map<string, Obj>>)
    : (r: Result<(map<string, JToken>, PageRef), EventError>)
    ensures Blank(FirstGiven(uuId, idArg)) ==> r == Err(Rejected(IdRequired))
    ensures !Blank(FirstGiven(uuId, idArg)) && commandData.None? ==> r == Err(Rejected("Command data is required."))
  {
    var id := FirstGiven(uuId, idArg);
    if Blank(id) then Err(Rejected(IdRequired))
    else if commandData.None? then Err(Rejected("Command data is required."))
    else
      match FindEvent(files, id.value)
      case Err(e) => Err(e)
      case Ok(None) => Err(Rejected(EventNotFound(id.value)))
      case Ok(Some(loc)) =>
        match AppendCommand(EventAt(files, loc), pageIndex, FromDict(commandData.value))
        case Err(e) => Err(e)
        case Ok(ev) => Ok((PutEvent(files, loc, ev), PageRef(id.value, pageIndex)))
  }

  /** The event after padding its pages and appending `command` to the list
      of page `pageIndex`. */
  function AppendCommand(ev: JToken, pageIndex: int, command: JToken): Result<JToken, EventError>
    requires ev.JObject?
  {
    var pages := Padded(PagesOf(ev).GetOr([]), pageIndex);
    if pageIndex < 0 then Err(IndexOutOfRange)
    else
      var page := pages[pageIndex];
      if !page.JObject? then Err(NullPage)
      else
        var commands := ListOf(page).GetOr([]) + [command];
        Ok(SetProp(ev, "pages", JArray(pages[pageIndex := SetProp(page, "list", JArray(commands))])))
  }

  /** An append keeps the old pages, pads with `{"list": []}`, and extends
      only the target page's list. */
  lemma AppendCommandPads(ev: JToken, pageIndex: int, command: JToken)
    requires ev.JObject? && AppendCommand(ev, pageIndex, command).Ok?
    ensures var prior := PagesOf(ev).GetOr([]);
            var after := AppendCommand(ev, pageIndex, command).value;
            && PagesOf(after).Some?
            && var pages := PagesOf(after).value;
               && 0 <= pageIndex < |pages|
               && |pages| == (if pageIndex < |prior| then |prior| else pageIndex + 1)
               && (forall j :: 0 <= j < |prior| && j != pageIndex ==> pages[j] == prior[j])
               && (forall j :: |prior| <= j < |pages| && j != pageIndex ==> pages[j] == EmptyPage)
               && ListOf(pages[pageIndex]) == Some(ListOf(Padded(prior, pageIndex)[pageIndex]).GetOr([]) + [command])
  {
    var prior := PagesOf(ev).GetOr([]);
    var pages := Padded(prior, pageIndex);
    assert forall j :: 0 <= j < |prior| ==> pages[j] == pages[..|prior|][j];
  }

  /** After `CreateEventCommand` the event has at least `pageIndex + 1`
      pages: the old ones, then `{"list": []}` pads; the target page's list
      is its old list (or none) with the command appended. */
  lemma CreateCommandPadsThenAppends(files: map<string, JToken>, uuId: Option<string>, idArg: Option<string>,
                                     pageIndex: int, commandData: map<string, Obj>)
    requires CreateEventCommandSpec(files, uuId, idArg, pageIndex, Some(commandData)).Ok?
    ensures var loc := FoundAt(files, FirstGiven(uuId, idArg).value);
            var prior := PagesOf(EventAt(files, loc)).GetOr([]);
            var after := CreateEventCommandSpec(files, uuId, idArg, pageIndex, Some(commandData)).value.0;
            && ValidLocation(after, loc)
            && PagesOf(EventAt(after, loc)).Some?
            && var pages := PagesOf(EventAt(after, loc)).value;
               && 0 <= pageIndex < |pages|
               && |pages| == (if pageIndex < |prior| then |prior| else pageIndex + 1)
               && (forall j :: 0 <= j < |prior| && j != pageIndex ==> pages[j] == prior[j])
               && (forall j :: |prior| <= j < |pages| && j != pageIndex ==> pages[j] == EmptyPage)
               && ListOf(pages[pageIndex]).Some?
               && ListOf(pages[pageIndex]).value ==
                    ListOf(Padded(prior, pageIndex)[pageIndex]).GetOr([]) + [FromDict(commandData)]
  {
    var loc := FoundAt(files, FirstGiven(uuId, idArg).value);
    var ev := AppendCommand(EventAt(files, loc), pageIndex, FromDict(commandData)).value;
    AppendCommandPads(EventAt(files, loc), pageIndex, FromDict(commandData));
    PutEventAt(files, loc, ev);
  }

  const InvalidPageIndex: string := "Invalid page index."
  const InvalidCommandIndex: string := "Invalid command index."
  const ValidCommandIndexRequired: string := "Valid command index is required."

  datatype CommandRef = CommandRef(id: string, pageIndex: int, commandIndex: int)

  /** The command list an update or deletion of command `commandIndex` on
      page `pageIndex` works on, or why there is none. */
  function CommandSlot(ev: JToken, pageIndex: int, commandIndex: int): (r: Result<(seq<JToken>, seq<JToken>), EventError>)
    requires commandIndex >= 0
    ensures r.Ok? ==>
              && PagesOf(ev) == Some(r.value.0) && 0 <= pageIndex < |r.value.0|
              && ListOf(r.value.0[pageIndex]) == Some(r.value.1) && commandIndex < |r.value.1|
    ensures PagesOf(ev).None? || pageIndex >= |PagesOf(ev).value| ==> r == Err(Rejected(InvalidPageIndex))
  {
    var pages := PagesOf(ev);
    if pages.None? || pageIndex >= |pages.value| then Err(Rejected(InvalidPageIndex))
    else if pageIndex < 0 then Err(IndexOutOfRange)
    else
      var commands := ListOf(pages.value[pageIndex]);
      if commands.None? || commandIndex >= |commands.value| then Err(Rejected(InvalidCommandIndex))
      else Ok((pages.value, commands.value))
  }

  /** The event with command `commandIndex` of page `pageIndex` set to `command`. */
  function WithCommands(ev: JToken, pages: seq<JToken>, pageIndex: int, commands: seq<JToken>): JToken
    requires ev.JObject? && 0 <= pageIndex < |pages| && pages[pageIndex].JObject?
  {
    SetProp(ev, "pages", JArray(pages[pageIndex := SetProp(pages[pageIndex], "list", JArray(commands))]))
  }

  /** What an update puts in place of `existing`: the new data, or, for a
      partial update, `existing` merged with it when `existing` is an object
      and `existing` itself otherwise. */
  function Updated(existing: JToken, data: JToken, partial: bool, merge: (JToken, JToken) -> JToken): JToken {
    if !partial then data
    else if existing.JObject? then merge(existing, data)
    else existing
  }

  /** Only the event at `loc` may differ between `before` and `after`: the
      same files, every other file as it was, and every other element of the
      event's own file as it was. */
  predicate OthersUnchanged(before: map<string, JToken>, after: map<string, JToken>, loc: Location)
    requires ValidLocation(before, loc)
  {
    && after.Keys == before.Keys
    && (forall f :: f in before && f != loc.file ==> after[f] == before[f])
    && ValidLocation(after, loc)
    && |after[loc.file].items| == |before[loc.file].items|
    && (forall m :: 0 <= m < |before[loc.file].items| && m != loc.index ==>
          after[loc.file].items[m] == before[loc.file].items[m])
  }

  /** `UpdateEventCommand`: the command is merged with the command data
      (`partial`, and only when it is an object) or replaced by it. */
  function UpdateEventCommandSpec(files: map<string, JToken>, uuId: Option<string>, idArg: Option<string>,
                                  pageIndex: int, commandIndex: int, commandData: Option<map<string, Obj>>,
                                  partial: bool, merge: (JToken, JToken) -> JToken)
    : (r: Result<(map<string, JToken>, CommandRef), EventError>)
    ensures Blank(FirstGiven(uuId, idArg)) ==> r == Err(Rejected(IdRequired))
    ensures !Blank(FirstGiven(uuId, idArg)) && commandIndex < 0 ==> r == Err(Rejected(ValidCommandIndexRequired))
  {
    var id := FirstGiven(uuId, idArg);
    if Blank(id) then Err(Rejected(IdRequired))
    else if commandIndex < 0 then Err(Rejected(ValidCommandIndexRequired))
    else if commandData.None? then Err(Rejected("Command data is required."))
    else
      match FindEvent(files, id.value)
      case Err(e) => Err(e)
      case Ok(None) => Err(Rejected(EventNotFound(id.value)))
      case Ok(Some(loc)) =>
        var ev := EventAt(files, loc);
        match CommandSlot(ev, pageIndex, commandIndex)
        case Err(e) => Err(e)
        case Ok(slot) =>
          var (pages, commands) := slot;
          var command := Updated(commands[commandIndex], FromDict(commandData.value), partial, merge);
          Ok((PutEvent(files, loc, WithCommands(ev, pages, pageIndex, commands[commandIndex := command])),
              CommandRef(id.value, pageIndex, commandIndex)))
  }

  /** An update that goes through changes exactly one command: the command
      at `commandIndex` of page `pageIndex` becomes the new data (or the
      merge), and every other command, page, property, event and file stays. */
  lemma UpdateCommandReplacesOne(files: map<string, JToken>, uuId: Option<string>, idArg: Option<string>,
                                 pageIndex: int, commandIndex: int, commandData: map<string, Obj>,
                                 partial: bool, merge: (JToken, JToken) -> JToken)
    requires UpdateEventCommandSpec(files, uuId, idArg, pageIndex, commandIndex, Some(commandData), partial, merge).Ok?
    ensures !Blank(FirstGiven(uuId, idArg)) && Located(files, FirstGiven(uuId, idArg).value)
    ensures var loc := FoundAt(files, FirstGiven(uuId, idArg).value);
            var after := UpdateEventCommandSpec(files, uuId, idArg, pageIndex, commandIndex, Some(commandData),
                                                partial, merge).value.0;
            var ev := EventAt(files, loc);
            && OthersUnchanged(files, after, loc)
            && PagesOf(ev).Some? && 0 <= pageIndex < |PagesOf(ev).value|
            && var page := PagesOf(ev).value[pageIndex];
               && ListOf(page).Some? && 0 <= commandIndex < |ListOf(page).value|
               && var commands := ListOf(page).value;
                  var ev' := EventAt(after, loc);
                  && ev'.JObject? && ev'.props.Keys == ev.props.Keys
                  && (forall k :: k in ev.props && k != "pages" ==> ev'.props[k] == ev.props[k])
                  && PagesOf(ev').Some? && |PagesOf(ev').value| == |PagesOf(ev).value|
                  && (forall j :: 0 <= j < |PagesOf(ev).value| && j != pageIndex ==>
                        PagesOf(ev').value[j] == PagesOf(ev).value[j])
                  && var page' := PagesOf(ev').value[pageIndex];
                     && page'.JObject? && page'.props.Keys == page.props.Keys
                     && (forall k :: k in page.props && k != "list" ==> page'.props[k] == page.props[k])
                     && ListOf(page') ==
                          Some(commands[commandIndex := Updated(commands[commandIndex], FromDict(commandData), partial, merge)])
  {
    var loc := FoundAt(files, FirstGiven(uuId, idArg).value);
    var ev := EventAt(files, loc);
    var slot := CommandSlot(ev, pageIndex, commandIndex).value;
    var commands := slot.1;
    var ev' := WithCommands(ev, slot.0, pageIndex,
                            commands[commandIndex := Updated(commands[commandIndex], FromDict(commandData), partial, merge)]);
    PutEventAt(files, loc, ev');
  }

  /** `DeleteEventCommand`: the command at `commandIndex` is removed. */
  function DeleteEventCommandSpec(files: map<string, JToken>, uuId: Option<string>, idArg: Option<string>,
                                  pageIndex: int, commandIndex: int)
    : (r: Result<(map<string, JToken>, CommandRef), EventError>)
    ensures Blank(FirstGiven(uuId, idArg)) ==> r == Err(Rejected(IdRequired))
    ensures !Blank(FirstGiven(uuId, idArg)) && commandIndex < 0 ==> r == Err(Rejected(ValidCommandIndexRequired))
  {
    var id := FirstGiven(uuId, idArg);
    if Blank(id) then Err(Rejected(IdRequired))
    else if commandIndex < 0 then Err(Rejected(ValidCommandIndexRequired))
    else
      match FindEvent(files, id.value)
      case Err(e) => Err(e)
      case Ok(None) => Err(Rejected(EventNotFound(id.value)))
      case Ok(Some(loc)) =>
        var ev := EventAt(files, loc);
        match CommandSlot(ev, pageIndex, commandIndex)
        case Err(e) => Err(e)
        case Ok(slot) =>
          var (pages, commands) := slot;
          Ok((PutEvent(files, loc, WithCommands(ev, pages, pageIndex, RemoveAt(commands, commandIndex))),
              CommandRef(id.value, pageIndex, commandIndex)))
  }

  /** A negative command index is refused before any file is read, whatever
      the files hold. */
  lemma NegativeCommandIndexIsRefused(files: map<string, JToken>, other: map<string, JToken>, uuId: Option<string>,
                                      idArg: Option<string>, pageIndex: int, commandIndex: int,
                                      commandData: Option<map<string, Obj>>, partial: bool,
                                      merge: (JToken, JToken) -> JToken)
    requires !Blank(FirstGiven(uuId, idArg)) && commandIndex < 0
    ensures UpdateEventCommandSpec(files, uuId, idArg, pageIndex, commandIndex, commandData, partial, merge)
            == UpdateEventCommandSpec(other, uuId, idArg, pageIndex, commandIndex, commandData, partial, merge)
            == Err(Rejected(ValidCommandIndexRequired))
    ensures DeleteEventCommandSpec(files, uuId, idArg, pageIndex, commandIndex)
            == DeleteEventCommandSpec(other, uuId, idArg, pageIndex, commandIndex)
            == Err(Rejected(ValidCommandIndexRequired))
  {
  }

  /** A deletion that goes through removes exactly the one command: the
      page's list shrinks by one and keeps the order of the others. */
  lemma DeleteCommandRemovesOne(files: map<string, JToken>, uuId: Option<string>, idArg: Option<string>,
                                pageIndex: int, commandIndex: int)
    requires DeleteEventCommandSpec(files, uuId, idArg, pageIndex, commandIndex).Ok?
    ensures var loc := FoundAt(files, FirstGiven(uuId, idArg).value);
            var after := DeleteEventCommandSpec(files, uuId, idArg, pageIndex, commandIndex).value.0;
            var before := ListOf(PagesOf(EventAt(files, loc)).value[pageIndex]).value;
            && ValidLocation(after, loc)
            && PagesOf(EventAt(after, loc)).Some?
            && |PagesOf(EventAt(after, loc)).value| == |PagesOf(EventAt(files, loc)).value|
            && ListOf(PagesOf(EventAt(after, loc)).value[pageIndex]) ==
                 Some(before[..commandIndex] + before[commandIndex + 1..])
  {
  }

  // ---------------------------------------------------------------------------
  // Event pages
  // ---------------------------------------------------------------------------

  /** An event without pages: no `pages` property, a JSON null there, or an
      empty string, which Newtonsoft converts to a null list. */
  predicate NoPages(ev: JToken) {
    || Prop(ev, "pages").None?
    || Prop(ev, "pages") == Some(JNull)
    || Prop(ev, "pages") == Some(JUndefined)
    || Prop(ev, "pages") == Some(JString(""))
  }

  /** `GetEventPages`: the page array, none for a missing, null or empty-string
      value; any other value fails to convert to a list. */
  function GetEventPagesSpec(files: map<string, JToken>, uuId: Option<string>, idArg: Option<string>)
    : (r: Result<seq<JToken>, EventError>)
    ensures Blank(FirstGiven(uuId, idArg)) ==> r == Err(Rejected(IdRequired))
    ensures r.Ok? ==>
              !Blank(FirstGiven(uuId, idArg)) && Located(files, FirstGiven(uuId, idArg).value) &&
              var ev := EventAt(files, FoundAt(files, FirstGiven(uuId, idArg).value));
              (PagesOf(ev).Some? ==> r.value == PagesOf(ev).value) &&
              (PagesOf(ev).None? ==> r.value == [])
    ensures !Blank(FirstGiven(uuId, idArg)) && FindEvent(files, FirstGiven(uuId, idArg).value) == Ok(None) ==>
              r == Err(Rejected(EventNotFound(FirstGiven(uuId, idArg).value)))
    ensures !Blank(FirstGiven(uuId, idArg)) && Located(files, FirstGiven(uuId, idArg).value) ==>
              var ev := EventAt(files, FoundAt(files, FirstGiven(uuId, idArg).value));
              && (NoPages(ev) ==> r == Ok([]))
              && (PagesOf(ev).Some? ==> r == Ok(PagesOf(ev).value))
              && (!NoPages(ev) && PagesOf(ev).None? ==> r == Err(NotAList))
  {
    var id := FirstGiven(uuId, idArg);
    if Blank(id) then Err(Rejected(IdRequired))
    else
      match FindEvent(files, id.value)
      case Err(e) => Err(e)
      case Ok(None) => Err(Rejected(EventNotFound(id.value)))
      case Ok(Some(loc)) =>
        match Prop(EventAt(files, loc), "pages")
        case None => Ok([])
        case Some(JNull) => Ok([])
        case Some(JUndefined) => Ok([])
        case Some(JString("")) => Ok([])
        case Some(JArray(pages)) => Ok(pages)
        case Some(_) => Err(NotAList)
  }

  /** The page `CreateEventPage` adds when given none. */
  const DefaultPageData: map<string, Obj> := map["conditions" := Dict(map[]), "list" := List([])]

  /** `CreateEventPage`: appends the page data (or an empty page) to the
      event's pages and reports its index. */
  function CreateEventPageSpec(files: map<string, JToken>, uuId: Option<string>, idArg: Option<string>,
                               pageData: Option<map<string, Obj>>)
    : (r: Result<(map<string, JToken>, PageRef), EventError>)
    ensures Blank(FirstGiven(uuId, idArg)) ==> r == Err(Rejected(IdRequired))
  {
    var id := FirstGiven(uuId, idArg);
    var data := pageData.GetOr(DefaultPageData);
    if Blank(id) then Err(Rejected(IdRequired))
    else
      match FindEvent(files, id.value)
      case Err(e) => Err(e)
      case Ok(None) => Err(Rejected(EventNotFound(id.value)))
      case Ok(Some(loc)) =>
        var ev := EventAt(files, loc);
        var pages := PagesOf(ev).GetOr([]) + [FromDict(data)];
        Ok((PutEvent(files, loc, SetProp(ev, "pages", JArray(pages))), PageRef(id.value, |pages| - 1)))
  }

  /** A created page is appended after the event's pages (none when it has
      no page array), and its index is the old page count. */
  lemma CreatePageAppends(files: map<string, JToken>, uuId: Option<string>, idArg: Option<string>,
                          pageData: Option<map<string, Obj>>)
    requires CreateEventPageSpec(files, uuId, idArg, pageData).Ok?
    ensures var r := CreateEventPageSpec(files, uuId, idArg, pageData).value;
            !Blank(FirstGiven(uuId, idArg)) && Located(files, FirstGiven(uuId, idArg).value) &&
            var loc := FoundAt(files, FirstGiven(uuId, idArg).value);
            && ValidLocation(r.0, loc)
            && PagesOf(EventAt(r.0, loc)) ==
                 Some(PagesOf(EventAt(files, loc)).GetOr([]) + [FromDict(pageData.GetOr(DefaultPageData))])
            && r.1.pageIndex == |PagesOf(EventAt(files, loc)).GetOr([])|
  {
    var loc := FoundAt(files, FirstGiven(uuId, idArg).value);
    var ev := EventAt(files, loc);
    var pages := PagesOf(ev).GetOr([]) + [FromDict(pageData.GetOr(DefaultPageData))];
    PutEventAt(files, loc, SetProp(ev, "pages", JArray(pages)));
  }

  const ValidPageIndexRequired: string := "Valid page index is required."

  /** `UpdateEventPage`: the page is merged with the page data (`partial`,
      and only when it is an object) or replaced by it. */
  function UpdateEventPageSpec(files: map<string, JToken>, uuId: Option<string>, idArg: Option<string>,
                               pageIndex: int, pageData: Option<map<string, Obj>>, partial: bool,
                               merge: (JToken, JToken) -> JToken)
    : (r: Result<(map<string, JToken>, PageRef), EventError>)
    ensures Blank(FirstGiven(uuId, idArg)) ==> r == Err(Rejected(IdRequired))
    ensures !Blank(FirstGiven(uuId, idArg)) && pageIndex < 0 ==> r == Err(Rejected(ValidPageIndexRequired))
    ensures r.Ok? ==>
              !Blank(FirstGiven(uuId, idArg)) && Located(files, FirstGiven(uuId, idArg).value) &&
              var loc := FoundAt(files, FirstGiven(uuId, idArg).value);
              && PagesOf(EventAt(files, loc)).Some? && 0 <= pageIndex < |PagesOf(EventAt(files, loc)).value|
              && ValidLocation(r.value.0, loc)
              && PagesOf(EventAt(r.value.0, loc)).Some?
              && |PagesOf(EventAt(r.value.0, loc)).value| == |PagesOf(EventAt(files, loc)).value|
  {
    var id := FirstGiven(uuId, idArg);
    if Blank(id) then Err(Rejected(IdRequired))
    else if pageIndex < 0 then Err(Rejected(ValidPageIndexRequired))
    else if pageData.None? then Err(Rejected("Page data is required."))
    else
      match FindEvent(files, id.value)
      case Err(e) => Err(e)
      case Ok(None) => Err(Rejected(EventNotFound(id.value)))
      case Ok(Some(loc)) =>
        var ev := EventAt(files, loc);
        var pages := PagesOf(ev);
        if pages.None? || pageIndex >= |pages.value| then Err(Rejected(InvalidPageIndex))
        else
          var page := Updated(pages.value[pageIndex], FromDict(pageData.value), partial, merge);
          Ok((PutEvent(files, loc, SetProp(ev, "pages", JArray(pages.value[pageIndex := page]))),
              PageRef(id.value, pageIndex)))
  }

  /** An update that goes through changes exactly one page: the page at
      `pageIndex` becomes the new data (or the merge), and every other page,
      property, event and file stays. */
  lemma UpdatePageReplacesOne(files: map<string, JToken>, uuId: Option<string>, idArg: Option<string>,
                              pageIndex: int, pageData: map<string, Obj>, partial: bool,
                              merge: (JToken, JToken) -> JToken)
    requires UpdateEventPageSpec(files, uuId, idArg, pageIndex, Some(pageData), partial, merge).Ok?
    ensures !Blank(FirstGiven(uuId, idArg)) && Located(files, FirstGiven(uuId, idArg).value)
    ensures var loc := FoundAt(files, FirstGiven(uuId, idArg).value);
            var after := UpdateEventPageSpec(files, uuId, idArg, pageIndex, Some(pageData), partial, merge).value.0;
            var ev := EventAt(files, loc);
            && OthersUnchanged(files, after, loc)
            && PagesOf(ev).Some? && 0 <= pageIndex < |PagesOf(ev).value|
            && var pages := PagesOf(ev).value;
               var ev' := EventAt(after, loc);
               && ev'.JObject? && ev'.props.Keys == ev.props.Keys
               && (forall k :: k in ev.props && k != "pages" ==> ev'.props[k] == ev.props[k])
               && PagesOf(ev') == Some(pages[pageIndex := Updated(pages[pageIndex], FromDict(pageData), partial, merge)])
  {
    var loc := FoundAt(files, FirstGiven(uuId, idArg).value);
    var ev := EventAt(files, loc);
    var pages := PagesOf(ev).value;
    PutEventAt(files, loc, SetProp(ev, "pages", JArray(pages[pageIndex := Updated(pages[pageIndex], FromDict(pageData), partial, merge)])));
  }

  /** `DeleteEventPage`: the page at `pageIndex` is removed. */
  function DeleteEventPageSpec(files: map<string, JToken>, uuId: Option<string>, idArg: Option<string>, pageIndex: int)
    : (r: Result<(map<string, JToken>, PageRef), EventError>)
    ensures Blank(FirstGiven(uuId, idArg)) ==> r == Err(Rejected(IdRequired))
    ensures !Blank(FirstGiven(uuId, idArg)) && pageIndex < 0 ==> r == Err(Rejected(ValidPageIndexRequired))
  {
    var id := FirstGiven(uuId, idArg);
    if Blank(id) then Err(Rejected(IdRequired))
    else if pageIndex < 0 then Err(Rejected(ValidPageIndexRequired))
    else
      match FindEvent(files, id.value)
      case Err(e) => Err(e)
      case Ok(None) => Err(Rejected(EventNotFound(id.value)))
      case Ok(Some(loc)) =>
        var ev := EventAt(files, loc);
        var pages := PagesOf(ev);
        if pages.None? || pageIndex >= |pages.value| then Err(Rejected(InvalidPageIndex))
        else Ok((PutEvent(files, loc, SetProp(ev, "pages", JArray(RemoveAt(pages.value, pageIndex)))),
                 PageRef(id.value, pageIndex)))
  }

  /** Deleting a page removes exactly the page at `pageIndex`: the count
      drops by one and the other pages keep their order. */
  lemma DeletePageRemovesOne(files: map<string, JToken>, uuId: Option<string>, idArg: Option<string>, pageIndex: int)
    requires DeleteEventPageSpec(files, uuId, idArg, pageIndex).Ok?
    ensures var loc := FoundAt(files, FirstGiven(uuId, idArg).value);
            var after := DeleteEventPageSpec(files, uuId, idArg, pageIndex).value.0;
            var before := PagesOf(EventAt(files, loc)).value;
            && 0 <= pageIndex < |before|
            && ValidLocation(after, loc)
            && PagesOf(EventAt(after, loc)) == Some(before[..pageIndex] + before[pageIndex + 1..])
            && |PagesOf(EventAt(after, loc)).value| == |before| - 1
  {
  }

  // ---------------------------------------------------------------------------
  // Copy, move, validate
  // ---------------------------------------------------------------------------

  datatype Copied = Copied(sourceId: string, newId: string, filename: string)

  /** The copy `CopyEvent` appends: the event with the new id and its name
      (or "Unnamed") followed by " (Copy)". */
  function CopyOf(ev: JToken, newId: string): (r: JToken)
    requires ev.JObject?
    ensures r.JObject? && r.props.Keys == ev.props.Keys + {"id", "name"}
    ensures HasId(r, newId)
    ensures PropText(r, "name") == Some(NameOr(ev, "Unnamed") + " (Copy)")
    ensures forall k :: k in ev.props && k != "id" && k != "name" ==> r.props[k] == ev.props[k]
  {
    SetProp(SetProp(ev, "id", JString(newId)), "name", JString(NameOr(ev, "Unnamed") + " (Copy)"))
  }

  /** `CopyEvent`: the source id comes from `uuId`, else `sourceId`, else
      `id`; the new id is `targetId` or a fresh one.  The copy goes to the end
      of the source's file. */
  function CopyEventSpec(files: map<string, JToken>, uuId: Option<string>, sourceIdArg: Option<string>,
                         idArg: Option<string>, targetId: Option<string>, freshId: string)
    : (r: Result<(map<string, JToken>, Copied), EventError>)
    ensures Blank(FirstGiven(FirstGiven(uuId, sourceIdArg), idArg)) ==> r == Err(Rejected(SourceIdRequired))
    ensures r.Ok? ==> r.value.1.newId == targetId.GetOr(freshId)
  {
    var sourceId := FirstGiven(FirstGiven(uuId, sourceIdArg), idArg);
    var newId := targetId.GetOr(freshId);
    if Blank(sourceId) then Err(Rejected(SourceIdRequired))
    else
      match FindEvent(files, sourceId.value)
      case Err(e) => Err(e)
      case Ok(None) => Err(Rejected(SourceEventNotFound(sourceId.value)))
      case Ok(Some(loc)) =>
        var items := files[loc.file].items;
        Ok((files[loc.file := JArray(items + [CopyOf(items[loc.index], newId)])], Copied(sourceId.value, newId, loc.file)))
  }

  /** Copying leaves every existing element where it was, the source
      included, and appends exactly the copy. */
  lemma CopyAppendsCopy(files: map<string, JToken>, uuId: Option<string>, sourceIdArg: Option<string>,
                        idArg: Option<string>, targetId: Option<string>, freshId: string)
    requires CopyEventSpec(files, uuId, sourceIdArg, idArg, targetId, freshId).Ok?
    ensures var r := CopyEventSpec(files, uuId, sourceIdArg, idArg, targetId, freshId).value;
            var loc := FoundAt(files, r.1.sourceId);
            var after := Items(r.0, r.1.filename);
            && r.1.filename == loc.file
            && after.Some?
            && after.value == Items(files, loc.file).value + [CopyOf(EventAt(files, loc), r.1.newId)]
            && r.0.Keys == files.Keys
            && (forall f :: f in files && f != loc.file ==> r.0[f] == files[f])
  {
  }

  const TargetFileRequired: string := "Target filename (eventCommon, eventBattle, or eventMap) is required."

  datatype Moved = Moved(id: string, sourceFile: string, targetFile: string)

  /** `MoveEvent`: the event leaves its file, which is written back, and
      is appended to the target file as read after that write (an empty
      array when it is missing or holds no array). */
  function MoveEventSpec(files: map<string, JToken>, uuId: Option<string>, sourceIdArg: Option<string>,
                         idArg: Option<string>, targetFilename: Option<string>, targetFileArg: Option<string>)
    : (r: Result<(map<string, JToken>, Moved), EventError>)
    ensures Blank(FirstGiven(FirstGiven(uuId, sourceIdArg), idArg)) ==> r == Err(Rejected(SourceIdRequired))
    ensures !Blank(FirstGiven(FirstGiven(uuId, sourceIdArg), idArg)) && Blank(FirstGiven(targetFilename, targetFileArg)) ==>
              r == Err(Rejected(TargetFileRequired))
  {
    var sourceId := FirstGiven(FirstGiven(uuId, sourceIdArg), idArg);
    var targetFile := FirstGiven(targetFilename, targetFileArg);
    if Blank(sourceId) then Err(Rejected(SourceIdRequired))
    else if Blank(targetFile) then Err(Rejected(TargetFileRequired))
    else
      match FindEvent(files, sourceId.value)
      case Err(e) => Err(e)
      case Ok(None) => Err(Rejected(SourceEventNotFound(sourceId.value)))
      case Ok(Some(loc)) =>
        var ev := EventAt(files, loc);
        var removed := files[loc.file := JArray(RemoveAt(files[loc.file].items, loc.index))];
        var target := Items(removed, targetFile.value).GetOr([]);
        Ok((removed[targetFile.value := JArray(target + [ev])], Moved(sourceId.value, loc.file, targetFile.value)))
  }

  /** A move to another file takes the event out of its file and puts it
      at the end of the target; a move within one file puts it at the end. */
  lemma MoveRelocatesEvent(files: map<string, JToken>, uuId: Option<string>, sourceIdArg: Option<string>,
                           idArg: Option<string>, targetFilename: Option<string>, targetFileArg: Option<string>)
    requires MoveEventSpec(files, uuId, sourceIdArg, idArg, targetFilename, targetFileArg).Ok?
    ensures var r := MoveEventSpec(files, uuId, sourceIdArg, idArg, targetFilename, targetFileArg).value;
            var loc := FoundAt(files, r.1.id);
            var ev := EventAt(files, loc);
            var before := Items(files, loc.file).value;
            var rest := before[..loc.index] + before[loc.index + 1..];
            && r.1.sourceFile == loc.file
            && r.0.Keys == files.Keys + {r.1.targetFile}
            && (forall f :: f in files && f != loc.file && f != r.1.targetFile ==> r.0[f] == files[f])
            && (r.1.targetFile == loc.file ==> Items(r.0, loc.file) == Some(rest + [ev]))
            && (r.1.targetFile != loc.file ==>
                  && Items(r.0, loc.file) == Some(rest)
                  && Items(r.0, r.1.targetFile) == Some(Items(files, r.1.targetFile).GetOr([]) + [ev]))
  {
  }

  const NoNameIssue: string := "Event has no name."
  const NoPagesIssue: string := "Event has no pages."

  function InvalidPageIssue(i: nat): string {
    "Page " + NatToString(i) + " is null or invalid."
  }

  function NoListIssue(i: nat): string {
    "Page " + NatToString(i) + " has no command list."
  }

  /** The issue page `i` raises, if any. */
  function PageIssue(i: nat, page: JToken): seq<string> {
    if !page.JObject? then [InvalidPageIssue(i)]
    else if "list" !in page.props then [NoListIssue(i)]
    else []
  }

  /** The issues of the first `n` pages, in page order. */
  function PageIssues(pages: seq<JToken>, n: nat): seq<string>
    requires n <= |pages|
  {
    if n == 0 then [] else PageIssues(pages, n - 1) + PageIssue(n - 1, pages[n - 1])
  }

  /** The name is missing, null or empty (`string.IsNullOrEmpty(item["name"]?.ToString())`). */
  predicate NameMissing(ev: JToken) {
    Prop(ev, "name").None? || PropText(ev, "name") == Some("")
  }

  /** The issues `ValidateEvent` reports, in order. */
  function Issues(ev: JToken): seq<string> {
    (if NameMissing(ev) then [NoNameIssue] else []) +
    (match PagesOf(ev)
     case None => [NoPagesIssue]
     case Some(pages) => if |pages| == 0 then [NoPagesIssue] else PageIssues(pages, |pages|))
  }

  /** A well-formed page: an object with a command list. */
  predicate GoodPage(page: JToken) {
    page.JObject? && "list" in page.props
  }

  lemma {:induction false} NoPageIssues(pages: seq<JToken>, n: nat)
    requires n <= |pages|
    ensures PageIssues(pages, n) == [] <==> forall j :: 0 <= j < n ==> GoodPage(pages[j])
  {
    if n > 0 {
      NoPageIssues(pages, n - 1);
    }
  }

  /** An event is valid exactly when it has a non-empty name and a
      non-empty page array whose pages are all objects with a command list. */
  lemma ValidIffWellFormed(ev: JToken)
    ensures Issues(ev) == [] <==>
              && !NameMissing(ev)
              && PagesOf(ev).Some? && |PagesOf(ev).value| > 0
              && forall j :: 0 <= j < |PagesOf(ev).value| ==> GoodPage(PagesOf(ev).value[j])
  {
    if PagesOf(ev).Some? {
      NoPageIssues(PagesOf(ev).value, |PagesOf(ev).value|);
    }
  }

  /** The issue list `ValidateEvent` grows. */
  method CollectIssues(ev: JToken) returns (issues: seq<string>)
    ensures issues == Issues(ev)
  {
    issues := if NameMissing(ev) then [NoNameIssue] else [];
    var pages := PagesOf(ev);
    if pages.None? || |pages.value| == 0 {
      issues := issues + [NoPagesIssue];
    } else {
      var more := CollectPageIssues(pages.value);
      issues := issues + more;
    }
  }

  /** The loop over the pages inside `ValidateEvent`. */
  method CollectPageIssues(pages: seq<JToken>) returns (issues: seq<string>)
    ensures issues == PageIssues(pages, |pages|)
  {
    issues := [];
    var i := 0;
    while i < |pages|
      invariant 0 <= i <= |pages|
      invariant issues == PageIssues(pages, i)
    {
      var page := pages[i];
      if !page.JObject? {
        issues := issues + [InvalidPageIssue(i)];
      } else if "list" !in page.props {
        issues := issues + [NoListIssue(i)];
      }
      assert PageIssues(pages, i + 1) == PageIssues(pages, i) + PageIssue(i, page);
      i := i + 1;
    }
  }

  datatype Validation = Validation(valid: bool, issues: seq<string>, id: string, filename: string)

  /** `ValidateEvent`: the issues of the first event with the id. */
  function ValidateEventSpec(files: map<string, JToken>, uuId: Option<string>, idArg: Option<string>)
    : (r: Result<Validation, EventError>)
    ensures Blank(FirstGiven(uuId, idArg)) ==> r == Err(Rejected(IdRequired))
    ensures r.Ok? ==> (r.value.valid <==> r.value.issues == [])
  {
    var id := FirstGiven(uuId, idArg);
    if Blank(id) then Err(Rejected(IdRequired))
    else
      match FindEvent(files, id.value)
      case Err(e) => Err(e)
      case Ok(None) => Err(Rejected(EventNotFound(id.value)))
      case Ok(Some(loc)) =>
        var issues := Issues(EventAt(files, loc));
        Ok(Validation(|issues| == 0, issues, id.value, loc.file))
  }

  /** The operations that only read, and so need no recompilation wait. */
  const ReadOnlyOperations: seq<string> :=
    ["listCommonEvents", "getCommonEventById", "getCommonEvents", "getEventCommands", "getEventPages", "validateEvent"]

  const SupportedOperations: seq<string> :=
    ["listCommonEvents", "getCommonEventById", "getCommonEvents", "createCommonEvent", "updateCommonEvent",
     "deleteCommonEvent", "getEventCommands", "createEventCommand", "updateEventCommand", "deleteEventCommand",
     "getEventPages", "createEventPage", "updateEventPage", "deleteEventPage", "copyEvent", "moveEvent", "validateEvent"]

  /** `RequiresCompilationWait`. */
  function RequiresCompilationWait(operation: string): bool {
    operation !in ReadOnlyOperations
  }

  /** Of the seventeen supported operations, exactly the eleven that write
      wait for recompilation. */
  lemma WritingOperationsWait()
    ensures |SupportedOperations| == 17
    ensures forall op :: op in ReadOnlyOperations ==> op in SupportedOperations && !RequiresCompilationWait(op)
    ensures forall op :: op in ["createCommonEvent", "updateCommonEvent", "deleteCommonEvent", "createEventCommand",
                                "updateEventCommand", "deleteEventCommand", "createEventPage", "updateEventPage",
                                "deleteEventPage", "copyEvent", "moveEvent"] ==>
              op in SupportedOperations && RequiresCompilationWait(op)
  {
  }

  /** One file's entries, element by element; the first element that is
      not an object ends them. */
  method ListFile(file: string, items: seq<JToken>) returns (r: seq<Summary>)
    ensures r == FileListing(file, items, 0)
  {
    r := [];
    var i := 0;
    while i < |items| && items[i].JObject?
      invariant 0 <= i <= |items|
      invariant r + FileListing(file, items, i) == FileListing(file, items, 0)
    {
      var id := PropText(items[i], "id");
      if id.Some? && id.value != "" {
        r := r + [Summary(id.value, NameOr(items[i], "Unnamed Event"), file, items[i])];
      }
      i := i + 1;
    }
  }

  /** One step of the listing: the entries of file `k`, then the rest. */
  lemma ListingFromStep(files: map<string, JToken>, k: nat, here: seq<Summary>)
    requires k < |EventFiles|
    requires here == if Items(files, EventFiles[k]).Some? then FileListing(EventFiles[k], Items(files, EventFiles[k]).value, 0) else []
    ensures ListingFrom(files, k) == here + ListingFrom(files, k + 1)
  {
  }

  /** The listing over all event files, file by file. */
  method ListAll(files: map<string, JToken>) returns (r: seq<Summary>)
    ensures r == Listing(files)
  {
    r := [];
    var k := 0;
    while k < |EventFiles|
      invariant 0 <= k <= |EventFiles|
      invariant r + ListingFrom(files, k) == Listing(files)
    {
      var file := EventFiles[k];
      var here: seq<Summary> := [];
      if file in files && files[file].JArray? {
        here := ListFile(file, files[file].items);
      }
      ListingFromStep(files, k, here);
      ConcatAssoc(r, here, ListingFrom(files, k + 1));
      r := r + here;
      k := k + 1;
    }
  }

  class EventStore {
    var files: map<string, JToken>

    constructor (files: map<string, JToken>)
      ensures this.files == files
    {
      this.files := files;
    }

    /** The lookup, scanning file by file and element by element. */
    method Locate(id: string) returns (r: Result<Option<Location>, EventError>)
      ensures r == FindEvent(files, id)
    {
      var k := 0;
      while k < |EventFiles|
        invariant 0 <= k <= |EventFiles|
        invariant FindFrom(files, id, k) == FindEvent(files, id)
      {
        var file := EventFiles[k];
        if file in files && files[file].JArray? {
          var items := files[file].items;
          var i := 0;
          while i < |items|
            invariant 0 <= i <= |items|
            invariant ScanFrom(file, items, id, i) == ScanFrom(file, items, id, 0)
          {
            if !items[i].JObject? {
              return Err(NotAnObject(file, i));
            }
            if PropText(items[i], "id") == Some(id) {
              return Ok(Some(Location(file, i)));
            }
            i := i + 1;
          }
        }
        k := k + 1;
      }
      return Ok(None);
    }

    /** `ListCommonEvents` and `GetCommonEvents`. */
    method ListEvents() returns (r: seq<Summary>)
      ensures r == Listing(files)
    {
      r := ListAll(files);
    }

    method GetCommonEventById(uuId: Option<string>, idArg: Option<string>, filename: Option<string>)
      returns (r: Result<Summary, EventError>)
      ensures r == GetCommonEventByIdSpec(files, uuId, idArg, filename)
    {
      var id := FirstGiven(FirstGiven(uuId, idArg), filename);
      if Blank(id) {
        return Err(Rejected(IdRequired));
      }
      var found := Locate(id.value);
      if found.Err? {
        return Err(found.error);
      }
      if found.value.None? {
        return Err(Rejected(CommonEventNotFound(id.value)));
      }
      var loc := found.value.value;
      var ev := files[loc.file].items[loc.index];
      return Ok(Summary(id.value, NameOr(ev, "Unnamed Event"), loc.file, ev));
    }

    method CreateCommonEvent(eventData: Option<map<string, Obj>>, filename: Option<string>, uuId: Option<string>,
                             idArg: Option<string>, freshId: string) returns (r: Result<EventRef, EventError>)
      modifies this
      ensures Applied(old(files), files, r, CreateCommonEventSpec(old(files), eventData, filename, uuId, idArg, freshId))
    {
      var targetFile := filename.GetOr("eventCommon");
      if eventData.None? {
        return Err(Rejected("Event data is required."));
      }
      var id := FirstGiven(uuId, idArg);
      var newId := if Blank(id) then freshId else id.value;
      var existing: seq<JToken> := [];
      if targetFile in files && files[targetFile].JArray? {
        existing := files[targetFile].items;
      }
      files := files[targetFile := JArray(existing + [FromDict(eventData.value["id" := Str(newId)])])];
      return Ok(EventRef(newId, targetFile));
    }

    method UpdateCommonEvent(uuId: Option<string>, idArg: Option<string>, eventData: Option<map<string, Obj>>,
                             partial: bool, merge: (JToken, JToken) -> JToken) returns (r: Result<EventRef, EventError>)
      modifies this
      ensures Applied(old(files), files, r, UpdateCommonEventSpec(old(files), uuId, idArg, eventData, partial, merge))
    {
      var id := FirstGiven(uuId, idArg);
      if Blank(id) {
        return Err(Rejected(IdRequired));
      }
      if eventData.None? {
        return Err(Rejected("Event data is required."));
      }
      var found := Locate(id.value);
      if found.Err? {
        return Err(found.error);
      }
      if found.value.None? {
        return Err(Rejected(CommonEventNotFound(id.value)));
      }
      var loc := found.value.value;
      var ev;
      if partial {
        ev := MergeData(files[loc.file].items[loc.index], eventData.value, merge);
      } else {
        ev := FromDict(eventData.value["id" := Str(id.value)]);
      }
      files := PutEvent(files, loc, ev);
      return Ok(EventRef(id.value, loc.file));
    }

    method DeleteCommonEvent(uuId: Option<string>, idArg: Option<string>) returns (r: Result<EventRef, EventError>)
      modifies this
      ensures Applied(old(files), files, r, DeleteCommonEventSpec(old(files), uuId, idArg))
    {
      var id := FirstGiven(uuId, idArg);
      if Blank(id) {
        return Err(Rejected(IdRequired));
      }
      var found := Locate(id.value);
      if found.Err? {
        return Err(found.error);
      }
      if found.value.None? {
        return Err(Rejected(CommonEventNotFound(id.value)));
      }
      var loc := found.value.value;
      files := files[loc.file := JArray(RemoveAt(files[loc.file].items, loc.index))];
      return Ok(EventRef(id.value, loc.file));
    }

    method GetEventCommands(uuId: Option<string>, idArg: Option<string>, pageIndex: int)
      returns (r: Result<CommandsReply, EventError>)
      ensures r == GetEventCommandsSpec(files, uuId, idArg, pageIndex)
    {
      var id := FirstGiven(uuId, idArg);
      if Blank(id) {
        return Err(Rejected(IdRequired));
      }
      var found := Locate(id.value);
      if found.Err? {
        return Err(found.error);
      }
      if found.value.None? {
        return Err(Rejected(EventNotFound(id.value)));
      }
      var loc := found.value.value;
      var pages := PagesOrCommands(files[loc.file].items[loc.index]);
      if pages.None? || pageIndex >= |pages.value| {
        return Ok(NoCommands);
      }
      if pageIndex < 0 {
        return Err(IndexOutOfRange);
      }
      var page := pages.value[pageIndex];
      if !page.JObject? {
        return Ok(Commands([], id.value, pageIndex));
      }
      var list := ListOf(page);
      if list.None? {
        return Err(NotAList);
      }
      return Ok(Commands(list.value, id.value, pageIndex));
    }

    method CreateEventCommand(uuId: Option<string>, idArg: Option<string>, pageIndex: int,
                              commandData: Option<map<string, Obj>>) returns (r: Result<PageRef, EventError>)
      modifies this
      ensures Applied(old(files), files, r, CreateEventCommandSpec(old(files), uuId, idArg, pageIndex, commandData))
    {
      var id := FirstGiven(uuId, idArg);
      if Blank(id) {
        return Err(Rejected(IdRequired));
      }
      if commandData.None? {
        return Err(Rejected("Command data is required."));
      }
      var found := Locate(id.value);
      if found.Err? {
        return Err(found.error);
      }
      if found.value.None? {
        return Err(Rejected(EventNotFound(id.value)));
      }
      var loc := found.value.value;
      var ev := files[loc.file].items[loc.index];
      var pages := PadPages(PagesOf(ev).GetOr([]), pageIndex);
      if pageIndex < 0 {
        return Err(IndexOutOfRange);
      }
      var page := pages[pageIndex];
      if !page.JObject? {
        return Err(NullPage);
      }
      var commands := ListOf(page).GetOr([]) + [FromDict(commandData.value)];
      pages := pages[pageIndex := SetProp(page, "list", JArray(commands))];
      files := PutEvent(files, loc, SetProp(ev, "pages", JArray(pages)));
      return Ok(PageRef(id.value, pageIndex));
    }

    method UpdateEventCommand(uuId: Option<string>, idArg: Option<string>, pageIndex: int, commandIndex: int,
                              commandData: Option<map<string, Obj>>, partial: bool, merge: (JToken, JToken) -> JToken)
      returns (r: Result<CommandRef, EventError>)
      modifies this
      ensures Applied(old(files), files, r,
                      UpdateEventCommandSpec(old(files), uuId, idArg, pageIndex, commandIndex, commandData, partial, merge))
    {
      var id := FirstGiven(uuId, idArg);
      if Blank(id) {
        return Err(Rejected(IdRequired));
      }
      if commandIndex < 0 {
        return Err(Rejected(ValidCommandIndexRequired));
      }
      if commandData.None? {
        return Err(Rejected("Command data is required."));
      }
      var found := Locate(id.value);
      if found.Err? {
        return Err(found.error);
      }
      if found.value.None? {
        return Err(Rejected(EventNotFound(id.value)));
      }
      var loc := found.value.value;
      var ev := files[loc.file].items[loc.index];
      var slot := CommandSlot(ev, pageIndex, commandIndex);
      if slot.Err? {
        return Err(slot.error);
      }
      var (pages, commands) := slot.value;
      var command := commands[commandIndex];
      if !partial {
        command := FromDict(commandData.value);
      } else if command.JObject? {
        command := merge(command, FromDict(commandData.value));
      }
      files := PutEvent(files, loc, WithCommands(ev, pages, pageIndex, commands[commandIndex := command]));
      return Ok(CommandRef(id.value, pageIndex, commandIndex));
    }

    method DeleteEventCommand(uuId: Option<string>, idArg: Option<string>, pageIndex: int, commandIndex: int)
      returns (r: Result<CommandRef, EventError>)
      modifies this
      ensures Applied(old(files), files, r, DeleteEventCommandSpec(old(files), uuId, idArg, pageIndex, commandIndex))
    {
      var id := FirstGiven(uuId, idArg);
      if Blank(id) {
        return Err(Rejected(IdRequired));
      }
      if commandIndex < 0 {
        return Err(Rejected(ValidCommandIndexRequired));
      }
      var found := Locate(id.value);
      if found.Err? {
        return Err(found.error);
      }
      if found.value.None? {
        return Err(Rejected(EventNotFound(id.value)));
      }
      var loc := found.value.value;
      var ev := files[loc.file].items[loc.index];
      var slot := CommandSlot(ev, pageIndex, commandIndex);
      if slot.Err? {
        return Err(slot.error);
      }
      var (pages, commands) := slot.value;
      files := PutEvent(files, loc, WithCommands(ev, pages, pageIndex, RemoveAt(commands, commandIndex)));
      return Ok(CommandRef(id.value, pageIndex, commandIndex));
    }

    method GetEventPages(uuId: Option<string>, idArg: Option<string>) returns (r: Result<seq<JToken>, EventError>)
      ensures r == GetEventPagesSpec(files, uuId, idArg)
    {
      var id := FirstGiven(uuId, idArg);
      if Blank(id) {
        return Err(Rejected(IdRequired));
      }
      var found := Locate(id.value);
      if found.Err? {
        return Err(found.error);
      }
      if found.value.None? {
        return Err(Rejected(EventNotFound(id.value)));
      }
      var loc := found.value.value;
      var pages := Prop(files[loc.file].items[loc.index], "pages");
      if pages.None? || pages.value.JNull? || pages.value.JUndefined? || pages.value == JString("") {
        return Ok([]);
      }
      if !pages.value.JArray? {
        return Err(NotAList);
      }
      return Ok(pages.value.items);
    }

    method CreateEventPage(uuId: Option<string>, idArg: Option<string>, pageData: Option<map<string, Obj>>)
      returns (r: Result<PageRef, EventError>)
      modifies this
      ensures Applied(old(files), files, r, CreateEventPageSpec(old(files), uuId, idArg, pageData))
    {
      var id := FirstGiven(uuId, idArg);
      if Blank(id) {
        return Err(Rejected(IdRequired));
      }
      var data := pageData.GetOr(DefaultPageData);
      var found := Locate(id.value);
      if found.Err? {
        return Err(found.error);
      }
      if found.value.None? {
        return Err(Rejected(EventNotFound(id.value)));
      }
      var loc := found.value.value;
      var ev := files[loc.file].items[loc.index];
      var pages := PagesOf(ev).GetOr([]) + [FromDict(data)];
      files := PutEvent(files, loc, SetProp(ev, "pages", JArray(pages)));
      return Ok(PageRef(id.value, |pages| - 1));
    }

    method UpdateEventPage(uuId: Option<string>, idArg: Option<string>, pageIndex: int,
                           pageData: Option<map<string, Obj>>, partial: bool, merge: (JToken, JToken) -> JToken)
      returns (r: Result<PageRef, EventError>)
      modifies this
      ensures Applied(old(files), files, r, UpdateEventPageSpec(old(files), uuId, idArg, pageIndex, pageData, partial, merge))
    {
      var id := FirstGiven(uuId, idArg);
      if Blank(id) {
        return Err(Rejected(IdRequired));
      }
      if pageIndex < 0 {
        return Err(Rejected(ValidPageIndexRequired));
      }
      if pageData.None? {
        return Err(Rejected("Page data is required."));
      }
      var found := Locate(id.value);
      if found.Err? {
        return Err(found.error);
      }
      if found.value.None? {
        return Err(Rejected(EventNotFound(id.value)));
      }
      var loc := found.value.value;
      var ev := files[loc.file].items[loc.index];
      var pages := PagesOf(ev);
      if pages.None? || pageIndex >= |pages.value| {
        return Err(Rejected(InvalidPageIndex));
      }
      var page := pages.value[pageIndex];
      if !partial {
        page := FromDict(pageData.value);
      } else if page.JObject? {
        page := merge(page, FromDict(pageData.value));
      }
      files := PutEvent(files, loc, SetProp(ev, "pages", JArray(pages.value[pageIndex := page])));
      return Ok(PageRef(id.value, pageIndex));
    }

    method DeleteEventPage(uuId: Option<string>, idArg: Option<string>, pageIndex: int)
      returns (r: Result<PageRef, EventError>)
      modifies this
      ensures Applied(old(files), files, r, DeleteEventPageSpec(old(files), uuId, idArg, pageIndex))
    {
      var id := FirstGiven(uuId, idArg);
      if Blank(id) {
        return Err(Rejected(IdRequired));
      }
      if pageIndex < 0 {
        return Err(Rejected(ValidPageIndexRequired));
      }
      var found := Locate(id.value);
      if found.Err? {
        return Err(found.error);
      }
      if found.value.None? {
        return Err(Rejected(EventNotFound(id.value)));
      }
      var loc := found.value.value;
      var ev := files[loc.file].items[loc.index];
      var pages := PagesOf(ev);
      if pages.None? || pageIndex >= |pages.value| {
        return Err(Rejected(InvalidPageIndex));
      }
      files := PutEvent(files, loc, SetProp(ev, "pages", JArray(RemoveAt(pages.value, pageIndex))));
      return Ok(PageRef(id.value, pageIndex));
    }

    method CopyEvent(uuId: Option<string>, sourceIdArg: Option<string>, idArg: Option<string>,
                     targetId: Option<string>, freshId: string) returns (r: Result<Copied, EventError>)
      modifies this
      ensures Applied(old(files), files, r, CopyEventSpec(old(files), uuId, sourceIdArg, idArg, targetId, freshId))
    {
      var sourceId := FirstGiven(FirstGiven(uuId, sourceIdArg), idArg);
      var newId := targetId.GetOr(freshId);
      if Blank(sourceId) {
        return Err(Rejected(SourceIdRequired));
      }
      var found := Locate(sourceId.value);
      if found.Err? {
        return Err(found.error);
      }
      if found.value.None? {
        return Err(Rejected(SourceEventNotFound(sourceId.value)));
      }
      var loc := found.value.value;
      var items := files[loc.file].items;
      files := files[loc.file := JArray(items + [CopyOf(items[loc.index], newId)])];
      return Ok(Copied(sourceId.value, newId, loc.file));
    }

    method MoveEvent(uuId: Option<string>, sourceIdArg: Option<string>, idArg: Option<string>,
                     targetFilename: Option<string>, targetFileArg: Option<string>) returns (r: Result<Moved, EventError>)
      modifies this
      ensures Applied(old(files), files, r,
                      MoveEventSpec(old(files), uuId, sourceIdArg, idArg, targetFilename, targetFileArg))
    {
      var sourceId := FirstGiven(FirstGiven(uuId, sourceIdArg), idArg);
      var targetFile := FirstGiven(targetFilename, targetFileArg);
      if Blank(sourceId) {
        return Err(Rejected(SourceIdRequired));
      }
      if Blank(targetFile) {
        return Err(Rejected(TargetFileRequired));
      }
      var found := Locate(sourceId.value);
      if found.Err? {
        return Err(found.error);
      }
      if found.value.None? {
        return Err(Rejected(SourceEventNotFound(sourceId.value)));
      }
      var loc := found.value.value;
      var ev := files[loc.file].items[loc.index];
      files := files[loc.file := JArray(RemoveAt(files[loc.file].items, loc.index))];
      var target: seq<JToken> := [];
      if targetFile.value in files && files[targetFile.value].JArray? {
        target := files[targetFile.value].items;
      }
      assert target == Items(files, targetFile.value).GetOr([]);
      files := files[targetFile.value := JArray(target + [ev])];
      return Ok(Moved(sourceId.value, loc.file, targetFile.value));
    }

    method ValidateEvent(uuId: Option<string>, idArg: Option<string>) returns (r: Result<Validation, EventError>)
      ensures r == ValidateEventSpec(files, uuId, idArg)
    {
      var id := FirstGiven(uuId, idArg);
      if Blank(id) {
        return Err(Rejected(IdRequired));
      }
      var found := Locate(id.value);
      if found.Err? {
        return Err(found.error);
      }
      if found.value.None? {
        return Err(Rejected(EventNotFound(id.value)));
      }
      var loc := found.value.value;
      var issues := CollectIssues(files[loc.file].items[loc.index]);
      return Ok(Validation(|issues| == 0, issues, id.value, loc.file));
    }
  }
}
