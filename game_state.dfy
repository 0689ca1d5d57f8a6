/** The RPG Maker game-state handler
    (`Editor/MCPBridge/Handlers/RPGMaker/RPGMakerGameStateHandler.cs`):
    inventory counts, progress flags and the player's position, each kept in a
    JSON save file that an operation loads, edits by key and writes back.

    A save file is held as the value it deserialises to (`None` when the file
    does not exist); writing a dictionary and reading it back is taken to give
    the same dictionary.  The clock behind the teleport timestamp is a
    parameter. */
module RPGMakerGameStateHandler {
  import opened Wrappers
  import opened Text
  import opened Json
  import opened HandlerArgs

  /** How an operation fails: a message the handler throws itself, or what
      `Convert.ToInt32` throws on a stored count it cannot convert. */
  datatype GameError =
    | Rejected(message: string)
    | InvalidCast   // a list or dictionary
    | Overflow      // a number outside the 32-bit range
    | BadFormat     // text that is not an integer

  /** The save files the modelled operations touch. */
  datatype SaveData = SaveData(inventory: Option<Obj>, player: Option<Obj>, flags: map<string, Obj>)

  /** `Deserialize(content) as Dictionary<string, object> ?? new Dictionary<string, object>()`. */
  function AsDict(file: Option<Obj>): map<string, Obj> {
    if file.Some? && file.value.Dict? then file.value.entries else map[]
  }

  /** `Int32.Parse`: a decimal integer, which must fit in 32 bits. */
  function ParseInt32(s: string): (r: Result<int, GameError>)
    ensures r.Ok? <==> ParseInteger(s).Some? && InInt32(ParseInteger(s).value)
    ensures r.Ok? ==> r.value == ParseInteger(s).value
  {
    match ParseInteger(s)
    case None => Err(BadFormat)
    case Some(n) => if InInt32(n) then Ok(n) else Err(Overflow)
  }

  /** `Convert.ToInt32(object)` on a stored count.  A `JValue` converts
      through its own `IConvertible`, which accepts integers, strings and
      booleans and refuses a JSON null. */
  function ToInt32(o: Obj): (r: Result<int, GameError>)
    ensures r.Ok? ==> InInt32(r.value)
    ensures o.Null? ==> r == Ok(0)
    ensures o.Int32? && InInt32(o.i) ==> r == Ok(o.i)
    ensures o.Int64? ==> (r.Ok? <==> InInt32(o.l)) && (r.Ok? ==> r.value == o.l)
    ensures o.Str? ==> r == ParseInt32(o.s)
    ensures o.Boolean? ==> r == Ok(if o.b then 1 else 0)
    ensures o.List? || o.Dict? ==> r == Err(InvalidCast)
    ensures o == Token(JNull) ==> r == Err(InvalidCast)
    ensures o.Token? && o.t.JInteger? ==> (r.Ok? <==> InInt32(o.t.n)) && (r.Ok? ==> r.value == o.t.n)
    ensures o.Token? && o.t.JString? ==> r == ParseInt32(o.t.s)
    ensures o.Token? && o.t.JBoolean? ==> r == Ok(if o.t.b then 1 else 0)
  {
    match o
    case Null => Ok(0)
    case Int32(i) => if InInt32(i) then Ok(i) else Err(Overflow)
    case Int64(l) => if InInt32(l) then Ok(l) else Err(Overflow)
    case Str(s) => ParseInt32(s)
    case Boolean(b) => Ok(if b then 1 else 0)
    case List(_) => Err(InvalidCast)
    case Dict(_) => Err(InvalidCast)
    case Token(t) =>
      match t
      case JInteger(n) => if InInt32(n) then Ok(n) else Err(Overflow)
      case JNull => Err(InvalidCast)
      case JString(s) => ParseInt32(s)
      case JBoolean(b) => Ok(if b then 1 else 0)
      case _ => Err(InvalidCast)
  }

  const ItemIdRequired: string := "Item ID is required."

  function ItemNotFound(itemId: string): string {
    "Item '" + itemId + "' not found in inventory."
  }

  // ---------------------------------------------------------------------------
  // Replies
  // ---------------------------------------------------------------------------

  function AddedMessage(itemId: string, quantity: int): string {
    "Added " + IntToString(quantity) + " of item '" + itemId + "' to inventory."
  }

  function RemovedMessage(itemId: string, quantity: int): string {
    "Removed " + IntToString(quantity) + " of item '" + itemId + "' from inventory."
  }

  function FlagSetMessage(flagId: string): string {
    "Progress flag '" + flagId + "' set successfully."
  }

  function TeleportedMessage(mapId: string, x: int, y: int): string {
    "Player teleported to map '" + mapId + "' at position (" + IntToString(x) + ", " + IntToString(y) + ")."
  }

  // ---------------------------------------------------------------------------
  // Inventory
  // ---------------------------------------------------------------------------

  /** `AddItemToInventory`: an absent item is set to the quantity, a present
      one to its count plus the quantity (32-bit, wrapping). */
  function AddItemSpec(s: SaveData, itemId: Option<string>, quantity: int): (r: Result<(SaveData, string), GameError>)
    ensures Blank(itemId) <==> r == Err(Rejected(ItemIdRequired))
    ensures r.Err? && !Blank(itemId) ==>
              var inv := AsDict(s.inventory);
              itemId.value in inv && ToInt32(inv[itemId.value]) == Err(r.error)
  {
    if Blank(itemId) then Err(Rejected(ItemIdRequired))
    else
      var id := itemId.value;
      var inv := AsDict(s.inventory);
      var message := AddedMessage(id, quantity);
      if id in inv then
        match ToInt32(inv[id])
        case Err(e) => Err(e)
        case Ok(current) => Ok((s.(inventory := Some(Dict(inv[id := Int32(Wrap32(current + quantity))]))), message))
      else Ok((s.(inventory := Some(Dict(inv[id := Int32(quantity)]))), message))
  }

  /** A successful addition touches only the added item's entry: a new
      item holds the quantity, a present one its count plus the quantity. */
  lemma AddChangesOnlyTheItem(s: SaveData, itemId: Option<string>, quantity: int)
    requires AddItemSpec(s, itemId, quantity).Ok?
    ensures var r := AddItemSpec(s, itemId, quantity);
            var inv := AsDict(s.inventory);
            && itemId.Some?
            && r.value.0.player == s.player && r.value.0.flags == s.flags
            && r.value.0.inventory.Some? && r.value.0.inventory.value.Dict?
            && var after := r.value.0.inventory.value.entries;
               && after.Keys == inv.Keys + {itemId.value}
               && (forall k :: k in inv && k != itemId.value ==> after[k] == inv[k])
               && (itemId.value !in inv ==> after[itemId.value] == Int32(quantity))
               && (itemId.value in inv ==>
                     ToInt32(inv[itemId.value]).Ok? &&
                     after[itemId.value] == Int32(Wrap32(ToInt32(inv[itemId.value]).value + quantity)))
  {
  }

  /** `RemoveItemFromInventory`: the count drops by the quantity, not below
      zero, and an item whose count reaches zero leaves the inventory. */
  function RemoveItemSpec(s: SaveData, itemId: Option<string>, quantity: int): (r: Result<(SaveData, string), GameError>)
    ensures Blank(itemId) ==> r == Err(Rejected(ItemIdRequired))
    ensures !Blank(itemId) && s.inventory.None? ==> r == Err(Rejected("Inventory not found."))
    ensures !Blank(itemId) && s.inventory.Some? && itemId.value !in AsDict(s.inventory) ==>
              r == Err(Rejected(ItemNotFound(itemId.value)))
  {
    if Blank(itemId) then Err(Rejected(ItemIdRequired))
    else if s.inventory.None? then Err(Rejected("Inventory not found."))
    else
      var id := itemId.value;
      var inv := AsDict(s.inventory);
      if id !in inv then Err(Rejected(ItemNotFound(id)))
      else
        match ToInt32(inv[id])
        case Err(e) => Err(e)
        case Ok(current) =>
          var left := Wrap32(current - quantity);
          var newQuantity := if left > 0 then left else 0;
          var message := RemovedMessage(id, quantity);
          if newQuantity == 0 then Ok((s.(inventory := Some(Dict(inv - {id}))), message))
          else Ok((s.(inventory := Some(Dict(inv[id := Int32(newQuantity)]))), message))
  }

  /** A successful removal touches only the removed item's entry: its count
      drops by the quantity, and the entry goes when nothing is left. */
  lemma RemoveChangesOnlyTheItem(s: SaveData, itemId: Option<string>, quantity: int)
    requires RemoveItemSpec(s, itemId, quantity).Ok?
    ensures var r := RemoveItemSpec(s, itemId, quantity);
            var inv := AsDict(s.inventory);
            && itemId.Some? && itemId.value in inv && ToInt32(inv[itemId.value]).Ok?
            && r.value.0.player == s.player && r.value.0.flags == s.flags
            && r.value.0.inventory.Some? && r.value.0.inventory.value.Dict?
            && var after := r.value.0.inventory.value.entries;
               var left := Wrap32(ToInt32(inv[itemId.value]).value - quantity);
               && (forall k :: k in inv && k != itemId.value ==> k in after && after[k] == inv[k])
               && (left <= 0 ==> after.Keys == inv.Keys - {itemId.value})
               && (left > 0 ==> after.Keys == inv.Keys && after[itemId.value] == Int32(left))
  {
  }

  /** Every stored count is a positive 32-bit integer. */
  predicate CountsPositive(inv: map<string, Obj>) {
    forall k :: k in inv ==> inv[k].Int32? && 0 < inv[k].i && InInt32(inv[k].i)
  }

  /** Removal never stores a zero or negative count, and keeps an inventory
      of positive counts so. */
  lemma RemoveKeepsCountsPositive(s: SaveData, itemId: Option<string>, quantity: int)
    requires CountsPositive(AsDict(s.inventory))
    requires RemoveItemSpec(s, itemId, quantity).Ok?
    ensures CountsPositive(RemoveItemSpec(s, itemId, quantity).value.0.inventory.value.entries)
  {
    RemoveChangesOnlyTheItem(s, itemId, quantity);
  }

  /** Adding a positive quantity that does not overflow keeps an inventory
      of positive counts so. */
  lemma AddKeepsCountsPositive(s: SaveData, itemId: string, quantity: int)
    requires CountsPositive(AsDict(s.inventory))
    requires itemId != "" && 0 < quantity
    requires InInt32(quantity + if itemId in AsDict(s.inventory) then AsDict(s.inventory)[itemId].i else 0)
    ensures AddItemSpec(s, Some(itemId), quantity).Ok?
    ensures CountsPositive(AddItemSpec(s, Some(itemId), quantity).value.0.inventory.value.entries)
  {
    var inv := AsDict(s.inventory);
    if itemId in inv {
      assert ToInt32(inv[itemId]) == Ok(inv[itemId].i);
    }
    AddChangesOnlyTheItem(s, Some(itemId), quantity);
  }

  /** Removing what was just added restores the inventory, for an absent
      item and for a present one alike (when nothing overflows). */
  lemma RemoveUndoesAdd(s: SaveData, itemId: string, quantity: int)
    requires CountsPositive(AsDict(s.inventory))
    requires itemId != "" && 0 < quantity
    requires InInt32(quantity + if itemId in AsDict(s.inventory) then AsDict(s.inventory)[itemId].i else 0)
    ensures var added := AddItemSpec(s, Some(itemId), quantity);
            && added.Ok?
            && RemoveItemSpec(added.value.0, Some(itemId), quantity).Ok?
            && RemoveItemSpec(added.value.0, Some(itemId), quantity).value.0 == s.(inventory := Some(Dict(AsDict(s.inventory))))
  {
    var inv := AsDict(s.inventory);
    var added := AddItemSpec(s, Some(itemId), quantity).value.0;
    var back := RemoveItemSpec(added, Some(itemId), quantity).value.0;
    if itemId in inv {
      assert back.inventory.value.entries == inv[itemId := inv[itemId]];
      assert inv[itemId := inv[itemId]] == inv;
    } else {
      assert back.inventory.value.entries == inv[itemId := Int32(quantity)] - {itemId};
      assert inv[itemId := Int32(quantity)] - {itemId} == inv;
    }
  }

  // ---------------------------------------------------------------------------
  // Progress flags
  // ---------------------------------------------------------------------------

  const FlagTypeInvalid: string := "Flag type must be 'switches' or 'variables'."

  /** `SetProgressFlag`: one entry of the switches or variables file. */
  function SetProgressFlagSpec(s: SaveData, flagType: Option<string>, flagId: Option<string>, value: Obj)
    : (r: Result<(SaveData, string), GameError>)
    ensures (flagType != Some("switches") && flagType != Some("variables")) <==> r == Err(Rejected(FlagTypeInvalid))
    ensures (flagType == Some("switches") || flagType == Some("variables")) && Blank(flagId) ==>
              r == Err(Rejected("Flag ID is required."))
    ensures r.Ok? ==>
              && flagType.Some? && flagId.Some? && !Blank(flagId)
              && r.value.0.inventory == s.inventory && r.value.0.player == s.player
              && r.value.0.flags.Keys == s.flags.Keys + {flagType.value}
              && (forall f :: f in s.flags && f != flagType.value ==> r.value.0.flags[f] == s.flags[f])
              && r.value.0.flags[flagType.value] == Dict(AsDict(if flagType.value in s.flags then Some(s.flags[flagType.value]) else None)[flagId.value := value])
  {
    if Blank(flagType) || (flagType.value != "switches" && flagType.value != "variables") then Err(Rejected(FlagTypeInvalid))
    else if Blank(flagId) then Err(Rejected("Flag ID is required."))
    else
      var file := flagType.value;
      var flags := AsDict(if file in s.flags then Some(s.flags[file]) else None);
      Ok((s.(flags := s.flags[file := Dict(flags[flagId.value := value])]),
          FlagSetMessage(flagId.value)))
  }

  /** Setting a flag and reading the flag file back yields the value, and
      leaves every other flag of that file as it was. */
  lemma SetFlagThenRead(s: SaveData, flagType: string, flagId: string, other: string, value: Obj)
    requires flagType in {"switches", "variables"} && flagId != ""
    ensures var r := SetProgressFlagSpec(s, Some(flagType), Some(flagId), value);
            && r.Ok?
            && AsDict(Some(r.value.0.flags[flagType]))[flagId] == value
            && (other != flagId && flagType in s.flags && other in AsDict(Some(s.flags[flagType])) ==>
                  AsDict(Some(r.value.0.flags[flagType]))[other] == AsDict(Some(s.flags[flagType]))[other])
  {
  }

  // ---------------------------------------------------------------------------
  // Teleport
  // ---------------------------------------------------------------------------

  /** The position record `TeleportPlayer` stores. */
  function Position(mapId: string, x: int, y: int, direction: int, timestamp: string): map<string, Obj> {
    map["mapId" := Str(mapId), "x" := Int32(x), "y" := Int32(y), "direction" := Int32(direction),
        "timestamp" := Str(timestamp)]
  }

  /** `TeleportPlayer`: the player file's `position` is replaced. */
  function TeleportSpec(s: SaveData, mapId: Option<string>, x: int, y: int, direction: int, timestamp: string)
    : (r: Result<(SaveData, string), GameError>)
    ensures Blank(mapId) ==> r == Err(Rejected("Map ID is required."))
    ensures !Blank(mapId) && (x < 0 || y < 0) <==> r == Err(Rejected("X and Y coordinates are required."))
    ensures r.Ok? <==> !Blank(mapId) && 0 <= x && 0 <= y
    ensures r.Ok? ==>
              var before := AsDict(s.player);
              && r.value.0.inventory == s.inventory && r.value.0.flags == s.flags
              && r.value.0.player.Some? && r.value.0.player.value.Dict?
              && var after := r.value.0.player.value.entries;
                 && after.Keys == before.Keys + {"position"}
                 && (forall k :: k in before && k != "position" ==> after[k] == before[k])
                 && after["position"] == Dict(Position(mapId.value, x, y, direction, timestamp))
  {
    if Blank(mapId) then Err(Rejected("Map ID is required."))
    else if x < 0 || y < 0 then Err(Rejected("X and Y coordinates are required."))
    else
      var player := AsDict(s.player)["position" := Dict(Position(mapId.value, x, y, direction, timestamp))];
      Ok((s.(player := Some(Dict(player))),
          TeleportedMessage(mapId.value, x, y)))
  }

  /** A payload without coordinates is refused; one without a direction
      faces the player down (2). */
  lemma TeleportDefaults(s: SaveData, payload: map<string, Obj>, mapId: string, timestamp: string)
    requires mapId != ""
    ensures "x" !in payload || "y" !in payload ==>
              TeleportSpec(s, Some(mapId), GetInt(Some(payload), "x", -1), GetInt(Some(payload), "y", -1),
                           GetInt(Some(payload), "direction", 2), timestamp)
              == Err(Rejected("X and Y coordinates are required."))
    ensures var r := TeleportSpec(s, Some(mapId), GetInt(Some(payload), "x", -1), GetInt(Some(payload), "y", -1),
                                  GetInt(Some(payload), "direction", 2), timestamp);
            r.Ok? && "direction" !in payload ==>
              r.value.0.player.value.entries["position"].entries["direction"] == Int32(2)
  {
  }

  /** The operations that only read, and so need no recompilation wait. */
  const ReadOnlyOperations: seq<string> :=
    ["getGameState", "getPlayerData", "getPartyData", "getInventory", "getProgressFlags", "getCurrentMap"]

  /** `RequiresCompilationWait`. */
  function RequiresCompilationWait(operation: string): bool {
    operation !in ReadOnlyOperations
  }

  const SupportedOperations: seq<string> :=
    ["getGameState", "setGameState", "getPlayerData", "updatePlayerData", "getPartyData", "updatePartyData",
     "getInventory", "updateInventory", "addItemToInventory", "removeItemFromInventory", "getProgressFlags",
     "setProgressFlag", "getCurrentMap", "setCurrentMap", "teleportPlayer", "resetGameState"]

  /** Of the sixteen supported operations, exactly the ten that write a
      save file wait for recompilation. */
  lemma WritingOperationsWait()
    ensures |SupportedOperations| == 16
    ensures forall op :: op in ReadOnlyOperations ==> op in SupportedOperations && !RequiresCompilationWait(op)
    ensures forall op :: op in ["setGameState", "updatePlayerData", "updatePartyData", "updateInventory",
                                "addItemToInventory", "removeItemFromInventory", "setProgressFlag",
                                "setCurrentMap", "teleportPlayer", "resetGameState"] ==>
              op in SupportedOperations && RequiresCompilationWait(op)
  {
  }

  /** The outcome of an operation: the new save data and the reply, or the
      failure with the save data left as it was. */
  predicate Applied(before: SaveData, after: SaveData, r: Result<string, GameError>,
                    spec: Result<(SaveData, string), GameError>)
  {
    match spec
    case Err(e) => r == Err(e) && after == before
    case Ok(out) => r == Ok(out.1) && after == out.0
  }

  /** The save files, loaded and written back by the operations. */
  class GameState {
    var inventoryFile: Option<Obj>
    var playerFile: Option<Obj>
    var flagFiles: map<string, Obj>

    function State(): SaveData
      reads this
    {
      SaveData(inventoryFile, playerFile, flagFiles)
    }

    constructor (s: SaveData)
      ensures State() == s
    {
      inventoryFile := s.inventory;
      playerFile := s.player;
      flagFiles := s.flags;
    }

    /** Loads the inventory as a dictionary, or starts an empty one. */
    method LoadInventory() returns (inventory: map<string, Obj>)
      ensures inventory == AsDict(inventoryFile)
    {
      inventory := map[];
      if inventoryFile.Some? && inventoryFile.value.Dict? {
        inventory := inventoryFile.value.entries;
      }
    }

    /** `AddItemToInventory`, the quantity defaulting to 1. */
    method AddItemToInventory(payload: Option<map<string, Obj>>, itemId: Option<string>) returns (r: Result<string, GameError>)
      modifies this
      ensures Applied(old(State()), State(), r, AddItemSpec(old(State()), itemId, GetInt(payload, "quantity", 1)))
    {
      var quantity := GetInt(payload, "quantity", 1);
      r := AddQuantity(itemId, quantity);
    }

    /** The body of `AddItemToInventory` once the quantity is read. */
    method AddQuantity(itemId: Option<string>, quantity: int) returns (r: Result<string, GameError>)
      modifies this
      ensures Applied(old(State()), State(), r, AddItemSpec(old(State()), itemId, quantity))
    {
      ghost var spec := AddItemSpec(State(), itemId, quantity);
      if itemId.None? || itemId.value == "" {
        return Err(Rejected(ItemIdRequired));
      }
      var inventory := LoadInventory();
      var id := itemId.value;
      var message := AddedMessage(id, quantity);
      if id in inventory {
        var current := ToInt32(inventory[id]);
        if current.Err? {
          return Err(current.error);
        }
        inventory := inventory[id := Int32(Wrap32(current.value + quantity))];
      } else {
        inventory := inventory[id := Int32(quantity)];
      }
      assert spec == Ok((State().(inventory := Some(Dict(inventory))), message));
      inventoryFile := Some(Dict(inventory));
      return Ok(message);
    }

    /** `RemoveItemFromInventory`, the quantity defaulting to 1. */
    method RemoveItemFromInventory(payload: Option<map<string, Obj>>, itemId: Option<string>)
      returns (r: Result<string, GameError>)
      modifies this
      ensures Applied(old(State()), State(), r, RemoveItemSpec(old(State()), itemId, GetInt(payload, "quantity", 1)))
    {
      var quantity := GetInt(payload, "quantity", 1);
      r := RemoveQuantity(itemId, quantity);
    }

    /** The body of `RemoveItemFromInventory` once the quantity is read. */
    method RemoveQuantity(itemId: Option<string>, quantity: int) returns (r: Result<string, GameError>)
      modifies this
      ensures Applied(old(State()), State(), r, RemoveItemSpec(old(State()), itemId, quantity))
    {
      if itemId.None? || itemId.value == "" {
        return Err(Rejected(ItemIdRequired));
      }
      if inventoryFile.None? {
        return Err(Rejected("Inventory not found."));
      }
      var inventory := LoadInventory();
      var id := itemId.value;
      if id !in inventory {
        return Err(Rejected(ItemNotFound(id)));
      }
      var current := ToInt32(inventory[id]);
      if current.Err? {
        return Err(current.error);
      }
      var left := Wrap32(current.value - quantity);
      var newQuantity := if left > 0 then left else 0;
      var message := RemovedMessage(id, quantity);
      if newQuantity == 0 {
        inventory := inventory - {id};
      } else {
        inventory := inventory[id := Int32(newQuantity)];
      }
      inventoryFile := Some(Dict(inventory));
      return Ok(message);
    }

    /** `SetProgressFlag`; a payload without a value sets `null`. */
    method SetProgressFlag(flagType: Option<string>, flagId: Option<string>, value: Obj) returns (r: Result<string, GameError>)
      modifies this
      ensures Applied(old(State()), State(), r, SetProgressFlagSpec(old(State()), flagType, flagId, value))
    {
      if flagType.None? || flagType.value == "" || (flagType.value != "switches" && flagType.value != "variables") {
        return Err(Rejected(FlagTypeInvalid));
      }
      if flagId.None? || flagId.value == "" {
        return Err(Rejected("Flag ID is required."));
      }
      var file := flagType.value;
      var flags: map<string, Obj> := map[];
      if file in flagFiles && flagFiles[file].Dict? {
        flags := flagFiles[file].entries;
      }
      flags := flags[flagId.value := value];
      flagFiles := flagFiles[file := Dict(flags)];
      return Ok(FlagSetMessage(flagId.value));
    }

    /** `TeleportPlayer`: x and y default to -1 (and so are required), the
        direction to 2. */
    method TeleportPlayer(payload: Option<map<string, Obj>>, mapId: Option<string>, timestamp: string)
      returns (r: Result<string, GameError>)
      modifies this
      ensures Applied(old(State()), State(), r,
                      TeleportSpec(old(State()), mapId, GetInt(payload, "x", -1), GetInt(payload, "y", -1),
                                   GetInt(payload, "direction", 2), timestamp))
    {
      var x := GetInt(payload, "x", -1);
      var y := GetInt(payload, "y", -1);
      var direction := GetInt(payload, "direction", 2);
      if mapId.None? || mapId.value == "" {
        return Err(Rejected("Map ID is required."));
      }
      if x < 0 || y < 0 {
        return Err(Rejected("X and Y coordinates are required."));
      }
      var player: map<string, Obj> := map[];
      if playerFile.Some? && playerFile.value.Dict? {
        player := playerFile.value.entries;
      }
      player := player["position" := Dict(Position(mapId.value, x, y, direction, timestamp))];
      playerFile := Some(Dict(player));
      return Ok(TeleportedMessage(mapId.value, x, y));
    }
  }
}
