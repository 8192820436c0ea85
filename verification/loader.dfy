/**
  The json-c document loader of engine/src/adventure_engine.c, over the
  abstract `Json` value the tokenizer hands it. json-c represents a JSON
  null as a NULL pointer, so a null location or item definition is
  skipped and a document that is just `null` does not load. Lookups are
  by exact key. The state starts all-zero (calloc), so anything the
  document does not supply stays empty or false.
 */
module Loader {
  import opened Collections
  import opened CString
  import opened Json
  import opened GameTypes

  /** get_json_string: the member's text when it exists and is a string, else NULL. */
  function GetJsonString(obj: Json, key: string): (r: Option<string>)
    ensures r.Some? <==> Get(obj, key).Some? && Get(obj, key).value.JString?
    ensures r.Some? ==> Get(obj, key) == Some(JString(r.value))
  {
    match Get(obj, key)
    case Some(JString(s)) => Some(s)
    case _ => None
  }

  /** get_json_bool: the member's value when it exists and is a boolean, else false. */
  function GetJsonBool(obj: Json, key: string): (r: bool)
    ensures r <==> Get(obj, key) == Some(JBool(true))
  {
    match Get(obj, key)
    case Some(JBool(b)) => b
    case _ => false
  }

  /**
    A text field: copied through safe_strcpy when the document supplies a
    string, left empty otherwise (safe_strcpy of NULL also yields "").
   */
  function TextField(obj: Json, key: string, size: nat): string
    requires size > 0
  {
    SafeCopy(GetJsonString(obj, key), size)
  }

  /** One `exits` member: kept only when the target is a string. */
  function ExitEntry(m: Member): Option<Exit> {
    if m.value.JString? then Some(Exit(SafeCopy(Some(m.key), SHORT_SIZE), SafeCopy(Some(m.value.str), ID_SIZE)))
    else None
  }

  /** One entry of an id list (`items`, `inventory`): kept only when it is a string. */
  function IdEntry(v: Json): Option<string> {
    if v.JString? then Some(SafeCopy(Some(v.str), ID_SIZE)) else None
  }

  /** The `exits` object of a location, when it is one, filled up to MAX_EXITS. */
  function ParseExits(location: Json): seq<Exit> {
    match Get(location, "exits")
    case Some(JObject(ms)) => Collect(ms, ExitEntry, MAX_EXITS, [])
    case _ => []
  }

  /** The `items` array of a location, when it is one, filled up to MAX_ITEMS. */
  function ParseItems(location: Json): seq<string> {
    match Get(location, "items")
    case Some(JArray(es)) => Collect(es, IdEntry, MAX_ITEMS, [])
    case _ => []
  }

  /**
    parse_location: a NULL value (JSON null) is refused; anything else
    becomes a location whose id is the member key.
   */
  function ParseLocation(value: Json, id: string): (r: Option<Location>)
    ensures r.None? <==> value.JNull?
    ensures r.Some? ==> r.value.id == SafeCopy(Some(id), ID_SIZE)
    ensures r.Some? ==> r.value.visited == (Get(value, "visited") == Some(JBool(true)))
    ensures r.Some? ==> r.value.flagsRequired == [] && r.value.flagsSet == []
  {
    if value.JNull? then None
    else Some(Location(
      SafeCopy(Some(id), ID_SIZE),
      TextField(value, "title", MAX_STRING_LENGTH),
      TextField(value, "description", MAX_DESCRIPTION_LENGTH),
      TextField(value, "image", MAX_STRING_LENGTH),
      TextField(value, "first_visit_text", MAX_DESCRIPTION_LENGTH),
      GetJsonBool(value, "visited"),
      ParseExits(value),
      ParseItems(value),
      [], []))
  }

  /** parse_inventory_item: a NULL value is refused; otherwise the key is the item id. */
  function ParseInventoryItem(value: Json, id: string): (r: Option<InventoryItem>)
    ensures r.None? <==> value.JNull?
    ensures r.Some? ==> r.value.id == SafeCopy(Some(id), ID_SIZE)
    ensures r.Some? ==> r.value.takeable == (Get(value, "takeable") == Some(JBool(true)))
    ensures r.Some? ==> r.value.useable == (Get(value, "useable") == Some(JBool(true)))
  {
    if value.JNull? then None
    else Some(InventoryItem(
      SafeCopy(Some(id), ID_SIZE),
      TextField(value, "name", MAX_STRING_LENGTH),
      TextField(value, "description", MAX_DESCRIPTION_LENGTH),
      GetJsonBool(value, "takeable"),
      GetJsonBool(value, "useable"),
      TextField(value, "use_text", MAX_DESCRIPTION_LENGTH)))
  }

  function LocationEntry(m: Member): Option<Location> {
    ParseLocation(m.value, m.key)
  }

  function ItemEntry(m: Member): Option<InventoryItem> {
    ParseInventoryItem(m.value, m.key)
  }

  /** The `locations` object, when it is one, filled up to MAX_LOCATIONS. */
  function ParseLocations(root: Json): seq<Location> {
    match Get(root, "locations")
    case Some(JObject(ms)) => Collect(ms, LocationEntry, MAX_LOCATIONS, [])
    case _ => []
  }

  /** The `inventory_items` object, when it is one, filled up to MAX_INVENTORY_ITEMS. */
  function ParseItemDefs(root: Json): seq<InventoryItem> {
    match Get(root, "inventory_items")
    case Some(JObject(ms)) => Collect(ms, ItemEntry, MAX_INVENTORY_ITEMS, [])
    case _ => []
  }

  /**
    The meta block: each text is the document's string cut to its buffer,
    or empty when the block or the string is missing.
   */
  function ParseMeta(root: Json): (r: GameMeta)
    ensures var meta := Get(root, "meta").GetOr(JNull);
            && CopiedInto(r.title, GetJsonString(meta, "title"), MAX_STRING_LENGTH)
            && CopiedInto(r.author, GetJsonString(meta, "author"), MAX_STRING_LENGTH)
            && CopiedInto(r.description, GetJsonString(meta, "description"), MAX_DESCRIPTION_LENGTH)
            && CopiedInto(r.version, GetJsonString(meta, "version"), SHORT_SIZE)
  {
    var meta := Get(root, "meta").GetOr(JNull);
    var r := GameMeta(
      TextField(meta, "title", MAX_STRING_LENGTH),
      TextField(meta, "author", MAX_STRING_LENGTH),
      TextField(meta, "description", MAX_DESCRIPTION_LENGTH),
      TextField(meta, "version", SHORT_SIZE));
    SafeCopyIsCopiedInto(r.title, GetJsonString(meta, "title"), MAX_STRING_LENGTH);
    SafeCopyIsCopiedInto(r.author, GetJsonString(meta, "author"), MAX_STRING_LENGTH);
    SafeCopyIsCopiedInto(r.description, GetJsonString(meta, "description"), MAX_DESCRIPTION_LENGTH);
    SafeCopyIsCopiedInto(r.version, GetJsonString(meta, "version"), SHORT_SIZE);
    r
  }

  /**
    The player block: the player stands on its `current_location` when
    that is a string, else on the start location; the inventory is the
    first MAX_INVENTORY_ITEMS string entries of its `inventory` array.
    Without a player block the player stands on the start location,
    empty-handed. Player flags are never read.
   */
  function ParsePlayer(root: Json, start: string): (r: Player)
    ensures r.flags == []
    ensures var p := Get(root, "player").GetOr(JNull);
            CopiedInto(r.currentLocation, Some(GetJsonString(p, "current_location").GetOr(start)), ID_SIZE)
    ensures var p := Get(root, "player").GetOr(JNull);
            r.inventory == match Get(p, "inventory")
                           case Some(JArray(es)) => Truncate(Somes(es, IdEntry), MAX_INVENTORY_ITEMS)
                           case _ => []
  {
    var p := Get(root, "player").GetOr(JNull);
    var current := SafeCopy(Some(GetJsonString(p, "current_location").GetOr(start)), ID_SIZE);
    SafeCopyIsCopiedInto(current, Some(GetJsonString(p, "current_location").GetOr(start)), ID_SIZE);
    var inventory := (match Get(p, "inventory")
      case Some(JArray(es)) =>
        CollectIsTruncatedSomes(es, IdEntry, MAX_INVENTORY_ITEMS, []);
        Collect(es, IdEntry, MAX_INVENTORY_ITEMS, [])
      case _ => []);
    Player(inventory, current, [])
  }

  /**
    load_game after the file is read: `None` is a tokenizer failure (or
    the null document, which json-c also reports as NULL). Flag tables are
    never read from the document and stay empty.
   */
  function LoadGame(doc: Option<Json>): (r: Option<GameState>)
    ensures r.None? <==> doc.None? || doc == Some(JNull)
    ensures r.Some? ==> r.value.gameFlags == [] && r.value.player.flags == []
    ensures r.Some? ==> r.value.startLocation == SafeCopy(GetJsonString(doc.value, "start_location"), ID_SIZE)
    ensures r.Some? ==>
              var p := Get(doc.value, "player").GetOr(JNull);
              r.value.player.currentLocation ==
                if GetJsonString(p, "current_location").Some?
                then SafeCopy(GetJsonString(p, "current_location"), ID_SIZE)
                else r.value.startLocation
  {
    match doc
    case None => None
    case Some(root) =>
      if root.JNull? then None
      else
        var start := SafeCopy(GetJsonString(root, "start_location"), ID_SIZE);
        SafeCopyIdempotent(GetJsonString(root, "start_location"), ID_SIZE);
        var pj := Get(root, "player").GetOr(JNull);
        SafeCopyIsCopiedInto(ParsePlayer(root, start).currentLocation, Some(GetJsonString(pj, "current_location").GetOr(start)), ID_SIZE);
        Some(GameState(
          ParseMeta(root),
          start,
          ParseLocations(root),
          ParseItemDefs(root),
          [],
          ParsePlayer(root, start)))
  }
}
