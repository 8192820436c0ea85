/**
  The cJSON document loader of the legacy engine/adventure_engine.c.
  It differs from the json-c loader in what the library gives it:
  `cJSON_GetObjectItem` matches keys ignoring ASCII case, a JSON null is
  an ordinary item (so a null location or item definition still becomes
  an entry, and a null document loads), and exits are copied without a
  string check, a non-string target reading as `valuestring == NULL`.
 */
module LegacyLoader {
  import opened Collections
  import opened CString
  import opened Json
  import opened GameTypes
  import Loader

  /** `item && cJSON_IsString(item)`: the text of a string member found ignoring case. */
  function GetString(obj: Json, key: string): (r: Option<string>)
    ensures r.Some? <==> GetCaseless(obj, key).Some? && GetCaseless(obj, key).value.JString?
    ensures r.Some? ==> GetCaseless(obj, key) == Some(JString(r.value))
  {
    match GetCaseless(obj, key)
    case Some(JString(s)) => Some(s)
    case _ => None
  }

  /** A boolean field: set from a boolean member, otherwise the zero-initialised false. */
  function GetBool(obj: Json, key: string): (r: bool)
    ensures r <==> GetCaseless(obj, key) == Some(JBool(true))
  {
    match GetCaseless(obj, key)
    case Some(JBool(b)) => b
    case _ => false
  }

  function TextField(obj: Json, key: string, size: nat): string
    requires size > 0
  {
    SafeCopy(GetString(obj, key), size)
  }

  /** One `exits` member: always kept; the target is `valuestring`, NULL unless a string. */
  function ExitEntry(m: Member): Option<Exit> {
    Some(Exit(SafeCopy(Some(m.key), SHORT_SIZE), SafeCopy(ValueString(m.value), ID_SIZE)))
  }

  function ParseExits(location: Json): seq<Exit> {
    match GetCaseless(location, "exits")
    case Some(JObject(ms)) => Collect(ms, ExitEntry, MAX_EXITS, [])
    case _ => []
  }

  function ParseItems(location: Json): seq<string> {
    match GetCaseless(location, "items")
    case Some(JArray(es)) => Collect(es, Loader.IdEntry, MAX_ITEMS, [])
    case _ => []
  }

  /** parse_location: every member of `locations` becomes a location keyed by its name. */
  function ParseLocation(value: Json, id: string): (r: Location)
    ensures r.id == SafeCopy(Some(id), ID_SIZE)
    ensures r.visited <==> GetCaseless(value, "visited") == Some(JBool(true))
    ensures r.flagsRequired == [] && r.flagsSet == []
  {
    Location(
      SafeCopy(Some(id), ID_SIZE),
      TextField(value, "title", MAX_STRING_LENGTH),
      TextField(value, "description", MAX_DESCRIPTION_LENGTH),
      TextField(value, "image", MAX_STRING_LENGTH),
      TextField(value, "first_visit_text", MAX_DESCRIPTION_LENGTH),
      GetBool(value, "visited"),
      ParseExits(value),
      ParseItems(value),
      [], [])
  }

  /** parse_inventory_item: every member of `inventory_items` becomes a definition. */
  function ParseInventoryItem(value: Json, id: string): (r: InventoryItem)
    ensures r.id == SafeCopy(Some(id), ID_SIZE)
    ensures r.takeable <==> GetCaseless(value, "takeable") == Some(JBool(true))
    ensures r.useable <==> GetCaseless(value, "useable") == Some(JBool(true))
  {
    InventoryItem(
      SafeCopy(Some(id), ID_SIZE),
      TextField(value, "name", MAX_STRING_LENGTH),
      TextField(value, "description", MAX_DESCRIPTION_LENGTH),
      GetBool(value, "takeable"),
      GetBool(value, "useable"),
      TextField(value, "use_text", MAX_DESCRIPTION_LENGTH))
  }

  function LocationEntry(m: Member): Option<Location> {
    Some(ParseLocation(m.value, m.key))
  }

  function ItemEntry(m: Member): Option<InventoryItem> {
    Some(ParseInventoryItem(m.value, m.key))
  }

  function ParseLocations(root: Json): seq<Location> {
    match GetCaseless(root, "locations")
    case Some(JObject(ms)) => Collect(ms, LocationEntry, MAX_LOCATIONS, [])
    case _ => []
  }

  function ParseItemDefs(root: Json): seq<InventoryItem> {
    match GetCaseless(root, "inventory_items")
    case Some(JObject(ms)) => Collect(ms, ItemEntry, MAX_INVENTORY_ITEMS, [])
    case _ => []
  }

  /**
    The meta block: each text is the document's string cut to its buffer,
    or empty when the block or the string is missing.
   */
  function ParseMeta(root: Json): (r: GameMeta)
    ensures var meta := GetCaseless(root, "meta").GetOr(JNull);
            && CopiedInto(r.title, GetString(meta, "title"), MAX_STRING_LENGTH)
            && CopiedInto(r.author, GetString(meta, "author"), MAX_STRING_LENGTH)
            && CopiedInto(r.description, GetString(meta, "description"), MAX_DESCRIPTION_LENGTH)
            && CopiedInto(r.version, GetString(meta, "version"), SHORT_SIZE)
  {
    var meta := GetCaseless(root, "meta").GetOr(JNull);
    var r := GameMeta(
      TextField(meta, "title", MAX_STRING_LENGTH),
      TextField(meta, "author", MAX_STRING_LENGTH),
      TextField(meta, "description", MAX_DESCRIPTION_LENGTH),
      TextField(meta, "version", SHORT_SIZE));
    SafeCopyIsCopiedInto(r.title, GetString(meta, "title"), MAX_STRING_LENGTH);
    SafeCopyIsCopiedInto(r.author, GetString(meta, "author"), MAX_STRING_LENGTH);
    SafeCopyIsCopiedInto(r.description, GetString(meta, "description"), MAX_DESCRIPTION_LENGTH);
    SafeCopyIsCopiedInto(r.version, GetString(meta, "version"), SHORT_SIZE);
    r
  }

  /**
    The player block: the player stands on its `current_location` when
    that is a string, else on the start location; the inventory is the
    first MAX_INVENTORY_ITEMS string entries of its `inventory` array.
    Without a player block the player stands on the start location,
    empty-handed. Player flags are never read.
   */
  function ParsePlayer(root: Json, start: string): (r: Player)
    ensures r.flags == []
    ensures var p := GetCaseless(root, "player").GetOr(JNull);
            CopiedInto(r.currentLocation, Some(GetString(p, "current_location").GetOr(start)), ID_SIZE)
    ensures var p := GetCaseless(root, "player").GetOr(JNull);
            r.inventory == match GetCaseless(p, "inventory")
                           case Some(JArray(es)) => Truncate(Somes(es, Loader.IdEntry), MAX_INVENTORY_ITEMS)
                           case _ => []
  {
    var p := GetCaseless(root, "player").GetOr(JNull);
    var current := SafeCopy(Some(GetString(p, "current_location").GetOr(start)), ID_SIZE);
    SafeCopyIsCopiedInto(current, Some(GetString(p, "current_location").GetOr(start)), ID_SIZE);
    var inventory := (match GetCaseless(p, "inventory")
      case Some(JArray(es)) =>
        CollectIsTruncatedSomes(es, Loader.IdEntry, MAX_INVENTORY_ITEMS, []);
        Collect(es, Loader.IdEntry, MAX_INVENTORY_ITEMS, [])
      case _ => []);
    Player(inventory, current, [])
  }

  /**
    load_game after the file is read: only a tokenizer failure (`None`)
    fails. The player's location falls back to the start location when
    the player block is missing or its `current_location` is not a string.
   */
  function LoadGame(doc: Option<Json>): (r: Option<GameState>)
    ensures r.None? <==> doc.None?
    ensures r.Some? ==> r.value.gameFlags == [] && r.value.player.flags == []
    ensures r.Some? ==> r.value.startLocation == SafeCopy(GetString(doc.value, "start_location"), ID_SIZE)
    ensures r.Some? ==>
              var p := GetCaseless(doc.value, "player").GetOr(JNull);
              r.value.player.currentLocation ==
                if GetString(p, "current_location").Some?
                then SafeCopy(GetString(p, "current_location"), ID_SIZE)
                else r.value.startLocation
  {
    match doc
    case None => None
    case Some(root) =>
      var start := SafeCopy(GetString(root, "start_location"), ID_SIZE);
      SafeCopyIdempotent(GetString(root, "start_location"), ID_SIZE);
      var pj := GetCaseless(root, "player").GetOr(JNull);
      SafeCopyIsCopiedInto(ParsePlayer(root, start).currentLocation, Some(GetString(pj, "current_location").GetOr(start)), ID_SIZE);
      Some(GameState(
        ParseMeta(root),
        start,
        ParseLocations(root),
        ParseItemDefs(root),
        [],
        ParsePlayer(root, start)))
  }
}
