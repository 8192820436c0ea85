/**
  What the two loaders guarantee about the state they build: capacity
  bounds and id widths, document order with truncation at the caps, the
  location id taken from the member key, and requirement checks that
  always pass because no loader ever fills a requirement table.
 */
module LoaderProps {
  import opened Collections
  import opened CString
  import opened Json
  import opened GameTypes
  import opened Engine
  import Loader
  import LegacyLoader

  // ---------------------------------------------------------------------
  // Shared shape facts

  lemma IdListFits(es: seq<Json>, cap: nat, parse: Json -> Option<string>)
    requires forall v :: parse(v).Some? ==> Fits(parse(v).value, ID_SIZE)
    ensures |Collect(es, parse, cap, [])| <= cap
    ensures forall i :: 0 <= i < |Collect(es, parse, cap, [])| ==> Fits(Collect(es, parse, cap, [])[i], ID_SIZE)
  {
    CollectFromEmpty(es, parse, cap, (s: string) => Fits(s, ID_SIZE));
  }

  lemma IdEntriesFit()
    ensures forall v :: Loader.IdEntry(v).Some? ==> Fits(Loader.IdEntry(v).value, ID_SIZE)
  {
    forall v: Json | v.JString?
      ensures Fits(SafeCopy(Some(v.str), ID_SIZE), ID_SIZE)
    {
      SafeCopyFits(Some(v.str), ID_SIZE);
    }
  }

  lemma ExitEntriesWellFormed()
    ensures forall m :: Loader.ExitEntry(m).Some? ==> ExitWellFormed(Loader.ExitEntry(m).value)
    ensures forall m :: LegacyLoader.ExitEntry(m).Some? ==> ExitWellFormed(LegacyLoader.ExitEntry(m).value)
  {
    forall m: Member
      ensures ExitWellFormed(LegacyLoader.ExitEntry(m).value)
      ensures Loader.ExitEntry(m).Some? ==> ExitWellFormed(Loader.ExitEntry(m).value)
    {
      SafeCopyFits(Some(m.key), SHORT_SIZE);
      SafeCopyFits(ValueString(m.value), ID_SIZE);
    }
  }

  // ---------------------------------------------------------------------
  // json-c loader

  lemma ParsedExitsWellFormed(value: Json)
    ensures |Loader.ParseExits(value)| <= MAX_EXITS
    ensures forall i :: 0 <= i < |Loader.ParseExits(value)| ==> ExitWellFormed(Loader.ParseExits(value)[i])
  {
    ExitEntriesWellFormed();
    match Get(value, "exits") {
      case Some(JObject(ms)) => CollectFromEmpty(ms, Loader.ExitEntry, MAX_EXITS, ExitWellFormed);
      case _ =>
    }
  }

  lemma ParsedItemsFit(value: Json)
    ensures |Loader.ParseItems(value)| <= MAX_ITEMS
    ensures forall i :: 0 <= i < |Loader.ParseItems(value)| ==> Fits(Loader.ParseItems(value)[i], ID_SIZE)
  {
    IdEntriesFit();
    match Get(value, "items") {
      case Some(JArray(es)) => IdListFits(es, MAX_ITEMS, Loader.IdEntry);
      case _ =>
    }
  }

  lemma ParsedLocationWellFormed(value: Json, id: string)
    requires !value.JNull?
    ensures LocationWellFormed(Loader.ParseLocation(value, id).value)
  {
    SafeCopyFits(Some(id), ID_SIZE);
    ParsedExitsWellFormed(value);
    ParsedItemsFit(value);
  }

  lemma ParsedLocationsWellFormed(root: Json)
    ensures |Loader.ParseLocations(root)| <= MAX_LOCATIONS
    ensures forall i :: 0 <= i < |Loader.ParseLocations(root)| ==> LocationWellFormed(Loader.ParseLocations(root)[i])
  {
    forall m: Member | Loader.LocationEntry(m).Some?
      ensures LocationWellFormed(Loader.LocationEntry(m).value)
    {
      ParsedLocationWellFormed(m.value, m.key);
    }
    match Get(root, "locations") {
      case Some(JObject(ms)) => CollectFromEmpty(ms, Loader.LocationEntry, MAX_LOCATIONS, LocationWellFormed);
      case _ =>
    }
  }

  lemma ParsedItemDefsFit(root: Json)
    ensures |Loader.ParseItemDefs(root)| <= MAX_INVENTORY_ITEMS
    ensures forall i :: 0 <= i < |Loader.ParseItemDefs(root)| ==> Fits(Loader.ParseItemDefs(root)[i].id, ID_SIZE)
  {
    forall m: Member | Loader.ItemEntry(m).Some?
      ensures Fits(Loader.ItemEntry(m).value.id, ID_SIZE)
    {
      SafeCopyFits(Some(m.key), ID_SIZE);
    }
    match Get(root, "inventory_items") {
      case Some(JObject(ms)) =>
        CollectFromEmpty(ms, Loader.ItemEntry, MAX_INVENTORY_ITEMS, (it: InventoryItem) => Fits(it.id, ID_SIZE));
      case _ =>
    }
  }

  lemma ParsedPlayerWellFormed(root: Json, start: string)
    ensures PlayerWellFormed(Loader.ParsePlayer(root, start))
  {
    SafeCopyFits(Some(start), ID_SIZE);
    IdEntriesFit();
    match Get(root, "player") {
      case Some(pj) =>
        SafeCopyFits(Loader.GetJsonString(pj, "current_location"), ID_SIZE);
        match Get(pj, "inventory") {
          case Some(JArray(es)) => IdListFits(es, MAX_INVENTORY_ITEMS, Loader.IdEntry);
          case _ =>
        }
      case None =>
    }
  }

  /** Every state the json-c loader builds respects all capacities and id widths. */
  lemma LoadWellFormed(doc: Option<Json>)
    requires Loader.LoadGame(doc).Some?
    ensures WellFormed(Loader.LoadGame(doc).value)
  {
    var root := doc.value;
    var g := Loader.LoadGame(doc).value;
    SafeCopyFits(Loader.GetJsonString(root, "start_location"), ID_SIZE);
    ParsedLocationsWellFormed(root);
    ParsedItemDefsFit(root);
    ParsedPlayerWellFormed(root, g.startLocation);
    assert g == GameState(Loader.ParseMeta(root), g.startLocation, Loader.ParseLocations(root),
                          Loader.ParseItemDefs(root), [], Loader.ParsePlayer(root, g.startLocation));
  }

  /**
    The locations are the document's non-null `locations` members, in
    document order, cut at MAX_LOCATIONS.
   */
  lemma LocationsAreFirstNonNullMembers(root: Json, ms: seq<Member>)
    requires Get(root, "locations") == Some(JObject(ms))
    ensures Loader.ParseLocations(root) == Truncate(Somes(ms, Loader.LocationEntry), MAX_LOCATIONS)
  {
    CollectIsTruncatedSomes(ms, Loader.LocationEntry, MAX_LOCATIONS, []);
  }

  /** Each stored location comes from a non-null member and carries that member's key as its id. */
  lemma LocationOrigin(ms: seq<Member>, i: nat)
    requires i < |Collect(ms, Loader.LocationEntry, MAX_LOCATIONS, [])|
    ensures exists j :: 0 <= j < |ms| && !ms[j].value.JNull? &&
              Collect(ms, Loader.LocationEntry, MAX_LOCATIONS, [])[i].id == SafeCopy(Some(ms[j].key), ID_SIZE)
  {
    CollectFrom(ms, Loader.LocationEntry, MAX_LOCATIONS, i);
    var j :| 0 <= j < |ms| && Loader.LocationEntry(ms[j]) == Some(Collect(ms, Loader.LocationEntry, MAX_LOCATIONS, [])[i]);
    assert !ms[j].value.JNull?;
  }

  /** The exits are the string-valued `exits` members, in order, cut at MAX_EXITS. */
  lemma ExitsAreFirstStringMembers(location: Json, ms: seq<Member>)
    requires Get(location, "exits") == Some(JObject(ms))
    ensures Loader.ParseExits(location) == Truncate(Somes(ms, Loader.ExitEntry), MAX_EXITS)
  {
    assert Loader.ParseExits(location) == Collect(ms, Loader.ExitEntry, MAX_EXITS, []);
    CollectIsTruncatedSomes(ms, Loader.ExitEntry, MAX_EXITS, []);
  }

  /** Each stored exit is a string-valued member: direction from its key, target from its text. */
  lemma ExitOrigin(ms: seq<Member>, i: nat)
    requires i < |Collect(ms, Loader.ExitEntry, MAX_EXITS, [])|
    ensures exists j :: 0 <= j < |ms| && ms[j].value.JString? &&
              Collect(ms, Loader.ExitEntry, MAX_EXITS, [])[i] ==
                Exit(SafeCopy(Some(ms[j].key), SHORT_SIZE), SafeCopy(Some(ms[j].value.str), ID_SIZE))
  {
    CollectFrom(ms, Loader.ExitEntry, MAX_EXITS, i);
    var j :| 0 <= j < |ms| && Loader.ExitEntry(ms[j]) == Some(Collect(ms, Loader.ExitEntry, MAX_EXITS, [])[i]);
    assert ms[j].value.JString?;
  }

  /** Location items and the player's inventory keep only string entries, in order, up to the cap. */
  lemma IdListsAreFirstStrings(es: seq<Json>, cap: nat)
    ensures Collect(es, Loader.IdEntry, cap, []) == Truncate(Somes(es, Loader.IdEntry), cap)
  {
    CollectIsTruncatedSomes(es, Loader.IdEntry, cap, []);
  }

  /** Each stored id is the (bounded) text of a string entry of the array. */
  lemma IdOrigin(es: seq<Json>, cap: nat, i: nat)
    requires i < |Collect(es, Loader.IdEntry, cap, [])|
    ensures exists j :: 0 <= j < |es| && es[j].JString? &&
              Collect(es, Loader.IdEntry, cap, [])[i] == SafeCopy(Some(es[j].str), ID_SIZE)
  {
    CollectFrom(es, Loader.IdEntry, cap, i);
    var j :| 0 <= j < |es| && Loader.IdEntry(es[j]) == Some(Collect(es, Loader.IdEntry, cap, [])[i]);
    assert es[j].JString?;
  }

  /**
    No loader writes a requirement table, so every loaded location passes
    check_location_requirements whatever the flags say.
   */
  lemma LoadedLocationsPassRequirements(doc: Option<Json>, i: nat)
    requires Loader.LoadGame(doc).Some?
    requires i < |Loader.LoadGame(doc).value.locations|
    ensures CheckLocationRequirements(Loader.LoadGame(doc).value, Some(Loader.LoadGame(doc).value.locations[i]))
  {
    var root := doc.value;
    match Get(root, "locations") {
      case Some(JObject(ms)) =>
        CollectFromEmpty(ms, Loader.LocationEntry, MAX_LOCATIONS, (l: Location) => l.flagsRequired == []);
      case _ =>
    }
  }

  // ---------------------------------------------------------------------
  // cJSON loader

  lemma LegacyExitsWellFormed(value: Json)
    ensures |LegacyLoader.ParseExits(value)| <= MAX_EXITS
    ensures forall i :: 0 <= i < |LegacyLoader.ParseExits(value)| ==> ExitWellFormed(LegacyLoader.ParseExits(value)[i])
  {
    ExitEntriesWellFormed();
    match GetCaseless(value, "exits") {
      case Some(JObject(xs)) => CollectFromEmpty(xs, LegacyLoader.ExitEntry, MAX_EXITS, ExitWellFormed);
      case _ =>
    }
  }

  lemma LegacyItemsFit(value: Json)
    ensures |LegacyLoader.ParseItems(value)| <= MAX_ITEMS
    ensures forall i :: 0 <= i < |LegacyLoader.ParseItems(value)| ==> Fits(LegacyLoader.ParseItems(value)[i], ID_SIZE)
  {
    IdEntriesFit();
    match GetCaseless(value, "items") {
      case Some(JArray(es)) => IdListFits(es, MAX_ITEMS, Loader.IdEntry);
      case _ =>
    }
  }

  lemma LegacyLocationWellFormed(value: Json, id: string)
    ensures LocationWellFormed(LegacyLoader.ParseLocation(value, id))
  {
    SafeCopyFits(Some(id), ID_SIZE);
    LegacyExitsWellFormed(value);
    LegacyItemsFit(value);
  }

  lemma LegacyLocationsWellFormed(root: Json)
    ensures |LegacyLoader.ParseLocations(root)| <= MAX_LOCATIONS
    ensures forall i :: 0 <= i < |LegacyLoader.ParseLocations(root)| ==> LocationWellFormed(LegacyLoader.ParseLocations(root)[i])
  {
    forall m: Member
      ensures LocationWellFormed(LegacyLoader.LocationEntry(m).value)
    {
      LegacyLocationWellFormed(m.value, m.key);
    }
    match GetCaseless(root, "locations") {
      case Some(JObject(ms)) => CollectFromEmpty(ms, LegacyLoader.LocationEntry, MAX_LOCATIONS, LocationWellFormed);
      case _ =>
    }
  }

  lemma LegacyItemDefsFit(root: Json)
    ensures |LegacyLoader.ParseItemDefs(root)| <= MAX_INVENTORY_ITEMS
    ensures forall i :: 0 <= i < |LegacyLoader.ParseItemDefs(root)| ==> Fits(LegacyLoader.ParseItemDefs(root)[i].id, ID_SIZE)
  {
    forall m: Member
      ensures Fits(LegacyLoader.ItemEntry(m).value.id, ID_SIZE)
    {
      SafeCopyFits(Some(m.key), ID_SIZE);
    }
    match GetCaseless(root, "inventory_items") {
      case Some(JObject(ms)) =>
        CollectFromEmpty(ms, LegacyLoader.ItemEntry, MAX_INVENTORY_ITEMS, (it: InventoryItem) => Fits(it.id, ID_SIZE));
      case _ =>
    }
  }

  lemma LegacyInventoryFits(pj: Json)
    ensures var inv := match GetCaseless(pj, "inventory")
                         case Some(JArray(es)) => Collect(es, Loader.IdEntry, MAX_INVENTORY_ITEMS, [])
                         case _ => [];
            |inv| <= MAX_INVENTORY_ITEMS && forall i :: 0 <= i < |inv| ==> Fits(inv[i], ID_SIZE)
  {
    IdEntriesFit();
    match GetCaseless(pj, "inventory") {
      case Some(JArray(es)) => IdListFits(es, MAX_INVENTORY_ITEMS, Loader.IdEntry);
      case _ =>
    }
  }

  lemma LegacyPlayerWellFormed(root: Json, start: string)
    ensures PlayerWellFormed(LegacyLoader.ParsePlayer(root, start))
  {
    SafeCopyFits(Some(start), ID_SIZE);
    match GetCaseless(root, "player") {
      case Some(pj) =>
        SafeCopyFits(LegacyLoader.GetString(pj, "current_location"), ID_SIZE);
        LegacyInventoryFits(pj);
      case None =>
    }
  }

  /** Every state the cJSON loader builds respects all capacities and id widths. */
  lemma LegacyLoadWellFormed(doc: Option<Json>)
    requires LegacyLoader.LoadGame(doc).Some?
    ensures WellFormed(LegacyLoader.LoadGame(doc).value)
  {
    var root := doc.value;
    var g := LegacyLoader.LoadGame(doc).value;
    SafeCopyFits(LegacyLoader.GetString(root, "start_location"), ID_SIZE);
    LegacyLocationsWellFormed(root);
    LegacyItemDefsFit(root);
    LegacyPlayerWellFormed(root, g.startLocation);
    assert g == GameState(LegacyLoader.ParseMeta(root), g.startLocation, LegacyLoader.ParseLocations(root),
                          LegacyLoader.ParseItemDefs(root), [], LegacyLoader.ParsePlayer(root, g.startLocation));
  }

  /**
    The cJSON loader keeps every `exits` member, up to MAX_EXITS, in
    order; a member whose value is not a string gets the empty target.
   */
  lemma LegacyExitsKeepEveryMember(location: Json, ms: seq<Member>)
    requires GetCaseless(location, "exits") == Some(JObject(ms))
    ensures |LegacyLoader.ParseExits(location)| == Min(|ms|, MAX_EXITS)
    ensures forall i :: 0 <= i < |LegacyLoader.ParseExits(location)| ==>
              LegacyLoader.ParseExits(location)[i] ==
                Exit(SafeCopy(Some(ms[i].key), SHORT_SIZE), if ms[i].value.JString? then SafeCopy(Some(ms[i].value.str), ID_SIZE) else "")
  {
    CollectTotal(ms, LegacyLoader.ExitEntry, MAX_EXITS);
    assert LegacyLoader.ParseExits(location) == Collect(ms, LegacyLoader.ExitEntry, MAX_EXITS, []);
  }

  /** Every `locations` member becomes a location, null or not, up to MAX_LOCATIONS. */
  lemma LegacyLocationsKeepEveryMember(root: Json, ms: seq<Member>)
    requires GetCaseless(root, "locations") == Some(JObject(ms))
    ensures |LegacyLoader.ParseLocations(root)| == Min(|ms|, MAX_LOCATIONS)
    ensures forall i :: 0 <= i < |LegacyLoader.ParseLocations(root)| ==>
              LegacyLoader.ParseLocations(root)[i].id == SafeCopy(Some(ms[i].key), ID_SIZE)
  {
    CollectTotal(ms, LegacyLoader.LocationEntry, MAX_LOCATIONS);
    var r := LegacyLoader.ParseLocations(root);
    assert r == Collect(ms, LegacyLoader.LocationEntry, MAX_LOCATIONS, []);
    forall i | 0 <= i < |r|
      ensures r[i].id == SafeCopy(Some(ms[i].key), ID_SIZE)
    {
      assert Some(r[i]) == LegacyLoader.LocationEntry(ms[i]);
    }
  }

  // ---------------------------------------------------------------------
  // The two loaders side by side

  /** When every exit target is a string, both loaders fill the same exit array. */
  lemma ExitFillsAgreeOnStringTargets(ms: seq<Member>)
    requires forall j :: 0 <= j < |ms| ==> ms[j].value.JString?
    ensures Collect(ms, Loader.ExitEntry, MAX_EXITS, []) == Collect(ms, LegacyLoader.ExitEntry, MAX_EXITS, [])
  {
    CollectAgree(ms, Loader.ExitEntry, LegacyLoader.ExitEntry, MAX_EXITS, []);
  }

  /** A numeric exit target: json-c skips the exit, cJSON keeps it with an empty target. */
  lemma NonStringTargetDiffers()
    ensures Loader.ParseExits(JObject([Member("exits", JObject([Member("north", JNumber("5"))]))])) == []
    ensures LegacyLoader.ParseExits(JObject([Member("exits", JObject([Member("north", JNumber("5"))]))])) == [Exit("north", "")]
  {
    var ms := [Member("north", JNumber("5"))];
    SingleMemberLookup("exits", JObject(ms));
    assert Loader.ParseExits(JObject([Member("exits", JObject(ms))])) == Collect(ms, Loader.ExitEntry, MAX_EXITS, []);
    assert LegacyLoader.ParseExits(JObject([Member("exits", JObject(ms))])) == Collect(ms, LegacyLoader.ExitEntry, MAX_EXITS, []);
    SafeCopyOfFitting("north", SHORT_SIZE);
    assert LegacyLoader.ExitEntry(ms[0]) == Some(Exit("north", ""));
    assert Loader.ExitEntry(ms[0]) == None;
    assert ms[1..] == [];
  }

  /** The document `null`: json-c reports no game, cJSON loads an empty one. */
  lemma NullDocumentDiffers()
    ensures Loader.LoadGame(Some(JNull)).None?
    ensures LegacyLoader.LoadGame(Some(JNull)).Some?
    ensures LegacyLoader.LoadGame(Some(JNull)).value.locations == []
  {
  }
}
