/**
  What the editor's validator accepts. It returns the empty list exactly
  for documents whose sections are all present and whose references all
  resolve: the start location, every exit target and the player's
  location name existing locations. Anything else yields an issue or an
  exception.
 */
module FormatProps {
  import opened Collections
  import opened CString
  import opened Json
  import opened Format
  import opened GameTypes
  import Loader

  /** The value stored under `key`, or None when there is none. */
  function Field(obj: Json, key: string): Json {
    Get(obj, key).GetOr(JNull)
  }

  /** Every exit of the list leads to an existing location. */
  predicate ExitsResolve(exits: seq<Member>, all: Json) {
    forall j :: 0 <= j < |exits| ==> Resolves(all, exits[j].value)
  }

  /** A location dict with its required keys and an `exits` dict whose targets all exist. */
  predicate LocationConsistent(location: Json, all: Json) {
    && location.JObject?
    && AllPresent(location, LOCATION_KEYS)
    && Field(location, "exits").JObject?
    && ExitsResolve(ExitMembers(location), all)
  }

  /** Every entry of the locations dict is a consistent location. */
  predicate LocationsConsistent(entries: seq<Member>, all: Json) {
    forall i :: 0 <= i < |entries| ==> LocationConsistent(entries[i].value, all)
  }

  /** A player dict with its required keys whose current location exists. */
  predicate PlayerConsistent(player: Json, all: Json) {
    && player.JObject?
    && AllPresent(player, PLAYER_KEYS)
    && Resolves(all, Field(player, "current_location"))
  }

  /** A document the validator has nothing to say about. */
  predicate Consistent(data: Json) {
    && data.JObject?
    && AllPresent(data, TOP_LEVEL_KEYS)
    && IsContainer(Field(data, "meta"))
    && AllPresent(Field(data, "meta"), META_KEYS)
    && Field(data, "locations").JObject?
    && Resolves(Field(data, "locations"), Field(data, "start_location"))
    && LocationsConsistent(Field(data, "locations").members, Field(data, "locations"))
    && PlayerConsistent(Field(data, "player"), Field(data, "locations"))
  }

  /** A present key reads back through `Field`. */
  lemma PresentField(obj: Json, key: string)
    requires obj.JObject? && Contains(obj, JString(key)) == Ok(true)
    ensures Get(obj, key) == Some(Field(obj, key))
  {
  }

  /** The exit loop reports nothing exactly when every target exists. */
  lemma {:induction false} ExitIssuesNone(locId: string, exits: seq<Member>, all: Json)
    requires all.JObject?
    ensures ExitIssues(locId, exits, all) == Ok([]) <==> ExitsResolve(exits, all)
    decreases |exits|
  {
    if exits != [] {
      ExitIssuesNone(locId, exits[1..], all);
      ExitsResolveCons(exits, all);
      assert ExitIssues(locId, exits, all) == Ok([]) <==>
               Contains(all, exits[0].value) == Ok(true) && ExitIssues(locId, exits[1..], all) == Ok([]);
    }
  }

  /** Every exit resolves exactly when the first one does and the rest all do. */
  lemma ExitsResolveCons(exits: seq<Member>, all: Json)
    requires exits != []
    ensures ExitsResolve(exits, all) <==> Resolves(all, exits[0].value) && ExitsResolve(exits[1..], all)
  {
    assert forall j :: 1 <= j < |exits| ==> exits[j] == exits[1..][j - 1];
  }

  /** `_validate_location` returns the empty list exactly on a consistent location. */
  lemma LocationAccepts(locId: string, location: Json, all: Json)
    requires all.JObject?
    ensures ValidateLocation(locId, location, all) == Ok([]) <==> LocationConsistent(location, all)
  {
    if ValidateLocation(locId, location, all) == Ok([]) {
      AcceptedLocationConsistent(locId, location, all);
    }
    if LocationConsistent(location, all) {
      ConsistentLocationAccepted(locId, location, all);
    }
  }

  lemma AcceptedLocationConsistent(locId: string, location: Json, all: Json)
    requires all.JObject?
    requires ValidateLocation(locId, location, all) == Ok([])
    ensures LocationConsistent(location, all)
  {
    MissingKeysNoneIffAllPresent(LOCATION_KEYS, location, LocationBlock(locId));
    assert location.JObject?;
    PresentField(location, "exits");
    var members := ExitMembers(location);
    assert LocationExitIssues(locId, location, all) == ExitIssues(locId, members, all);
    ExitIssuesNone(locId, members, all);
  }

  lemma ConsistentLocationAccepted(locId: string, location: Json, all: Json)
    requires all.JObject?
    requires LocationConsistent(location, all)
    ensures ValidateLocation(locId, location, all) == Ok([])
  {
    MissingKeysNoneIffAllPresent(LOCATION_KEYS, location, LocationBlock(locId));
    PresentField(location, "exits");
    var members := ExitMembers(location);
    ExitIssuesNone(locId, members, all);
    assert LocationExitIssues(locId, location, all) == Ok([]);
  }

  /** The location loop reports nothing exactly when every location is consistent. */
  lemma {:induction false} LocationsAccept(entries: seq<Member>, all: Json)
    requires all.JObject?
    ensures ValidateLocations(entries, all) == Ok([]) <==> LocationsConsistent(entries, all)
    decreases |entries|
  {
    if entries != [] {
      LocationAccepts(entries[0].key, entries[0].value, all);
      LocationsAccept(entries[1..], all);
      LocationsConsistentCons(entries, all);
      assert ValidateLocations(entries, all) == Ok([]) <==>
               ValidateLocation(entries[0].key, entries[0].value, all) == Ok([]) && ValidateLocations(entries[1..], all) == Ok([]);
    }
  }

  /** Every location is consistent exactly when the first one is and the rest all are. */
  lemma LocationsConsistentCons(entries: seq<Member>, all: Json)
    requires entries != []
    ensures LocationsConsistent(entries, all) <==> LocationConsistent(entries[0].value, all) && LocationsConsistent(entries[1..], all)
  {
    assert forall i :: 1 <= i < |entries| ==> entries[i] == entries[1..][i - 1];
  }

  /** The player checks report nothing exactly when the player block is consistent. */
  lemma PlayerAccepts(player: Json, all: Json)
    requires all.JObject?
    ensures (MissingKeys(PLAYER_KEYS, player, PlayerBlock) == Ok([]) && CurrentIssues(player, all) == Ok([]))
              <==> PlayerConsistent(player, all)
  {
    MissingKeysNoneIffAllPresent(PLAYER_KEYS, player, PlayerBlock);
    if MissingKeys(PLAYER_KEYS, player, PlayerBlock) == Ok([]) && CurrentIssues(player, all) == Ok([]) {
      assert PLAYER_KEYS[1] == "current_location";
      CurrentNeedsDict(player, all);
      PresentField(player, "current_location");
    }
    if PlayerConsistent(player, all) {
      PresentField(player, "current_location");
    }
  }

  /** `player["current_location"]` raises on a list or a str, so a player the current check passes on a found key is a dict. */
  lemma CurrentNeedsDict(player: Json, all: Json)
    ensures Contains(player, JString("current_location")) == Ok(true) && CurrentIssues(player, all).Ok? ==> player.JObject?
  {
  }

  /**
    The validator's acceptance condition: `validate_game_data` returns the
    empty list exactly for consistent documents.
   */
  lemma ValidatorAcceptsExactlyConsistent(data: Json)
    ensures ValidateGameData(data) == Ok([]) <==> Consistent(data)
  {
    MissingKeysNoneIffAllPresent(TOP_LEVEL_KEYS, data, TopLevel);
    if ValidateGameData(data) == Ok([]) {
      assert IsContainer(data) && AllPresent(data, TOP_LEVEL_KEYS);
      assert data.JObject?;
      PresentAccepts(data);
    }
    if Consistent(data) {
      PresentAccepts(data);
    }
  }

  /** With every top-level key in a dict, the remaining checks report nothing exactly when it is consistent. */
  lemma PresentAccepts(data: Json)
    requires data.JObject? && AllPresent(data, TOP_LEVEL_KEYS)
    ensures ValidatePresent(data) == Ok([]) <==> Consistent(data)
  {
    if ValidatePresent(data) == Ok([]) {
      AcceptedIsConsistent(data);
    }
    if Consistent(data) {
      ConsistentIsAccepted(data);
    }
  }

  lemma AcceptedIsConsistent(data: Json)
    requires data.JObject? && AllPresent(data, TOP_LEVEL_KEYS)
    requires ValidatePresent(data) == Ok([])
    ensures Consistent(data)
  {
    MetaStageAccepts(data);
    LocationStageAccepts(data);
    PlayerStageAccepts(data);
  }

  lemma ConsistentIsAccepted(data: Json)
    requires Consistent(data)
    ensures ValidatePresent(data) == Ok([])
  {
    MetaStageAccepts(data);
    LocationStageAccepts(data);
    PlayerStageAccepts(data);
  }

  lemma MetaStageAccepts(data: Json)
    requires data.JObject? && AllPresent(data, TOP_LEVEL_KEYS)
    ensures MetaStage(data) == Ok([]) <==> IsContainer(Field(data, "meta")) && AllPresent(Field(data, "meta"), META_KEYS)
  {
    PresentField(data, "meta");
    MissingKeysNoneIffAllPresent(META_KEYS, Field(data, "meta"), Meta);
  }

  lemma LocationStageAccepts(data: Json)
    requires data.JObject? && AllPresent(data, TOP_LEVEL_KEYS)
    ensures LocationStage(data) == Ok([]) <==>
              && Field(data, "locations").JObject?
              && Resolves(Field(data, "locations"), Field(data, "start_location"))
              && LocationsConsistent(Field(data, "locations").members, Field(data, "locations"))
  {
    var start := Field(data, "start_location");
    var locations := Field(data, "locations");
    LocationStageUnfolds(data);
    if locations.JObject? {
      LocationsAccept(locations.members, locations);
      assert StartIssues(start, locations) == Ok([]) <==> Resolves(locations, start);
    }
  }

  /** With every top-level key present, the location stage runs on the two stored values. */
  lemma LocationStageUnfolds(data: Json)
    requires data.JObject? && AllPresent(data, TOP_LEVEL_KEYS)
    ensures LocationStage(data) ==
              if Field(data, "locations").JObject? then
                Then(StartIssues(Field(data, "start_location"), Field(data, "locations")),
                     ValidateLocations(Field(data, "locations").members, Field(data, "locations")))
              else Raises
  {
    assert TOP_LEVEL_KEYS[1] == "start_location" && TOP_LEVEL_KEYS[2] == "locations";
    IndexPresent(data, "start_location");
    IndexPresent(data, "locations");
  }

  /** A key that `in` finds in a dict is read by indexing. */
  lemma IndexPresent(data: Json, key: string)
    requires data.JObject? && Contains(data, JString(key)) == Ok(true)
    ensures Index(data, key) == Ok(Field(data, key))
  {
    PresentField(data, key);
  }

  lemma PlayerStageAccepts(data: Json)
    requires data.JObject? && AllPresent(data, TOP_LEVEL_KEYS)
    requires Field(data, "locations").JObject?
    ensures PlayerStage(data) == Ok([]) <==> PlayerConsistent(Field(data, "player"), Field(data, "locations"))
  {
    PresentField(data, "player");
    PresentField(data, "locations");
    PlayerAccepts(Field(data, "player"), Field(data, "locations"));
  }

  /** The location keyed `l` has an exit in direction `d` to the unresolved target `t`. */
  predicate DanglingFrom(entries: seq<Member>, all: Json, l: string, d: string, t: Json) {
    exists i :: 0 <= i < |entries| && entries[i].key == l && entries[i].value.JObject? &&
      DanglingIn(ExitMembers(entries[i].value), all, d, t)
  }

  /** The location keyed `l` lacks the required key `k`. */
  predicate LacksKey(entries: seq<Member>, l: string, k: string) {
    k in LOCATION_KEYS &&
    exists i :: 0 <= i < |entries| && entries[i].key == l && Contains(entries[i].value, JString(k)) == Ok(false)
  }

  /** A document past the early return: a dict with every top-level key. */
  predicate PastEarlyReturn(data: Json) {
    data.JObject? && AllPresent(data, TOP_LEVEL_KEYS)
  }

  /** Past the early return, the validator runs the three stages in order. */
  lemma StagesOfValidation(data: Json)
    requires PastEarlyReturn(data)
    ensures ValidateGameData(data) == Then(MetaStage(data), Then(LocationStage(data), PlayerStage(data)))
  {
  }

  /** Past the early return, an issue is reported exactly when one of the three stages reports it. */
  lemma StageMembership(data: Json, x: Issue)
    requires PastEarlyReturn(data) && ValidateGameData(data).Ok?
    ensures MetaStage(data).Ok? && LocationStage(data).Ok? && PlayerStage(data).Ok?
    ensures x in ValidateGameData(data).value <==>
              x in MetaStage(data).value || x in LocationStage(data).value || x in PlayerStage(data).value
  {
    StagesOfValidation(data);
  }

  /** The meta stage reports only missing meta keys: one for each key the meta value lacks. */
  lemma MetaStageReports(data: Json, x: Issue)
    requires data.JObject? && Get(data, "meta").Some? && MetaStage(data).Ok?
    ensures x in MetaStage(data).value <==>
              x.MissingKey? && x.section == Meta && x.key in META_KEYS && Contains(Field(data, "meta"), JString(x.key)) == Ok(false)
  {
  }

  /** The location stage over the values it reads. */
  lemma LocationStageReports(start: Json, locations: Json, x: Issue)
    requires locations.JObject?
    requires Then(StartIssues(start, locations), ValidateLocations(locations.members, locations)).Ok?
    ensures x in Then(StartIssues(start, locations), ValidateLocations(locations.members, locations)).value <==>
              || (x.StartNotFound? && x.start == start && !Resolves(locations, start))
              || (x.DanglingExit? && DanglingFrom(locations.members, locations, x.location, x.direction, x.target))
              || (x.MissingKey? && x.section.LocationBlock? && LacksKey(locations.members, x.section.id, x.key))
  {
    var entries := locations.members;
    LocationReportSource(entries, locations, x);
    DanglingReported(entries, locations, x);
    LacksKeyReported(entries, locations, x);
  }

  /** What the location loop reports comes from one location's own check. */
  lemma LocationReportSource(entries: seq<Member>, locations: Json, x: Issue)
    requires locations.JObject?
    requires ValidateLocations(entries, locations).Ok?
    ensures x in ValidateLocations(entries, locations).value ==>
              || (x.DanglingExit? && DanglingFrom(entries, locations, x.location, x.direction, x.target))
              || (x.MissingKey? && x.section.LocationBlock? && LacksKey(entries, x.section.id, x.key))
  {
    if x in ValidateLocations(entries, locations).value {
      assert SomeLocationReports(entries, locations, x);
      var i :| 0 <= i < |entries| && ValidateLocation(entries[i].key, entries[i].value, locations).Ok? &&
        x in ValidateLocation(entries[i].key, entries[i].value, locations).value;
      OneLocationReport(entries[i].key, entries[i].value, locations, x);
    }
  }

  /** An issue one location's check reports is a dangling exit or a missing key of that location. */
  lemma OneLocationReport(key: string, value: Json, locations: Json, x: Issue)
    requires locations.JObject?
    requires ValidateLocation(key, value, locations).Ok?
    requires x in ValidateLocation(key, value, locations).value
    ensures || (x.DanglingExit? && x.location == key && value.JObject? && DanglingIn(ExitMembers(value), locations, x.direction, x.target))
            || (x.MissingKey? && x.section == LocationBlock(key) && x.key in LOCATION_KEYS &&
                Contains(value, JString(x.key)) == Ok(false))
  {
    var r := ValidateLocation(key, value, locations).value;
    var i :| 0 <= i < |r| && r[i] == x;
    if x.DanglingExit? {
      assert x == DanglingExit(key, x.direction, x.target);
    } else {
      assert x == MissingKey(LocationBlock(key), x.key);
    }
  }

  /** A dangling exit of some location is reported by the location loop. */
  lemma DanglingReported(entries: seq<Member>, locations: Json, x: Issue)
    requires locations.JObject?
    requires ValidateLocations(entries, locations).Ok?
    ensures x.DanglingExit? && DanglingFrom(entries, locations, x.location, x.direction, x.target) ==>
              x in ValidateLocations(entries, locations).value
  {
    if x.DanglingExit? && DanglingFrom(entries, locations, x.location, x.direction, x.target) {
      var i :| 0 <= i < |entries| && entries[i].key == x.location &&
         entries[i].value.JObject? && DanglingIn(ExitMembers(entries[i].value), locations, x.direction, x.target);
      assert x == DanglingExit(entries[i].key, x.direction, x.target);
      assert x in ValidateLocation(entries[i].key, entries[i].value, locations).value;
    }
  }

  /** A key some location lacks is reported by the location loop. */
  lemma LacksKeyReported(entries: seq<Member>, locations: Json, x: Issue)
    requires locations.JObject?
    requires ValidateLocations(entries, locations).Ok?
    ensures x.MissingKey? && x.section.LocationBlock? && LacksKey(entries, x.section.id, x.key) ==>
              x in ValidateLocations(entries, locations).value
  {
    if x.MissingKey? && x.section.LocationBlock? && LacksKey(entries, x.section.id, x.key) {
      var i :| 0 <= i < |entries| && entries[i].key == x.section.id &&
         x.key in LOCATION_KEYS && Contains(entries[i].value, JString(x.key)) == Ok(false);
      assert x == MissingKey(LocationBlock(entries[i].key), x.key);
      assert x in ValidateLocation(entries[i].key, entries[i].value, locations).value;
    }
  }

  /** The player stage over the values it reads. */
  lemma PlayerStageReports(player: Json, locations: Json, x: Issue)
    requires locations.JObject?
    requires Then(MissingKeys(PLAYER_KEYS, player, PlayerBlock), CurrentIssues(player, locations)).Ok?
    ensures player.JObject? || Contains(player, JString("current_location")) == Ok(false)
    ensures x in Then(MissingKeys(PLAYER_KEYS, player, PlayerBlock), CurrentIssues(player, locations)).value <==>
              || (x.MissingKey? && x.section == PlayerBlock && x.key in PLAYER_KEYS &&
                  Contains(player, JString(x.key)) == Ok(false))
              || (x.CurrentNotFound? && player.JObject? && Get(player, "current_location") == Some(x.current) &&
                  !Resolves(locations, x.current))
  {
  }

  /** Each missing meta key is reported, and only those. */
  lemma ReportsMissingMetaKeys(data: Json, k: string)
    requires PastEarlyReturn(data) && ValidateGameData(data).Ok?
    ensures MissingKey(Meta, k) in ValidateGameData(data).value <==>
              k in META_KEYS && Contains(Field(data, "meta"), JString(k)) == Ok(false)
  {
    var x := MissingKey(Meta, k);
    StageMembership(data, x);
    PresentField(data, "meta");
    MetaStageReports(data, x);
    LocationStageKinds(data);
    PlayerStageKinds(data);
  }

  /** The stores the location stage reads. */
  lemma LocationStageValues(data: Json)
    requires PastEarlyReturn(data) && LocationStage(data).Ok?
    ensures Field(data, "locations").JObject?
    ensures LocationStage(data) ==
              Then(StartIssues(Field(data, "start_location"), Field(data, "locations")),
                   ValidateLocations(Field(data, "locations").members, Field(data, "locations")))
  {
    PresentField(data, "start_location");
    PresentField(data, "locations");
  }

  /** The stores the player stage reads. */
  lemma PlayerStageValues(data: Json)
    requires PastEarlyReturn(data) && PlayerStage(data).Ok? && Field(data, "locations").JObject?
    ensures PlayerStage(data) ==
              Then(MissingKeys(PLAYER_KEYS, Field(data, "player"), PlayerBlock),
                   CurrentIssues(Field(data, "player"), Field(data, "locations")))
  {
    PresentField(data, "player");
    PresentField(data, "locations");
  }

  /** A start location that is no location key is reported with its value, and nothing else is. */
  lemma ReportsMissingStart(data: Json, v: Json)
    requires PastEarlyReturn(data) && ValidateGameData(data).Ok?
    ensures Field(data, "locations").JObject?
    ensures StartNotFound(v) in ValidateGameData(data).value <==>
              v == Field(data, "start_location") && !Resolves(Field(data, "locations"), v)
  {
    var x := StartNotFound(v);
    StageMembership(data, x);
    LocationStageValues(data);
    LocationStageReports(Field(data, "start_location"), Field(data, "locations"), x);
    PlayerStageKinds(data);
  }

  /** Each exit of each location that leads to no location is reported with its location, direction and target. */
  lemma ReportsDanglingExits(data: Json, l: string, d: string, t: Json)
    requires PastEarlyReturn(data) && ValidateGameData(data).Ok?
    ensures Field(data, "locations").JObject?
    ensures DanglingExit(l, d, t) in ValidateGameData(data).value <==>
              DanglingFrom(Field(data, "locations").members, Field(data, "locations"), l, d, t)
  {
    var x := DanglingExit(l, d, t);
    StageMembership(data, x);
    LocationStageValues(data);
    LocationStageReports(Field(data, "start_location"), Field(data, "locations"), x);
    PlayerStageKinds(data);
  }

  /** A location missing a required key is reported for that key. */
  lemma ReportsMissingLocationKeys(data: Json, l: string, k: string)
    requires PastEarlyReturn(data) && ValidateGameData(data).Ok?
    ensures Field(data, "locations").JObject?
    ensures MissingKey(LocationBlock(l), k) in ValidateGameData(data).value <==>
              LacksKey(Field(data, "locations").members, l, k)
  {
    var x := MissingKey(LocationBlock(l), k);
    StageMembership(data, x);
    LocationStageValues(data);
    LocationStageReports(Field(data, "start_location"), Field(data, "locations"), x);
    PlayerStageKinds(data);
  }

  /** Each missing player key is reported, and only those. */
  lemma ReportsMissingPlayerKeys(data: Json, k: string)
    requires PastEarlyReturn(data) && ValidateGameData(data).Ok?
    ensures MissingKey(PlayerBlock, k) in ValidateGameData(data).value <==>
              k in PLAYER_KEYS && Contains(Field(data, "player"), JString(k)) == Ok(false)
  {
    var x := MissingKey(PlayerBlock, k);
    PlayerIssueStage(data, x);
    LocationStageValues(data);
    PlayerStageValues(data);
    PlayerStageReports(Field(data, "player"), Field(data, "locations"), x);
  }

  /** A current location that is no location key is reported with its value, and nothing else is. */
  lemma ReportsCurrentNotFound(data: Json, v: Json)
    requires PastEarlyReturn(data) && ValidateGameData(data).Ok?
    ensures CurrentNotFound(v) in ValidateGameData(data).value <==>
              Field(data, "player").JObject? && Get(Field(data, "player"), "current_location") == Some(v) &&
              !Resolves(Field(data, "locations"), v)
  {
    var x := CurrentNotFound(v);
    PlayerIssueStage(data, x);
    LocationStageValues(data);
    PlayerStageValues(data);
    PlayerStageReports(Field(data, "player"), Field(data, "locations"), x);
  }

  /** Player issues come from the player stage alone. */
  lemma PlayerIssueStage(data: Json, x: Issue)
    requires PastEarlyReturn(data) && ValidateGameData(data).Ok?
    requires x.CurrentNotFound? || (x.MissingKey? && x.section == PlayerBlock)
    ensures LocationStage(data).Ok? && PlayerStage(data).Ok?
    ensures x in ValidateGameData(data).value <==> x in PlayerStage(data).value
  {
    StageMembership(data, x);
    NotMetaOrLocationIssue(data, x);
  }

  /** A player issue is of no kind the meta or location stages report. */
  lemma NotMetaOrLocationIssue(data: Json, x: Issue)
    requires MetaStage(data).Ok? && LocationStage(data).Ok?
    requires x.CurrentNotFound? || (x.MissingKey? && x.section == PlayerBlock)
    ensures x !in MetaStage(data).value && x !in LocationStage(data).value
  {
    MetaStageKinds(data);
    LocationStageKinds(data);
  }

  /** The meta stage reports only missing meta keys. */
  lemma MetaStageKinds(data: Json)
    requires MetaStage(data).Ok?
    ensures forall x :: x in MetaStage(data).value ==> x.MissingKey? && x.section == Meta
  {
  }

  /** The location stage reports only start, location-key and exit issues. */
  lemma LocationStageKinds(data: Json)
    requires LocationStage(data).Ok?
    ensures forall x :: x in LocationStage(data).value ==>
              x.StartNotFound? || x.DanglingExit? || (x.MissingKey? && x.section.LocationBlock?)
  {
  }

  /** The player stage reports only player-key and current-location issues. */
  lemma PlayerStageKinds(data: Json)
    requires PlayerStage(data).Ok?
    ensures forall x :: x in PlayerStage(data).value ==> x.CurrentNotFound? || (x.MissingKey? && x.section == PlayerBlock)
  {
  }

  /** The location id is an argument only: it does not reach the stored value. */
  lemma CreatedLocationIgnoresId(
    locationId: string, otherId: string, title: string, description: string, image: string,
    exits: Option<seq<Member>>, items: Option<seq<Json>>,
    flagsRequired: Option<seq<Member>>, flagsSet: Option<seq<Member>>, firstVisitText: string)
    ensures CreateLocation(locationId, title, description, image, exits, items, flagsRequired, flagsSet, firstVisitText)
         == CreateLocation(otherId, title, description, image, exits, items, flagsRequired, flagsSet, firstVisitText)
  {
  }

  /**
    A created location passes `_validate_location` exactly when all of its
    exits lead to existing locations: the constructor always supplies the
    required keys and an exits dict.
   */
  lemma CreatedLocationAccepted(
    locationId: string, title: string, description: string, image: string,
    exits: Option<seq<Member>>, items: Option<seq<Json>>,
    flagsRequired: Option<seq<Member>>, flagsSet: Option<seq<Member>>, firstVisitText: string,
    all: Json)
    requires all.JObject?
    ensures (ValidateLocation(locationId, CreateLocation(locationId, title, description, image, exits, items, flagsRequired, flagsSet, firstVisitText), all) == Ok([]))
              <==> ExitsResolve(exits.GetOr([]), all)
  {
    var l := CreateLocation(locationId, title, description, image, exits, items, flagsRequired, flagsSet, firstVisitText);
    ShapedLocationAccepted(locationId, l, exits.GetOr([]), all);
  }

  /** A dict with a title, a description and an exits dict is accepted exactly when its exits resolve. */
  lemma ShapedLocationAccepted(locId: string, l: Json, exits: seq<Member>, all: Json)
    requires all.JObject? && l.JObject?
    requires Get(l, "title").Some? && Get(l, "description").Some?
    requires Get(l, "exits") == Some(JObject(exits))
    ensures (ValidateLocation(locId, l, all) == Ok([])) <==> ExitsResolve(exits, all)
  {
    GetPresent(l, "title");
    GetPresent(l, "description");
    GetPresent(l, "exits");
    ThreeKeysPresent(l, "title", "description", "exits");
    assert LOCATION_KEYS == ["title", "description", "exits"];
    assert Field(l, "exits") == JObject(exits) && ExitMembers(l) == exits;
    LocationAccepts(locId, l, all);
  }

  /** A key that lookup finds in a dict is found by `in`. */
  lemma GetPresent(l: Json, key: string)
    requires l.JObject? && Get(l, key).Some?
    ensures Contains(l, JString(key)) == Ok(true)
  {
  }

  /** Three keys that `in` finds are all present. */
  lemma ThreeKeysPresent(l: Json, a: string, b: string, c: string)
    requires Contains(l, JString(a)) == Ok(true) && Contains(l, JString(b)) == Ok(true) && Contains(l, JString(c)) == Ok(true)
    ensures AllPresent(l, [a, b, c])
  {
  }

  /**
    The engine reads back what the editor wrote: a created location loads
    unvisited, with its texts cut to the engine's buffers and its exits
    and items filtered and capped as the loader does.
   */
  lemma EngineReadsCreatedLocation(
    locationId: string, title: string, description: string, image: string,
    exits: Option<seq<Member>>, items: Option<seq<Json>>,
    flagsRequired: Option<seq<Member>>, flagsSet: Option<seq<Member>>, firstVisitText: string)
    ensures var l := Loader.ParseLocation(CreateLocation(locationId, title, description, image, exits, items, flagsRequired, flagsSet, firstVisitText), locationId);
      && l.Some?
      && l.value.id == SafeCopy(Some(locationId), ID_SIZE)
      && l.value.title == SafeCopy(Some(title), MAX_STRING_LENGTH)
      && l.value.description == SafeCopy(Some(description), MAX_DESCRIPTION_LENGTH)
      && l.value.imagePath == SafeCopy(Some(image), MAX_STRING_LENGTH)
      && l.value.firstVisitText == SafeCopy(Some(firstVisitText), MAX_DESCRIPTION_LENGTH)
      && !l.value.visited
      && l.value.exits == Collect(exits.GetOr([]), Loader.ExitEntry, MAX_EXITS, [])
      && l.value.items == Collect(items.GetOr([]), Loader.IdEntry, MAX_ITEMS, [])
  {
    var l := CreateLocation(locationId, title, description, image, exits, items, flagsRequired, flagsSet, firstVisitText);
    ReadsShapedLocation(l, locationId, title, description, image, firstVisitText, exits.GetOr([]), items.GetOr([]));
  }

  /** What the json-c loader makes of a location dict whose fields have the right kinds. */
  lemma ReadsShapedLocation(
    l: Json, id: string, title: string, description: string, image: string, firstVisitText: string,
    exits: seq<Member>, items: seq<Json>)
    requires l.JObject?
    requires Get(l, "title") == Some(JString(title)) && Get(l, "description") == Some(JString(description))
    requires Get(l, "image") == Some(JString(image)) && Get(l, "first_visit_text") == Some(JString(firstVisitText))
    requires Get(l, "visited") == Some(JBool(false))
    requires Get(l, "exits") == Some(JObject(exits)) && Get(l, "items") == Some(JArray(items))
    ensures Loader.ParseLocation(l, id) == Some(Location(
              SafeCopy(Some(id), ID_SIZE),
              SafeCopy(Some(title), MAX_STRING_LENGTH),
              SafeCopy(Some(description), MAX_DESCRIPTION_LENGTH),
              SafeCopy(Some(image), MAX_STRING_LENGTH),
              SafeCopy(Some(firstVisitText), MAX_DESCRIPTION_LENGTH),
              false,
              Collect(exits, Loader.ExitEntry, MAX_EXITS, []),
              Collect(items, Loader.IdEntry, MAX_ITEMS, []),
              [], []))
  {
    StringFieldRead(l, "title", title, MAX_STRING_LENGTH);
    StringFieldRead(l, "description", description, MAX_DESCRIPTION_LENGTH);
    StringFieldRead(l, "image", image, MAX_STRING_LENGTH);
    StringFieldRead(l, "first_visit_text", firstVisitText, MAX_DESCRIPTION_LENGTH);
    TablesRead(l, exits, items);
  }

  /** A false `visited`, an exits dict and an items list are read as such. */
  lemma TablesRead(l: Json, exits: seq<Member>, items: seq<Json>)
    requires Get(l, "visited") == Some(JBool(false))
    requires Get(l, "exits") == Some(JObject(exits)) && Get(l, "items") == Some(JArray(items))
    ensures !Loader.GetJsonBool(l, "visited")
    ensures Loader.ParseExits(l) == Collect(exits, Loader.ExitEntry, MAX_EXITS, [])
    ensures Loader.ParseItems(l) == Collect(items, Loader.IdEntry, MAX_ITEMS, [])
  {
  }

  /** A string member is read through safe_strcpy into its buffer. */
  lemma StringFieldRead(l: Json, key: string, text: string, size: nat)
    requires size > 0 && Get(l, key) == Some(JString(text))
    ensures Loader.TextField(l, key, size) == SafeCopy(Some(text), size)
  {
  }

  /** The engine reads back a created item: its flags exactly, its texts cut to the engine's buffers. */
  lemma EngineReadsCreatedItem(
    itemId: string, name: string, description: string, takeable: bool, useable: bool,
    useText: string, useFlagsRequired: Option<seq<Member>>, useFlagsSet: Option<seq<Member>>)
    ensures Loader.ParseInventoryItem(CreateItem(itemId, name, description, takeable, useable, useText, useFlagsRequired, useFlagsSet), itemId)
              == Some(InventoryItem(
                   SafeCopy(Some(itemId), ID_SIZE),
                   SafeCopy(Some(name), MAX_STRING_LENGTH),
                   SafeCopy(Some(description), MAX_DESCRIPTION_LENGTH),
                   takeable, useable,
                   SafeCopy(Some(useText), MAX_DESCRIPTION_LENGTH)))
  {
    var it := CreateItem(itemId, name, description, takeable, useable, useText, useFlagsRequired, useFlagsSet);
    ReadsShapedItem(it, itemId, name, description, takeable, useable, useText);
  }

  /** parse_inventory_item on a dict holding the five fields it reads. */
  lemma ReadsShapedItem(it: Json, id: string, name: string, description: string, takeable: bool, useable: bool, useText: string)
    requires it.JObject?
    requires Get(it, "name") == Some(JString(name)) && Get(it, "description") == Some(JString(description))
    requires Get(it, "use_text") == Some(JString(useText))
    requires Get(it, "takeable") == Some(JBool(takeable)) && Get(it, "useable") == Some(JBool(useable))
    ensures Loader.ParseInventoryItem(it, id) == Some(InventoryItem(
              SafeCopy(Some(id), ID_SIZE),
              SafeCopy(Some(name), MAX_STRING_LENGTH),
              SafeCopy(Some(description), MAX_DESCRIPTION_LENGTH),
              takeable, useable,
              SafeCopy(Some(useText), MAX_DESCRIPTION_LENGTH)))
  {
    StringFieldRead(it, "name", name, MAX_STRING_LENGTH);
    StringFieldRead(it, "description", description, MAX_DESCRIPTION_LENGTH);
    StringFieldRead(it, "use_text", useText, MAX_DESCRIPTION_LENGTH);
    BoolFieldRead(it, "takeable", takeable);
    BoolFieldRead(it, "useable", useable);
  }

  /** A boolean member is read as itself. */
  lemma BoolFieldRead(l: Json, key: string, b: bool)
    requires Get(l, key) == Some(JBool(b))
    ensures Loader.GetJsonBool(l, key) == b
  {
  }

  /** A dict whose members at positions `at` carry `keys` holds every one of them. */
  lemma KeysAt(ms: seq<Member>, keys: seq<string>, at: seq<nat>)
    requires |at| == |keys|
    requires forall i :: 0 <= i < |keys| ==> at[i] < |ms| && ms[at[i]].key == keys[i]
    ensures AllPresent(JObject(ms), keys)
  {
    forall k | k in keys
      ensures Contains(JObject(ms), JString(k)) == Ok(true)
    {
      var i :| 0 <= i < |keys| && keys[i] == k;
      MemberKeyPresent(ms, at[i]);
    }
  }

  /** A key carried by some member of a dict is found by Python's `in`. */
  lemma MemberKeyPresent(ms: seq<Member>, i: nat)
    requires i < |ms|
    ensures Contains(JObject(ms), JString(ms[i].key)) == Ok(true)
  {
    assert MembersOf(JObject(ms))[i].key == ms[i].key;
  }

  /** `create_empty_game()` yields data the validator has nothing to say about. */
  lemma EmptyGameValidates()
    ensures ValidateGameData(CreateEmptyGame()) == Ok([])
  {
    var locations := JObject([Member("start", EMPTY_START)]);
    EmptyMetaComplete();
    EmptyStartConsistent();
    EmptyPlayerConsistent();
    DocumentConsistent(EMPTY_META, "start", locations, JObject([]), JObject([]), EMPTY_PLAYER);
    ValidatorAcceptsExactlyConsistent(CreateEmptyGame());
  }

  /** A game document assembled from a complete meta block, consistent locations and a consistent player is consistent. */
  lemma DocumentConsistent(meta: Json, start: string, locations: Json, items: Json, flags: Json, player: Json)
    requires IsContainer(meta) && AllPresent(meta, META_KEYS)
    requires locations.JObject? && Resolves(locations, JString(start))
    requires LocationsConsistent(locations.members, locations)
    requires PlayerConsistent(player, locations)
    ensures Consistent(GameDocument(meta, start, locations, items, flags, player))
  {
    var g := GameDocument(meta, start, locations, items, flags, player);
    DocumentSectionsPresent(g);
    assert Field(g, "meta") == meta && Field(g, "locations") == locations;
    assert Field(g, "start_location") == JString(start) && Field(g, "player") == player;
  }

  /** Six keys that `in` finds are all present. */
  lemma SixKeysPresent(l: Json, a: string, b: string, c: string, d: string, e: string, f: string)
    requires Contains(l, JString(a)) == Ok(true) && Contains(l, JString(b)) == Ok(true) && Contains(l, JString(c)) == Ok(true)
    requires Contains(l, JString(d)) == Ok(true) && Contains(l, JString(e)) == Ok(true) && Contains(l, JString(f)) == Ok(true)
    ensures AllPresent(l, [a, b, c, d, e, f])
  {
  }

  /** The six sections `in` looks for are all in a game document. */
  lemma DocumentSectionsPresent(g: Json)
    requires g.JObject?
    requires Get(g, "meta").Some? && Get(g, "start_location").Some? && Get(g, "locations").Some?
    requires Get(g, "inventory_items").Some? && Get(g, "game_flags").Some? && Get(g, "player").Some?
    ensures AllPresent(g, TOP_LEVEL_KEYS)
  {
    GetPresent(g, "meta");
    GetPresent(g, "start_location");
    GetPresent(g, "locations");
    GetPresent(g, "inventory_items");
    GetPresent(g, "game_flags");
    GetPresent(g, "player");
    SixKeysPresent(g, "meta", "start_location", "locations", "inventory_items", "game_flags", "player");
  }

  /** The meta block of `create_empty_game` holds every key the validator asks for. */
  lemma EmptyMetaComplete()
    ensures AllPresent(EMPTY_META, META_KEYS)
  {
    KeysAt(EMPTY_META.members, META_KEYS, [0, 1, 3]);
  }

  /** The one location of `create_empty_game` is what `create_location` makes, and it is consistent. */
  lemma EmptyStartConsistent()
    ensures Resolves(JObject([Member("start", EMPTY_START)]), JString("start"))
    ensures LocationsConsistent([Member("start", EMPTY_START)], JObject([Member("start", EMPTY_START)]))
  {
    var all := JObject([Member("start", EMPTY_START)]);
    SingleMemberLookup("start", EMPTY_START);
    EmptyStartLocationConsistent(all);
    SingleLocationConsistent("start", EMPTY_START, all);
  }

  /** The start location has its required keys and no exits, so it is consistent in any locations dict. */
  lemma EmptyStartLocationConsistent(all: Json)
    requires all.JObject?
    ensures LocationConsistent(EMPTY_START, all)
  {
    EmptyStartIsCreated();
    CreatedWithoutExitsConsistent("start", "Starting Location", "You are at the beginning of your adventure.", "",
                                  None, None, None, "", all);
  }

  /** A location created without exits is consistent in any locations dict. */
  lemma CreatedWithoutExitsConsistent(
    locationId: string, title: string, description: string, image: string, items: Option<seq<Json>>,
    flagsRequired: Option<seq<Member>>, flagsSet: Option<seq<Member>>, firstVisitText: string, all: Json)
    requires all.JObject?
    ensures LocationConsistent(CreateLocation(locationId, title, description, image, None, items, flagsRequired, flagsSet, firstVisitText), all)
  {
    var l := CreateLocation(locationId, title, description, image, None, items, flagsRequired, flagsSet, firstVisitText);
    CreatedLocationAccepted(locationId, title, description, image, None, items, flagsRequired, flagsSet, firstVisitText, all);
    LocationAccepts(locationId, l, all);
  }

  /** A locations dict of one consistent location is consistent. */
  lemma SingleLocationConsistent(id: string, l: Json, all: Json)
    requires LocationConsistent(l, all)
    ensures LocationsConsistent([Member(id, l)], all)
  {
  }

  /** The start location of `create_empty_game` is what `create_location` builds from its texts, every other argument left at its default. */
  lemma EmptyStartIsCreated()
    ensures EMPTY_START == CreateLocation("start", "Starting Location", "You are at the beginning of your adventure.")
  {
  }

  /** The player of `create_empty_game` stands in the start location. */
  lemma EmptyPlayerConsistent()
    ensures PlayerConsistent(EMPTY_PLAYER, JObject([Member("start", EMPTY_START)]))
  {
    var ms := EMPTY_PLAYER.members;
    KeysAt(ms, PLAYER_KEYS, [0, 1, 2]);
    GetFirstMatch(ms, 1, "current_location");
    SingleMemberLookup("start", EMPTY_START);
  }

  lemma ConcatAssoc<T>(p: seq<T>, q: seq<T>, r: seq<T>)
    ensures p + (q + r) == (p + q) + r
  {
  }

  /** The missing-key loop over `a + b` reports `a`'s missing keys, then `b`'s: issues come in key order. */
  lemma {:induction false} MissingKeysAppend(a: seq<string>, b: seq<string>, container: Json, section: Section)
    requires IsContainer(container)
    ensures MissingKeys(a + b, container, section)
         == Ok(MissingKeys(a, container, section).value + MissingKeys(b, container, section).value)
    decreases |a|
  {
    if a == [] {
      assert a + b == b;
      assert MissingKeys(a, container, section) == Ok([]);
      assert MissingKeys(b, container, section).Ok?;
      assert MissingKeys(a, container, section).value + MissingKeys(b, container, section).value
          == MissingKeys(b, container, section).value;
    } else {
      var ab := a + b;
      assert ab[0] == a[0] && ab[1..] == a[1..] + b;
      MissingKeysAppend(a[1..], b, container, section);
      var head := Contains(container, JString(a[0]));
      assert head.Ok?;
      var front := if head.value then [] else [MissingKey(section, a[0])];
      assert MissingKeys(a, container, section).value == front + MissingKeys(a[1..], container, section).value;
      assert MissingKeys(ab, container, section).value == front + MissingKeys(a[1..] + b, container, section).value;
      ConcatAssoc(front, MissingKeys(a[1..], container, section).value, MissingKeys(b, container, section).value);
    }
  }

  /** A dict with no members lacks every key: each one is reported, in order. */
  lemma {:induction false} NothingPresent(keys: seq<string>, section: Section)
    ensures MissingKeys(keys, JObject([]), section).Ok?
    ensures |MissingKeys(keys, JObject([]), section).value| == |keys|
    ensures forall i :: 0 <= i < |keys| ==> MissingKeys(keys, JObject([]), section).value[i] == MissingKey(section, keys[i])
    decreases |keys|
  {
    if keys != [] {
      NothingPresent(keys[1..], section);
      var rest := MissingKeys(keys[1..], JObject([]), section).value;
      AbsentKeyReported(keys, section, rest);
      var all := [MissingKey(section, keys[0])] + rest;
      forall i | 0 <= i < |keys| ensures all[i] == MissingKey(section, keys[i]) {
        if i > 0 {
          assert all[i] == rest[i - 1] && keys[i] == keys[1..][i - 1];
        }
      }
    }
  }

  /** On the empty dict the first key is reported ahead of the others. */
  lemma AbsentKeyReported(keys: seq<string>, section: Section, rest: seq<Issue>)
    requires keys != [] && MissingKeys(keys[1..], JObject([]), section) == Ok(rest)
    ensures MissingKeys(keys, JObject([]), section) == Ok([MissingKey(section, keys[0])] + rest)
  {
    assert Contains(JObject([]), JString(keys[0])) == Ok(false);
  }

  /** An empty dict lacks every top-level key: all six are reported, in the order they are checked. */
  lemma EmptyDictReportsAllInOrder()
    ensures ValidateGameData(JObject([])).Ok?
    ensures |ValidateGameData(JObject([])).value| == 6
    ensures forall i :: 0 <= i < 6 ==> ValidateGameData(JObject([])).value[i] == MissingKey(TopLevel, TOP_LEVEL_KEYS[i])
  {
    NothingPresent(TOP_LEVEL_KEYS, TopLevel);
    assert !AllPresent(JObject([]), TOP_LEVEL_KEYS) by {
      assert Contains(JObject([]), JString("meta")) == Ok(false);
    }
  }
}
