/**
  The editor's format module, editor/advgpt_format.py: the constructors
  for an empty game, a location and an item, and the validator the editor
  runs before saving and after loading. The validator reads a value that
  `json.load` produced, so it is modelled over the same `Json` values the
  engine loaders read: an object is a Python dict, an array a list, a
  string a str, and so on.

  Python raises rather than returns on a value of the wrong kind (a
  `TypeError`, `AttributeError` or `KeyError`); the validator has no
  handler, so the caller sees the exception and no list at all. The model
  collapses every such exception into one outcome, `Raises`.
 */
module Format {
  import opened Collections
  import opened CString
  import opened Json

  /** A Python call's outcome: a returned value, or an exception. */
  datatype PyResult<T> = Ok(value: T) | Raises {
    predicate IsFailure() {
      Raises?
    }

    function PropagateFailure<U>(): PyResult<U>
      requires Raises?
    {
      Raises
    }

    function Extract(): T
      requires Ok?
    {
      value
    }
  }

  /** Where a required key was looked for. */
  datatype Section = TopLevel | Meta | PlayerBlock | LocationBlock(id: string)

  /** One validation error; `Message` renders the text the validator appends. */
  datatype Issue =
    | MissingKey(section: Section, key: string)
    | StartNotFound(start: Json)
    | DanglingExit(location: string, direction: string, target: Json)
    | CurrentNotFound(current: Json)

  const TOP_LEVEL_KEYS: seq<string> := ["meta", "start_location", "locations", "inventory_items", "game_flags", "player"]
  const META_KEYS: seq<string> := ["title", "author", "version"]
  const LOCATION_KEYS: seq<string> := ["title", "description", "exits"]
  const PLAYER_KEYS: seq<string> := ["inventory", "current_location", "flags"]

  /** A value Python can hash, so that it may be looked up among a dict's keys. */
  predicate Hashable(v: Json) {
    !v.JArray? && !v.JObject?
  }

  /** `t` occurs in `s` as a contiguous run: Python's `t in s` on two strs. */
  predicate Substring(t: string, s: string) {
    exists i :: 0 <= i <= |s| && t <= s[i..]
  }

  /** `x or {}` on an optional dict: a missing or empty dict becomes a fresh empty one. */
  function DictOrEmpty(x: Option<seq<Member>>): Json {
    JObject(x.GetOr([]))
  }

  /** `x or []` on an optional list. */
  function ListOrEmpty(x: Option<seq<Json>>): Json {
    JArray(x.GetOr([]))
  }

  /**
    `create_location`: the location dict the editor stores under its id.
    Every argument is stored under its own key, a missing table becomes an
    empty one, and `visited` always starts false; the id itself is not
    part of the value. The defaults are those of the Python signature.
   */
  function CreateLocation(
    locationId: string, title: string, description: string, image: string := "",
    exits: Option<seq<Member>> := None, items: Option<seq<Json>> := None,
    flagsRequired: Option<seq<Member>> := None, flagsSet: Option<seq<Member>> := None,
    firstVisitText: string := ""): (r: Json)
    ensures r.JObject? && DistinctKeys(r.members)
    ensures Get(r, "title") == Some(JString(title)) && Get(r, "description") == Some(JString(description))
    ensures Get(r, "image") == Some(JString(image)) && Get(r, "first_visit_text") == Some(JString(firstVisitText))
    ensures Get(r, "exits") == Some(JObject(exits.GetOr([]))) && Get(r, "items") == Some(JArray(items.GetOr([])))
    ensures Get(r, "flags_required") == Some(JObject(flagsRequired.GetOr([])))
    ensures Get(r, "flags_set") == Some(JObject(flagsSet.GetOr([])))
    ensures Get(r, "visited") == Some(JBool(false))
  {
    var ms := [
      Member("title", JString(title)),
      Member("description", JString(description)),
      Member("image", JString(image)),
      Member("exits", DictOrEmpty(exits)),
      Member("items", ListOrEmpty(items)),
      Member("flags_required", DictOrEmpty(flagsRequired)),
      Member("flags_set", DictOrEmpty(flagsSet)),
      Member("first_visit_text", JString(firstVisitText)),
      Member("visited", JBool(false))];
    assert DistinctKeys(ms);
    GetDistinct(ms, 0);
    GetDistinct(ms, 1);
    GetDistinct(ms, 2);
    GetDistinct(ms, 3);
    GetDistinct(ms, 4);
    GetDistinct(ms, 5);
    GetDistinct(ms, 6);
    GetDistinct(ms, 7);
    GetDistinct(ms, 8);
    JObject(ms)
  }

  /**
    `create_item`: the item dict stored under its id. Every argument is
    stored under its own key and a missing flag table becomes an empty
    one; the id is not part of the value. The defaults are those of the
    Python signature: takeable, not useable, no use text.
   */
  function CreateItem(
    itemId: string, name: string, description: string, takeable: bool := true, useable: bool := false,
    useText: string := "", useFlagsRequired: Option<seq<Member>> := None, useFlagsSet: Option<seq<Member>> := None): (r: Json)
    ensures r.JObject? && DistinctKeys(r.members)
    ensures Get(r, "name") == Some(JString(name)) && Get(r, "description") == Some(JString(description))
    ensures Get(r, "takeable") == Some(JBool(takeable)) && Get(r, "useable") == Some(JBool(useable))
    ensures Get(r, "use_text") == Some(JString(useText))
    ensures Get(r, "use_flags_required") == Some(JObject(useFlagsRequired.GetOr([])))
    ensures Get(r, "use_flags_set") == Some(JObject(useFlagsSet.GetOr([])))
  {
    var ms := [
      Member("name", JString(name)),
      Member("description", JString(description)),
      Member("takeable", JBool(takeable)),
      Member("useable", JBool(useable)),
      Member("use_text", JString(useText)),
      Member("use_flags_required", DictOrEmpty(useFlagsRequired)),
      Member("use_flags_set", DictOrEmpty(useFlagsSet))];
    assert DistinctKeys(ms);
    GetDistinct(ms, 0);
    GetDistinct(ms, 1);
    GetDistinct(ms, 2);
    GetDistinct(ms, 3);
    GetDistinct(ms, 4);
    GetDistinct(ms, 5);
    GetDistinct(ms, 6);
    JObject(ms)
  }

  /** The starting location of `create_empty_game`. */
  const EMPTY_START: Json := JObject([
    Member("title", JString("Starting Location")),
    Member("description", JString("You are at the beginning of your adventure.")),
    Member("image", JString("")),
    Member("exits", JObject([])),
    Member("items", JArray([])),
    Member("flags_required", JObject([])),
    Member("flags_set", JObject([])),
    Member("first_visit_text", JString("")),
    Member("visited", JBool(false))])

  /** The meta block of `create_empty_game`. */
  const EMPTY_META: Json := JObject([
    Member("title", JString("Untitled Adventure")),
    Member("author", JString("Unknown")),
    Member("description", JString("")),
    Member("version", JString("1.0")),
    Member("created", JString("")),
    Member("modified", JString(""))])

  /** The player block of `create_empty_game`: empty-handed, in "start". */
  const EMPTY_PLAYER: Json := JObject([
    Member("inventory", JArray([])),
    Member("current_location", JString("start")),
    Member("flags", JObject([]))])

  /** A game document: the six top-level sections and nothing else. */
  function GameDocument(meta: Json, start: string, locations: Json, items: Json, flags: Json, player: Json): (r: Json)
    ensures r.JObject? && DistinctKeys(r.members)
    ensures |r.members| == |TOP_LEVEL_KEYS|
    ensures Get(r, "meta") == Some(meta) && Get(r, "start_location") == Some(JString(start))
    ensures Get(r, "locations") == Some(locations) && Get(r, "inventory_items") == Some(items)
    ensures Get(r, "game_flags") == Some(flags) && Get(r, "player") == Some(player)
  {
    var ms := [
      Member("meta", meta),
      Member("start_location", JString(start)),
      Member("locations", locations),
      Member("inventory_items", items),
      Member("game_flags", flags),
      Member("player", player)];
    assert DistinctKeys(ms);
    GetDistinct(ms, 0);
    GetDistinct(ms, 1);
    GetDistinct(ms, 2);
    GetDistinct(ms, 3);
    GetDistinct(ms, 4);
    GetDistinct(ms, 5);
    JObject(ms)
  }

  /**
    `create_empty_game`: one location, "start", which is the start
    location, no items, no flags, and a player (EMPTY_PLAYER) standing in
    "start".
   */
  function CreateEmptyGame(): (r: Json)
    ensures r.JObject? && DistinctKeys(r.members)
    ensures |r.members| == |TOP_LEVEL_KEYS|
    ensures Get(r, "meta") == Some(EMPTY_META)
    ensures Get(r, "start_location") == Some(JString("start"))
    ensures Get(r, "locations") == Some(JObject([Member("start", EMPTY_START)]))
    ensures Get(r, "inventory_items") == Some(JObject([])) && Get(r, "game_flags") == Some(JObject([]))
    ensures Get(r, "player") == Some(EMPTY_PLAYER)
  {
    GameDocument(EMPTY_META, "start", JObject([Member("start", EMPTY_START)]), JObject([]), JObject([]), EMPTY_PLAYER)
  }

  /**
    Python's `x in container` on the values `json.load` produces: a dict
    tests its keys (all strs), a list its elements, a str its substrings
    (only a str can be looked for in a str). A dict refuses an unhashable
    value, and `None`, a bool or a number is no container at all.
   */
  function Contains(container: Json, x: Json): (r: PyResult<bool>)
    ensures container.JObject? ==>
              (r.Raises? <==> !Hashable(x)) &&
              (r.Ok? ==> (r.value <==> x.JString? && Get(container, x.str).Some?))
    ensures container.JArray? ==> r == Ok(x in container.elems)
    ensures container.JString? ==>
              (r.Raises? <==> !x.JString?) &&
              (r.Ok? ==> (r.value <==> Substring(x.str, container.str)))
    ensures container.JNull? || container.JBool? || container.JNumber? ==> r.Raises?
  {
    match container
    case JObject(_) =>
      if !Hashable(x) then Raises
      else Ok(x.JString? && Get(container, x.str).Some?)
    case JArray(es) => Ok(x in es)
    case JString(s) =>
      if x.JString? then Ok(Substring(x.str, s)) else Raises
    case _ => Raises
  }

  /** A value Python's `in` accepts a str key on: a dict, a list or a str. */
  predicate IsContainer(v: Json) {
    v.JObject? || v.JArray? || v.JString?
  }

  /** `container[key]` with a str key: only a dict that holds the key answers. */
  function Index(container: Json, key: string): (r: PyResult<Json>)
    ensures r.Ok? <==> container.JObject? && Get(container, key).Some?
    ensures r.Ok? ==> Some(r.value) == Get(container, key)
  {
    if container.JObject? then
      match Get(container, key)
      case Some(v) => Ok(v)
      case None => Raises
    else Raises
  }

  /** `container.items()`: only a dict has them. */
  function Items(container: Json): (r: PyResult<seq<Member>>)
    ensures r.Ok? <==> container.JObject?
    ensures r.Ok? ==> r.value == container.members
  {
    if container.JObject? then Ok(container.members) else Raises
  }

  /**
    The `for key in required: if key not in container: errors.append(...)`
    loops: one issue per absent key, in the order of `keys`.
   */
  function MissingKeys(keys: seq<string>, container: Json, section: Section): (r: PyResult<seq<Issue>>)
    ensures r.Raises? <==> |keys| > 0 && !IsContainer(container)
    ensures r.Ok? ==> |r.value| <= |keys|
    ensures r.Ok? ==> forall i :: 0 <= i < |r.value| ==> r.value[i].MissingKey? && r.value[i].section == section
    ensures r.Ok? ==> forall k :: MissingKey(section, k) in r.value <==> k in keys && Contains(container, JString(k)) == Ok(false)
    decreases |keys|
  {
    if keys == [] then Ok([])
    else
      match Contains(container, JString(keys[0]))
      case Raises => Raises
      case Ok(present) =>
        match MissingKeys(keys[1..], container, section)
        case Raises => Raises
        case Ok(rest) => Ok((if present then [] else [MissingKey(section, keys[0])]) + rest)
  }

  /** `target in all_locations` came out true: the target is a str naming a location. */
  predicate Resolves(all: Json, target: Json) {
    target.JString? && Get(all, target.str).Some?
  }

  /** Some exit in `exits` goes in direction `d` to the unresolved target `t`. */
  predicate DanglingIn(exits: seq<Member>, all: Json, d: string, t: Json) {
    exists i :: 0 <= i < |exits| && exits[i] == Member(d, t) && !Resolves(all, t)
  }

  /** Some exit in `exits` has a target no dict can look up. */
  predicate SomeUnhashable(exits: seq<Member>) {
    exists i :: 0 <= i < |exits| && !Hashable(exits[i].value)
  }

  /**
    The exit loop of `_validate_location`: one issue per exit whose target
    is not a key of `all`, in exit order. `all` is the locations dict.
   */
  function ExitIssues(locId: string, exits: seq<Member>, all: Json): (r: PyResult<seq<Issue>>)
    requires all.JObject?
    ensures r.Raises? <==> SomeUnhashable(exits)
    ensures r.Ok? ==> |r.value| <= |exits|
    ensures r.Ok? ==> forall d, t :: DanglingExit(locId, d, t) in r.value <==> DanglingIn(exits, all, d, t)
    ensures r.Ok? ==> forall i :: 0 <= i < |r.value| ==> r.value[i].DanglingExit? && r.value[i].location == locId
    ensures r.Ok? && DistinctKeys(exits) ==> forall i, j :: 0 <= i < j < |r.value| ==> r.value[i] != r.value[j]
    decreases |exits|
  {
    if exits == [] then Ok([])
    else
      assert forall i :: 1 <= i < |exits| ==> exits[i] == exits[1..][i - 1];
      match Contains(all, exits[0].value)
      case Raises => Raises
      case Ok(found) =>
        match ExitIssues(locId, exits[1..], all)
        case Raises => Raises
        case Ok(rest) =>
          var here := if found then [] else [DanglingExit(locId, exits[0].key, exits[0].value)];
          DanglingCons(locId, exits, all, found, rest);
          DistinctCons(locId, exits, all, found, rest);
          Ok(here + rest)
  }

  /** The exit loop's step keeps its issues exactly the dangling exits. */
  lemma DanglingCons(locId: string, exits: seq<Member>, all: Json, found: bool, rest: seq<Issue>)
    requires all.JObject? && exits != []
    requires found <==> Resolves(all, exits[0].value)
    requires forall d, t :: DanglingExit(locId, d, t) in rest <==> DanglingIn(exits[1..], all, d, t)
    ensures forall d, t ::
              DanglingExit(locId, d, t) in (if found then [] else [DanglingExit(locId, exits[0].key, exits[0].value)]) + rest <==>
              DanglingIn(exits, all, d, t)
  {
    forall d, t
      ensures DanglingIn(exits, all, d, t) <==>
                (!found && Member(d, t) == exits[0]) || DanglingIn(exits[1..], all, d, t)
    {
      if DanglingIn(exits, all, d, t) {
        var i :| 0 <= i < |exits| && exits[i] == Member(d, t) && !Resolves(all, t);
        if i > 0 {
          assert exits[1..][i - 1] == exits[i];
        }
      }
      if DanglingIn(exits[1..], all, d, t) {
        var i :| 0 <= i < |exits[1..]| && exits[1..][i] == Member(d, t) && !Resolves(all, t);
        assert exits[i + 1] == Member(d, t);
      }
    }
  }

  /** The exit loop's step reports only this location's exits, and none twice when the keys are distinct. */
  lemma DistinctCons(locId: string, exits: seq<Member>, all: Json, found: bool, rest: seq<Issue>)
    requires all.JObject? && exits != []
    requires forall i :: 0 <= i < |rest| ==> rest[i].DanglingExit? && rest[i].location == locId
    requires forall d, t :: DanglingExit(locId, d, t) in rest ==> DanglingIn(exits[1..], all, d, t)
    requires DistinctKeys(exits) ==> forall i, j :: 0 <= i < j < |rest| ==> rest[i] != rest[j]
    ensures var r := (if found then [] else [DanglingExit(locId, exits[0].key, exits[0].value)]) + rest;
            forall i :: 0 <= i < |r| ==> r[i].DanglingExit? && r[i].location == locId
    ensures var r := (if found then [] else [DanglingExit(locId, exits[0].key, exits[0].value)]) + rest;
            DistinctKeys(exits) ==> forall i, j :: 0 <= i < j < |r| ==> r[i] != r[j]
  {
    var r := (if found then [] else [DanglingExit(locId, exits[0].key, exits[0].value)]) + rest;
    if DistinctKeys(exits) && !found {
      forall j | 1 <= j < |r| ensures r[0] != r[j] {
        assert r[j] == rest[j - 1];
        var x := rest[j - 1];
        assert DanglingExit(locId, x.direction, x.target) in rest;
        assert DanglingIn(exits[1..], all, x.direction, x.target);
        var k :| 0 <= k < |exits[1..]| && exits[1..][k] == Member(x.direction, x.target) && !Resolves(all, x.target);
        assert exits[k + 1].key == x.direction;
      }
    }
  }

  /** The members of a location's `exits` value, when it has one. */
  function ExitMembers(location: Json): seq<Member> {
    MembersOf(Get(location, "exits").GetOr(JNull))
  }

  /**
    The `if "exits" in location:` block: the exits that lead nowhere, when
    the location has any. A location that is a list or str holding
    "exits" cannot be indexed by it, and exits that are no dict have no
    `items()`.
   */
  function LocationExitIssues(locId: string, location: Json, all: Json): (r: PyResult<seq<Issue>>)
    requires all.JObject?
    ensures !IsContainer(location) ==> r.Raises?
    ensures location.JObject? ==>
              (r.Raises? <==> (Get(location, "exits").Some? &&
                (!Get(location, "exits").value.JObject? || SomeUnhashable(ExitMembers(location)))))
    ensures r.Ok? ==> forall d, t :: DanglingExit(locId, d, t) in r.value <==>
              location.JObject? && DanglingIn(ExitMembers(location), all, d, t)
    ensures r.Ok? ==> forall i :: 0 <= i < |r.value| ==> r.value[i].DanglingExit? && r.value[i].location == locId
  {
    match Contains(location, JString("exits"))
    case Raises => Raises
    case Ok(false) => Ok([])
    case Ok(true) =>
      match Index(location, "exits")
      case Raises => Raises
      case Ok(exits) =>
        match Items(exits)
        case Raises => Raises
        case Ok(members) => ExitIssues(locId, members, all)
  }

  /**
    `_validate_location`: the absent required keys, then, when the location
    has `exits`, the exits that lead nowhere.
   */
  function ValidateLocation(locId: string, location: Json, all: Json): (r: PyResult<seq<Issue>>)
    requires all.JObject?
    ensures r.Raises? <==> MissingKeys(LOCATION_KEYS, location, LocationBlock(locId)).Raises? || LocationExitIssues(locId, location, all).Raises?
    ensures r.Ok? ==> forall k :: MissingKey(LocationBlock(locId), k) in r.value <==>
              k in LOCATION_KEYS && Contains(location, JString(k)) == Ok(false)
    ensures r.Ok? ==> forall d, t :: DanglingExit(locId, d, t) in r.value <==>
              location.JObject? && DanglingIn(ExitMembers(location), all, d, t)
    ensures r.Ok? ==> forall i :: 0 <= i < |r.value| ==>
              (r.value[i].MissingKey? && r.value[i].section == LocationBlock(locId)) ||
              (r.value[i].DanglingExit? && r.value[i].location == locId)
  {
    match MissingKeys(LOCATION_KEYS, location, LocationBlock(locId))
    case Raises => Raises
    case Ok(missing) =>
      match LocationExitIssues(locId, location, all)
      case Raises => Raises
      case Ok(dangling) => Ok(missing + dangling)
  }

  /** Some location of `entries` reports `x`. */
  predicate SomeLocationReports(entries: seq<Member>, all: Json, x: Issue)
    requires all.JObject?
  {
    exists i :: 0 <= i < |entries| && ValidateLocation(entries[i].key, entries[i].value, all).Ok? &&
      x in ValidateLocation(entries[i].key, entries[i].value, all).value
  }

  /** The location loop of `validate_game_data`, over `locations.items()` in order. */
  function ValidateLocations(entries: seq<Member>, all: Json): (r: PyResult<seq<Issue>>)
    requires all.JObject?
    ensures r.Raises? <==> SomeLocationRaises(entries, all)
    ensures r.Ok? ==> forall x :: x in r.value <==> SomeLocationReports(entries, all, x)
    ensures r.Ok? ==> forall x :: x in r.value ==> (x.MissingKey? && x.section.LocationBlock?) || x.DanglingExit?
    decreases |entries|
  {
    if entries == [] then Ok([])
    else
      RaisesCons(entries, all);
      match ValidateLocation(entries[0].key, entries[0].value, all)
      case Raises => Raises
      case Ok(first) =>
        match ValidateLocations(entries[1..], all)
        case Raises => Raises
        case Ok(rest) =>
          LocationsCons(entries, all, first, rest);
          Ok(first + rest)
  }

  /** Some location of `entries` makes `_validate_location` raise. */
  predicate SomeLocationRaises(entries: seq<Member>, all: Json)
    requires all.JObject?
  {
    exists i :: 0 <= i < |entries| && ValidateLocation(entries[i].key, entries[i].value, all).Raises?
  }

  /** Some location raises exactly when the first one does or one of the others does. */
  lemma RaisesCons(entries: seq<Member>, all: Json)
    requires all.JObject? && entries != []
    ensures SomeLocationRaises(entries, all) <==>
              ValidateLocation(entries[0].key, entries[0].value, all).Raises? || SomeLocationRaises(entries[1..], all)
  {
    if SomeLocationRaises(entries[1..], all) {
      var j :| 0 <= j < |entries[1..]| && ValidateLocation(entries[1..][j].key, entries[1..][j].value, all).Raises?;
      assert entries[j + 1] == entries[1..][j];
    }
    if SomeLocationRaises(entries, all) {
      var i :| 0 <= i < |entries| && ValidateLocation(entries[i].key, entries[i].value, all).Raises?;
      if i > 0 {
        assert entries[1..][i - 1] == entries[i];
      }
    }
  }

  /** The issues of the first location followed by those of the others are the issues of all of them. */
  lemma LocationsCons(entries: seq<Member>, all: Json, first: seq<Issue>, rest: seq<Issue>)
    requires all.JObject? && entries != []
    requires ValidateLocation(entries[0].key, entries[0].value, all) == Ok(first)
    requires forall x :: x in rest <==> SomeLocationReports(entries[1..], all, x)
    ensures forall x :: x in first + rest <==> SomeLocationReports(entries, all, x)
  {
    forall x | x in first
      ensures SomeLocationReports(entries, all, x)
    {
      assert ValidateLocation(entries[0].key, entries[0].value, all).Ok? &&
        x in ValidateLocation(entries[0].key, entries[0].value, all).value;
    }
    forall x | x in rest
      ensures SomeLocationReports(entries, all, x)
    {
      var j :| 0 <= j < |entries[1..]| && ValidateLocation(entries[1..][j].key, entries[1..][j].value, all).Ok? &&
        x in ValidateLocation(entries[1..][j].key, entries[1..][j].value, all).value;
      assert entries[j + 1] == entries[1..][j];
      assert ValidateLocation(entries[j + 1].key, entries[j + 1].value, all).Ok? &&
        x in ValidateLocation(entries[j + 1].key, entries[j + 1].value, all).value;
    }
    forall x | SomeLocationReports(entries, all, x)
      ensures x in first || SomeLocationReports(entries[1..], all, x)
    {
      var i :| 0 <= i < |entries| && ValidateLocation(entries[i].key, entries[i].value, all).Ok? &&
        x in ValidateLocation(entries[i].key, entries[i].value, all).value;
      if i > 0 {
        assert entries[1..][i - 1] == entries[i];
      }
    }
  }

  /**
    `if start_location not in locations`: the start must be a key of the
    locations dict. A list or dict start cannot be looked up there.
   */
  function StartIssues(start: Json, locations: Json): (r: PyResult<seq<Issue>>)
    ensures r.Raises? <==> Contains(locations, start).Raises?
    ensures locations.JObject? ==> (r.Raises? <==> !Hashable(start))
    ensures locations.JObject? && r.Ok? ==> (r.value == [] <==> Resolves(locations, start))
    ensures r.Ok? ==> forall x :: x in r.value ==> x == StartNotFound(start)
  {
    match Contains(locations, start)
    case Raises => Raises
    case Ok(found) => Ok(if found then [] else [StartNotFound(start)])
  }

  /**
    `if "current_location" in player and player["current_location"] not in
    locations`: checked only when the player block has the key.
   */
  function CurrentIssues(player: Json, locations: Json): (r: PyResult<seq<Issue>>)
    ensures player.JObject? && Get(player, "current_location").None? ==> r == Ok([])
    ensures player.JObject? && locations.JObject? && Get(player, "current_location").Some? ==>
              var current := Get(player, "current_location").value;
              (r.Raises? <==> !Hashable(current)) &&
              (r.Ok? ==> (r.value == [] <==> Resolves(locations, current))) &&
              (r.Ok? ==> forall x :: x in r.value ==> x == CurrentNotFound(current))
    ensures r.Ok? ==> forall x :: x in r.value ==> x.CurrentNotFound?
  {
    match Contains(player, JString("current_location"))
    case Raises => Raises
    case Ok(false) => Ok([])
    case Ok(true) =>
      match Index(player, "current_location")
      case Raises => Raises
      case Ok(current) =>
        match Contains(locations, current)
        case Raises => Raises
        case Ok(found) => Ok(if found then [] else [CurrentNotFound(current)])
  }

  /**
    Two checks run one after the other: their issues in order, or the
    exception of whichever raises. With every exception collapsed into
    `Raises`, and the checks only reading their input, it does not matter
    which of the two raised first.
   */
  function Then(first: PyResult<seq<Issue>>, second: PyResult<seq<Issue>>): (r: PyResult<seq<Issue>>)
    ensures r.Raises? <==> first.Raises? || second.Raises?
    ensures r.Ok? ==> forall x :: x in r.value <==> x in first.value || x in second.value
    ensures r == Ok([]) <==> first == Ok([]) && second == Ok([])
  {
    match first
    case Raises => Raises
    case Ok(a) =>
      match second
      case Raises => Raises
      case Ok(b) =>
        assert |a + b| == |a| + |b|;
        Ok(a + b)
  }

  /** `meta = game_data["meta"]` and its required keys. */
  function MetaStage(data: Json): PyResult<seq<Issue>> {
    match Index(data, "meta")
    case Raises => Raises
    case Ok(meta) => MissingKeys(META_KEYS, meta, Meta)
  }

  /** The start location check, then `_validate_location` over `locations.items()`. */
  function LocationStage(data: Json): PyResult<seq<Issue>> {
    match (Index(data, "start_location"), Index(data, "locations"))
    case (Ok(start), Ok(locations)) =>
      if locations.JObject? then Then(StartIssues(start, locations), ValidateLocations(locations.members, locations))
      else Raises
    case _ => Raises
  }

  /** `player = game_data["player"]`, its required keys and its current location. */
  function PlayerStage(data: Json): PyResult<seq<Issue>> {
    match (Index(data, "player"), Index(data, "locations"))
    case (Ok(player), Ok(locations)) =>
      Then(MissingKeys(PLAYER_KEYS, player, PlayerBlock), CurrentIssues(player, locations))
    case _ => Raises
  }

  /** The checks that run once every top-level key is present, in the validator's order. */
  function ValidatePresent(data: Json): PyResult<seq<Issue>> {
    Then(MetaStage(data), Then(LocationStage(data), PlayerStage(data)))
  }

  /** Every key of `keys` is found in `container`. */
  predicate AllPresent(container: Json, keys: seq<string>) {
    forall k :: k in keys ==> Contains(container, JString(k)) == Ok(true)
  }

  /** On a container the missing-key loop returns, and returns nothing exactly when every key is there. */
  lemma {:induction false} MissingKeysNoneIffAllPresent(keys: seq<string>, container: Json, section: Section)
    ensures IsContainer(container) ==> MissingKeys(keys, container, section).Ok?
    ensures IsContainer(container) ==> (MissingKeys(keys, container, section).value == [] <==> AllPresent(container, keys))
    decreases |keys|
  {
    if IsContainer(container) && keys != [] {
      MissingKeysNoneIffAllPresent(keys[1..], container, section);
      AllPresentCons(container, keys);
      assert Contains(container, JString(keys[0])).Ok?;
    }
  }

  /** Every key is present exactly when the first one is and the rest all are. */
  lemma AllPresentCons(container: Json, keys: seq<string>)
    requires keys != []
    ensures AllPresent(container, keys) <==>
              Contains(container, JString(keys[0])) == Ok(true) && AllPresent(container, keys[1..])
  {
    assert forall k :: k in keys <==> k == keys[0] || k in keys[1..];
  }

  /**
    `validate_game_data`: when a top-level key is absent the result is
    exactly the missing-key issues and nothing else is looked at;
    otherwise meta, start location, every location and the player are
    checked in that order.
   */
  function ValidateGameData(data: Json): (r: PyResult<seq<Issue>>)
    ensures !IsContainer(data) ==> r.Raises?
    ensures IsContainer(data) && !AllPresent(data, TOP_LEVEL_KEYS) ==>
              r.Ok? && r.value != [] &&
              (forall i :: 0 <= i < |r.value| ==> r.value[i].MissingKey? && r.value[i].section == TopLevel) &&
              (forall k :: MissingKey(TopLevel, k) in r.value <==> k in TOP_LEVEL_KEYS && Contains(data, JString(k)) == Ok(false))
    ensures IsContainer(data) && AllPresent(data, TOP_LEVEL_KEYS) ==> r == ValidatePresent(data)
  {
    MissingKeysNoneIffAllPresent(TOP_LEVEL_KEYS, data, TopLevel);
    var missing :- MissingKeys(TOP_LEVEL_KEYS, data, TopLevel);
    if missing != [] then Ok(missing)
    else ValidatePresent(data)
  }
}
