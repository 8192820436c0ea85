/**
  The game-state operations of adventure_engine.c: lookups, movement,
  inventory and flags. Both engine variants carry the same text for these
  operations, so they are modelled once. A C pointer into the location
  table is the slot index it points to; every mutator is a pure function
  returning whether it reported success and the state after it.
 */
module Engine {
  import opened Collections
  import opened CString
  import opened GameTypes

  /** The bool a mutator returns, and the state it leaves behind. */
  datatype Outcome = Outcome(ok: bool, game: GameState)

  // ---------------------------------------------------------------------
  // First-match positions, stated independently of the search that finds them.

  ghost predicate FirstLocation(g: GameState, id: string, i: int) {
    && 0 <= i < |g.locations|
    && StrEq(g.locations[i].id, id)
    && forall j :: 0 <= j < i ==> !StrEq(g.locations[j].id, id)
  }

  ghost predicate FirstExit(l: Location, direction: string, k: int) {
    && 0 <= k < |l.exits|
    && StrCaseEq(l.exits[k].direction, direction)
    && forall j :: 0 <= j < k ==> !StrCaseEq(l.exits[j].direction, direction)
  }

  ghost predicate FirstItem(inventory: seq<string>, id: string, i: int) {
    && 0 <= i < |inventory|
    && StrEq(inventory[i], id)
    && forall j :: 0 <= j < i ==> !StrEq(inventory[j], id)
  }

  ghost predicate FirstFlag(flags: seq<Flag>, name: string, i: int) {
    && 0 <= i < |flags|
    && StrEq(flags[i].name, name)
    && forall j :: 0 <= j < i ==> !StrEq(flags[j].name, name)
  }

  /** No entry of the table is named `name`. */
  predicate NoFlag(flags: seq<Flag>, name: string) {
    forall i :: 0 <= i < |flags| ==> !StrEq(flags[i].name, name)
  }

  // ---------------------------------------------------------------------
  // Lookups

  /** get_location_by_id: the slot of the first location whose id is `id`. */
  function LocationById(g: GameState, id: string): (r: Option<nat>)
    ensures r.Some? ==> FirstLocation(g, id, r.value)
    ensures r.None? <==> forall i :: 0 <= i < |g.locations| ==> !StrEq(g.locations[i].id, id)
  {
    FindFirst(g.locations, (l: Location) => StrEq(l.id, id))
  }

  /** get_current_location: the slot named by the player's current location. */
  function CurrentLocation(g: GameState): (r: Option<nat>)
    ensures r.Some? ==> FirstLocation(g, g.player.currentLocation, r.value)
    ensures r.None? <==> forall i :: 0 <= i < |g.locations| ==> !StrEq(g.locations[i].id, g.player.currentLocation)
  {
    LocationById(g, g.player.currentLocation)
  }

  /** The exit of `l` that strcasecmp matches against `direction` first. */
  function ExitIndex(l: Location, direction: string): (r: Option<nat>)
    ensures r.Some? ==> FirstExit(l, direction, r.value)
    ensures r.None? <==> forall k :: 0 <= k < |l.exits| ==> !StrCaseEq(l.exits[k].direction, direction)
  {
    FindFirst(l.exits, (e: Exit) => StrCaseEq(e.direction, direction))
  }

  // ---------------------------------------------------------------------
  // Movement

  /** The player took exit `k` of location `c` and it resolved to slot `t`. */
  ghost predicate MoveRoute(g: GameState, direction: string, c: int, k: int, t: int) {
    && FirstLocation(g, g.player.currentLocation, c)
    && FirstExit(g.locations[c], direction, k)
    && FirstLocation(g, g.locations[c].exits[k].target, t)
  }

  /**
    The state after a successful move through an exit naming `target`,
    resolved to slot `t`: the player's location becomes the (copied)
    target id and that location is marked visited; nothing else changes.
   */
  function Arrive(g: GameState, t: nat, target: string): GameState
    requires t < |g.locations|
  {
    g.(player := g.player.(currentLocation := SafeCopy(Some(target), ID_SIZE)),
       locations := g.locations[t := g.locations[t].(visited := true)])
  }

  /**
    move_player: take the first exit of the current location whose
    direction matches ignoring ASCII case. It fails, changing nothing, when
    the current location does not resolve, no exit matches, or the matched
    exit's target names no location; later exits in the same direction are
    never consulted.
   */
  function MovePlayer(g: GameState, direction: string): (r: Outcome)
    ensures r.ok <==> exists c, k, t :: MoveRoute(g, direction, c, k, t)
    ensures !r.ok ==> r.game == g
    ensures forall c, k, t :: MoveRoute(g, direction, c, k, t) ==>
              r.game == Arrive(g, t, g.locations[c].exits[k].target)
  {
    forall c, k, t { RouteLookups(g, direction, c, k, t); }
    match CurrentLocation(g)
    case None => Outcome(false, g)
    case Some(c) =>
      match ExitIndex(g.locations[c], direction)
      case None => Outcome(false, g)
      case Some(k) =>
        var target := g.locations[c].exits[k].target;
        match LocationById(g, target)
        case None => Outcome(false, g)
        case Some(t) =>
          assert MoveRoute(g, direction, c, k, t);
          Outcome(true, Arrive(g, t, target))
  }

  /** A route is exactly what the three lookups of move_player find. */
  lemma RouteLookups(g: GameState, direction: string, c: int, k: int, t: int)
    ensures MoveRoute(g, direction, c, k, t) ==>
              && CurrentLocation(g) == Some(c)
              && ExitIndex(g.locations[c], direction) == Some(k)
              && LocationById(g, g.locations[c].exits[k].target) == Some(t)
  {
    if MoveRoute(g, direction, c, k, t) {
      FirstLocationUnique(g, g.player.currentLocation, c, CurrentLocation(g).value);
      FirstExitUnique(g.locations[c], direction, k, ExitIndex(g.locations[c], direction).value);
      FirstLocationUnique(g, g.locations[c].exits[k].target, t, LocationById(g, g.locations[c].exits[k].target).value);
    }
  }

  lemma FirstLocationUnique(g: GameState, id: string, i: int, i': int)
    requires FirstLocation(g, id, i) && FirstLocation(g, id, i')
    ensures i == i'
  {
  }

  lemma FirstExitUnique(l: Location, direction: string, k: int, k': int)
    requires FirstExit(l, direction, k) && FirstExit(l, direction, k')
    ensures k == k'
  {
  }

  // ---------------------------------------------------------------------
  // Inventory

  /** has_item: some inventory entry equals `id`. */
  function HasItem(g: GameState, id: string): (r: bool)
    ensures r <==> exists i :: 0 <= i < |g.player.inventory| && StrEq(g.player.inventory[i], id)
  {
    FindFirst(g.player.inventory, (s: string) => StrEq(s, id)).Some?
  }

  /**
    add_item_to_inventory: refuse when the inventory is full (tested
    first) or already holds `id`; otherwise append the copied id at the end.
   */
  function AddItem(g: GameState, id: string): (r: Outcome)
    ensures r.ok <==> |g.player.inventory| < MAX_INVENTORY_ITEMS && !HasItem(g, id)
    ensures !r.ok ==> r.game == g
    ensures r.ok ==> r.game == g.(player := g.player.(inventory := g.player.inventory + [SafeCopy(Some(id), ID_SIZE)]))
  {
    if |g.player.inventory| >= MAX_INVENTORY_ITEMS then Outcome(false, g)
    else if HasItem(g, id) then Outcome(false, g)
    else
      var inventory := g.player.inventory + [SafeCopy(Some(id), ID_SIZE)];
      Outcome(true, g.(player := g.player.(inventory := inventory)))
  }

  /**
    remove_item_from_inventory: delete the first entry equal to `id`,
    shifting the later entries down one place; fail, changing nothing,
    when there is none.
   */
  function RemoveItem(g: GameState, id: string): (r: Outcome)
    ensures r.ok <==> HasItem(g, id)
    ensures !r.ok ==> r.game == g
    ensures forall i :: FirstItem(g.player.inventory, id, i) ==>
              r.game == g.(player := g.player.(inventory := g.player.inventory[..i] + g.player.inventory[i + 1..]))
  {
    var inventory := g.player.inventory;
    match FindFirst(inventory, (s: string) => StrEq(s, id))
    case None => Outcome(false, g)
    case Some(i) =>
      assert forall i' :: FirstItem(inventory, id, i') ==> i' == i;
      Outcome(true, g.(player := g.player.(inventory := inventory[..i] + inventory[i + 1..])))
  }

  // ---------------------------------------------------------------------
  // Flags

  /** The slot of the first entry of `flags` named `name`. */
  function FlagIndex(flags: seq<Flag>, name: string): (r: Option<nat>)
    ensures r.Some? ==> FirstFlag(flags, name, r.value)
    ensures r.None? <==> NoFlag(flags, name)
  {
    FindFirst(flags, (f: Flag) => StrEq(f.name, name))
  }

  /** get_flag: the player's entry if there is one, else the game's, else false. */
  function GetFlag(g: GameState, name: string): (r: bool)
    ensures forall i :: FirstFlag(g.player.flags, name, i) ==> r == g.player.flags[i].value
    ensures NoFlag(g.player.flags, name) ==>
              forall i :: FirstFlag(g.gameFlags, name, i) ==> r == g.gameFlags[i].value
    ensures NoFlag(g.player.flags, name) && NoFlag(g.gameFlags, name) ==> !r
  {
    match FlagIndex(g.player.flags, name)
    case Some(i) =>
      assert forall i' :: FirstFlag(g.player.flags, name, i') ==> i' == i;
      g.player.flags[i].value
    case None =>
      match FlagIndex(g.gameFlags, name)
      case Some(i) =>
        assert forall i' :: FirstFlag(g.gameFlags, name, i') ==> i' == i;
        g.gameFlags[i].value
      case None => false
  }

  /** set_flag does not drop the write: the name exists in a scope, or the player table has room. */
  predicate SetFlagStores(g: GameState, name: string) {
    !NoFlag(g.player.flags, name) || !NoFlag(g.gameFlags, name) || |g.player.flags| < MAX_FLAGS
  }

  /**
    set_flag: overwrite the player's entry if there is one, else the
    game's; otherwise append a player entry when the table has room, and
    silently drop the write when it does not.
   */
  function SetFlag(g: GameState, name: string, value: bool): (r: GameState)
    ensures forall i :: FirstFlag(g.player.flags, name, i) ==>
              r == g.(player := g.player.(flags := g.player.flags[i := g.player.flags[i].(value := value)]))
    ensures NoFlag(g.player.flags, name) ==>
              forall i :: FirstFlag(g.gameFlags, name, i) ==>
                r == g.(gameFlags := g.gameFlags[i := g.gameFlags[i].(value := value)])
    ensures NoFlag(g.player.flags, name) && NoFlag(g.gameFlags, name) && |g.player.flags| < MAX_FLAGS ==>
              r == g.(player := g.player.(flags := g.player.flags + [Flag(SafeCopy(Some(name), ID_SIZE), value)]))
    ensures !SetFlagStores(g, name) ==> r == g
  {
    match FlagIndex(g.player.flags, name)
    case Some(i) =>
      assert forall i' :: FirstFlag(g.player.flags, name, i') ==> i' == i;
      g.(player := g.player.(flags := g.player.flags[i := g.player.flags[i].(value := value)]))
    case None =>
      match FlagIndex(g.gameFlags, name)
      case Some(i) =>
        assert forall i' :: FirstFlag(g.gameFlags, name, i') ==> i' == i;
        g.(gameFlags := g.gameFlags[i := g.gameFlags[i].(value := value)])
      case None =>
        if |g.player.flags| < MAX_FLAGS then
          g.(player := g.player.(flags := g.player.flags + [Flag(SafeCopy(Some(name), ID_SIZE), value)]))
        else
          g
  }

  /** The required pairs from the front: each must equal the current flag value. */
  function RequirementsMet(g: GameState, required: seq<Flag>): (r: bool)
    ensures r <==> forall i :: 0 <= i < |required| ==> GetFlag(g, required[i].name) == required[i].value
    decreases |required|
  {
    if |required| == 0 then true
    else if GetFlag(g, required[0].name) != required[0].value then false
    else
      var rest := RequirementsMet(g, required[1..]);
      assert forall i :: 1 <= i < |required| ==> required[i] == required[1..][i - 1];
      rest
  }

  /**
    check_location_requirements: a location (a NULL one is `None`) is
    accessible iff every required flag currently has its required value.
   */
  function CheckLocationRequirements(g: GameState, location: Option<Location>): (r: bool)
    ensures location.None? ==> r
    ensures location.Some? ==>
              (r <==> forall i :: 0 <= i < |location.value.flagsRequired| ==>
                        GetFlag(g, location.value.flagsRequired[i].name) == location.value.flagsRequired[i].value)
  {
    match location
    case None => true
    case Some(l) => RequirementsMet(g, l.flagsRequired)
  }
}
