/**
  The engine's records (adventure_engine.h, identical in both engine
  variants). Every fixed-size C array paired with a `*_count` is a
  sequence whose length is the count; parallel name/value flag arrays that
  share one count are a sequence of `Flag` pairs.
 */
module GameTypes {
  import opened CString

  const MAX_STRING_LENGTH: nat := 256
  const MAX_DESCRIPTION_LENGTH: nat := 1024
  const MAX_EXITS: nat := 8
  const MAX_ITEMS: nat := 32
  const MAX_LOCATIONS: nat := 256
  const MAX_INVENTORY_ITEMS: nat := 64
  const MAX_FLAGS: nat := 128

  /** Byte size of every id buffer: location ids, exit targets, item ids, flag names, the player's location. */
  const ID_SIZE: nat := 64
  /** Byte size of `Exit.direction` and `GameMeta.version`. */
  const SHORT_SIZE: nat := 32

  /** A direction and the id of the location it leads to; the id is a name and may name no location. */
  datatype Exit = Exit(direction: string, target: string)

  /** One entry of a flag table: the name and its boolean value. */
  datatype Flag = Flag(name: string, value: bool)

  datatype Location = Location(
    id: string,
    title: string,
    description: string,
    imagePath: string,
    firstVisitText: string,
    visited: bool,
    exits: seq<Exit>,
    items: seq<string>,
    flagsRequired: seq<Flag>,
    flagsSet: seq<Flag>)

  datatype InventoryItem = InventoryItem(
    id: string,
    name: string,
    description: string,
    takeable: bool,
    useable: bool,
    useText: string)

  datatype GameMeta = GameMeta(title: string, author: string, description: string, version: string)

  datatype Player = Player(inventory: seq<string>, currentLocation: string, flags: seq<Flag>)

  datatype GameState = GameState(
    meta: GameMeta,
    startLocation: string,
    locations: seq<Location>,
    inventoryItems: seq<InventoryItem>,
    gameFlags: seq<Flag>,
    player: Player)

  predicate FlagTableWellFormed(flags: seq<Flag>) {
    && |flags| <= MAX_FLAGS
    && forall i :: 0 <= i < |flags| ==> Fits(flags[i].name, ID_SIZE)
  }

  predicate ExitWellFormed(e: Exit) {
    Fits(e.direction, SHORT_SIZE) && Fits(e.target, ID_SIZE)
  }

  /** Counts within their capacities; ids, targets and item ids within their buffers. */
  predicate LocationWellFormed(l: Location) {
    && Fits(l.id, ID_SIZE)
    && |l.exits| <= MAX_EXITS
    && (forall i :: 0 <= i < |l.exits| ==> ExitWellFormed(l.exits[i]))
    && |l.items| <= MAX_ITEMS
    && (forall i :: 0 <= i < |l.items| ==> Fits(l.items[i], ID_SIZE))
    && FlagTableWellFormed(l.flagsRequired)
    && FlagTableWellFormed(l.flagsSet)
  }

  predicate PlayerWellFormed(p: Player) {
    && |p.inventory| <= MAX_INVENTORY_ITEMS
    && (forall i :: 0 <= i < |p.inventory| ==> Fits(p.inventory[i], ID_SIZE))
    && Fits(p.currentLocation, ID_SIZE)
    && FlagTableWellFormed(p.flags)
  }

  /** Every count of the state within 0..MAX and every id within its 64-byte buffer. */
  predicate WellFormed(g: GameState) {
    && Fits(g.startLocation, ID_SIZE)
    && |g.locations| <= MAX_LOCATIONS
    && (forall i :: 0 <= i < |g.locations| ==> LocationWellFormed(g.locations[i]))
    && |g.inventoryItems| <= MAX_INVENTORY_ITEMS
    && (forall i :: 0 <= i < |g.inventoryItems| ==> Fits(g.inventoryItems[i].id, ID_SIZE))
    && FlagTableWellFormed(g.gameFlags)
    && PlayerWellFormed(g.player)
  }
}
