# AdventureGPT core, modelled in Dafny

AdventureGPT has two halves that share one JSON game format (`.advgpt`). A C engine loads a game and plays it. A Python editor writes games and checks them.

This project models four parts:

- **The engine's game state and its operations** (`engine/src/adventure_engine.c`, with the same code in the legacy `engine/adventure_engine.c`):
  - looking up locations;
  - moving the player through an exit;
  - the inventory;
  - the player and world flags;
  - the location-requirement check;
  - the truncating `safe_strcpy`.
- **The loaders**, which map a JSON document to a `GameState`. There are two variants: the json-c one (`engine/src/`) and the cJSON one (`engine/`). Both work over an abstract JSON value, with the tokenisers left out.
- **The command line of the SDL front end** (`engine/main.c`): how `handle_input` dispatches a line, and how Return and Backspace edit the line being typed.
- **The editor's format module** (`editor/advgpt_format.py`): the validator `validate_game_data` with `_validate_location`, and the constructors `create_empty_game`, `create_location` and `create_item`.

Files and modules:

| file | module | contents |
|---|---|---|
| collections.dfy | Collections | `Option`, first-match search, and the capped fill loop `Collect` with its closed form |
| cstring.dfy | CString | NUL-terminated contents, `safe_strcpy`, `strcmp`, `strcasecmp`, `strncmp`, `strchr` |
| json.dfy | Json | the JSON value; exact-key lookup (json-c) and ASCII-caseless lookup (cJSON) |
| game_types.dfy | GameTypes | the header's records and `MAX_*` constants; the well-formedness invariant |
| engine.dfy | Engine | movement, inventory, flags and requirements, as pure transitions returning `(ok, state)` |
| engine_props.dfy | EngineProps | invariants kept, round trips, and flag read-back |
| loader.dfy, legacy_loader.dfy | Loader, LegacyLoader | `load_game`, `parse_location` and `parse_inventory_item` in both variants |
| loader_props.dfy | LoaderProps | what loading guarantees, and where the two loaders differ |
| commands.dfy | Commands | `handle_input` and the Return/Backspace rules |
| advgpt_format.dfy | Format | the validator with Python's `in`, indexing and `.items()`, and the constructors |
| advgpt_props.dfy | FormatProps | what the validator accepts and reports, and the constructors checked against both validator and loader |
| findings.dfy | Findings | the long-id discrepancy, as written and corrected |

Modelling choices:

- Strings are `seq<char>`, one char per C byte.
- Every C string comparison is taken on the contents before the first NUL (`CStr`).
- Text fields are cut by `safe_strcpy` to their real buffer sizes:
  - 64 bytes for ids;
  - 32 for directions and the version;
  - 256 for titles;
  - 1024 for descriptions.
- A JSON object is the sequence of its members in document order.
- Mutators return an `Outcome(ok, game)`. A failed call returns the state unchanged.
- The Python constructors keep their default arguments as Dafny parameter defaults, so `CreateLocation(id, title, description)` is `create_location(id, title, description)`.
- In the Python validator every exception becomes one outcome, `Raises`. A clean run is `Ok(issues)`, where `Issue` records what each error message says.

The model follows the code in two places:

- **Lookup in the cJSON loader.** `cJSON_GetObjectItem` matches keys ignoring ASCII case, so the legacy loader uses a caseless lookup (`Json.GetCaseless`). The json-c loader matches exactly.
- **JSON null.** json-c represents null as a NULL pointer, so a null location or item is skipped and a `null` document does not load. cJSON keeps nulls.

## Model

| member | source | states |
|---|---|---|
| CString.SafeCopy | engine/src/adventure_engine.c:8-15 | the copy is the first min(len, size-1) bytes of the source's contents; a NULL source gives "" |
| CString.SafeCopyFits | engine/src/adventure_engine.c:8-15 | the copy always fits its buffer: NUL-free and shorter than `size` |
| CString.SafeCopyOfFitting | engine/src/adventure_engine.c:8-15 | a string that already fits is copied unchanged |
| CString.SafeCopyIdempotent | engine/src/adventure_engine.c:8-15 | copying a copy changes nothing |
| CString.SafeCopyIsCopiedInto | engine/src/adventure_engine.c:8-15 | the copy is exactly the string that is empty for NULL and otherwise the longest prefix of the source's contents that fits the buffer |
| CString.AfterFirstSpace | engine/main.c:263 | `strchr(input, ' ') + 1`: the text after the first space, when there is a space |
| Json.Get | engine/src/adventure_engine.c:100 | json-c lookup: nothing exactly when no member has the key; otherwise the first member's value |
| Json.GetCaseless | engine/adventure_engine.c:80 | cJSON lookup: the first member whose key matches ignoring ASCII case |
| Json.GetFirstMatch | engine/src/adventure_engine.c:100 | the lookup returns the first member carrying the key |
| Collections.CollectIsTruncatedSomes | engine/src/adventure_engine.c:127-135 | the capped fill loop keeps the accepted entries in order, cut at the capacity |
| Collections.CollectFrom | engine/src/adventure_engine.c:105-116 | every stored entry comes from some input element that the parser accepts |
| Collections.CollectTotal | engine/adventure_engine.c:84-92 | when every element is accepted, the fill keeps min(count, cap) entries, each the parse of the element at its position |
| Collections.CollectAgree | engine/adventure_engine.c:84-92 | two parsers that agree on every element fill identical arrays |
| Loader.GetJsonString | engine/src/adventure_engine.c:47-55 | a text exactly when the member exists and is a string |
| Loader.GetJsonBool | engine/src/adventure_engine.c:58-66 | true exactly when the member is the boolean true |
| Loader.ParseLocation | engine/src/adventure_engine.c:69-140 | a null value is refused; the id is the key, cut to 64 bytes; visited only from a true boolean; no flag tables |
| Loader.ParseInventoryItem | engine/src/adventure_engine.c:143-167 | a null value is refused; the id is the key; takeable and useable only from true booleans |
| Loader.ParseMeta | engine/src/adventure_engine.c:190-212 | each meta text is the document's string cut to its buffer (256, 256, 1024, 32 bytes), and empty when the block or the string is missing |
| Loader.ParsePlayer | engine/src/adventure_engine.c:254-289 | the player stands on `current_location` cut to 64 bytes when that is a string, else on the start location; the inventory is the first MAX_INVENTORY_ITEMS string entries of `inventory`, empty when that is no array; player flags stay empty |
| Loader.LoadGame | engine/src/adventure_engine.c:169-293 | no game exactly for a tokenizer failure or a null document; flags start empty; the player falls back to the start location |
| LoaderProps.LoadWellFormed | engine/src/adventure_engine.c:169-293 | every loaded state keeps each count within its MAX and every id within 63 bytes |
| LoaderProps.LocationsAreFirstNonNullMembers | engine/src/adventure_engine.c:221-235 | the locations are the non-null members in document order, cut at MAX_LOCATIONS |
| LoaderProps.LocationOrigin | engine/src/adventure_engine.c:227-233 | each stored location comes from a non-null member whose key is its id |
| LoaderProps.ExitsAreFirstStringMembers | engine/src/adventure_engine.c:99-118 | the exits are the string-valued members in order, cut at MAX_EXITS |
| LoaderProps.ExitOrigin | engine/src/adventure_engine.c:105-116 | each stored exit has its direction from a member's key and its target from that member's string |
| LoaderProps.IdListsAreFirstStrings | engine/src/adventure_engine.c:269-284 | item lists and the inventory keep only string entries, in order, up to the cap; both loaders share this entry rule (`Loader.IdEntry`) |
| LoaderProps.IdOrigin | engine/src/adventure_engine.c:127-135 | each stored id is the bounded text of a string entry |
| LoaderProps.ParsedLocationWellFormed | engine/src/adventure_engine.c:69-140 | a parsed location keeps its exits and items within capacity and its ids within buffers |
| LoaderProps.ParsedPlayerWellFormed | engine/src/adventure_engine.c:254-289 | the parsed player is well formed |
| LoaderProps.LoadedLocationsPassRequirements | engine/src/adventure_engine.c:447-459 | every loaded location passes the requirement check, because the loader never fills `flags_required` |
| LegacyLoader.GetString | engine/adventure_engine.c:53-56 | a text exactly when the caselessly found member is a string |
| LegacyLoader.GetBool | engine/adventure_engine.c:74-77 | true exactly when the caselessly found member is the boolean true; otherwise the zeroed false |
| LegacyLoader.ParseLocation | engine/adventure_engine.c:47-111 | the id is the key; visited only from a true boolean; no flag tables |
| LegacyLoader.ParseInventoryItem | engine/adventure_engine.c:114-145 | takeable and useable only from true booleans |
| LegacyLoader.ParseMeta | engine/adventure_engine.c:168-190 | as in the json-c loader, with the block and its strings found ignoring case |
| LegacyLoader.ParsePlayer | engine/adventure_engine.c:226-257 | as in the json-c loader, with keys found ignoring case; a `null` player block counts as missing |
| LegacyLoader.LoadGame | engine/adventure_engine.c:147-261 | only a tokenizer failure fails; the player's location falls back to the start location |
| LoaderProps.LegacyLoadWellFormed | engine/adventure_engine.c:147-261 | every state the cJSON loader builds is well formed |
| LoaderProps.LegacyExitsKeepEveryMember | engine/adventure_engine.c:80-93 | every exits member becomes an exit up to MAX_EXITS; a non-string target becomes "" |
| LoaderProps.LegacyLocationsKeepEveryMember | engine/adventure_engine.c:199-210 | every locations member becomes a location, null or not, up to MAX_LOCATIONS |
| LoaderProps.ExitFillsAgreeOnStringTargets | engine/adventure_engine.c:80-93 | when every target is a string, the two loaders fill the same exits |
| LoaderProps.NonStringTargetDiffers | engine/adventure_engine.c:87-90 | a numeric target: json-c skips the exit, cJSON keeps it with an empty target |
| LoaderProps.NullDocumentDiffers | engine/src/adventure_engine.c:175-181 | the document `null` does not load in json-c but loads empty in cJSON |
| Engine.LocationById | engine/src/adventure_engine.c:301-311 | the slot of the first location whose id compares equal; nothing exactly when none does |
| Engine.CurrentLocation | engine/src/adventure_engine.c:313-316 | the lookup of the player's current location |
| Engine.ExitIndex | engine/src/adventure_engine.c:325-326 | the first exit whose direction matches ignoring ASCII case |
| Engine.MovePlayer | engine/src/adventure_engine.c:318-348 | success exactly when the current location, the first matching exit and its target all resolve; failure changes nothing; success moves the player and marks the target visited |
| EngineProps.MoveArrivesVisited | engine/src/adventure_engine.c:318-348 | after a move the player stands on the target, it resolves to the target's slot, and that slot is visited |
| EngineProps.FirstMatchingExitDecides | engine/src/adventure_engine.c:325-343 | only the first matching exit counts: the move succeeds exactly when its target exists, whatever later exits say |
| EngineProps.MovePreservesWellFormed | engine/src/adventure_engine.c:318-348 | a move keeps the state well formed |
| Engine.HasItem | engine/src/adventure_engine.c:350-360 | true exactly when some inventory entry compares equal |
| Engine.AddItem | engine/src/adventure_engine.c:362-380 | fails without change when full or already held; otherwise appends the copied id |
| Engine.RemoveItem | engine/src/adventure_engine.c:382-397 | removes the first match and keeps the rest in order; fails without change when the item is absent |
| EngineProps.AddPreservesWellFormed | engine/src/adventure_engine.c:362-380 | adding keeps the state well formed |
| EngineProps.RemovePreservesWellFormed | engine/src/adventure_engine.c:382-397 | removing keeps the state well formed |
| EngineProps.AddKeepsSetSemantics | engine/src/adventure_engine.c:362-380 | for an id that fits, a duplicate-free inventory stays duplicate-free and the item is then held; a longer id is the first Findings row |
| EngineProps.SecondAddFails | engine/src/adventure_engine.c:370-373 | adding a fitting id a second time fails and changes nothing |
| EngineProps.AddThenRemoveRoundTrip | engine/src/adventure_engine.c:362-397 | for an id that fits, removing what an add appended restores the state; a longer id is the first Findings row |
| EngineProps.RemoveThenNotHeld | engine/src/adventure_engine.c:382-397 | after a removal from a duplicate-free inventory the item is no longer held |
| Engine.FlagIndex | engine/src/adventure_engine.c:403-407 | the first entry of a flag table with the name |
| Engine.GetFlag | engine/src/adventure_engine.c:399-417 | the player entry wins, then the game entry, then false |
| Engine.SetFlag | engine/src/adventure_engine.c:419-445 | overwrites the player entry, else the game entry, else appends a player entry when there is room; otherwise the write is dropped |
| EngineProps.GetAfterSet | engine/src/adventure_engine.c:399-445 | a stored write of a fitting name reads back |
| EngineProps.SetFlagLeavesOthers | engine/src/adventure_engine.c:419-445 | a write under a name that fits leaves the value read under every other name unchanged; a longer name is the third Findings row |
| EngineProps.SetFlagPreservesWellFormed | engine/src/adventure_engine.c:419-445 | a write keeps the flag tables within MAX_FLAGS |
| EngineProps.SameNamesSameLookup | engine/src/adventure_engine.c:399-417 | get_flag depends only on the first entry with the name in each table |
| Engine.RequirementsMet | engine/src/adventure_engine.c:450-456 | true exactly when every required pair equals the current flag value |
| Engine.CheckLocationRequirements | engine/src/adventure_engine.c:447-459 | true for a NULL location; otherwise the conjunction over the required pairs |
| Commands.ParseCommand | engine/main.c:262-287 | a movement exactly when the line starts with "go " or "move ", with the text after that prefix as direction; every other line is decided by the exact words |
| Commands.ExactCommand | engine/main.c:276-287 | "look"/"l", "inventory"/"i", "help" and "quit"/"exit" each give their command, and every other line is unknown |
| Commands.Movement | engine/main.c:262-263 | after a movement prefix, the text past the first space is the text past the prefix |
| Commands.NoMovementPrefix | engine/main.c:262-287 | a line whose first byte is neither 'g' nor 'm' is decided by the exact words alone |
| Commands.HandleInput | engine/main.c:258-288 | no-op on NULL; only go/move changes the game, through move_player; only quit/exit clears `running` |
| Commands.DirectionAfterPrefix | engine/main.c:262-263 | after "go " or "move ", the text after the first space is the text after the prefix |
| Commands.DoubleSpaceKeepsSpace | engine/main.c:263 | "move  n" moves in direction " n" |
| Commands.BareVerbIsUnknown | engine/main.c:285-287 | "go" is an unknown command |
| Commands.UpperCaseVerbIsUnknown | engine/main.c:262 | "GO north" is an unknown command |
| Commands.EmptyLineIsUnknown | engine/main.c:285-287 | the empty line is an unknown command |
| Commands.Step | engine/main.c:325-341 | Return submits a non-empty line and empties the buffer; Backspace drops one byte when there is one; closing the window stops the loop |
| Commands.ReturnTwiceIsReturnOnce | engine/main.c:328-335 | a second Return right after a first does nothing |
| Commands.BackspacesTrimLine | engine/main.c:336-341 | n Backspaces drop the last n bytes, or all of them, and touch nothing else |
| Commands.Run | engine/main.c:323-345 | draining no events changes nothing; no event loads or unloads a game; nothing sets `running` again; after a window close the loop no longer runs |
| Commands.RunAppend | engine/main.c:323-345 | draining two batches of events one after the other is draining them as one |
| Commands.RunPreservesWellFormed | engine/main.c:258-288 | any sequence of events keeps a loaded well-formed game loaded and well formed |
| Format.Contains | editor/advgpt_format.py:112 | Python `in`: dict keys (an unhashable needle raises), list elements, substrings of a str (a non-str needle raises); anything else raises |
| Format.Index | editor/advgpt_format.py:119 | `container[key]` succeeds exactly on a dict that holds the key |
| Format.Items | editor/advgpt_format.py:162 | `.items()` succeeds exactly on a dict |
| Format.MissingKeys | editor/advgpt_format.py:155-158 | one issue for each absent key and only those; raises on a non-container |
| Format.ExitIssues | editor/advgpt_format.py:162-164 | one issue for each exit whose target is no location key, naming location, direction and target; raises on an unhashable target |
| Format.LocationExitIssues | editor/advgpt_format.py:161-164 | the exit check runs only when "exits" is in the location |
| Format.ValidateLocation | editor/advgpt_format.py:150-166 | missing-key issues, then dangling-exit issues; raises exactly when either part raises |
| Format.ValidateLocations | editor/advgpt_format.py:133-135 | an issue exactly when some location reports it |
| Format.StartIssues | editor/advgpt_format.py:129-130 | the start location is reported exactly when it is not in the locations |
| Format.CurrentIssues | editor/advgpt_format.py:144-145 | a present current_location is reported exactly when it is not in the locations |
| Format.Then | editor/advgpt_format.py:133-135 | concatenation of two stages: raises when either raises; the issues of both |
| Format.MissingKeysNoneIffAllPresent | editor/advgpt_format.py:111-116 | on a container the key loop reports nothing exactly when every key is there |
| Format.ValidateGameData | editor/advgpt_format.py:102-147 | with a top-level key missing, only the missing top-level keys are reported; otherwise the three stages run |
| FormatProps.MissingKeysAppend | editor/advgpt_format.py:111-113 | issues come in the order of the key list |
| FormatProps.EmptyDictReportsAllInOrder | editor/advgpt_format.py:109-116 | the empty dict reports all six top-level keys in order and nothing else |
| FormatProps.ValidatorAcceptsExactlyConsistent | editor/advgpt_format.py:102-166 | the result is [] exactly for a document whose sections are present and whose start, exits and player location all resolve |
| FormatProps.AcceptedIsConsistent | editor/advgpt_format.py:118-147 | an accepted document is consistent |
| FormatProps.ConsistentIsAccepted | editor/advgpt_format.py:118-147 | a consistent document is accepted |
| FormatProps.LocationAccepts | editor/advgpt_format.py:150-166 | a location yields no issue exactly when it has its keys and its exits resolve |
| FormatProps.ExitIssuesNone | editor/advgpt_format.py:160-164 | no exit issue exactly when every target exists |
| FormatProps.StagesOfValidation | editor/advgpt_format.py:115-147 | past the early return the meta, location and player stages run in order |
| FormatProps.ReportsMissingMetaKeys | editor/advgpt_format.py:118-123 | each missing meta key is reported, and only those |
| FormatProps.ReportsMissingStart | editor/advgpt_format.py:125-130 | the start location is reported with its value exactly when it is not a location |
| FormatProps.ReportsDanglingExits | editor/advgpt_format.py:160-164 | each exit leading nowhere is reported with its location, direction and target, and only those |
| FormatProps.ReportsMissingLocationKeys | editor/advgpt_format.py:154-158 | each location's missing keys are reported |
| FormatProps.ReportsMissingPlayerKeys | editor/advgpt_format.py:138-142 | a player key is reported missing exactly when it is one of the three required keys and `in` finds it absent |
| FormatProps.ReportsCurrentNotFound | editor/advgpt_format.py:144-145 | a current location is reported exactly when the player has one and it is no key of `locations` |
| FormatProps.LocationStageKinds | editor/advgpt_format.py:125-135 | the location stage reports only start, location-key and exit issues |
| FormatProps.PlayerStageKinds | editor/advgpt_format.py:137-145 | the player stage reports only player-key and current-location issues |
| Format.CreateLocation | editor/advgpt_format.py:55-77 | a dict with distinct keys holding each text under its own key, the exits, items and flag tables given or empty (the Python defaults), and `visited` false |
| Format.CreateItem | editor/advgpt_format.py:80-99 | a dict with distinct keys holding each argument under its own key, takeable and not useable by default, and missing flag tables empty |
| Format.CreateEmptyGame | editor/advgpt_format.py:20-52 | the six top-level sections and nothing else, each holding the literal's value; "start" is the start location and the only location; no items and no game flags |
| FormatProps.CreatedLocationIgnoresId | editor/advgpt_format.py:55-77 | the location id is not part of the value |
| FormatProps.CreatedLocationAccepted | editor/advgpt_format.py:55-77 | a created location validates exactly when its exits resolve |
| FormatProps.EngineReadsCreatedLocation | editor/advgpt_format.py:55-77 | the engine loads a created location unvisited, with its texts cut to the buffers and its exits and items filtered |
| FormatProps.EngineReadsCreatedItem | editor/advgpt_format.py:80-99 | the engine loads a created item with its flags exactly and its texts cut |
| FormatProps.EmptyGameValidates | editor/advgpt_format.py:20-52 | `create_empty_game()` validates with no issue |
| FormatProps.DocumentConsistent | editor/advgpt_format.py:102-147 | a document built from a complete meta block, consistent locations that hold the start location, and a consistent player passes every validator check |
| FormatProps.EmptyStartIsCreated | editor/advgpt_format.py:28-40 | the start location of the empty game is `create_location` with every optional argument at its default |
| Findings.AddItemAcceptsLongIdTwice | engine/src/adventure_engine.c:362-380 | as written: an id of 64 bytes or more is added twice, leaving two equal entries |
| Findings.RemoveMissesLongId | engine/src/adventure_engine.c:382-397 | as written: such an id cannot be removed after it was added |
| Findings.SetFlagLosesLongName | engine/src/adventure_engine.c:399-445 | as written: a flag with such a name is stored but reads back false |
| Findings.LongIdWitness | engine/src/adventure_engine.c:362-445 | the 64-byte id "aaa…a" shows all three |
| Findings.AddItemKeyed | engine/src/adventure_engine.c:362-380 | corrected add: the duplicate test uses the key that is stored |
| Findings.AddKeyedKeepsSetSemantics | engine/src/adventure_engine.c:362-380 | corrected: every add keeps the inventory duplicate-free, for all ids |
| Findings.SecondAddKeyedFails | engine/src/adventure_engine.c:370-373 | corrected: a second add of any id fails |
| Findings.AddThenRemoveKeyedRoundTrip | engine/src/adventure_engine.c:362-397 | corrected: add then remove restores the state, for all ids |
| Findings.GetAfterSetKeyed | engine/src/adventure_engine.c:399-445 | corrected: a stored flag reads back, for all names |
| Findings.SetFlagShadowsPrefix | engine/src/adventure_engine.c:403-441 | as written: a write under a name of 64 bytes or more is read back under its 63-byte prefix, a different name |
| Findings.ShadowWitness | engine/src/adventure_engine.c:403-441 | with a false game flag stored under the prefix of the 64-byte id, setting that id makes the prefix read true |
| Findings.SetFlagKeyedLeavesOthers | engine/src/adventure_engine.c:399-445 | corrected: a write leaves every name with another key unchanged, whatever the lengths |

## Left out

- File reading (`read_file`), `cleanup_game` and the tokenisers. Their result is the parameter `doc: Option<Json>`, where `None` is a read or parse failure.
- Allocation failure in `load_game` (`calloc` returning NULL). The model takes allocation to succeed.
- The engine's `printf` messages. Outcomes are booleans, or the returned state.
- Rendering and SDL: images, `render_text`, fonts, the frame delay and the `SDL_TEXTINPUT` append. The UTF-8 chunks of the append depend on SDL. The other events are modelled as a sequence of `Event`s.
- Duplicate keys in one JSON object. Both lookups take the first member. json-c and Python keep the last, and cJSON the first, so the model follows json-c and Python only for documents with distinct keys.
- Python value semantics beyond the JSON types: numeric equality across spellings (`1 == 1.0`), and dict equality that ignores key order. List membership compares values structurally.
- The message texts of the validator. Each message is an `Issue` carrying the values it interpolates; the `str()` formatting of those values is not modelled.
- Python exception kinds. `TypeError`, `KeyError` and `AttributeError` all become `Raises`.
- That validation only reads its input. This holds by construction, since `ValidateGameData` is a pure function.
- `save_to_file`, `load_from_file`, `get_format_specification` and editor/main.py: file I/O, a static string and the Qt editor.
- Characters are single bytes. Case folding covers ASCII only, as in `strcasecmp` in the C locale.
- Flag tables are never filled from a document, because neither loader reads `flags_required`, `flags_set` or `game_flags`. The flag operations are modelled on any state.
- The NULL-argument guards of `get_location_by_id`, `get_current_location`, `move_player`, `has_item`, `add_item_to_inventory`, `remove_item_from_inventory`, `get_flag` and `set_flag` (engine/src/adventure_engine.c:302, 314, 319, 351, 363, 383, 400, 420). Engine.LocationById, Engine.CurrentLocation, Engine.MovePlayer, Engine.HasItem, Engine.AddItem, Engine.RemoveItem, Engine.GetFlag and Engine.SetFlag take a state and a string, so a NULL game or name cannot be passed. The front end never passes NULL: it calls `get_current_location` and `move_player` only once a game is loaded, with a direction that points into a non-NULL line, and it calls none of the others.
- Commands.HandleInput: does not model the image reload after a move, or the console messages.

## Findings

| source | as written | input that shows it | evidently intended | confidence | as-written member | corrected member |
|---|---|---|---|---|---|---|
| engine/src/adventure_engine.c:362-397 | `add_item_to_inventory` stores the id cut to 63 bytes, but `has_item` and `remove_item_from_inventory` compare the full id | the id of 64 'a's, added twice to an empty inventory: both adds succeed, and the item cannot be removed | the inventory stays a set, and what was added can be removed | medium, not executed | Findings.AddItemAcceptsLongIdTwice, Findings.RemoveMissesLongId | Findings.AddItemKeyed, Findings.AddKeyedKeepsSetSemantics, Findings.AddThenRemoveKeyedRoundTrip |
| engine/src/adventure_engine.c:399-445 | `set_flag` stores the name cut to 63 bytes, but `get_flag` compares the full name | `set_flag(g, <64 'a's>, true)`, then `get_flag` with the same name returns false | a stored flag reads back | medium, not executed | Findings.SetFlagLosesLongName | Findings.GetAfterSetKeyed |
| engine/src/adventure_engine.c:403-441 | the cut copy `set_flag` appends is itself a name `get_flag` can find, so a long name writes the flag of its 63-byte prefix | no player flags, a game flag `(<63 'a's>, false)`; `set_flag(g, <64 'a's>, true)`; `get_flag(g, <63 'a's>)` turns from false to true | a write leaves every other name's flag unchanged | medium, not executed | Findings.SetFlagShadowsPrefix, Findings.ShadowWitness | Findings.SetFlagKeyedLeavesOthers |
