/**
  Where the engine's stored ids and the ids it is asked about part ways.
  add_item_to_inventory and set_flag store `safe_strcpy(.., 64)` of the
  name, cut to 63 bytes, but has_item, remove_item_from_inventory and
  get_flag compare the caller's name, uncut, with strcmp. A name of 64
  bytes or more therefore never matches its own stored copy: it can be
  added again and again, it cannot be removed, and a flag set under it
  never reads back. What it does match is its 63-byte prefix, a
  different name, whose flag the write silently takes over.

  The corrected operations cut the caller's name to the buffer first,
  so that lookup and storage agree on one key, and every property proved
  for short names holds for all names.
 */
module Findings {
  import opened Collections
  import opened CString
  import opened GameTypes
  import opened Engine
  import opened EngineProps

  /** A name with no NUL that does not fit a 64-byte buffer. */
  predicate TooLong(name: string) {
    |CStr(name)| >= ID_SIZE
  }

  /** The shortest such name: 64 times 'a'. */
  const LONG_ID: string := seq(ID_SIZE, _ => 'a')

  lemma LongIdIsTooLong()
    ensures TooLong(LONG_ID)
  {
    assert '\0' !in LONG_ID by {
      forall i | 0 <= i < |LONG_ID| ensures LONG_ID[i] != '\0' {
      }
    }
    CStrOfNulFree(LONG_ID);
  }

  /** No stored entry of fitting names compares equal to a name that does not fit. */
  lemma FittingNeverMatchesLong(stored: string, name: string)
    requires Fits(stored, ID_SIZE) && TooLong(name)
    ensures !StrEq(stored, name)
  {
    CStrOfNulFree(stored);
  }

  // ---------------------------------------------------------------------
  // As written

  /**
    As written, a too-long id is added twice: both adds succeed and the
    inventory ends with two equal entries.
   */
  lemma AddItemAcceptsLongIdTwice(g: GameState, id: string)
    requires PlayerWellFormed(g.player) && |g.player.inventory| + 2 <= MAX_INVENTORY_ITEMS
    requires TooLong(id)
    ensures AddItem(g, id).ok
    ensures AddItem(AddItem(g, id).game, id).ok
    ensures !DuplicateFree(AddItem(AddItem(g, id).game, id).game.player.inventory)
  {
    var inv := g.player.inventory;
    forall i | 0 <= i < |inv| ensures !StrEq(inv[i], id) {
      FittingNeverMatchesLong(inv[i], id);
    }
    var h := AddItem(g, id).game;
    var stored := SafeCopy(Some(id), ID_SIZE);
    SafeCopyFits(Some(id), ID_SIZE);
    assert h.player.inventory == inv + [stored];
    forall i | 0 <= i < |h.player.inventory| ensures !StrEq(h.player.inventory[i], id) {
      if i < |inv| {
        FittingNeverMatchesLong(inv[i], id);
      } else {
        FittingNeverMatchesLong(stored, id);
      }
    }
    var inv2 := AddItem(h, id).game.player.inventory;
    assert inv2 == inv + [stored, stored];
    assert inv2[|inv|] == inv2[|inv| + 1];
  }

  /** As written, a too-long id that was just added cannot be removed. */
  lemma RemoveMissesLongId(g: GameState, id: string)
    requires PlayerWellFormed(g.player) && |g.player.inventory| < MAX_INVENTORY_ITEMS
    requires TooLong(id)
    ensures AddItem(g, id).ok
    ensures !RemoveItem(AddItem(g, id).game, id).ok
  {
    var inv := g.player.inventory;
    forall i | 0 <= i < |inv| ensures !StrEq(inv[i], id) {
      FittingNeverMatchesLong(inv[i], id);
    }
    var h := AddItem(g, id).game;
    SafeCopyFits(Some(id), ID_SIZE);
    forall i | 0 <= i < |h.player.inventory| ensures !StrEq(h.player.inventory[i], id) {
      if i < |inv| {
        FittingNeverMatchesLong(inv[i], id);
      } else {
        FittingNeverMatchesLong(SafeCopy(Some(id), ID_SIZE), id);
      }
    }
  }

  /**
    As written, setting a too-long flag to true stores a new player entry,
    yet get_flag on the same name still answers false.
   */
  lemma SetFlagLosesLongName(g: GameState, name: string)
    requires FlagTableWellFormed(g.player.flags) && FlagTableWellFormed(g.gameFlags)
    requires |g.player.flags| < MAX_FLAGS
    requires TooLong(name)
    ensures |SetFlag(g, name, true).player.flags| == |g.player.flags| + 1
    ensures !GetFlag(SetFlag(g, name, true), name)
  {
    var pf := g.player.flags;
    forall i | 0 <= i < |pf| ensures !StrEq(pf[i].name, name) {
      FittingNeverMatchesLong(pf[i].name, name);
    }
    forall i | 0 <= i < |g.gameFlags| ensures !StrEq(g.gameFlags[i].name, name) {
      FittingNeverMatchesLong(g.gameFlags[i].name, name);
    }
    var h := SetFlag(g, name, true);
    var stored := SafeCopy(Some(name), ID_SIZE);
    SafeCopyFits(Some(name), ID_SIZE);
    assert h.player.flags == pf + [Flag(stored, true)];
    forall i | 0 <= i < |h.player.flags| ensures !StrEq(h.player.flags[i].name, name) {
      if i < |pf| {
        FittingNeverMatchesLong(pf[i].name, name);
      } else {
        FittingNeverMatchesLong(stored, name);
      }
    }
    assert NoFlag(h.player.flags, name) && NoFlag(h.gameFlags, name);
  }

  /**
    As written, a too-long name is stored as its 63-byte prefix, which is
    a different name: after the write, get_flag on that prefix answers the
    written value whatever the prefix held before.
   */
  lemma SetFlagShadowsPrefix(g: GameState, name: string, value: bool)
    requires FlagTableWellFormed(g.player.flags) && FlagTableWellFormed(g.gameFlags)
    requires |g.player.flags| < MAX_FLAGS
    requires TooLong(name)
    requires NoFlag(g.player.flags, Key(name))
    ensures !StrEq(Key(name), name)
    ensures GetFlag(SetFlag(g, name, value), Key(name)) == value
  {
    var pf := g.player.flags;
    forall i | 0 <= i < |pf| ensures !StrEq(pf[i].name, name) {
      FittingNeverMatchesLong(pf[i].name, name);
    }
    forall i | 0 <= i < |g.gameFlags| ensures !StrEq(g.gameFlags[i].name, name) {
      FittingNeverMatchesLong(g.gameFlags[i].name, name);
    }
    FittingNeverMatchesLong(Key(name), name);
    var h := SetFlag(g, name, value);
    assert h.player.flags == pf + [Flag(Key(name), value)];
    assert FirstFlag(h.player.flags, Key(name), |pf|);
  }

  /**
    The input exists: with an empty player table and a game flag stored
    under the 63-byte prefix of LONG_ID, setting LONG_ID turns the
    prefix's flag from false to true.
   */
  lemma ShadowWitness(g: GameState)
    requires g.player.flags == [] && g.gameFlags == [Flag(Key(LONG_ID), false)]
    ensures !GetFlag(g, Key(LONG_ID))
    ensures GetFlag(SetFlag(g, LONG_ID, true), Key(LONG_ID))
  {
    LongIdIsTooLong();
    assert FirstFlag(g.gameFlags, Key(LONG_ID), 0);
    SetFlagShadowsPrefix(g, LONG_ID, true);
  }

  /** The inputs above exist: the 64-byte id shows each discrepancy on the empty inventory and flag tables. */
  lemma LongIdWitness(g: GameState)
    requires PlayerWellFormed(g.player) && FlagTableWellFormed(g.gameFlags)
    requires g.player.inventory == [] && g.player.flags == []
    ensures AddItem(AddItem(g, LONG_ID).game, LONG_ID).ok
    ensures !RemoveItem(AddItem(g, LONG_ID).game, LONG_ID).ok
    ensures !GetFlag(SetFlag(g, LONG_ID, true), LONG_ID)
  {
    LongIdIsTooLong();
    AddItemAcceptsLongIdTwice(g, LONG_ID);
    RemoveMissesLongId(g, LONG_ID);
    SetFlagLosesLongName(g, LONG_ID);
  }

  // ---------------------------------------------------------------------
  // Corrected: one key for storage and lookup

  /** The key a name is stored under: its content cut to the 64-byte buffer. */
  function Key(name: string): (k: string)
    ensures Fits(k, ID_SIZE)
    ensures CStr(k) == k
    ensures |k| == Min(|CStr(name)|, ID_SIZE - 1)
    ensures k == CStr(name)[..|k|]
    ensures !TooLong(name) ==> k == CStr(name)
  {
    SafeCopyFits(Some(name), ID_SIZE);
    SafeCopy(Some(name), ID_SIZE)
  }

  /** has_item on the key. */
  function HasItemKeyed(g: GameState, id: string): (r: bool)
    ensures r <==> exists i :: 0 <= i < |g.player.inventory| && StrEq(g.player.inventory[i], Key(id))
  {
    HasItem(g, Key(id))
  }

  /** add_item_to_inventory that tests for the key it is about to store. */
  function AddItemKeyed(g: GameState, id: string): (r: Outcome)
    ensures r.ok <==> |g.player.inventory| < MAX_INVENTORY_ITEMS && !HasItemKeyed(g, id)
    ensures !r.ok ==> r.game == g
    ensures r.ok ==> r.game == g.(player := g.player.(inventory := g.player.inventory + [Key(id)]))
  {
    SafeCopyIdempotent(Some(id), ID_SIZE);
    AddItem(g, Key(id))
  }

  /** remove_item_from_inventory on the key. */
  function RemoveItemKeyed(g: GameState, id: string): (r: Outcome)
    ensures r.ok <==> HasItemKeyed(g, id)
    ensures !r.ok ==> r.game == g
  {
    RemoveItem(g, Key(id))
  }

  /** get_flag on the key. */
  function GetFlagKeyed(g: GameState, name: string): (r: bool)
    ensures NoFlag(g.player.flags, Key(name)) && NoFlag(g.gameFlags, Key(name)) ==> !r
    ensures forall i :: FirstFlag(g.player.flags, Key(name), i) ==> r == g.player.flags[i].value
  {
    GetFlag(g, Key(name))
  }

  /** set_flag on the key. */
  function SetFlagKeyed(g: GameState, name: string, value: bool): (r: GameState)
    ensures !SetFlagStores(g, Key(name)) ==> r == g
    ensures NoFlag(g.player.flags, Key(name)) && NoFlag(g.gameFlags, Key(name)) && |g.player.flags| < MAX_FLAGS ==>
              r == g.(player := g.player.(flags := g.player.flags + [Flag(Key(name), value)]))
  {
    SafeCopyIdempotent(Some(name), ID_SIZE);
    SetFlag(g, Key(name), value)
  }

  /** Corrected: every add, of any id, keeps the inventory duplicate-free, and the item is then held. */
  lemma AddKeyedKeepsSetSemantics(g: GameState, id: string)
    requires DuplicateFree(g.player.inventory)
    ensures DuplicateFree(AddItemKeyed(g, id).game.player.inventory)
    ensures AddItemKeyed(g, id).ok ==> HasItemKeyed(AddItemKeyed(g, id).game, id)
  {
    AddKeepsSetSemantics(g, Key(id));
  }

  /** Corrected: a second add of the same id, of any length, fails and changes nothing. */
  lemma SecondAddKeyedFails(g: GameState, id: string)
    requires AddItemKeyed(g, id).ok
    ensures AddItemKeyed(AddItemKeyed(g, id).game, id) == Outcome(false, AddItemKeyed(g, id).game)
  {
    SecondAddFails(g, Key(id));
  }

  /** Corrected: removing what an add appended restores the state, for every id. */
  lemma AddThenRemoveKeyedRoundTrip(g: GameState, id: string)
    requires AddItemKeyed(g, id).ok
    ensures RemoveItemKeyed(AddItemKeyed(g, id).game, id) == Outcome(true, g)
  {
    AddThenRemoveRoundTrip(g, Key(id));
  }

  /** Corrected: a stored flag reads back, for every name. */
  lemma GetAfterSetKeyed(g: GameState, name: string, value: bool)
    requires SetFlagStores(g, Key(name))
    ensures GetFlagKeyed(SetFlagKeyed(g, name, value), name) == value
  {
    GetAfterSet(g, Key(name), value);
  }

  /** Corrected: a write leaves the value read under every name with another key unchanged, whatever the lengths. */
  lemma SetFlagKeyedLeavesOthers(g: GameState, name: string, other: string, value: bool)
    requires Key(name) != Key(other)
    ensures GetFlagKeyed(SetFlagKeyed(g, name, value), other) == GetFlagKeyed(g, other)
  {
    SetFlagLeavesOthers(g, Key(name), Key(other), value);
  }
}
