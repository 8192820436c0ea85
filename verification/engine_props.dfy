/**
  Properties of the engine operations that relate several calls or an
  operation and an invariant: capacity bounds are kept, arrival marks the
  destination visited, inventory stays a set, flags read back what was
  written.
 */
module EngineProps {
  import opened Collections
  import opened CString
  import opened GameTypes
  import opened Engine

  /** No two inventory entries are equal. */
  predicate DuplicateFree(s: seq<string>) {
    forall i, j :: 0 <= i < j < |s| ==> s[i] != s[j]
  }

  // ---------------------------------------------------------------------
  // Movement

  lemma MovePreservesWellFormed(g: GameState, direction: string)
    requires WellFormed(g)
    ensures WellFormed(MovePlayer(g, direction).game)
  {
    var r := MovePlayer(g, direction);
    if r.ok {
      var c, k, t :| MoveRoute(g, direction, c, k, t);
      var target := g.locations[c].exits[k].target;
      SafeCopyFits(Some(target), ID_SIZE);
      assert r.game == Arrive(g, t, target);
      assert forall i :: 0 <= i < |r.game.locations| ==> LocationWellFormed(r.game.locations[i]) by {
        forall i | 0 <= i < |r.game.locations|
          ensures LocationWellFormed(r.game.locations[i])
        {
          assert LocationWellFormed(g.locations[i]);
        }
      }
    }
  }

  /**
    After a successful move in a well-formed state the player stands in
    the exit's target, that location resolves as the current one, and it
    is marked visited (a second arrival leaves it visited).
   */
  lemma MoveArrivesVisited(g: GameState, direction: string, c: nat, k: nat, t: nat)
    requires WellFormed(g)
    requires MoveRoute(g, direction, c, k, t)
    ensures MovePlayer(g, direction).ok
    ensures MovePlayer(g, direction).game.player.currentLocation == g.locations[c].exits[k].target
    ensures CurrentLocation(MovePlayer(g, direction).game) == Some(t)
    ensures MovePlayer(g, direction).game.locations[t].visited
  {
    var target := g.locations[c].exits[k].target;
    assert Fits(target, ID_SIZE) by {
      assert LocationWellFormed(g.locations[c]);
      assert ExitWellFormed(g.locations[c].exits[k]);
    }
    var h := MovePlayer(g, direction).game;
    assert h == Arrive(g, t, target);
    ArriveResolves(g, t, target);
  }

  /** Arriving at slot `t` through a fitting target id makes `t` the current location, visited. */
  lemma ArriveResolves(g: GameState, t: nat, target: string)
    requires FirstLocation(g, target, t)
    requires Fits(target, ID_SIZE)
    ensures Arrive(g, t, target).player.currentLocation == target
    ensures CurrentLocation(Arrive(g, t, target)) == Some(t)
    ensures Arrive(g, t, target).locations[t].visited
  {
    SafeCopyOfFitting(target, ID_SIZE);
    var h := Arrive(g, t, target);
    assert forall i :: 0 <= i < |h.locations| ==> h.locations[i].id == g.locations[i].id;
    assert FirstLocation(h, target, t);
    FirstLocationUnique(h, target, t, CurrentLocation(h).value);
  }

  /**
    The first exit matching the direction decides the move on its own:
    the move succeeds iff that exit's target resolves, whatever later
    exits in the same direction say.
   */
  lemma FirstMatchingExitDecides(g: GameState, direction: string, c: nat, k: nat)
    requires FirstLocation(g, g.player.currentLocation, c)
    requires FirstExit(g.locations[c], direction, k)
    ensures MovePlayer(g, direction).ok <==> LocationById(g, g.locations[c].exits[k].target).Some?
  {
    var target := g.locations[c].exits[k].target;
    if MovePlayer(g, direction).ok {
      var c', k', t' :| MoveRoute(g, direction, c', k', t');
      FirstLocationUnique(g, g.player.currentLocation, c, c');
      FirstExitUnique(g.locations[c], direction, k, k');
    } else {
      if LocationById(g, target).Some? {
        assert MoveRoute(g, direction, c, k, LocationById(g, target).value);
      }
    }
  }

  // ---------------------------------------------------------------------
  // Inventory

  lemma AddPreservesWellFormed(g: GameState, id: string)
    requires WellFormed(g)
    ensures WellFormed(AddItem(g, id).game)
  {
    SafeCopyFits(Some(id), ID_SIZE);
  }

  lemma RemovePreservesWellFormed(g: GameState, id: string)
    requires WellFormed(g)
    ensures WellFormed(RemoveItem(g, id).game)
  {
    var r := RemoveItem(g, id);
    if r.ok {
      var inv := g.player.inventory;
      var i := FindFirst(inv, (s: string) => StrEq(s, id)).value;
      assert FirstItem(inv, id, i);
      var inv' := inv[..i] + inv[i + 1..];
      assert r.game.player.inventory == inv';
      forall j | 0 <= j < |inv'|
        ensures Fits(inv'[j], ID_SIZE)
      {
        if j < i { assert inv'[j] == inv[j]; } else { assert inv'[j] == inv[j + 1]; }
      }
    }
  }

  /** In a well-formed inventory strcmp equality is plain equality. */
  lemma StoredIdsCompareExactly(g: GameState, id: string, i: nat)
    requires PlayerWellFormed(g.player) && Fits(id, ID_SIZE)
    requires i < |g.player.inventory|
    ensures StrEq(g.player.inventory[i], id) <==> g.player.inventory[i] == id
  {
    CStrOfNulFree(g.player.inventory[i]);
    CStrOfNulFree(id);
  }

  /**
    An id that fits the 64-byte buffer is stored verbatim, so a successful
    add keeps a duplicate-free inventory duplicate-free and leaves the item held.
   */
  lemma AddKeepsSetSemantics(g: GameState, id: string)
    requires DuplicateFree(g.player.inventory)
    requires |CStr(id)| < ID_SIZE
    ensures DuplicateFree(AddItem(g, id).game.player.inventory)
    ensures AddItem(g, id).ok ==> HasItem(AddItem(g, id).game, id)
  {
    var r := AddItem(g, id);
    var stored := SafeCopy(Some(id), ID_SIZE);
    assert stored == CStr(id);
    SafeCopyFits(Some(id), ID_SIZE);
    if r.ok {
      var inv := g.player.inventory;
      var inv' := r.game.player.inventory;
      assert inv' == inv + [stored];
      forall i | 0 <= i < |inv|
        ensures inv[i] != stored
      {
        if inv[i] == stored {
          assert StrEq(inv[i], id);
        }
      }
      assert StrEq(inv'[|inv|], id);
    }
  }

  /** Adding the same short id twice: the second add fails and changes nothing. */
  lemma SecondAddFails(g: GameState, id: string)
    requires |CStr(id)| < ID_SIZE
    requires AddItem(g, id).ok
    ensures AddItem(AddItem(g, id).game, id) == Outcome(false, AddItem(g, id).game)
  {
    var h := AddItem(g, id).game;
    SafeCopyFits(Some(id), ID_SIZE);
    assert StrEq(h.player.inventory[|g.player.inventory|], id);
  }

  /** The 64-byte copy of a name that fits compares equal to the name. */
  lemma StoredCopyMatches(name: string)
    requires |CStr(name)| < ID_SIZE
    ensures StrEq(SafeCopy(Some(name), ID_SIZE), name)
  {
    SafeCopyFits(Some(name), ID_SIZE);
  }

  /** Removing what a successful add of a short id appended restores the state exactly. */
  lemma AddThenRemoveRoundTrip(g: GameState, id: string)
    requires |CStr(id)| < ID_SIZE
    requires AddItem(g, id).ok
    ensures RemoveItem(AddItem(g, id).game, id) == Outcome(true, g)
  {
    var inv := g.player.inventory;
    var stored := SafeCopy(Some(id), ID_SIZE);
    var h := AddItem(g, id).game;
    assert h == g.(player := g.player.(inventory := inv + [stored]));
    StoredCopyMatches(id);
    AppendedIsFirst(inv, stored, id);
    RemoveFirst(h, id, |inv|);
    DropLast(inv, stored);
  }

  /** An entry appended to an inventory with no match is the first match. */
  lemma AppendedIsFirst(inv: seq<string>, stored: string, id: string)
    requires forall j :: 0 <= j < |inv| ==> !StrEq(inv[j], id)
    requires StrEq(stored, id)
    ensures FirstItem(inv + [stored], id, |inv|)
  {
    var inv' := inv + [stored];
    forall j | 0 <= j < |inv| ensures !StrEq(inv'[j], id) {
      assert inv'[j] == inv[j];
    }
  }

  /** Deleting the last entry of `inv + [x]` gives back `inv`. */
  lemma DropLast<T>(inv: seq<T>, x: T)
    ensures (inv + [x])[..|inv|] + (inv + [x])[|inv| + 1..] == inv
  {
    assert (inv + [x])[..|inv|] == inv;
  }

  /** Removal deletes the first entry equal to `id` and succeeds. */
  lemma RemoveFirst(g: GameState, id: string, i: nat)
    requires FirstItem(g.player.inventory, id, i)
    ensures RemoveItem(g, id) ==
              Outcome(true, g.(player := g.player.(inventory := g.player.inventory[..i] + g.player.inventory[i + 1..])))
  {
  }

  /** Removing from a well-formed duplicate-free inventory leaves the item no longer held. */
  lemma RemoveThenNotHeld(g: GameState, id: string)
    requires PlayerWellFormed(g.player) && DuplicateFree(g.player.inventory)
    ensures !HasItem(RemoveItem(g, id).game, id)
  {
    var inv := g.player.inventory;
    if HasItem(g, id) {
      var i := FindFirst(inv, (s: string) => StrEq(s, id)).value;
      assert FirstItem(inv, id, i);
      RemoveFirst(g, id, i);
      OnlyOneMatch(inv, id, i);
      DeleteOnlyMatch(inv, id, i, inv[..i] + inv[i + 1..]);
    }
  }

  /** In a duplicate-free list of stored ids, a name matches one entry at most. */
  lemma OnlyOneMatch(inv: seq<string>, id: string, i: nat)
    requires forall k :: 0 <= k < |inv| ==> Fits(inv[k], ID_SIZE)
    requires DuplicateFree(inv) && i < |inv| && StrEq(inv[i], id)
    ensures forall j :: 0 <= j < |inv| && j != i ==> !StrEq(inv[j], id)
  {
    forall j | 0 <= j < |inv| && j != i
      ensures !StrEq(inv[j], id)
    {
      CStrOfNulFree(inv[j]);
      CStrOfNulFree(inv[i]);
      assert inv[j] != inv[i];
    }
  }

  /** Deleting the only matching entry leaves no match. */
  lemma DeleteOnlyMatch(inv: seq<string>, id: string, i: nat, inv': seq<string>)
    requires i < |inv| && inv' == inv[..i] + inv[i + 1..]
    requires forall j :: 0 <= j < |inv| && j != i ==> !StrEq(inv[j], id)
    ensures forall j :: 0 <= j < |inv'| ==> !StrEq(inv'[j], id)
  {
    forall j | 0 <= j < |inv'|
      ensures !StrEq(inv'[j], id)
    {
      var src := if j < i then j else j + 1;
      assert inv'[j] == inv[src];
    }
  }

  // ---------------------------------------------------------------------
  // Flags

  lemma SetFlagPreservesWellFormed(g: GameState, name: string, value: bool)
    requires WellFormed(g)
    ensures WellFormed(SetFlag(g, name, value))
  {
    SafeCopyFits(Some(name), ID_SIZE);
    var r := SetFlag(g, name, value);
    match FlagIndex(g.player.flags, name)
    case Some(i) =>
    case None =>
      match FlagIndex(g.gameFlags, name)
      case Some(i) =>
      case None =>
  }

  /**
    When set_flag stores a name that fits its buffer, get_flag reads back
    the value just written.
   */
  lemma GetAfterSet(g: GameState, name: string, value: bool)
    requires SetFlagStores(g, name)
    requires |CStr(name)| < ID_SIZE
    ensures GetFlag(SetFlag(g, name, value), name) == value
  {
    match FlagIndex(g.player.flags, name)
    case Some(i) =>
      OverwrittenPlayerFlagReads(g, name, value, i);
    case None =>
      match FlagIndex(g.gameFlags, name)
      case Some(i) =>
        OverwrittenGameFlagReads(g, name, value, i);
      case None =>
        AppendedFlagReads(g, name, value);
  }

  /** An overwritten player entry stays the first one of its name and holds the new value. */
  lemma OverwrittenPlayerFlagReads(g: GameState, name: string, value: bool, i: nat)
    requires FirstFlag(g.player.flags, name, i)
    ensures GetFlag(SetFlag(g, name, value), name) == value
  {
    var pf := g.player.flags;
    var pf' := pf[i := pf[i].(value := value)];
    assert SetFlag(g, name, value).player.flags == pf';
    assert FirstFlag(pf', name, i);
  }

  /** With no player entry, an overwritten game entry stays the first one of its name and holds the new value. */
  lemma OverwrittenGameFlagReads(g: GameState, name: string, value: bool, i: nat)
    requires NoFlag(g.player.flags, name) && FirstFlag(g.gameFlags, name, i)
    ensures GetFlag(SetFlag(g, name, value), name) == value
  {
    var gf := g.gameFlags;
    var gf' := gf[i := gf[i].(value := value)];
    var h := SetFlag(g, name, value);
    assert h == g.(gameFlags := gf');
    assert FirstFlag(gf', name, i);
  }

  /** A name in neither table that fits its buffer is appended, and the appended entry is the first of its name. */
  lemma AppendedFlagReads(g: GameState, name: string, value: bool)
    requires NoFlag(g.player.flags, name) && NoFlag(g.gameFlags, name) && |g.player.flags| < MAX_FLAGS
    requires |CStr(name)| < ID_SIZE
    ensures GetFlag(SetFlag(g, name, value), name) == value
  {
    var pf := g.player.flags;
    var n := |pf|;
    var pf' := pf + [Flag(SafeCopy(Some(name), ID_SIZE), value)];
    assert SetFlag(g, name, value).player.flags == pf';
    StoredCopyMatches(name);
    forall j | 0 <= j < n ensures !StrEq(pf'[j].name, name) {
      assert pf'[j] == pf[j];
    }
    assert FirstFlag(pf', name, n);
  }

  /**
    Writing a flag whose name fits its buffer leaves the value read for
    every other name unchanged. A longer name is stored cut, and then
    shadows the cut name (see Findings.SetFlagShadowsPrefix).
   */
  lemma SetFlagLeavesOthers(g: GameState, name: string, other: string, value: bool)
    requires !StrEq(name, other)
    requires |CStr(name)| < ID_SIZE
    ensures GetFlag(SetFlag(g, name, value), other) == GetFlag(g, other)
  {
    match FlagIndex(g.player.flags, name)
    case Some(i) =>
      OverwriteLeavesOthers(g, SetFlag(g, name, value), true, i, name, other, value);
    case None =>
      match FlagIndex(g.gameFlags, name)
      case Some(i) =>
        OverwriteLeavesOthers(g, SetFlag(g, name, value), false, i, name, other, value);
      case None =>
        AppendLeavesOthers(g, name, other, value);
  }

  /** Overwriting entry `i` of the player table (`inPlayer`) or of the game table keeps other names' values. */
  lemma OverwriteLeavesOthers(g: GameState, h: GameState, inPlayer: bool, i: nat, name: string, other: string, value: bool)
    requires !StrEq(name, other)
    requires inPlayer ==> i < |g.player.flags| && StrEq(g.player.flags[i].name, name)
                          && h == g.(player := g.player.(flags := g.player.flags[i := g.player.flags[i].(value := value)]))
    requires !inPlayer ==> i < |g.gameFlags| && StrEq(g.gameFlags[i].name, name)
                           && h == g.(gameFlags := g.gameFlags[i := g.gameFlags[i].(value := value)])
    ensures GetFlag(h, other) == GetFlag(g, other)
  {
    SameNamesSameLookup(g, h, other);
  }

  /** Appending a fitting new player entry keeps other names' values. */
  lemma AppendLeavesOthers(g: GameState, name: string, other: string, value: bool)
    requires !StrEq(name, other)
    requires |CStr(name)| < ID_SIZE
    requires NoFlag(g.player.flags, name) && NoFlag(g.gameFlags, name)
    ensures GetFlag(SetFlag(g, name, value), other) == GetFlag(g, other)
  {
    var h := SetFlag(g, name, value);
    var pf := g.player.flags;
    if |pf| < MAX_FLAGS {
      SafeCopyFits(Some(name), ID_SIZE);
      assert h.player.flags == pf + [Flag(CStr(name), value)];
      assert !StrEq(h.player.flags[|pf|].name, other);
    }
    SameNamesSameLookup(g, h, other);
  }

  /**
    get_flag only depends on the first entry named `name` in each table:
    two states whose tables agree up to that point read the same value.
   */
  lemma SameNamesSameLookup(g: GameState, h: GameState, name: string)
    requires |g.player.flags| <= |h.player.flags| && |g.gameFlags| == |h.gameFlags|
    requires forall j :: 0 <= j < |g.player.flags| ==> StrEq(h.player.flags[j].name, name) == StrEq(g.player.flags[j].name, name)
    requires forall j :: |g.player.flags| <= j < |h.player.flags| ==> !StrEq(h.player.flags[j].name, name)
    requires forall j :: 0 <= j < |g.gameFlags| ==> StrEq(h.gameFlags[j].name, name) == StrEq(g.gameFlags[j].name, name)
    requires forall j :: FirstFlag(g.player.flags, name, j) ==> h.player.flags[j].value == g.player.flags[j].value
    requires NoFlag(g.player.flags, name) ==>
               forall j :: FirstFlag(g.gameFlags, name, j) ==> h.gameFlags[j].value == g.gameFlags[j].value
    ensures GetFlag(h, name) == GetFlag(g, name)
  {
    match FlagIndex(g.player.flags, name)
    case Some(i) =>
      assert FirstFlag(h.player.flags, name, i);
    case None =>
      assert NoFlag(h.player.flags, name);
      match FlagIndex(g.gameFlags, name)
      case Some(i) =>
        assert FirstFlag(h.gameFlags, name, i);
      case None =>
        assert NoFlag(h.gameFlags, name);
  }
}
