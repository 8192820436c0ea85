/**
  The command line of the SDL front end, engine/main.c: `handle_input`
  dispatches one submitted line, and the key handlers of the event loop
  edit the line being typed. The renderer, the images and the console
  messages are not modelled; what remains is the game state, the
  `running` flag and the input buffer.
 */
module Commands {
  import opened Collections
  import opened CString
  import opened GameTypes
  import opened Engine
  import EngineProps

  /** What `handle_input` makes of a line. */
  datatype Command =
    | Go(direction: string)
    | Look
    | ShowInventory
    | Help
    | Quit
    | Unknown

  /** The text after the first space of a line that starts with `p`, when `p` ends in that space. */
  lemma {:induction false} DirectionAfterPrefix(input: string, p: string)
    requires |p| > 0 && p[|p| - 1] == ' ' && ' ' !in p[..|p| - 1]
    requires HasPrefix(input, p)
    ensures AfterFirstSpace(input) == Some(CStr(input)[|p|..])
  {
    var c := CStr(input);
    assert c[..|p|] == p;
    assert c[|p| - 1] == ' ';
    assert forall j :: 0 <= j < |p| - 1 ==> c[j] != ' ' by {
      forall j | 0 <= j < |p| - 1 ensures c[j] != ' ' {
        assert c[j] == p[..|p| - 1][j];
      }
    }
    var r := AfterFirstSpace(input);
    var i :| 0 <= i < |c| && c[i] == ' ' && ' ' !in c[..i] && r.value == c[i + 1..];
    assert forall j :: 0 <= j < i ==> c[j] != ' ' by {
      forall j | 0 <= j < i ensures c[j] != ' ' {
        assert c[j] == c[..i][j];
      }
    }
    assert i == |p| - 1;
  }

  /** No line starts with both movement prefixes: they differ in their first character. */
  lemma GoIsNotMove(input: string)
    requires HasPrefix(input, "go ")
    ensures !HasPrefix(input, "move ")
  {
    var c := CStr(input);
    assert c[0] == c[..3][0] == 'g';
  }

  /** The converse: a line that starts `move ` does not start `go `. */
  lemma MoveIsNotGo(input: string)
    requires HasPrefix(input, "move ")
    ensures !HasPrefix(input, "go ")
  {
    var c := CStr(input);
    assert c[0] == c[..5][0] == 'm';
  }

  /** The exact-word commands, tested in handle_input's order once the prefix test has failed. */
  function ExactCommand(s: string): (c: Command)
    ensures !c.Go?
    ensures c == Look <==> s == "look" || s == "l"
    ensures c == ShowInventory <==> s == "inventory" || s == "i"
    ensures c == Help <==> s == "help"
    ensures c == Quit <==> s == "quit" || s == "exit"
    ensures c == Unknown <==> s !in ["look", "l", "inventory", "i", "help", "quit", "exit"]
  {
    if s == "look" || s == "l" then Look
    else if s == "inventory" || s == "i" then ShowInventory
    else if s == "help" then Help
    else if s == "quit" || s == "exit" then Quit
    else Unknown
  }

  /** A movement command: its direction is the text after the first space, which ends the prefix. */
  function Movement(input: string, p: string): (c: Command)
    requires p == "go " || p == "move "
    requires HasPrefix(input, p)
    ensures c == Go(CStr(input)[|p|..])
  {
    DirectionAfterPrefix(input, p);
    Go(AfterFirstSpace(input).value)
  }

  /**
    The dispatch order of handle_input: the `go `/`move ` prefix test
    comes first (case-sensitive, one space), then the exact words. The
    direction is everything after the first space, which for these two
    prefixes is everything after the prefix.
   */
  function ParseCommand(input: string): (c: Command)
    ensures c.Go? <==> HasPrefix(input, "go ") || HasPrefix(input, "move ")
    ensures c.Go? && HasPrefix(input, "go ") ==> c.direction == CStr(input)[3..]
    ensures c.Go? && HasPrefix(input, "move ") ==> c.direction == CStr(input)[5..]
    ensures !c.Go? ==> c == ExactCommand(CStr(input))
  {
    if HasPrefix(input, "go ") then
      GoIsNotMove(input);
      Movement(input, "go ")
    else if HasPrefix(input, "move ") then
      Movement(input, "move ")
    else
      ExactCommand(CStr(input))
  }

  /** The globals handle_input works on: the loaded game (NULL before loading) and the loop flag. */
  datatype Session = Session(game: Option<GameState>, running: bool)

  /**
    handle_input: a NULL game or NULL line does nothing; only a movement
    command changes the game, and only through move_player; only quit/exit
    clears `running`. Every other command just prints.
   */
  function HandleInput(s: Session, input: Option<string>): (r: Session)
    ensures s.game.None? || input.None? ==> r == s
    ensures r.game.Some? <==> s.game.Some?
    ensures r.running <==> s.running && !(s.game.Some? && input.Some? && ParseCommand(input.value) == Quit)
    ensures s.game.Some? && input.Some? && !ParseCommand(input.value).Go? ==> r.game == s.game
    ensures s.game.Some? && input.Some? && ParseCommand(input.value).Go? ==>
              r.game == Some(MovePlayer(s.game.value, ParseCommand(input.value).direction).game)
  {
    if s.game.None? || input.None? then s
    else
      match ParseCommand(input.value)
      case Go(direction) => s.(game := Some(MovePlayer(s.game.value, direction).game))
      case Quit => s.(running := false)
      case _ => s
  }

  /** The keyboard and window events whose handling the model covers. */
  datatype Event = ReturnKey | BackspaceKey | WindowClosed

  /** The session plus the line being typed (`input_buffer`, `input_length` bytes long). */
  datatype Terminal = Terminal(session: Session, buffer: string)

  /**
    One event of the loop: Return submits a non-empty line and empties the
    buffer, and is ignored on an empty one; Backspace drops the last byte
    when there is one; closing the window clears `running`.
   */
  function Step(t: Terminal, e: Event): (r: Terminal)
    ensures e == ReturnKey && t.buffer == [] ==> r == t
    ensures e == ReturnKey && t.buffer != [] ==> r == Terminal(HandleInput(t.session, Some(t.buffer)), [])
    ensures e == BackspaceKey ==> r.session == t.session
    ensures e == BackspaceKey ==> |r.buffer| == if t.buffer == [] then 0 else |t.buffer| - 1
    ensures e == BackspaceKey ==> r.buffer == t.buffer[..|r.buffer|]
    ensures e == WindowClosed ==> r.buffer == t.buffer && r.session == t.session.(running := false)
  {
    match e
    case ReturnKey =>
      if |t.buffer| > 0 then Terminal(HandleInput(t.session, Some(t.buffer)), []) else t
    case BackspaceKey =>
      if |t.buffer| > 0 then t.(buffer := t.buffer[..|t.buffer| - 1]) else t
    case WindowClosed =>
      t.(session := t.session.(running := false))
  }

  /**
    A run of events, handled one after another as the poll loop drains
    them. No event loads or unloads a game, nothing sets `running` again,
    and once the window has been closed the loop no longer runs.
   */
  function Run(t: Terminal, events: seq<Event>): (r: Terminal)
    ensures events == [] ==> r == t
    ensures r.session.game.Some? <==> t.session.game.Some?
    ensures !t.session.running ==> !r.session.running
    ensures WindowClosed in events ==> !r.session.running
    decreases |events|
  {
    if events == [] then t else Run(Step(t, events[0]), events[1..])
  }

  /** Draining two batches of events is draining their concatenation. */
  lemma {:induction false} RunAppend(t: Terminal, a: seq<Event>, b: seq<Event>)
    ensures Run(t, a + b) == Run(Run(t, a), b)
    decreases |a|
  {
    if a == [] {
      assert a + b == b;
    } else {
      assert (a + b)[0] == a[0] && (a + b)[1..] == a[1..] + b;
      RunAppend(Step(t, a[0]), a[1..], b);
    }
  }

  /**
    Whatever is typed and submitted, a loaded well-formed game stays loaded
    and well-formed: the only change is a move, which keeps every table
    within its bounds.
   */
  lemma {:induction false} RunPreservesWellFormed(t: Terminal, events: seq<Event>)
    requires t.session.game.Some? && WellFormed(t.session.game.value)
    ensures Run(t, events).session.game.Some?
    ensures WellFormed(Run(t, events).session.game.value)
    decreases |events|
  {
    if events != [] {
      var t' := Step(t, events[0]);
      var s := t.session;
      if events[0] == ReturnKey && t.buffer != [] && ParseCommand(t.buffer).Go? {
        EngineProps.MovePreservesWellFormed(s.game.value, ParseCommand(t.buffer).direction);
      }
      RunPreservesWellFormed(t', events[1..]);
    }
  }

  /** `n` presses of Backspace drop the last `n` bytes of the line, or all of them, and touch nothing else. */
  lemma {:induction false} BackspacesTrimLine(t: Terminal, n: nat)
    ensures Run(t, seq(n, _ => BackspaceKey)).session == t.session
    ensures Run(t, seq(n, _ => BackspaceKey)).buffer == t.buffer[..|t.buffer| - Min(n, |t.buffer|)]
    decreases n
  {
    if n > 0 {
      var es := seq(n, _ => BackspaceKey);
      assert es[1..] == seq(n - 1, _ => BackspaceKey);
      var t' := Step(t, BackspaceKey);
      BackspacesTrimLine(t', n - 1);
      assert t'.buffer[..|t'.buffer| - Min(n - 1, |t'.buffer|)] == t.buffer[..|t.buffer| - Min(n, |t.buffer|)];
    }
  }

  /** Return on an empty line submits nothing, so a second Return right after a first has no effect. */
  lemma ReturnTwiceIsReturnOnce(t: Terminal)
    ensures Step(Step(t, ReturnKey), ReturnKey) == Step(t, ReturnKey)
  {
  }

  /** A bare verb is not a movement: the prefix needs its space. */
  lemma BareVerbIsUnknown()
    ensures ParseCommand("go") == Unknown
  {
    CStrOfNulFree("go");
  }

  /** A line whose first character starts neither prefix is one of the exact words or nothing. */
  lemma NoMovementPrefix(input: string)
    requires CStr(input) != [] && CStr(input)[0] != 'g' && CStr(input)[0] != 'm'
    ensures ParseCommand(input) == ExactCommand(CStr(input))
  {
    var c := CStr(input);
    assert !HasPrefix(input, "go ") by {
      if |c| >= 3 {
        assert c[..3][0] == c[0];
      }
    }
    assert !HasPrefix(input, "move ") by {
      if |c| >= 5 {
        assert c[..5][0] == c[0];
      }
    }
    assert !ParseCommand(input).Go?;
  }

  /** The prefix test is case-sensitive. */
  lemma UpperCaseVerbIsUnknown()
    ensures ParseCommand("GO north") == Unknown
  {
    CStrOfNulFree("GO north");
    NoMovementPrefix("GO north");
    assert |"GO north"| == 8;
  }

  /** The empty line is no command. */
  lemma EmptyLineIsUnknown()
    ensures ParseCommand("") == Unknown
  {
  }

  /** The direction is everything after the first space, so an extra space is kept. */
  lemma DoubleSpaceKeepsSpace()
    ensures ParseCommand("move  n") == Go(" n")
  {
    CStrOfNulFree("move  n");
    assert "move  n"[..5] == "move ";
    MoveIsNotGo("move  n");
    assert "move  n"[5..] == " n";
  }
}
