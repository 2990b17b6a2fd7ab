/** `SerialManager`: the queue the reader thread fills, the per-frame drain in `Update`,
    and `ParseArduinoMessage`, which updates the handshake fields and calls into
    `GameMenu` and `BoardVisualizer`. */
module Serial {
  import opened Int32
  import opened Text
  import opened Board
  import opened Game
  import opened NumberParsing
  import opened Protocol

  /** Everything a decoded line can change: the handshake fields, the menu counters
      and the board colours. */
  datatype World = World(handshake: Handshake, menu: MenuState, board: seq<Colour>)

  predicate ValidWorld(w: World) {
    ValidHandshake(w.handshake) && ValidMenu(w.menu)
  }

  /** The collaborator call an action stands for. */
  function Apply(w: World, a: Action): (r: World)
    requires ValidMenu(w.menu)
    requires a.InitializeGame? ==> IsInt32(a.attacks) && IsInt32(a.ships)
    ensures ValidMenu(r.menu) && r.handshake == w.handshake
    ensures a.Warn? || a.Silent? || a.ParseFailure? ==> r == w
    ensures !a.SetCellColor? && !a.ResetBoard? ==> r.board == w.board
    ensures a.SetCellColor? || a.ResetBoard? ==> r.menu == w.menu
  {
    match a
    case InitializeGame(attacks, ships) => w.(menu := Initialized(attacks, ships))
    case Attack => w.(menu := Attacked(w.menu))
    case ShipDestroyed => w.(menu := ShipCounted(w.menu))
    case Win => w.(menu := TimerStopped(w.menu))
    case Lose => w.(menu := TimerStopped(w.menu))
    case SetCellColor(x, y, c) => w.(board := Painted(w.board, x, y, c))
    case ResetBoard => w.(board := Cleared(w.board))
    case Warn(_) => w
    case Silent => w
    case ParseFailure => w
  }

  /** The world after `ParseArduinoMessage(line)`. */
  function Step(w: World, line: string): (r: World)
    requires ValidWorld(w)
    ensures ValidWorld(r)
    ensures |r.board| == |w.board|
  {
    var d := Decode(line, w.handshake);
    Apply(w.(handshake := d.next), d.action)
  }

  /** A cell line repaints one cell, or nothing when it is short or its coordinates do not parse. */
  lemma CellStep(w: World, line: string)
    requires ValidWorld(w)
    requires IsCellLine(line)
    ensures var a := DecodeCell(line);
      Step(w, line) == if a.SetCellColor? then w.(board := Painted(w.board, a.x, a.y, a.colour)) else w
  {
    var a := DecodeCell(line);
    CellLineDecodes(line, w.handshake);
    assert Step(w, line) == Apply(w, a);
    if a.SetCellColor? {
      assert Apply(w, a) == w.(board := Painted(w.board, a.x, a.y, a.colour));
    }
  }

  /** What one `Update()` leaves: the world, the lines still queued, and the action of each
      line it took, in order. */
  datatype Drained = Drained(world: World, rest: seq<string>, trace: seq<Action>)

  /** `Update()`: take queued lines front first, trim each and decode it, until the queue is
      empty or `int.Parse` throws; the throwing line is consumed and the rest stays queued. */
  function Drain(queue: seq<string>, w: World): (r: Drained)
    requires ValidWorld(w)
    ensures ValidWorld(r.world) && |r.world.board| == |w.board|
    ensures |r.trace| + |r.rest| == |queue| && r.rest == queue[|r.trace|..]
    ensures forall i :: 0 <= i < |r.trace| - 1 ==> r.trace[i] != ParseFailure
    ensures r.rest != [] ==> |r.trace| > 0 && r.trace[|r.trace| - 1] == ParseFailure
    decreases |queue|
  {
    if queue == [] then Drained(w, [], [])
    else
      var line := Trim(queue[0]);
      var a := Decode(line, w.handshake).action;
      var w1 := Step(w, line);
      if a == ParseFailure then Drained(w1, queue[1..], [a])
      else
        var r := Drain(queue[1..], w1);
        Drained(r.world, r.rest, [a] + r.trace)
  }

  /** Proof helper: a concatenation starts with the head of its non-empty first part. */
  lemma ConsAppend<T>(q1: seq<T>, q2: seq<T>)
    requires q1 != []
    ensures q1 + q2 != [] && (q1 + q2)[0] == q1[0] && (q1 + q2)[1..] == q1[1..] + q2
  {
  }

  /** A drain that takes no throwing line empties the queue. */
  lemma DrainWithoutFailure(queue: seq<string>, w: World)
    requires ValidWorld(w) && ParseFailure !in Drain(queue, w).trace
    ensures Drain(queue, w).rest == []
  {
  }

  /** The first line of a queue is always taken; when it throws the drain stops there,
      otherwise it goes on with the rest. */
  lemma DrainFirst(queue: seq<string>, w: World)
    requires ValidWorld(w) && queue != []
    ensures var a := Decode(Trim(queue[0]), w.handshake).action;
      var w1 := Step(w, Trim(queue[0]));
      a == ParseFailure ==> Drain(queue, w) == Drained(w1, queue[1..], [a])
    ensures var a := Decode(Trim(queue[0]), w.handshake).action;
      var t := Drain(queue[1..], Step(w, Trim(queue[0])));
      a != ParseFailure ==> Drain(queue, w) == Drained(t.world, t.rest, [a] + t.trace)
  {
  }

  /** FIFO: draining two batches in turn is draining them together, as long as nothing
      in the first batch throws; the actions come out in arrival order. */
  lemma {:induction false} DrainAppend(q1: seq<string>, q2: seq<string>, w: World)
    requires ValidWorld(w) && ParseFailure !in Drain(q1, w).trace
    ensures Drain(q1, w).rest == []
    ensures var r1 := Drain(q1, w);
      var r2 := Drain(q2, r1.world);
      Drain(q1 + q2, w) == Drained(r2.world, r2.rest, r1.trace + r2.trace)
    decreases |q1|
  {
    DrainWithoutFailure(q1, w);
    if q1 == [] {
      assert q1 + q2 == q2;
    } else {
      var r1 := Drain(q1, w);
      var a := Decode(Trim(q1[0]), w.handshake).action;
      var w1 := Step(w, Trim(q1[0]));
      assert r1.trace[0] == a;
      DrainFirst(q1, w);
      var t := Drain(q1[1..], w1);
      assert r1 == Drained(t.world, t.rest, [a] + t.trace);
      assert ParseFailure !in t.trace;
      DrainAppend(q1[1..], q2, w1);
      var r2 := Drain(q2, r1.world);
      assert Drain(q1[1..] + q2, w1) == Drained(r2.world, r2.rest, t.trace + r2.trace);
      ConsAppend(q1, q2);
      DrainFirst(q1 + q2, w);
      assert Drain(q1 + q2, w) == Drained(r2.world, r2.rest, [a] + (t.trace + r2.trace));
      AppendAssoc([a], t.trace, r2.trace);
    }
  }

  /** A queue of one line takes exactly that line's action. */
  lemma DrainOne(line: string, w: World)
    requires ValidWorld(w)
    ensures Drain([line], w) == Drained(Step(w, Trim(line)), [], [Decode(Trim(line), w.handshake).action])
  {
  }

  /** The world a message sequence leads to, one call per line, with no trimming. */
  function Run(lines: seq<string>, w: World): (r: World)
    requires ValidWorld(w)
    ensures ValidWorld(r) && |r.board| == |w.board|
    decreases |lines|
  {
    if lines == [] then w else Run(lines[1..], Step(w, lines[0]))
  }

  /** The queued lines as `Update()` hands them on: each one trimmed, in arrival order. */
  function TrimAll(queue: seq<string>): (r: seq<string>)
    ensures |r| == |queue|
    ensures forall i :: 0 <= i < |r| ==> r[i] == Trim(queue[i])
  {
    seq(|queue|, i requires 0 <= i < |queue| => Trim(queue[i]))
  }

  /** Without a throwing line, one `Update()` applies the trimmed queued lines one by one. */
  lemma {:induction false} DrainIsRun(queue: seq<string>, w: World)
    requires ValidWorld(w)
    requires ParseFailure !in Drain(queue, w).trace
    ensures Drain(queue, w).world == Run(TrimAll(queue), w) && Drain(queue, w).rest == []
    decreases |queue|
  {
    var r := Drain(queue, w);
    if queue != [] {
      var w1 := Step(w, Trim(queue[0]));
      var t := Drain(queue[1..], w1);
      assert r.trace == [r.trace[0]] + t.trace;
      assert ParseFailure !in t.trace;
      DrainIsRun(queue[1..], w1);
      var lines := TrimAll(queue);
      assert lines[0] == Trim(queue[0]);
      assert lines[1..] == TrimAll(queue[1..]);
    }
  }

  /** `TOTAL_ATTACKS=10` while nothing is pending only stores the attack count. */
  lemma ScenarioAttacks(w: World, line: string)
    requires ValidWorld(w) && w.handshake == Idle && line == "TOTAL_ATTACKS=10"
    ensures Step(w, line) == w.(handshake := Handshake(-1, 10))
  {
    assert line == AttacksPrefix + Show(10);
    ParseShow(10);
    AttacksLine(Show(10), Idle);
  }

  /** `TOTAL_SHIPS=3` after a stored attack count of 10 starts the game. */
  lemma ScenarioShips(w: World, line: string)
    requires ValidWorld(w) && w.handshake == Handshake(-1, 10) && line == "TOTAL_SHIPS=3"
    ensures Step(w, line) == w.(handshake := Idle, menu := Initialized(10, 3))
  {
    assert line == ShipsPrefix + Show(3);
    ParseShow(3);
    ShipsLine(Show(3), w.handshake);
  }

  /** `<KEYWORD> <x> <y>` with single-digit coordinates colours that one cell and touches
      nothing else. */
  lemma DigitCellStep(w: World, m: Mark, x: nat, y: nat)
    requires ValidWorld(w) && x < 10 && y < 10
    ensures Step(w, Keyword(m) + " " + [DigitChar(x)] + " " + [DigitChar(y)])
         == w.(board := Painted(w.board, x, y, MarkColour(m)))
  {
    var line := Keyword(m) + " " + [DigitChar(x)] + " " + [DigitChar(y)];
    assert IsCellLine(line) by {
      assert line == Keyword(m) + " " + ([DigitChar(x)] + " " + [DigitChar(y)]);
      CellLineShape(m, [DigitChar(x)] + " " + [DigitChar(y)]);
    }
    assert DecodeCell(line) == SetCellColor(x, y, MarkColour(m)) by {
      DigitCellLine(m, x, y, w.handshake);
      CellLineDecodes(line, w.handshake);
    }
    CellStep(w, line);
  }

  /** The bare keywords reach the game menu and leave the handshake alone. */
  lemma ScenarioKeyword(w: World, line: string)
    requires ValidWorld(w) && line in {"ATTACK", "SHIP_DESTROYED", "WIN"}
    ensures line == "ATTACK" ==> Step(w, line) == w.(menu := Attacked(w.menu))
    ensures line == "SHIP_DESTROYED" ==> Step(w, line) == w.(menu := ShipCounted(w.menu))
    ensures line == "WIN" ==> Step(w, line) == w.(menu := TimerStopped(w.menu))
  {
    KeywordLines(w.handshake);
  }

  /** The opening of a game: the attack count, the ship count and a first attack. */
  lemma ScenarioOpening(w: World, l0: string, l1: string, l2: string)
    requires ValidWorld(w) && w.handshake == Idle
    requires l0 == "TOTAL_ATTACKS=10" && l1 == "TOTAL_SHIPS=3" && l2 == "ATTACK"
    ensures Step(Step(Step(w, l0), l1), l2) == w.(menu := MenuState(10, 3, 9, 0, true))
  {
    ScenarioAttacks(w, l0);
    var w1 := Step(w, l0);
    ScenarioShips(w1, l1);
    var w2 := Step(w1, l1);
    assert w2 == w.(menu := MenuState(10, 3, 10, 0, true));
    ScenarioKeyword(w2, l2);
  }

  /** The close of that game: a hit on (2, 2), a destroyed ship and a win. */
  lemma ScenarioClose(w: World, l3: string, l4: string, l5: string)
    requires ValidWorld(w) && w.menu == MenuState(10, 3, 9, 0, true)
    requires l3 == "HIT 2 2" && l4 == "SHIP_DESTROYED" && l5 == "WIN"
    ensures Step(Step(Step(w, l3), l4), l5)
         == w.(menu := MenuState(10, 3, 9, 1, false), board := Painted(w.board, 2, 2, Green))
  {
    var two := DigitChar(2);
    assert two == '2';
    assert l3 == Keyword(Hit) + " " + [two] + " " + [two];
    DigitCellStep(w, Hit, 2, 2);
    var w4 := Step(w, l3);
    ScenarioKeyword(w4, l4);
    ScenarioKeyword(Step(w4, l4), l5);
  }

  /** The end-to-end chain: the handshake, an attack, a hit on (2, 2), a destroyed ship and
      a win start a game of 10 attacks and 3 ships, leave 9 attacks and 1 ship destroyed,
      stop the timer and colour cell 18 green. */
  lemma GameScenario(lines: seq<string>, m: MenuState, board: seq<Colour>)
    requires ValidMenu(m)
    requires lines == ["TOTAL_ATTACKS=10", "TOTAL_SHIPS=3", "ATTACK", "HIT 2 2", "SHIP_DESTROYED", "WIN"]
    ensures Run(lines, World(Idle, m, board))
         == World(Idle, MenuState(10, 3, 9, 1, false), Painted(board, 2, 2, Green))
  {
    var w0 := World(Idle, m, board);
    ScenarioOpening(w0, lines[0], lines[1], lines[2]);
    var w1 := Step(w0, lines[0]);
    var w2 := Step(w1, lines[1]);
    var w3 := Step(w2, lines[2]);
    ScenarioClose(w3, lines[3], lines[4], lines[5]);
    var w4 := Step(w3, lines[3]);
    var w5 := Step(w4, lines[4]);
    var w6 := Step(w5, lines[5]);
    assert Run(lines[5..], w5) == Run([], w6);
    assert Run(lines[4..], w4) == Run(lines[5..], w5);
    assert Run(lines[3..], w3) == Run(lines[4..], w4);
    assert Run(lines[2..], w2) == Run(lines[3..], w3);
    assert Run(lines[1..], w1) == Run(lines[2..], w2);
    assert Run(lines, w0) == Run(lines[1..], w1);
  }

  class SerialManager {
    var pendingShips: int
    var pendingAttacks: int
    /** What `messageQueue` holds, front first. */
    var messageQueue: seq<string>
    const gameMenu: GameMenu
    const boardVisualizer: BoardVisualizer

    function Pending(): Handshake
      reads this
    {
      Handshake(pendingShips, pendingAttacks)
    }

    ghost predicate Valid()
      reads this, gameMenu
    {
      ValidHandshake(Pending()) && gameMenu.Valid()
    }

    ghost function State(): World
      reads this, gameMenu, boardVisualizer.cellImages
    {
      World(Pending(), gameMenu.State(), boardVisualizer.cellImages[..])
    }

    constructor (menu: GameMenu, board: BoardVisualizer)
      requires menu.Valid()
      ensures Valid() && gameMenu == menu && boardVisualizer == board
      ensures Pending() == Idle && messageQueue == []
    {
      gameMenu := menu;
      boardVisualizer := board;
      pendingShips := -1;
      pendingAttacks := -1;
      messageQueue := [];
    }

    /** One successful read of the reader thread: a non-empty line joins the back of the queue. */
    method Receive(line: string)
      modifies this`messageQueue
      ensures messageQueue == old(messageQueue) + (if line == "" then [] else [line])
    {
      if line != "" {
        messageQueue := messageQueue + [line];
      }
    }

    /** The `TOTAL_SHIPS=` branch of `ParseArduinoMessage`. */
    method TotalShips(valueStr: string)
      requires Valid()
      modifies this`pendingShips, this`pendingAttacks, gameMenu
      ensures Valid()
      ensures var d := DecodeShips(valueStr, old(Pending()));
        State() == Apply(old(State()).(handshake := d.next), d.action)
    {
      var ships := TryParseInt32(valueStr);
      if ships.Some? {
        pendingShips := ships.value;
        if pendingAttacks > -1 {
          gameMenu.InitializeGame(pendingAttacks, pendingShips);
          pendingAttacks := -1;
          pendingShips := -1;
        }
      }
    }

    /** The `TOTAL_ATTACKS=` branch of `ParseArduinoMessage`. */
    method TotalAttacks(valueStr: string)
      requires Valid()
      modifies this`pendingShips, this`pendingAttacks, gameMenu
      ensures Valid()
      ensures var d := DecodeAttacks(valueStr, old(Pending()));
        State() == Apply(old(State()).(handshake := d.next), d.action)
    {
      var attacks := TryParseInt32(valueStr);
      if attacks.Some? {
        pendingAttacks := attacks.value;
        if pendingShips > -1 {
          gameMenu.InitializeGame(pendingAttacks, pendingShips);
          pendingAttacks := -1;
          pendingShips := -1;
        }
      }
    }

    /** The `MISS `/`HIT `/`KILL `/`REVEAL ` branch of `ParseArduinoMessage`;
        `threw` reports that `int.Parse` threw on a coordinate. */
    method MarkCell(line: string) returns (threw: bool)
      modifies boardVisualizer.cellImages
      ensures var a := DecodeCell(line);
        boardVisualizer.cellImages[..]
          == if a.SetCellColor? then Painted(old(boardVisualizer.cellImages[..]), a.x, a.y, a.colour)
             else old(boardVisualizer.cellImages[..])
      ensures threw <==> DecodeCell(line) == ParseFailure
    {
      var parts := Split(line, ' ');
      if |parts| < 3 {
        return false;
      }
      var cmd := parts[0];
      var x := TryParseInt32(parts[1]);
      if x.None? {
        return true;
      }
      var y := TryParseInt32(parts[2]);
      if y.None? {
        return true;
      }
      var c := Gray;
      if cmd == "MISS" {
        c := Red;
      } else if cmd == "HIT" {
        c := Green;
      } else if cmd == "KILL" {
        c := Blue;
      } else if cmd == "REVEAL" {
        c := Purple;
      }
      assert DecodeCell(line) == SetCellColor(x.value, y.value, c);
      boardVisualizer.SetCellColor(x.value, y.value, c);
      threw := false;
    }

    /** Decodes one trimmed line; `threw` reports that `int.Parse` threw on a coordinate. */
    method ParseArduinoMessage(line: string) returns (threw: bool)
      requires Valid()
      modifies this`pendingShips, this`pendingAttacks, gameMenu, boardVisualizer.cellImages
      ensures Valid()
      ensures State() == Step(old(State()), line)
      ensures threw <==> Decode(line, old(Pending())).action == ParseFailure
    {
      threw := false;
      if StartsWith(line, ShipsPrefix) {
        TotalShips(line[|ShipsPrefix|..]);
      } else if StartsWith(line, AttacksPrefix) {
        TotalAttacks(line[|AttacksPrefix|..]);
      } else if line == "ATTACK" {
        gameMenu.OnAttack();
      } else if line == "SHIP_DESTROYED" {
        gameMenu.OnShipDestroyed();
      } else if line == "WIN" {
        gameMenu.OnWin();
      } else if line == "LOSE" {
        gameMenu.OnLose();
      } else if IsCellLine(line) {
        CellStep(State(), line);
        threw := MarkCell(line);
      } else if line == "RESET" {
        boardVisualizer.ResetBoard();
      }
    }

    /** One turn of `Update()`'s loop: dequeue the front line and decode it trimmed;
        `threw` reports that it threw and `action` is the action it stands for. */
    method TakeFront() returns (threw: bool, ghost action: Action)
      requires Valid() && messageQueue != []
      modifies this, gameMenu, boardVisualizer.cellImages
      ensures Valid()
      ensures |messageQueue| < |old(messageQueue)|
      ensures threw ==> Drain(old(messageQueue), old(State())) == Drained(State(), messageQueue, [action])
      ensures !threw ==> var t := Drain(messageQueue, State());
        Drain(old(messageQueue), old(State())) == Drained(t.world, t.rest, [action] + t.trace)
    {
      var line := messageQueue[0];
      DrainFirst(messageQueue, State());
      action := Decode(Trim(line), Pending()).action;
      messageQueue := messageQueue[1..];
      threw := ParseArduinoMessage(Trim(line));
    }

    /** One frame: drains the queue through `ParseArduinoMessage`, front first, stopping
        early when a coordinate fails to parse; `trace` is the action of each line taken. */
    method Update() returns (ghost trace: seq<Action>)
      requires Valid()
      modifies this, gameMenu, boardVisualizer.cellImages
      ensures Valid()
      ensures Drain(old(messageQueue), old(State())) == Drained(State(), messageQueue, trace)
    {
      trace := [];
      while messageQueue != []
        invariant Valid()
        invariant var now := Drain(messageQueue, State());
          Drain(old(messageQueue), old(State())) == Drained(now.world, now.rest, trace + now.trace)
        decreases |messageQueue|
      {
        var threw, action := TakeFront();
        if threw {
          trace := trace + [action];
          return;
        }
        AppendAssoc(trace, [action], Drain(messageQueue, State()).trace);
        trace := trace + [action];
      }
    }
  }
}
