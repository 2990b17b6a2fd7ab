/** The Arduino line decoder of `SerialManager.ParseArduinoMessage`, as a pure
    function of one trimmed line and the pending handshake fields. */
module Protocol {
  import opened Int32
  import opened Text
  import opened NumberParsing
  import opened Board

  /** The one effect a decoded line has. */
  datatype Action =
    | InitializeGame(attacks: int, ships: int)   // gameMenu.InitializeGame(attacks, ships)
    | Attack                                     // gameMenu.OnAttack()
    | ShipDestroyed                              // gameMenu.OnShipDestroyed()
    | Win                                        // gameMenu.OnWin()
    | Lose                                       // gameMenu.OnLose()
    | SetCellColor(x: int, y: int, colour: Colour)  // boardVisualizer.SetCellColor(x, y, colour)
    | ResetBoard                                 // boardVisualizer.ResetBoard()
    | Warn(line: string)                         // "Unknown message from Arduino" warning
    | Silent                                     // no callback at all
    | ParseFailure                               // int.Parse threw on a coordinate

  /** `pendingShips` and `pendingAttacks`; a value that is not above -1 counts as absent. */
  datatype Handshake = Handshake(pendingShips: int, pendingAttacks: int)

  const Idle: Handshake := Handshake(-1, -1)

  predicate ValidHandshake(h: Handshake) {
    IsInt32(h.pendingShips) && IsInt32(h.pendingAttacks)
  }

  datatype Decoded = Decoded(action: Action, next: Handshake)

  const ShipsPrefix: string := "TOTAL_SHIPS="
  const AttacksPrefix: string := "TOTAL_ATTACKS="

  /** The four board marks and their keywords. */
  datatype Mark = Miss | Hit | Kill | Reveal

  function Keyword(m: Mark): string {
    match m
    case Miss => "MISS"
    case Hit => "HIT"
    case Kill => "KILL"
    case Reveal => "REVEAL"
  }

  function MarkColour(m: Mark): Colour {
    match m
    case Miss => Red
    case Hit => Green
    case Kill => Blue
    case Reveal => Purple
  }

  predicate IsCellLine(line: string): (b: bool)
    ensures b ==> ' ' in line && !IsKeywordLine(line)
  {
    if StartsWith(line, "MISS ") then assert line[4] == ' '; true
    else if StartsWith(line, "HIT ") then assert line[3] == ' '; true
    else if StartsWith(line, "KILL ") then assert line[4] == ' '; true
    else if StartsWith(line, "REVEAL ") then assert line[6] == ' '; true
    else false
  }

  predicate IsKeywordLine(line: string) {
    line == "ATTACK" || line == "SHIP_DESTROYED" || line == "WIN" || line == "LOSE" || line == "RESET"
  }

  /** A line that no rule of the decoder recognises. */
  predicate Unmatched(line: string) {
    !StartsWith(line, ShipsPrefix) && !StartsWith(line, AttacksPrefix)
    && !IsKeywordLine(line) && !IsCellLine(line)
  }

  /** The colour picked from the first token; gray when it is none of the keywords. */
  function CommandColour(cmd: string): (c: Colour)
    ensures c != Gray <==> cmd == "MISS" || cmd == "HIT" || cmd == "KILL" || cmd == "REVEAL"
    ensures cmd == "MISS" ==> c == Red
  {
    if cmd == "MISS" then Red
    else if cmd == "HIT" then Green
    else if cmd == "KILL" then Blue
    else if cmd == "REVEAL" then Purple
    else Gray
  }

  /** A `MISS `/`HIT `/`KILL `/`REVEAL ` line: fewer than three space-separated pieces
      is ignored, a coordinate that is not an `int` throws. */
  function DecodeCell(line: string): (a: Action)
    ensures a == Silent || a == ParseFailure || (a.SetCellColor? && IsInt32(a.x) && IsInt32(a.y))
  {
    var parts := Split(line, ' ');
    if |parts| < 3 then Silent
    else match TryParseInt32(parts[1])
      case None => ParseFailure
      case Some(x) =>
        match TryParseInt32(parts[2])
        case None => ParseFailure
        case Some(y) => SetCellColor(x, y, CommandColour(parts[0]))
  }

  /** The value after `TOTAL_SHIPS=`: stored, and when a present attack count is waiting
      the game starts and both fields return to absent. */
  function DecodeShips(value: string, h: Handshake): (d: Decoded)
    requires ValidHandshake(h)
    ensures ValidHandshake(d.next)
    ensures d.action == Silent
      || (d.action.InitializeGame? && d.next == Idle && IsInt32(d.action.attacks) && IsInt32(d.action.ships))
  {
    match TryParseInt32(value)
    case None => Decoded(Silent, h)
    case Some(ships) =>
      if h.pendingAttacks > -1 then Decoded(InitializeGame(h.pendingAttacks, ships), Idle)
      else Decoded(Silent, h.(pendingShips := ships))
  }

  /** The value after `TOTAL_ATTACKS=`, symmetrically. */
  function DecodeAttacks(value: string, h: Handshake): (d: Decoded)
    requires ValidHandshake(h)
    ensures ValidHandshake(d.next)
    ensures d.action == Silent
      || (d.action.InitializeGame? && d.next == Idle && IsInt32(d.action.attacks) && IsInt32(d.action.ships))
  {
    match TryParseInt32(value)
    case None => Decoded(Silent, h)
    case Some(attacks) =>
      if h.pendingShips > -1 then Decoded(InitializeGame(attacks, h.pendingShips), Idle)
      else Decoded(Silent, h.(pendingAttacks := attacks))
  }

  function Decode(line: string, h: Handshake): (d: Decoded)
    requires ValidHandshake(h)
    ensures ValidHandshake(d.next)
    ensures d.action.InitializeGame? ==> d.next == Idle && IsInt32(d.action.attacks) && IsInt32(d.action.ships)
  {
    if StartsWith(line, ShipsPrefix) then DecodeShips(line[|ShipsPrefix|..], h)
    else if StartsWith(line, AttacksPrefix) then DecodeAttacks(line[|AttacksPrefix|..], h)
    else if line == "ATTACK" then Decoded(Attack, h)
    else if line == "SHIP_DESTROYED" then Decoded(ShipDestroyed, h)
    else if line == "WIN" then Decoded(Win, h)
    else if line == "LOSE" then Decoded(Lose, h)
    else if IsCellLine(line) then Decoded(DecodeCell(line), h)
    else if line == "RESET" then Decoded(ResetBoard, h)
    else Decoded(Warn(line), h)
  }

  /** Only the two count lines touch the handshake. */
  lemma HandshakeOnlyFromCounts(line: string, h: Handshake)
    requires ValidHandshake(h)
    requires !StartsWith(line, ShipsPrefix) && !StartsWith(line, AttacksPrefix)
    ensures Decode(line, h).next == h
  {
  }

  /** A line is answered with a warning exactly when no rule recognises it; the warning
      carries the line and nothing else changes. */
  lemma UnknownLine(line: string, h: Handshake)
    requires ValidHandshake(h)
    ensures Decode(line, h).action.Warn? <==> Unmatched(line)
    ensures Unmatched(line) ==> Decode(line, h) == Decoded(Warn(line), h)
  {
    if StartsWith(line, ShipsPrefix) {
      assert !Decode(line, h).action.Warn?;
    } else if StartsWith(line, AttacksPrefix) {
      assert !Decode(line, h).action.Warn?;
    }
  }

  /** Only a mark line can paint a cell. */
  lemma PaintComesFromCellLine(line: string, h: Handshake)
    requires ValidHandshake(h) && Decode(line, h).action.SetCellColor?
    ensures IsCellLine(line) && Decode(line, h).action == DecodeCell(line)
  {
    if StartsWith(line, ShipsPrefix) {
      assert false;
    } else if StartsWith(line, AttacksPrefix) {
      assert false;
    }
  }

  /** `TOTAL_SHIPS=<value>`: an unparsable value changes nothing; otherwise the value is
      stored, and when a present attack count is waiting the game starts and both
      fields return to absent. */
  lemma ShipsLine(value: string, h: Handshake)
    requires ValidHandshake(h)
    ensures var d := Decode(ShipsPrefix + value, h);
      match TryParseInt32(value)
      case None => d == Decoded(Silent, h)
      case Some(a) =>
        if h.pendingAttacks > -1 then d == Decoded(InitializeGame(h.pendingAttacks, a), Idle)
        else d == Decoded(Silent, h.(pendingShips := a))
  {
    assert (ShipsPrefix + value)[|ShipsPrefix|..] == value;
  }

  /** `TOTAL_ATTACKS=<value>`, symmetrically. */
  lemma AttacksLine(value: string, h: Handshake)
    requires ValidHandshake(h)
    ensures var d := Decode(AttacksPrefix + value, h);
      match TryParseInt32(value)
      case None => d == Decoded(Silent, h)
      case Some(a) =>
        if h.pendingShips > -1 then d == Decoded(InitializeGame(a, h.pendingShips), Idle)
        else d == Decoded(Silent, h.(pendingAttacks := a))
  {
    var line := AttacksPrefix + value;
    assert line[|AttacksPrefix|..] == value;
    assert line[6] == 'A' != ShipsPrefix[6];
  }

  /** Ship count then attack count: exactly one `InitializeGame(attacks, ships)`, and the
      handshake is idle again. Only the stored ship count is tested, so any attack
      count completes it, a negative one included. */
  lemma ShipsThenAttacks(ships: int, attacks: int)
    requires IsInt32(ships) && IsInt32(attacks) && ships >= 0
    ensures Decode(ShipsPrefix + Show(ships), Idle) == Decoded(Silent, Handshake(ships, -1))
    ensures Decode(AttacksPrefix + Show(attacks), Handshake(ships, -1))
         == Decoded(InitializeGame(attacks, ships), Idle)
  {
    ParseShow(ships);
    ParseShow(attacks);
    ShipsLine(Show(ships), Idle);
    AttacksLine(Show(attacks), Handshake(ships, -1));
  }

  /** Attack count then ship count: the same single `InitializeGame(attacks, ships)`. */
  lemma AttacksThenShips(ships: int, attacks: int)
    requires IsInt32(ships) && IsInt32(attacks) && attacks >= 0
    ensures Decode(AttacksPrefix + Show(attacks), Idle) == Decoded(Silent, Handshake(-1, attacks))
    ensures Decode(ShipsPrefix + Show(ships), Handshake(-1, attacks))
         == Decoded(InitializeGame(attacks, ships), Idle)
  {
    ParseShow(ships);
    ParseShow(attacks);
    AttacksLine(Show(attacks), Idle);
    ShipsLine(Show(ships), Handshake(-1, attacks));
  }

  /** A stored negative attack count counts as absent: a ship count after it starts
      nothing and both values stay pending. */
  lemma NegativeAttacksFirst(ships: int, attacks: int)
    requires IsInt32(ships) && IsInt32(attacks) && attacks < 0
    ensures Decode(AttacksPrefix + Show(attacks), Idle) == Decoded(Silent, Handshake(-1, attacks))
    ensures Decode(ShipsPrefix + Show(ships), Handshake(-1, attacks))
         == Decoded(Silent, Handshake(ships, attacks))
  {
    ParseShow(ships);
    ParseShow(attacks);
    AttacksLine(Show(attacks), Idle);
    ShipsLine(Show(ships), Handshake(-1, attacks));
  }

  /** A second ship count while no attack count is present overwrites the first and emits
      nothing; likewise for a second attack count. */
  lemma RepeatedCountOverwrites(h: Handshake, first: int, second: int)
    requires ValidHandshake(h) && IsInt32(first) && IsInt32(second)
    ensures h.pendingAttacks <= -1 ==>
      var h1 := h.(pendingShips := first);
      Decode(ShipsPrefix + Show(second), h1) == Decoded(Silent, h.(pendingShips := second))
    ensures h.pendingShips <= -1 ==>
      var h1 := h.(pendingAttacks := first);
      Decode(AttacksPrefix + Show(second), h1) == Decoded(Silent, h.(pendingAttacks := second))
  {
    ParseShow(second);
    ShipsLine(Show(second), h.(pendingShips := first));
    AttacksLine(Show(second), h.(pendingAttacks := first));
  }

  /** The five exact keywords produce their own callback whatever the handshake holds,
      and leave it alone. */
  lemma KeywordLines(h: Handshake)
    requires ValidHandshake(h)
    ensures Decode("ATTACK", h) == Decoded(Attack, h)
    ensures Decode("SHIP_DESTROYED", h) == Decoded(ShipDestroyed, h)
    ensures Decode("WIN", h) == Decoded(Win, h)
    ensures Decode("LOSE", h) == Decoded(Lose, h)
    ensures Decode("RESET", h) == Decoded(ResetBoard, h)
  {
    assert "SHIP_DESTROYED"[0] != ShipsPrefix[0];
    assert "SHIP_DESTROYED"[0] != AttacksPrefix[0];
  }

  /** Proof helper: a line with a space in it differs from any space-free word. */
  lemma SpacedDiffers(line: string, i: nat, w: string)
    requires i < |line| && line[i] == ' ' && ' ' !in w
    ensures line != w
  {
  }

  /** A line made of a mark keyword, a space and anything else matches neither count
      prefix nor an exact keyword, but is a mark line whose first piece is the keyword. */
  lemma CellLineShape(m: Mark, rest: string)
    ensures var line := Keyword(m) + " " + rest;
      !StartsWith(line, ShipsPrefix) && !StartsWith(line, AttacksPrefix)
      && !IsKeywordLine(line) && IsCellLine(line)
      && Split(line, ' ') == [Keyword(m)] + Split(rest, ' ')
  {
    var line := Keyword(m) + " " + rest;
    var k := Keyword(m);
    assert line[..|k| + 1] == k + " ";
    assert line[0] == k[0] != 'T';
    assert |line| > |k| && line[|k|] == ' ';
    SpacedDiffers(line, |k|, "ATTACK");
    SpacedDiffers(line, |k|, "SHIP_DESTROYED");
    SpacedDiffers(line, |k|, "WIN");
    SpacedDiffers(line, |k|, "LOSE");
    SpacedDiffers(line, |k|, "RESET");
    SplitAfterWord(k, ' ', rest);
  }

  /** A mark line `<KEYWORD> <rest>`: the handshake is untouched; with fewer than two
      pieces after the keyword nothing happens; with two integer coordinates the cell gets
      the mark's colour; otherwise parsing throws. */
  lemma CellLine(m: Mark, rest: string, h: Handshake)
    requires ValidHandshake(h)
    ensures var d := Decode(Keyword(m) + " " + rest, h);
      var p := Split(rest, ' ');
      d.next == h
      && (|p| < 2 ==> d.action == Silent)
      && (|p| >= 2 ==>
            d.action == match (TryParseInt32(p[0]), TryParseInt32(p[1]))
                        case (Some(x), Some(y)) => SetCellColor(x, y, MarkColour(m))
                        case _ => ParseFailure)
  {
    var line := Keyword(m) + " " + rest;
    CellLineShape(m, rest);
    assert Decode(line, h) == Decoded(DecodeCell(line), h);
    var parts := Split(line, ' ');
    assert parts[0] == Keyword(m);
    assert CommandColour(parts[0]) == MarkColour(m);
  }

  /** The mark a mark line starts with. */
  function MarkOf(line: string): (m: Mark)
    requires IsCellLine(line)
    ensures |Keyword(m)| < |line| && line == Keyword(m) + " " + line[|Keyword(m)| + 1..]
  {
    if StartsWith(line, "MISS ") then Miss
    else if StartsWith(line, "HIT ") then Hit
    else if StartsWith(line, "KILL ") then Kill
    else Reveal
  }

  /** Every mark line reaches the cell rule: no earlier rule claims it, and the handshake
      is left alone. */
  lemma CellLineDecodes(line: string, h: Handshake)
    requires ValidHandshake(h) && IsCellLine(line)
    ensures Decode(line, h) == Decoded(DecodeCell(line), h)
  {
    var m := MarkOf(line);
    CellLineShape(m, line[|Keyword(m)| + 1..]);
  }

  /** Every mark a line can carry turns into a proper colour, never the gray default. */
  lemma PaintNeverGray(line: string, h: Handshake)
    requires ValidHandshake(h) && Decode(line, h).action.SetCellColor?
    ensures Decode(line, h).action.colour != Gray
  {
    PaintComesFromCellLine(line, h);
    var m := MarkOf(line);
    CellLine(m, line[|Keyword(m)| + 1..], h);
  }

  /** A single decimal digit parses to its value. */
  lemma ParseDigit(d: nat)
    requires d < 10
    ensures TryParseInt32([DigitChar(d)]) == Some(d)
  {
    ParseShow(d);
  }

  /** `<KEYWORD> <x> <y>` with single-digit coordinates paints (x, y) in the mark's colour. */
  lemma DigitCellLine(m: Mark, x: nat, y: nat, h: Handshake)
    requires x < 10 && y < 10 && ValidHandshake(h)
    ensures Decode(Keyword(m) + " " + [DigitChar(x)] + " " + [DigitChar(y)], h)
         == Decoded(SetCellColor(x, y, MarkColour(m)), h)
  {
    var dx, dy := [DigitChar(x)], [DigitChar(y)];
    var rest := dx + " " + dy;
    assert Keyword(m) + " " + dx + " " + dy == Keyword(m) + " " + rest;
    assert Split(rest, ' ') == [dx, dy] by {
      SplitAfterWord(dx, ' ', dy);
      SplitNoSeparator(dy, ' ');
    }
    assert TryParseInt32(dx) == Some(x) by { ParseDigit(x); }
    assert TryParseInt32(dy) == Some(y) by { ParseDigit(y); }
    CellLine(m, rest, h);
  }

  /** "MISS 3 4", "HIT 2 2" and "KILL 7 7" mark their cells red, green and blue. */
  lemma ExamplesMarked(line: string, h: Handshake)
    requires ValidHandshake(h)
    requires line in {"MISS 3 4", "HIT 2 2", "KILL 7 7"}
    ensures line == "MISS 3 4" ==> Decode(line, h) == Decoded(SetCellColor(3, 4, Red), h)
    ensures line == "HIT 2 2" ==> Decode(line, h) == Decoded(SetCellColor(2, 2, Green), h)
    ensures line == "KILL 7 7" ==> Decode(line, h) == Decoded(SetCellColor(7, 7, Blue), h)
  {
    if line == "MISS 3 4" {
      assert line == Keyword(Miss) + " " + [DigitChar(3)] + " " + [DigitChar(4)];
      DigitCellLine(Miss, 3, 4, h);
    } else if line == "HIT 2 2" {
      assert line == Keyword(Hit) + " " + [DigitChar(2)] + " " + [DigitChar(2)];
      DigitCellLine(Hit, 2, 2, h);
    } else {
      assert line == Keyword(Kill) + " " + [DigitChar(7)] + " " + [DigitChar(7)];
      DigitCellLine(Kill, 7, 7, h);
    }
  }

  /** "MISS abc 4" throws on its first coordinate. */
  lemma ExampleBadCoordinate(line: string, h: Handshake)
    requires ValidHandshake(h) && line == "MISS abc 4"
    ensures Decode(line, h) == Decoded(ParseFailure, h)
  {
    var rest := "abc 4";
    assert line == Keyword(Miss) + " " + rest;
    assert Split(rest, ' ') == ["abc", "4"] by {
      assert rest == "abc" + " " + "4";
      SplitAfterWord("abc", ' ', "4");
      SplitNoSeparator("4", ' ');
    }
    assert TryParseInt32("abc") == None by { RejectsForeign("abc", 0); }
    CellLine(Miss, rest, h);
  }

  /** "MISS 3" has too few pieces and does nothing. */
  lemma ExampleTooShort(line: string, h: Handshake)
    requires ValidHandshake(h) && line == "MISS 3"
    ensures Decode(line, h) == Decoded(Silent, h)
  {
    assert line == Keyword(Miss) + " " + "3";
    SplitNoSeparator("3", ' ');
    CellLine(Miss, "3", h);
  }

  /** "FOO BAR" is only a warning. */
  lemma ExampleUnknown(h: Handshake)
    requires ValidHandshake(h)
    ensures Decode("FOO BAR", h) == Decoded(Warn("FOO BAR"), h)
  {
    var line := "FOO BAR";
    assert line[0] == 'F';
    assert !IsCellLine(line);
    assert Unmatched(line);
    UnknownLine(line, h);
  }
}
