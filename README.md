# Battleships serial bridge, modelled in Dafny

The Unity side of the Battleships game talks to an Arduino over a serial line. A reader
thread queues every non-empty line it reads. Once per frame `SerialManager.Update()`
drains that queue. It trims each line and hands it to `ParseArduinoMessage`, which
decodes it against two pending handshake fields (`pendingShips`, `pendingAttacks`, where
-1 means absent). Each decoded line calls into one of two collaborators:

- `GameMenu`, which keeps the attack and ship counters and the timer flag;
- `BoardVisualizer`, which colours the 64 cells of an 8x8 board.

The project models:

- **Int32** (`int32.dfy`): the C# `int` range and unchecked wrap-around.
- **Text** (`text.dfy`): the `System.String` operations the decoder uses:
  - `Trim`, with the `char.IsWhiteSpace` set;
  - ordinal `StartsWith`;
  - `Split(' ')`, which keeps empty pieces;
  - `Join` as the inverse of `Split`.
- **NumberParsing** (`number_parsing.dfy`): `int.TryParse`/`int.Parse` under
  `NumberStyles.Integer`, which allows:
  - leading and trailing U+0009..U+000D or space;
  - one optional sign;
  - decimal digits, within the `int` range.

  `int.ToString()` is modelled as the partner for the round trip.
- **Board** (`board.dfy`): the `BoardVisualizer` class over an array of cell colours,
  with the pure functions `Painted` and `Cleared` that specify its two methods.
- **Game** (`game.dfy`): the `GameMenu` class and its counters. Each method is
  specified by a function on a `MenuState` value.
- **Protocol** (`protocol.dfy`): `Decode`, the pure decoder of one trimmed line. It
  maps a line and the handshake to one `Action` (the collaborator call the line makes)
  and the next handshake.
- **Serial** (`serial.dfy`):
  - `Apply` and `Step`, the effect of one line on the world (handshake, menu, board);
  - `Drain`, the effect of one `Update()`;
  - the `SerialManager` class, whose methods are proved against `Step` and `Drain`.

Three behaviours of the code are worth stating up front.

- **Absent means "not above -1".** The code stores -1 for absent and completes the
  handshake only when the *other* field is `> -1`. So `TOTAL_SHIPS=3` followed by `TOTAL_ATTACKS=-5` starts a game
  with -5 attacks (`Protocol.ShipsThenAttacks`). The reverse order starts nothing, and both
  values stay pending (`Protocol.NegativeAttacksFirst`).
- **`attacksLeft--` wraps.** `OnAttack` decrements without an overflow check before
  clamping at zero. From `int.MinValue`, which the handshake above can store, the count
  wraps to `int.MaxValue` (`Game.Attacked`).
- **A bad coordinate stops the frame.** `int.Parse` on a bad coordinate throws out of
  `ParseArduinoMessage` and out of `Update()`. The throwing line is consumed and the rest
  of the queue waits for the next frame (`Serial.Drain`).

## Model

| member | source | states |
|---|---|---|
| Int32.Wrap | Assets/Scripts/GameMenu.cs:59 | The result is an `int`, congruent to the input modulo 2^32, and equal to it when the input is already in range (unchecked arithmetic). |
| Text.IsWhiteSpace | Assets/Scripts/SerialManager.cs:74 | Below U+0080 exactly tab, line feed, vertical tab, form feed, carriage return and space are white. No white character is NUL, a decimal digit or an upper-case Latin letter. |
| Text.StartsWith | Assets/Scripts/SerialManager.cs:88 | The test holds exactly when the prefix is no longer than the string and equals its first characters (ordinal comparison). |
| Text.LeadingWhite | Assets/Scripts/SerialManager.cs:74 | Counts the leading run of white characters: all of them are white, and the next character (if any) is not. |
| Text.TrailingWhite | Assets/Scripts/SerialManager.cs:74 | Counts the trailing run of white characters: all of them are white, and the one before (if any) is not. |
| Text.Strip | Assets/Scripts/SerialManager.cs:74 | The result is no longer than the input and neither begins nor ends with a white character. |
| Text.Trim | Assets/Scripts/SerialManager.cs:74 | The trimmed line is no longer than the original and neither begins nor ends with white space. A line that already neither begins nor ends with white space comes back unchanged. |
| Text.StripInfix | Assets/Scripts/SerialManager.cs:74 | What `Trim` keeps is the contiguous infix after the leading white run, and everything removed on either side is white. |
| Text.StripPadded | Assets/Scripts/SerialManager.cs:74 | Trimming white padding on both sides of a non-empty core that neither begins nor ends with white space gives back exactly that core. |
| Text.StripClean | Assets/Scripts/SerialManager.cs:74 | A string that neither begins nor ends with white space is unchanged by trimming. |
| Text.TrimIdempotent | Assets/Scripts/SerialManager.cs:74 | Trimming twice is trimming once. |
| Text.Split | Assets/Scripts/SerialManager.cs:137 | There is always at least one piece, and no piece contains the separator. |
| Text.JoinSplit | Assets/Scripts/SerialManager.cs:137 | Joining the pieces of `Split` with the separator gives back the original string. |
| Text.SplitAfterWord | Assets/Scripts/SerialManager.cs:137 | A separator-free word followed by the separator becomes the first piece, and the rest is split on its own. |
| Text.SplitNoSeparator | Assets/Scripts/SerialManager.cs:137 | A string without the separator splits into exactly itself. |
| NumberParsing.SignedValue | Assets/Scripts/SerialManager.cs:91 | An accepted core is non-empty and either starts with a digit or is a sign followed by at least one more character. Every character after the first is a digit, and the value is within the `int` range. |
| NumberParsing.TryParseInt32 | Assets/Scripts/SerialManager.cs:91 | A successful parse always yields a value in the `int` range. |
| NumberParsing.ShowNat | Assets/Scripts/SerialManager.cs:141-142 | The decimal rendering that `int.Parse` reads back: a non-empty string of digits whose value is the number, with no leading zero when the number has two or more digits. |
| NumberParsing.ParseShow | Assets/Scripts/SerialManager.cs:141-142 | Every `int`, rendered in decimal and parsed back, is recovered exactly (round trip). |
| NumberParsing.RejectsForeign | Assets/Scripts/SerialManager.cs:141-142 | Any character that is not a digit, a sign or number white space makes the parse fail, so `int.Parse` throws. |
| NumberParsing.RejectsOverflow | Assets/Scripts/SerialManager.cs:91 | A number outside the `int` range, written in decimal, is rejected: `int.TryParse` returns false (and `int.Parse` at lines 141-142 throws). |
| NumberParsing.ParseNonCanonical | Assets/Scripts/SerialManager.cs:91 | Any number white space around the number, a `+` sign and leading zeros are accepted; the result is the signed value of the digits when it is in the `int` range, and a rejection otherwise. |
| NumberParsing.ExamplePadded | Assets/Scripts/SerialManager.cs:91 | `" +05 "` parses as 5. |
| NumberParsing.ParseAcceptsOnlyNumbers | Assets/Scripts/SerialManager.cs:91 | Conversely, every string that parses is number white space, an optional sign, at least one digit and number white space, and it parses to the signed value of those digits. So `"1-2"`, `"--1"`, `"+ 1"` and `" "` are all rejected. |
| NumberParsing.ExampleInnerSign | Assets/Scripts/SerialManager.cs:141-142 | `"1-2"` is not a number, so `int.Parse` throws on it. |
| NumberParsing.RejectsEmpty | Assets/Scripts/SerialManager.cs:91 | The empty string and a lone sign are not numbers. |
| Board.CellIndex | Assets/Scripts/BoardVisualizer.cs:12 | An on-board square maps to a cell 0..63 whose column is `i % 8` and row is `i / 8`. |
| Board.CellIndexBijective | Assets/Scripts/BoardVisualizer.cs:11-12 | Distinct squares use distinct cells, and every cell is the image of one square. |
| Board.Painted | Assets/Scripts/BoardVisualizer.cs:9-17 | The cell count is unchanged. The cell of an on-board square takes the colour when the array reaches it, and every other cell keeps its colour; an off-board square changes nothing. |
| Board.Cleared | Assets/Scripts/BoardVisualizer.cs:19-26 | Every cell is gray and the cell count is unchanged. |
| Board.PaintOffBoard | Assets/Scripts/BoardVisualizer.cs:11 | A square off the 8x8 board leaves every cell as it was. |
| Board.PaintOnBoard | Assets/Scripts/BoardVisualizer.cs:12-16 | An on-board square sets its own cell to the colour and leaves every other cell unchanged. |
| Board.PaintCommutes | Assets/Scripts/BoardVisualizer.cs:9-17 | Colouring two different squares gives the same board in either order. |
| Board.PaintOverrides | Assets/Scripts/BoardVisualizer.cs:9-17 | The second colouring of a square overrides the first. |
| Board.ClearedIdempotent | Assets/Scripts/BoardVisualizer.cs:19-26 | Resetting twice is resetting once, and a reset erases an earlier colouring. |
| Board.BoardVisualizer.SetCellColor | Assets/Scripts/BoardVisualizer.cs:9-17 | The cell array afterwards is `Painted` applied to the cells before. |
| Board.BoardVisualizer.ResetBoard | Assets/Scripts/BoardVisualizer.cs:19-26 | The loop leaves the cell array equal to `Cleared` of the cells before. |
| Game.Initialized | Assets/Scripts/GameMenu.cs:34-48 | The totals are the arguments, the attacks left equal the total, no ship is destroyed, and the timer runs. |
| Game.Attacked | Assets/Scripts/GameMenu.cs:57-62 | The attacks left never go below zero, and nothing else changes. Above `int.MinValue` the result is `max(left - 1, 0)`; at `int.MinValue` it wraps to `int.MaxValue`. |
| Game.ShipCounted | Assets/Scripts/GameMenu.cs:64-68 | The destroyed count goes up by one (wrapping at `int.MaxValue`), and nothing else changes. |
| Game.TimerStarted | Assets/Scripts/GameMenu.cs:50-54 | The timer runs and no counter moves. |
| Game.TimerStopped | Assets/Scripts/GameMenu.cs:71-88 | The timer stops and no counter moves. |
| Game.AttackedTimes | Assets/Scripts/GameMenu.cs:57-62 | After k >= 1 calls of `OnAttack` the attacks left are non-negative, and no field other than the attacks left ever changes. |
| Game.AttacksCountDown | Assets/Scripts/GameMenu.cs:57-62 | Zero attacks change nothing. Above `int.MinValue`, k > 0 attacks leave `max(left - k, 0)`, so a negative count drops to zero at once. From `int.MinValue` the first attack wraps to `int.MaxValue` and the rest count down from there. The totals, the destroyed count and the timer are never touched. |
| Game.AttacksStayAtZero | Assets/Scripts/GameMenu.cs:60 | Once no attack is left, a further attack changes nothing. |
| Game.GameMenu.constructor | Assets/Scripts/GameMenu.cs:16-21 | A fresh menu has all counters at zero and the timer stopped. |
| Game.GameMenu.InitializeGame | Assets/Scripts/GameMenu.cs:34-48 | The fields afterwards are `Initialized(attacks, ships)`. |
| Game.GameMenu.StartTimerNow | Assets/Scripts/GameMenu.cs:50-54 | The fields afterwards are `TimerStarted` of the fields before. |
| Game.GameMenu.OnAttack | Assets/Scripts/GameMenu.cs:57-62 | The fields afterwards are `Attacked` of the fields before, and they remain `int`s. |
| Game.GameMenu.OnShipDestroyed | Assets/Scripts/GameMenu.cs:64-68 | The fields afterwards are `ShipCounted` of the fields before. |
| Game.GameMenu.OnWin | Assets/Scripts/GameMenu.cs:71-75 | The fields afterwards are `TimerStopped` of the fields before. |
| Game.GameMenu.OnLose | Assets/Scripts/GameMenu.cs:77-81 | The fields afterwards are `TimerStopped` of the fields before. |
| Game.GameMenu.ResetGame | Assets/Scripts/GameMenu.cs:83-88 | The fields afterwards are `TimerStopped` of the fields before. |
| Protocol.IsCellLine | Assets/Scripts/SerialManager.cs:132-135 | A mark line always contains a space, so it is never one of the five keyword lines. |
| Protocol.CommandColour | Assets/Scripts/SerialManager.cs:144-148 | The colour is gray exactly when the command is none of MISS, HIT, KILL and REVEAL; MISS is red. |
| Protocol.DecodeCell | Assets/Scripts/SerialManager.cs:137-150 | A mark line is ignored, throws, or colours a cell whose coordinates are `int`s. |
| Protocol.DecodeShips | Assets/Scripts/SerialManager.cs:88-101 | A ship count either emits nothing or starts a game with `int` arguments and clears both handshake fields. |
| Protocol.DecodeAttacks | Assets/Scripts/SerialManager.cs:102-115 | An attack count either emits nothing or starts a game with `int` arguments and clears both handshake fields. |
| Protocol.Decode | Assets/Scripts/SerialManager.cs:86-159 | The handshake stays within `int`, and every game start clears it. |
| Protocol.HandshakeOnlyFromCounts | Assets/Scripts/SerialManager.cs:116-158 | Every line other than the two count lines leaves the handshake alone. |
| Protocol.UnknownLine | Assets/Scripts/SerialManager.cs:156-158 | A warning is emitted if and only if no rule recognises the line; the warning carries the line itself. |
| Protocol.PaintComesFromCellLine | Assets/Scripts/SerialManager.cs:132-150 | Only a `MISS `/`HIT `/`KILL `/`REVEAL ` line can colour a cell. |
| Protocol.ShipsLine | Assets/Scripts/SerialManager.cs:88-101 | `TOTAL_SHIPS=v`: an unparsable v does nothing. Otherwise v is stored, and when an attack count above -1 waits, the game starts and both fields become absent. |
| Protocol.AttacksLine | Assets/Scripts/SerialManager.cs:102-115 | `TOTAL_ATTACKS=v`, symmetrically, testing the stored ship count. |
| Protocol.ShipsThenAttacks | Assets/Scripts/SerialManager.cs:88-115 | Ships then attacks emits exactly one game start with both values, for any attack count, a negative one included. |
| Protocol.AttacksThenShips | Assets/Scripts/SerialManager.cs:88-115 | Attacks (non-negative) then ships emits exactly one game start with both values. |
| Protocol.NegativeAttacksFirst | Assets/Scripts/SerialManager.cs:102-115 | A negative attack count counts as absent: a ship count after it starts nothing, and both stay pending. |
| Protocol.RepeatedCountOverwrites | Assets/Scripts/SerialManager.cs:93 | A second count of the same kind overwrites the first and emits nothing. |
| Protocol.KeywordLines | Assets/Scripts/SerialManager.cs:116-131 | `ATTACK`, `SHIP_DESTROYED`, `WIN`, `LOSE` and `RESET` each make their own call, whatever the handshake holds. |
| Protocol.CellLineShape | Assets/Scripts/SerialManager.cs:132-137 | A keyword, a space and any rest is a mark line that no earlier rule claims, and its first piece is the keyword. |
| Protocol.CellLine | Assets/Scripts/SerialManager.cs:137-150 | A mark line is ignored with fewer than three pieces. With two `int` coordinates it colours the cell in the mark's colour; otherwise it throws. |
| Protocol.MarkOf | Assets/Scripts/SerialManager.cs:132-135 | Every mark line is a keyword, a space and a rest. |
| Protocol.CellLineDecodes | Assets/Scripts/SerialManager.cs:132-150 | Every mark line reaches the cell rule and leaves the handshake alone. |
| Protocol.PaintNeverGray | Assets/Scripts/SerialManager.cs:144-148 | A colouring that a line causes is never the gray default. |
| Protocol.ParseDigit | Assets/Scripts/SerialManager.cs:141 | A single digit parses to its value. |
| Protocol.DigitCellLine | Assets/Scripts/SerialManager.cs:132-150 | A keyword followed by two single-digit coordinates colours that cell in the mark's colour. |
| Protocol.ExamplesMarked | Assets/Scripts/SerialManager.cs:145-147 | `MISS 3 4`, `HIT 2 2` and `KILL 7 7` colour their cells red, green and blue. |
| Protocol.ExampleBadCoordinate | Assets/Scripts/SerialManager.cs:141 | `MISS abc 4` throws. |
| Protocol.ExampleTooShort | Assets/Scripts/SerialManager.cs:138 | `MISS 3` does nothing. |
| Protocol.ExampleUnknown | Assets/Scripts/SerialManager.cs:156-158 | `FOO BAR` only produces a warning. |
| Serial.Apply | Assets/Scripts/SerialManager.cs:96-154 | Warnings, ignored lines and throws change nothing. Menu calls leave the board alone, and board calls leave the menu alone. |
| Serial.Step | Assets/Scripts/SerialManager.cs:86-159 | One line keeps every field an `int` and the cell count unchanged. |
| Serial.CellStep | Assets/Scripts/SerialManager.cs:132-150 | A mark line colours one cell or changes nothing at all. |
| Serial.Drain | Assets/Scripts/SerialManager.cs:72-76 | Lines are taken front first. Only the last line taken can throw, and a non-empty remainder means it did. What is left is exactly the untaken suffix. |
| Serial.DrainWithoutFailure | Assets/Scripts/SerialManager.cs:72-76 | A drain in which nothing throws empties the queue. |
| Serial.DrainFirst | Assets/Scripts/SerialManager.cs:73-74 | The front line is always taken. When it throws the drain stops there; otherwise it continues with the rest. |
| Serial.DrainAppend | Assets/Scripts/SerialManager.cs:72-76 | FIFO: draining a batch that does not throw and then a second batch equals draining them together, with the actions in arrival order. |
| Serial.DrainOne | Assets/Scripts/SerialManager.cs:73-74 | A one-line queue is consumed completely by that line's own step. |
| Serial.TrimAll | Assets/Scripts/SerialManager.cs:73-74 | The lines as `Update()` passes them on: as many as were queued, each one trimmed, in arrival order. |
| Serial.DrainIsRun | Assets/Scripts/SerialManager.cs:72-76 | For every queue, padded lines included: if no line throws, one frame empties the queue and leaves the world that running the trimmed lines one by one gives. |
| Serial.ScenarioAttacks | Assets/Scripts/SerialManager.cs:102-107 | `TOTAL_ATTACKS=10` from the idle handshake only stores the attack count. |
| Serial.ScenarioShips | Assets/Scripts/SerialManager.cs:88-99 | `TOTAL_SHIPS=3` after a stored 10 starts a game of 10 attacks and 3 ships. |
| Serial.DigitCellStep | Assets/Scripts/SerialManager.cs:132-150 | A mark with single-digit coordinates colours that one cell and changes nothing else. |
| Serial.ScenarioKeyword | Assets/Scripts/SerialManager.cs:116-127 | `ATTACK`, `SHIP_DESTROYED` and `WIN` reach the menu and change nothing else. |
| Serial.ScenarioOpening | Assets/Scripts/SerialManager.cs:88-119 | Both counts and one attack leave 9 of 10 attacks, 3 ships, and the timer running. |
| Serial.ScenarioClose | Assets/Scripts/SerialManager.cs:116-150 | A hit, a destroyed ship and a win colour one cell green, count one ship, and stop the timer. |
| Serial.GameScenario | Assets/Scripts/SerialManager.cs:86-159 | The six-line game ends with 10/3 totals, 9 attacks left, 1 ship destroyed, the timer stopped, and cell (2, 2) green. |
| Serial.SerialManager.constructor | Assets/Scripts/SerialManager.cs:19-25 | Both pending fields start absent (-1), and the queue starts empty. |
| Serial.SerialManager.Receive | Assets/Scripts/SerialManager.cs:59-62 | A non-empty line joins the back of the queue; an empty one is dropped. |
| Serial.SerialManager.TotalShips | Assets/Scripts/SerialManager.cs:88-101 | The state afterwards is the ship-count decoding applied to the state before. |
| Serial.SerialManager.TotalAttacks | Assets/Scripts/SerialManager.cs:102-115 | The state afterwards is the attack-count decoding applied to the state before. |
| Serial.SerialManager.MarkCell | Assets/Scripts/SerialManager.cs:137-150 | The board afterwards is the cell decoding of the line applied to the board before. `threw` holds exactly when a coordinate fails to parse. |
| Serial.SerialManager.ParseArduinoMessage | Assets/Scripts/SerialManager.cs:86-159 | The handshake, menu and board afterwards are `Step` of the state before. It throws exactly when `Decode` gives `ParseFailure`. |
| Serial.SerialManager.TakeFront | Assets/Scripts/SerialManager.cs:73-74 | Taking the front line is the first step of `Drain`. |
| Serial.SerialManager.Update | Assets/Scripts/SerialManager.cs:72-76 | The loop leaves the state and the queue exactly as `Drain` of the old queue and the old state says. |

## Left out

- The serial port itself: opening it, its timeout, `SendMessageToArduino`, `OnDestroy`
  and the reader thread's loop. Only its effect on the queue is kept (`Receive`).
- Concurrency: `ConcurrentQueue` is a sequence with one writer and one reader in turn.
  Interleavings of the reader thread with `Update` are not modelled.
- `Awake`'s singleton bookkeeping and Unity object activation in `ResetGame` (panels).
- The timer's `float` elapsed time and its `mm:ss` text, and every `TextMeshPro` label
  update. Only the `isTimerRunning` flag is kept.
- Unity's RGBA `Color` is reduced to the five colours the decoder uses.
- `Image` objects are reduced to their colour. A `null` collaborator or a `null` image
  (a `NullReferenceException`) is not modelled.
- `Debug.Log`/`Debug.LogWarning` are reduced to a `Warn` action or to nothing.
- `StartsWith(string)` is culture-sensitive in .NET; it is modelled as an ordinal prefix
  test. That agrees for the ASCII prefixes used here, except for culture-specific
  ignorable characters.
- `int.TryParse`/`int.Parse` under a culture with other sign symbols, and trailing NUL
  characters (which .NET accepts), are not modelled. The invariant culture is assumed.
- Strings are sequences of Unicode scalar values, not UTF-16 code units.
- `ParseArduinoMessage` is verified as a dispatcher over three methods: `TotalShips`,
  `TotalAttacks` and `MarkCell`, each holding one branch of the source verbatim. The loop
  body of `Update` is factored into `TakeFront` in the same way.
- `MainMenu.cs` is not part of this model.
