/** `GameMenu`: the attack and ship counters and the timer flag the decoder drives. */
module Game {
  import opened Int32

  /** The counter and flag fields of `GameMenu`. */
  datatype MenuState = MenuState(
    totalAttacks: int,
    totalShips: int,
    attacksLeft: int,
    shipsDestroyed: int,
    timerRunning: bool)

  /** Every counter is a C# `int`. */
  predicate ValidMenu(m: MenuState) {
    IsInt32(m.totalAttacks) && IsInt32(m.totalShips) && IsInt32(m.attacksLeft) && IsInt32(m.shipsDestroyed)
  }

  /** Field values of a fresh `GameMenu` component. */
  const Fresh: MenuState := MenuState(0, 0, 0, 0, false)

  /** State after `InitializeGame(attacks, ships)`. */
  function Initialized(attacks: int, ships: int): (m: MenuState)
    requires IsInt32(attacks) && IsInt32(ships)
    ensures ValidMenu(m) && m.timerRunning
    ensures m.totalAttacks == m.attacksLeft == attacks && m.totalShips == ships && m.shipsDestroyed == 0
  {
    MenuState(attacks, ships, attacks, 0, true)
  }

  /** State after `OnAttack()`: one attack fewer, never below zero. `attacksLeft--`
      is unchecked, so from the smallest `int` it wraps to the largest. */
  function Attacked(m: MenuState): (r: MenuState)
    requires ValidMenu(m)
    ensures ValidMenu(r) && r.attacksLeft >= 0
    ensures r == m.(attacksLeft := r.attacksLeft)
    ensures m.attacksLeft > MinInt32 ==> r.attacksLeft == if m.attacksLeft > 0 then m.attacksLeft - 1 else 0
    ensures m.attacksLeft == MinInt32 ==> r.attacksLeft == MaxInt32
  {
    var left := Wrap(m.attacksLeft - 1);
    m.(attacksLeft := if left < 0 then 0 else left)
  }

  /** State after `OnShipDestroyed()`: one more ship destroyed (`shipsDestroyed++`, unchecked). */
  function ShipCounted(m: MenuState): (r: MenuState)
    requires ValidMenu(m)
    ensures ValidMenu(r)
    ensures r == m.(shipsDestroyed := r.shipsDestroyed)
    ensures m.shipsDestroyed < MaxInt32 ==> r.shipsDestroyed == m.shipsDestroyed + 1
    ensures m.shipsDestroyed == MaxInt32 ==> r.shipsDestroyed == MinInt32
  {
    m.(shipsDestroyed := Wrap(m.shipsDestroyed + 1))
  }

  /** State after `StartTimerNow()`. */
  function TimerStarted(m: MenuState): (r: MenuState)
    ensures r.timerRunning && r == m.(timerRunning := true)
  {
    m.(timerRunning := true)
  }

  /** State after `OnWin()`, `OnLose()` or `ResetGame()`: the timer stops, no counter moves. */
  function TimerStopped(m: MenuState): (r: MenuState)
    ensures !r.timerRunning && r == m.(timerRunning := false)
  {
    m.(timerRunning := false)
  }

  /** `k` consecutive `OnAttack()` calls. */
  function AttackedTimes(m: MenuState, k: nat): (r: MenuState)
    requires ValidMenu(m)
    ensures ValidMenu(r)
    ensures k > 0 ==> r.attacksLeft >= 0
    ensures r == m.(attacksLeft := r.attacksLeft)
    decreases k
  {
    if k == 0 then m else AttackedTimes(Attacked(m), k - 1)
  }

  /** `k` attacks count down to zero and stay there, and the totals never move. A count
      above `int.MinValue` ends at `max(attacksLeft - k, 0)` (a negative count is clamped
      to zero by the first attack); `int.MinValue` first wraps to `int.MaxValue`. */
  lemma {:induction false} AttacksCountDown(m: MenuState, k: nat)
    requires ValidMenu(m)
    ensures k == 0 ==> AttackedTimes(m, k) == m
    ensures k > 0 && m.attacksLeft > MinInt32 ==>
      AttackedTimes(m, k).attacksLeft == if m.attacksLeft >= k then m.attacksLeft - k else 0
    ensures k > 0 && m.attacksLeft == MinInt32 ==>
      AttackedTimes(m, k).attacksLeft == if MaxInt32 >= k - 1 then MaxInt32 - (k - 1) else 0
    ensures AttackedTimes(m, k) == m.(attacksLeft := AttackedTimes(m, k).attacksLeft)
    decreases k
  {
    if k > 0 {
      AttacksCountDown(Attacked(m), k - 1);
    }
  }

  /** Once at zero, further attacks keep it at zero. */
  lemma AttacksStayAtZero(m: MenuState)
    requires ValidMenu(m) && m.attacksLeft == 0
    ensures Attacked(m) == m
  {
  }

  class GameMenu {
    var totalAttacks: int
    var totalShips: int
    var attacksLeft: int
    var shipsDestroyed: int
    var isTimerRunning: bool

    function State(): MenuState
      reads this
    {
      MenuState(totalAttacks, totalShips, attacksLeft, shipsDestroyed, isTimerRunning)
    }

    ghost predicate Valid()
      reads this
    {
      ValidMenu(State())
    }

    constructor ()
      ensures Valid() && State() == Fresh
    {
      totalAttacks, totalShips, attacksLeft, shipsDestroyed := 0, 0, 0, 0;
      isTimerRunning := false;
    }

    method InitializeGame(totalAttacksFromArduino: int, totalShipsFromArduino: int)
      requires IsInt32(totalAttacksFromArduino) && IsInt32(totalShipsFromArduino)
      modifies this
      ensures Valid() && State() == Initialized(totalAttacksFromArduino, totalShipsFromArduino)
    {
      totalAttacks := totalAttacksFromArduino;
      totalShips := totalShipsFromArduino;
      attacksLeft := totalAttacks;
      shipsDestroyed := 0;
      isTimerRunning := true;
    }

    method StartTimerNow()
      requires Valid()
      modifies this
      ensures Valid() && State() == TimerStarted(old(State()))
    {
      isTimerRunning := true;
    }

    method OnAttack()
      requires Valid()
      modifies this
      ensures Valid() && State() == Attacked(old(State()))
    {
      attacksLeft := Wrap(attacksLeft - 1);
      if attacksLeft < 0 {
        attacksLeft := 0;
      }
    }

    method OnShipDestroyed()
      requires Valid()
      modifies this
      ensures Valid() && State() == ShipCounted(old(State()))
    {
      shipsDestroyed := Wrap(shipsDestroyed + 1);
    }

    method OnWin()
      requires Valid()
      modifies this
      ensures Valid() && State() == TimerStopped(old(State()))
    {
      isTimerRunning := false;
    }

    method OnLose()
      requires Valid()
      modifies this
      ensures Valid() && State() == TimerStopped(old(State()))
    {
      isTimerRunning := false;
    }

    method ResetGame()
      requires Valid()
      modifies this
      ensures Valid() && State() == TimerStopped(old(State()))
    {
      isTimerRunning := false;
    }
  }
}
