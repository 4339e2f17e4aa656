# csharp-patterns in Dafny

A model of four of the design-pattern demos in the `CsharpPatterns` solution,
with proofs about each one.

- **State** (`State/`). A 10 by 10 map of two-letter marks with two agents and up
  to four food tiles.
  - Each agent has hunger, energy, a position, an action queue and a state
    object: Idle, Hungry or Sleeping.
  - On each tick the state either switches to another state or enqueues one
    action, and the agent then runs at most one queued action.
  - On each tick the world clears the map and lets every agent standing on food
    eat it. It then writes the agents' short names and the food marks, updates
    every agent, and tops the food back up to four tiles.
  - Modules: `Vectors`, `WorldGrid`, `AgentRules` (the rules as pure functions
    over an `AgentView`), `Agents` (the classes `Agent` and `AgentState`) and
    `Worlds` (the class `World`).
- **Command** (`Command/`). A tic-tac-toe board.
  - Every move made on the board is recorded as a `MoveCommand`. Replaying the
    recorded commands on a reset board rebuilds the game.
  - An AI opponent picks a winning square, else a blocking square, else the
    centre, else any empty square.
  - Modules: `TicTacToe` and `TicTacToeAI`.
- **Mediator** (`Mediator/Unit.cs`). Players and enemies never call each other:
  they raise damage, death and healing events on a hub. Module `Combat`.
- **Factory** (`Factory/`). Two storage APIs.
  - A mobile device: one slot of bytes behind access-mode checks. Module
    `MobileStorage`.
  - A game console: an ordered chain of permission checks. Module
    `ConsoleStorage`.

Static globals become explicit objects or parameters:

- `World.Map` becomes the field `World.grid`, passed to the agents.
- `Program.BoardInstance` becomes the `board` argument.
- `GameEvents` becomes a `GameEvents` object holding the log of raised events.

Random draws become one of two things:

- a nondeterministic choice inside the method, with ghost results that name the
  draw;
- a parameter with the range the generator gives.

Where the code and its documentation disagree, the model follows the code:

- `Agent.Idle` does not clamp, so hunger reaches 101 (`AgentRules.IdleReaches101`).
- The collision offset `random.Next(-1, 1)` is -1 or 0, never +1.
- `SpawnFood` has no retry cap. Because the map is not updated inside its
  loop, every draw succeeds, so it adds exactly the missing tiles. The same
  cell can be drawn twice.
- A hungry agent that needs a new target when the map shows no food indexes an
  empty list. This is modelled as a fault (`ok == false`), not as a silent no-op.
- The AI's row and column checks are kept with their copy-paste guards.
  - They compare with 1 where the opposing symbol is meant.
  - The middle-row guard reads (2, 1).
  - The middle-column section lists (1, 2).
- `Player.HealingReceived` adds two `uint`s, which wraps modulo 2^32 before the
  cap at 100 (`Combat.HealingCanWrap`).

## Model

| member | source | states |
|---|---|---|
| Vectors.Add | CsharpPatterns/State/Vector2Int.cs:24-25 | each component is the sum when that is at most XMax or YMax and exactly XMax or YMax above it; there is no lower clamp |
| Vectors.Sub | CsharpPatterns/State/Vector2Int.cs:26-27 | each component is the difference when that is at least 0 and exactly 0 below it; there is no upper clamp |
| Vectors.Scale | CsharpPatterns/State/Vector2Int.cs:28-29 | each component is the product when it lies in [0, XMax] or [0, YMax]; otherwise it is the nearer bound |
| Vectors.Eq | CsharpPatterns/State/Vector2Int.cs:30 | `==` holds exactly when both components agree |
| Vectors.NotEq | CsharpPatterns/State/Vector2Int.cs:31 | `!=` is the negation of `==` |
| Vectors.EqualsObject | CsharpPatterns/State/Vector2Int.cs:36-40 | `Equals(object)` is true exactly for a vector equal to this one; null or another type gives false |
| Vectors.OneSidedClamps | CsharpPatterns/State/Vector2Int.cs:24-27 | `+` lets a negative component through and `-` lets a component above XMax through |
| WorldGrid.LabelledIff | CsharpPatterns/State/World.cs:26-59 | the row-major scan lists a cell exactly when the cell is on the map and carries the mark |
| WorldGrid.LabelledSorted | CsharpPatterns/State/World.cs:31-38 | the scan lists cells in strictly increasing row-major order, so each cell appears at most once |
| WorldGrid.CellsLabelled | CsharpPatterns/State/World.cs:30-41 | the nested loop computes that row-major scan |
| WorldGrid.FoodSpots | CsharpPatterns/State/World.cs:45-59 | the result is exactly the "FD" cells, in row-major order |
| WorldGrid.FreeSpaces | CsharpPatterns/State/World.cs:26-43 | the result is exactly the "  " cells, in row-major order |
| WorldGrid.GreedyStep | CsharpPatterns/State/World.cs:131-136 | the step stays on the map and moves each axis by at most one, toward the destination; an axis already equal to the destination does not move; an axis whose on-map destination differs does move |
| WorldGrid.MoveTowards | CsharpPatterns/State/World.cs:129-147 | the result is on the map; without an 'A' on the greedy cell it is the greedy step; with one, each axis is shifted by -1 or 0 and clamped |
| AgentRules.Idled | CsharpPatterns/State/Agent.cs:48 | only hunger changes: it becomes 2h + 3 while h + 3 is at most 100 and h + 100 above that, with no clamp on the sum; it strictly grows, and from below 50 it stays at or under 101 |
| AgentRules.Moved | CsharpPatterns/State/Agent.cs:50-55 | hunger is min(h+3, 100), energy is max(0, e-5), the position is (x, y), and nothing else changes |
| AgentRules.Ate | CsharpPatterns/State/Agent.cs:57-61 | hunger is max(0, h-r), energy is min(100, e+g), and nothing else changes |
| AgentRules.Slept | CsharpPatterns/State/Agent.cs:63 | energy is min(100, e+20), and nothing else changes |
| AgentRules.Performed | CsharpPatterns/State/Agent.cs:72 | invoking a queued action never touches the state, the queue, the target or the last action name; only a move changes the position, to the square it was queued with |
| AgentRules.Entered | CsharpPatterns/State/States/AbstractState.cs:16-20 | a new state object of the kind given, an empty queue and no food target; the agent's own fields are untouched |
| AgentRules.IdleEvaluated | CsharpPatterns/State/States/IdleState.cs:9-19 | from hunger 50, switch to Hungry with an empty queue; below it, enqueue exactly one "Idle" action; energy is never read |
| AgentRules.SleepingEvaluated | CsharpPatterns/State/States/SleepingState.cs:10-24 | from energy 50, switch to Hungry (hunger 60 or more) or Idle (less); below it, enqueue exactly one "Sleep" action |
| AgentRules.HungryEvaluated | CsharpPatterns/State/States/HungryState.cs:12-48 | energy 10 or less gives Sleeping, whatever the hunger; hunger 20 or less gives Idle; otherwise the target is kept if it still reads "FD" or else the picked food spot, and one move toward it, named after it, is enqueued; a fault exactly when a target is needed and there is no food |
| AgentRules.Evaluated | CsharpPatterns/State/Agent.cs:67 | `state.Evaluate()` by the state's class: only a hungry agent can fault, and evaluating leaves hunger, energy, position and the last action name as they were |
| AgentRules.RanNext | CsharpPatterns/State/Agent.cs:68-73 | an empty queue changes nothing; otherwise the head is dequeued, its name becomes the last action, and state and target stay |
| AgentRules.Updated | CsharpPatterns/State/Agent.cs:65-74 | evaluate, then run at most one action: it faults exactly when the evaluation does, and the state and target the evaluation chose stand afterwards |
| AgentRules.EvaluateSwitchesOrEnqueues | CsharpPatterns/State/States/IdleState.cs:11-18 | every evaluation either switches state and leaves an empty queue, or keeps the state and appends exactly one action |
| AgentRules.SwitchRunsNoAction | CsharpPatterns/State/States/AbstractState.cs:19 | an update that switches state runs no action: hunger, energy, position and the last action name are unchanged |
| AgentRules.UpdateKeepsQuiescent | CsharpPatterns/State/Agent.cs:65-74 | from an empty queue, an update ends with an empty queue, hunger in [0, 101], energy in [0, 100], and agent and target on the map |
| AgentRules.EatKeepsQuiescent | CsharpPatterns/State/Agent.cs:57-61 | a meal with non-negative relief and gain keeps those bounds and the position |
| AgentRules.UpdateFaultsIff | CsharpPatterns/State/States/HungryState.cs:33-38 | an update faults exactly when an awake, hungry agent needs a target and the map shows no food |
| AgentRules.IdleReaches101 | CsharpPatterns/State/Agent.cs:48 | an idle agent at hunger 49 ends its update at hunger 101 |
| Agents.Agent.constructor | CsharpPatterns/State/Agent.cs:34-43 | the short name is the first and last character of the name; the agent starts Idle with an empty queue; hunger 0 is drawn from [0, 30) and energy 0 from [10, 100) |
| Agents.Agent.ChangeState | CsharpPatterns/State/Agent.cs:45 | only the state reference changes |
| Agents.Agent.SetPosition | CsharpPatterns/State/Agent.cs:46 | only the position changes |
| Agents.Agent.Idle | CsharpPatterns/State/Agent.cs:48 | the agent's view becomes `Idled` of the old one |
| Agents.Agent.Move | CsharpPatterns/State/Agent.cs:50-55 | the agent's view becomes `Moved` of the old one |
| Agents.Agent.Eat | CsharpPatterns/State/Agent.cs:57-61 | the agent's view becomes `Ate` of the old one |
| Agents.Agent.Sleep | CsharpPatterns/State/Agent.cs:63 | the agent's view becomes `Slept` of the old one |
| Agents.Agent.Update | CsharpPatterns/State/Agent.cs:65-74 | the new view is what `Updated` gives for the draws used; a fault leaves the view unchanged |
| Agents.Agent.RunNextAction | CsharpPatterns/State/Agent.cs:68-73 | the agent's view becomes `RanNext` of the old one |
| Agents.AgentState.constructor | CsharpPatterns/State/States/AbstractState.cs:16-20 | the state is bound to its agent and that agent's queue is emptied |
| Agents.AgentState.Evaluate | CsharpPatterns/State/States/AbstractState.cs:22 | dispatching on the kind gives the view `Evaluated` returns |
| Agents.AgentState.EvaluateIdle | CsharpPatterns/State/States/IdleState.cs:9-19 | the agent's view becomes `IdleEvaluated` of the old one |
| Agents.AgentState.EvaluateSleeping | CsharpPatterns/State/States/SleepingState.cs:10-24 | the agent's view becomes `SleepingEvaluated` of the old one |
| Agents.AgentState.EvaluateHungry | CsharpPatterns/State/States/HungryState.cs:12-48 | the agent's view becomes `HungryEvaluated` of the old one, or stays unchanged on the fault |
| Worlds.RemoveFirst | CsharpPatterns/State/World.cs:102 | an absent tile leaves the list as it is; a present one shortens it by one |
| Worlds.RemoveFirstMultiset | CsharpPatterns/State/World.cs:102 | exactly one occurrence of the tile is removed |
| Worlds.RemoveFirstAt | CsharpPatterns/State/World.cs:102 | the occurrence removed is the first one, and the rest keeps its order |
| Worlds.FoodLeft | CsharpPatterns/State/World.cs:94-103 | after n agents' turns at most n tiles are gone |
| Worlds.FoodLeftSubset | CsharpPatterns/State/World.cs:94-103 | the meals only ever take tiles away |
| Worlds.PaintedBy | CsharpPatterns/State/World.cs:104 | a cell shows blank or the short name of an agent standing on it |
| Worlds.PaintedByNobody | CsharpPatterns/State/World.cs:104 | a cell that no agent stands on stays blank |
| Worlds.PaintedByLast | CsharpPatterns/State/World.cs:104 | a cell shows the short name of the last agent, in array order, standing on it |
| Worlds.SomeSpaceFree | CsharpPatterns/State/World.cs:157-162 | on the map a tick leaves, with fewer than ten agents and tiles together, a blank cell exists, so drawing a free space cannot fault |
| Worlds.World.constructor | CsharpPatterns/State/World.cs:65-89 | a blank map, Agent1 at the first draw, Agent2 at the second draw or at the single re-roll when the two draws coincide, and four food tiles on the map |
| Worlds.World.NewAgents | CsharpPatterns/State/World.cs:78-87 | two fresh, distinct agents start Idle with empty queues, no target, hunger drawn from [0, 30) and energy from [10, 100), Agent2 being re-placed once on a clash and never checked again |
| Worlds.World.Update | CsharpPatterns/State/World.cs:91-115 | one tick. Each agent ate exactly when its cell still held food. The list keeps what the meals left, followed by new tiles on blank cells, four in all. The map shows "FD" on the surviving tiles and elsewhere the last agent's short name. Each agent then ran its update, in array order, from its fed view against that map. The world stays valid, so neither fault happens |
| Worlds.World.Prepare | CsharpPatterns/State/World.cs:93-106 | after the two marking loops the agents are fed, the list is what the meals left, and the map is painted |
| Worlds.World.FeedAndMark | CsharpPatterns/State/World.cs:93-105 | after `ClearMap` and the first loop every agent ate exactly when its cell still held food, and the map shows the agents' short names |
| Worlds.World.Serve | CsharpPatterns/State/World.cs:96-104 | one turn of the first loop carries its invariant to the next agent |
| Worlds.World.Feed | CsharpPatterns/State/World.cs:96-103 | an agent on food eats once, with relief in [30, 50) and gain in [10, 30); the first such tile leaves the list and the counter drops by one, never below 0 |
| Worlds.World.Stamp | CsharpPatterns/State/World.cs:104 | the agent's short name goes on its cell, over any earlier one |
| Worlds.World.MarkFood | CsharpPatterns/State/World.cs:106 | "FD" goes on every food tile, over the agents' names; other cells keep their marks |
| Worlds.World.MarkFoodAfterMeals | CsharpPatterns/State/World.cs:106 | marking the food keeps what the first loop established |
| Worlds.World.ServedAll | CsharpPatterns/State/World.cs:94-105 | after both turns the agents stay in range and on the map, and every remaining tile lies on the map |
| Worlds.World.ServedNone | CsharpPatterns/State/World.cs:93-94 | before the first turn nobody has eaten and the map is blank |
| Worlds.World.Act | CsharpPatterns/State/World.cs:109-114 | the agents update and the food is restocked, and neither faults on the marked map |
| Worlds.World.MoveAll | CsharpPatterns/State/World.cs:109-112 | every agent updates from its fed view; the map and the food list are untouched |
| Worlds.World.UpdateAgents | CsharpPatterns/State/World.cs:109-112 | each agent, in array order, goes where `Updated` takes it; a fault needs a map without food |
| Worlds.World.Step | CsharpPatterns/State/World.cs:111 | one agent's update against the map, which cannot fault when the map shows food |
| Worlds.World.SteppedKeepsAgentsOk | CsharpPatterns/State/World.cs:109-112 | after the third loop the agents are still valid, in range and on the map |
| Worlds.World.Restock | CsharpPatterns/State/World.cs:114 | the list is topped up to four tiles on blank cells, with the old tiles first |
| Worlds.World.ClearMap | CsharpPatterns/State/World.cs:117-126 | every cell is "  " |
| Worlds.World.SpawnFood | CsharpPatterns/State/World.cs:149-171 | from a count of 4 nothing happens. Below 4, exactly 4 minus the count tiles are appended, each on a cell that was "  ", and the count becomes 4. It faults exactly when no cell is free |
| TicTacToe.Apply | CsharpPatterns/Command/Board.cs:31-39 | an occupied cell is left as it is; an empty one takes the value; no other cell changes |
| TicTacToe.ApplyAll | CsharpPatterns/Command/Program.cs:79-90 | the cells after the recorded moves in order: an occupied cell keeps its value, and a cell that changed holds the value of a move aimed at it |
| TicTacToe.Moves | CsharpPatterns/Command/MoveCommand.cs:13-22 | one stored move per command, in the order of the list, each with the command's x, y and value |
| TicTacToe.MoveCommand.constructor | CsharpPatterns/Command/MoveCommand.cs:17-22 | the command stores x, y and value; its fields are constants |
| TicTacToe.MoveCommand.Execute | CsharpPatterns/Command/MoveCommand.cs:24 | the stored move is applied to the board and the replay list does not grow |
| TicTacToe.Board.constructor | CsharpPatterns/Command/Board.cs:13-22 | nine empty cells and nothing recorded |
| TicTacToe.Board.Reset | CsharpPatterns/Command/Board.cs:24-29 | a fresh array of nine empty cells; the replay list is untouched |
| TicTacToe.Board.DoMove | CsharpPatterns/Command/Board.cs:31-39 | the move succeeds exactly when the cell was empty. The cells become `Apply` of the old ones. A command is appended exactly on success with recording on. A board that matched its recording still does |
| TicTacToe.Board.GetSymbol | CsharpPatterns/Command/Board.cs:57-63 | 1 shows 'X', 2 shows 'O', anything else ' ' |
| TicTacToe.Board.CheckRow | CsharpPatterns/Command/Board.cs:97-100 | true exactly when row x, as line x of the eight lines, holds the value in all three cells |
| TicTacToe.Board.CheckColumn | CsharpPatterns/Command/Board.cs:101-104 | true exactly when column y, as line 3 + y of the eight lines, holds the value in all three cells |
| TicTacToe.Board.CheckDiagonals | CsharpPatterns/Command/Board.cs:105-114 | true exactly when the main diagonal or the anti-diagonal holds the value in all three cells |
| TicTacToe.Board.CheckPlayerWin | CsharpPatterns/Command/Board.cs:85-95 | the rows, then the columns, then the diagonals find a win exactly when one of the eight lines holds the value three times |
| TicTacToe.Board.FlattenState | CsharpPatterns/Command/Board.cs:73-83 | a freshly allocated array of nine holding the cells row by row |
| TicTacToe.Board.EvaluateBoard | CsharpPatterns/Command/Board.cs:65-71 | the game is over exactly when player 1 or player 2 has a line or no cell is empty |
| TicTacToe.Replay | CsharpPatterns/Command/Program.cs:69-93 | reset and replay leave the cells that the recorded moves produce from empty. A board that only ever moved through recorded `DoMove` comes back exactly as it was |
| TicTacToe.ExecuteAll | CsharpPatterns/Command/Program.cs:79-90 | executing the recorded commands in order on an empty board leaves the cells their moves produce from empty; the recording and the array stay the same |
| TicTacToeAI.EmptyBeforeSpec | CsharpPatterns/Command/AI.cs:50-61 | the list holds exactly the empty squares, in strictly increasing row-major order |
| TicTacToeAI.GetEmptySquares | CsharpPatterns/Command/AI.cs:50-61 | the nested loop builds that list |
| TicTacToeAI.Opposing | CsharpPatterns/Command/AI.cs:81 | the opposing symbol is the other of 1 and 2 |
| TicTacToeAI.CheckDiagonalForSymbol | CsharpPatterns/Command/AI.cs:79-99 | true exactly for a corner whose centre and opposite corner hold the symbol; edges, the centre, and any move while the centre holds the opposing symbol give false |
| TicTacToeAI.FirstFor | CsharpPatterns/Command/AI.cs:30-48 | no square is found exactly when no candidate passes the check; otherwise the result is the first candidate that passes |
| TicTacToeAI.CheckMove | CsharpPatterns/Command/AI.cs:30-48 | the result is the first empty square, row by row, that passes, or (-1, -1) |
| TicTacToeAI.GetMove | CsharpPatterns/Command/AI.cs:10-28 | the result is an empty square: a winning one if any, else a blocking one if any, else the centre if empty |
| TicTacToeAI.SomeEmptySquare | CsharpPatterns/Command/AI.cs:26-27 | a board with an empty cell gives a nonempty list to draw from |
| TicTacToeAI.CheckRowForSymbol | CsharpPatterns/Command/AI.cs:101-142 | top, middle and bottom sections in order, with the `== 1` guards and the middle-row guard on (2, 1) as written; whatever the guards, a check that passes is on the board and has the symbol in the other two cells of the move's row |
| TicTacToeAI.CheckColumnForSymbol | CsharpPatterns/Command/AI.cs:144-185 | left, middle and right sections in order, with the `== 1` guards and the middle section listing (1, 2) as written; a check that passes is on the board and has the symbol in the other two cells of the move's column |
| TicTacToeAI.CheckSquareForSymbol | CsharpPatterns/Command/AI.cs:63-77 | the diagonal, row and column checks in that order, for symbol 2 when winning and 1 when blocking; a square that passes completes a row, a column or a diagonal of the symbol through it |
| TicTacToeAI.BlockingNeverByRowOrColumn | CsharpPatterns/Command/AI.cs:101-186 | for symbol 1 the row and column checks never pass, so blocking looks only at the diagonals |
| TicTacToeAI.WinningRowFound | CsharpPatterns/Command/AI.cs:101-142 | for symbol 2 an empty square that completes its row passes, unless it is in the middle row and (2, 1) holds 1 |
| TicTacToeAI.MissedMiddleRowWin | CsharpPatterns/Command/AI.cs:117-127 | that exception happens: (1, 0) completes the middle row and is refused |
| TicTacToeAI.WinningColumnFound | CsharpPatterns/Command/AI.cs:144-185 | for symbol 2 an empty square that completes its column passes, except (2, 1), and except (1, 2) when the middle column holds a 1 |
| TicTacToeAI.MissedColumnWins | CsharpPatterns/Command/AI.cs:159-169 | (2, 1) never passes the column check, and (1, 2) is refused whenever (0, 1) holds a 1 |
| Combat.GameEvents.Raise | CsharpPatterns/Mediator/Events.cs:17-20 | raising an event appends it to the log |
| Combat.UseEvent | CsharpPatterns/Mediator/Info.cs:79 | using a potion raises healing for its target, from the potion, by its amount |
| Combat.Damaged | CsharpPatterns/Mediator/Unit.cs:71-76 | health never grows and never wraps: it is 0 exactly when the hit is at least the health, and it is otherwise the difference |
| Combat.Healed | CsharpPatterns/Mediator/Unit.cs:84 | the result is at most 100 and is min(health + amount, 100) whenever the uint sum does not wrap |
| Combat.HealingCanWrap | CsharpPatterns/Mediator/Unit.cs:84 | the wrap is reachable: healing 50 by 2^32 - 10 gives 40 |
| Combat.AttackEvents | CsharpPatterns/Mediator/Unit.cs:60-64 | exactly one hit from the attacker on its target when the roll is above 0.49, else none |
| Combat.IndexOf | CsharpPatterns/Mediator/Unit.cs:58 | the position of the first occurrence |
| Combat.RemoveFirstOccurrence | CsharpPatterns/Mediator/Unit.cs:58 | removing at that position takes exactly one occurrence out of the inventory |
| Combat.Player.constructor | CsharpPatterns/Mediator/Unit.cs:38-45 | the id, name and health given; no target yet and an empty inventory |
| Combat.Player.SetTarget | CsharpPatterns/Mediator/Unit.cs:33 | only the target changes |
| Combat.Player.AddItemToInventory | CsharpPatterns/Mediator/Unit.cs:47 | the item is appended; health and target stay |
| Combat.Player.Tick | CsharpPatterns/Mediator/Unit.cs:51-65 | a dead player does nothing. Otherwise an item used on a roll above 0.7 raises its healing and loses exactly its first occurrence, in order. A roll above 0.49 then raises a hit in [4, 12) on the target |
| Combat.Player.Attack | CsharpPatterns/Mediator/Unit.cs:49 | a hit from this player on its current target is raised |
| Combat.Player.DamageTaken | CsharpPatterns/Mediator/Unit.cs:67-78 | a hit on another id changes nothing. Otherwise health becomes `Damaged`, and a hit of at least the health raises this player's death credited to the instigator, again even when it was already dead |
| Combat.Player.HealingReceived | CsharpPatterns/Mediator/Unit.cs:80-86 | healing on this id sets health to `Healed`; on another id nothing changes |
| Combat.Player.Die | CsharpPatterns/Mediator/Unit.cs:88 | this player's death is raised, credited to the killer |
| Combat.Enemy.constructor | CsharpPatterns/Mediator/Unit.cs:105-111 | the id, name and health given, and no target yet |
| Combat.Enemy.SetTarget | CsharpPatterns/Mediator/Unit.cs:102 | only the target changes |
| Combat.Enemy.AddItemToInventory | CsharpPatterns/Mediator/Unit.cs:113 | nothing changes |
| Combat.Enemy.Tick | CsharpPatterns/Mediator/Unit.cs:117-125 | a dead enemy does nothing; otherwise a roll above 0.49 raises a hit in [4, 12) on its target |
| Combat.Enemy.Attack | CsharpPatterns/Mediator/Unit.cs:115 | a hit from this enemy on its current target is raised |
| Combat.Enemy.DamageTaken | CsharpPatterns/Mediator/Unit.cs:127-138 | as for the player |
| Combat.Enemy.Die | CsharpPatterns/Mediator/Unit.cs:140 | this enemy's death is raised, credited to the killer |
| MobileStorage.SavedAfter | CsharpPatterns/Factory/MobileDevice.cs:22-41 | READ access leaves the slot as it is, null or empty data leaves it as it is, and an accepted save replaces it with the data |
| MobileStorage.Loaded | CsharpPatterns/Factory/MobileDevice.cs:43-62 | WRITE access gives empty, an empty slot gives empty, and READ or READ_WRITE gives the slot |
| MobileStorage.SaveLoadRoundTrip | CsharpPatterns/Factory/MobileDevice.cs:22-61 | an accepted save is loaded back unchanged with read access, whatever the handles; after a refused save the old data is loaded |
| MobileStorage.LoadAfterSaveNonEmpty | CsharpPatterns/Factory/MobileDevice.cs:40-61 | after an accepted save, a load with READ or READ_WRITE access is never empty |
| MobileStorage.MobileDevice.constructor | CsharpPatterns/Factory/MobileDevice.cs:10 | the slot starts empty |
| MobileStorage.MobileDevice.Save | CsharpPatterns/Factory/MobileDevice.cs:22-41 | the slot becomes `SavedAfter` of the old slot |
| MobileStorage.MobileDevice.Load | CsharpPatterns/Factory/MobileDevice.cs:43-62 | the result is `Loaded` of the slot |
| ConsoleStorage.GetStoragePermission | CsharpPatterns/Factory/GameConsole.cs:8-15 | the response is granted, for the request's process and type, under a fresh handle |
| ConsoleStorage.Save | CsharpPatterns/Factory/GameConsole.cs:21-44 | null gives NullArgument under the empty handle. Not granted gives Unauthorized. Granted Read gives InsufficientAccess. Otherwise the save is scheduled for the permission's process. Each outcome names the permission's handle |
| ConsoleStorage.Load | CsharpPatterns/Factory/GameConsole.cs:46-67 | the same chain, where Write is the type refused |
| ConsoleStorage.AccessByRequestType | CsharpPatterns/Factory/GameConsole.cs:30-62 | Write passes Save and fails Load, Read does the opposite, and ReadWrite passes both |
| ConsoleStorage.GrantedPermissionSchedules | CsharpPatterns/Factory/GameConsole.cs:8-67 | a permission from `GetStoragePermission` is never unauthorized, and a ReadWrite one schedules both a save and a load for the requesting process |

## Left out

- Console output is not modelled: `World.PrintWorldState`, `Agent.ToString`, `Board.PrintState`, and the log lines of `MobileDevice` and `GameConsole`. The handles of `MobileDevice` appear only in those lines, and so does its `usrId`.
- The `Program.cs` drivers are not modelled: their timers, threads, busy-waits and console input. The replay loop of `Command/Program.cs` appears only as `TicTacToe.Replay`, without its delays.
- The Singleton demo is not modelled: `GameManager` and `GameManagerThreadSafe` are about lazy initialisation under locks.
- `Mediator/Events.cs`, `Mediator/GameManager.cs` and `Mediator/Simulation.cs` are not part of this model. Raised events are appended to `GameEvents.log`; delivery to subscribers and the random turn order are not modelled.
- Combat.Player.Tick: the hub delivers events synchronously. A potion aimed at the player, or a hit on its own id, would change its health within the same tick. The model only logs the events, so it states that health is unchanged.
- Combat.Player.DamageTaken and Combat.Enemy.DamageTaken: the death event is logged, not delivered.
- `Factory/Storage.cs`, `StorageFactory.cs` and `IStorage.cs` are not part of this model. They cover drive I/O, random buffers and a platform switch.
- Random generators are not modelled; each draw is a parameter or a nondeterministic choice. The seeded `Random(0)` of the AI therefore becomes any empty square.
- `Guid.NewGuid` is a parameter: identities are opaque values supplied by the caller, and `Guid.Empty` is `EmptyGuid`.
- Strings on the map are pairs of characters, because every mark the world writes has two characters.
- MobileStorage.MobileDevice.Load returns the saved bytes as a value. In the source it returns the stored array itself, so a caller that writes into it changes the slot; that aliasing is not modelled.
- TicTacToe.Board.DoMove requires the cell to be on the board. The source reads the cell before its bounds checks, which would also let x or y equal 3, so any cell off the board faults. The dead checks are not modelled.
- TicTacToeAI.GetMove requires an empty cell on the board. Without one the source indexes an empty list; the game loop of `Command/Program.cs` ends as soon as `EvaluateBoard` finds the board full.
- Agents.AgentState.EvaluateHungry and AgentRules.HungryEvaluated: the fault on an empty food list is modelled as `ok == false`, and whatever would happen after the exception is not modelled. `World.Update` is proved never to reach it.
- Vectors.Add, Vectors.Sub and Vectors.Scale use unbounded integers. C# wraps `int` arithmetic at 32 bits, so the stated values hold only while the unclamped sum, difference or product fits in an `int`; no coordinate or scalar the world uses comes near that.
- Combat.IndexOf and Combat.RemoveFirstOccurrence compare inventory items by value. In the source `ItemInfo` is a class without an `Equals` override, so `List.IndexOf` compares references, and a potion added twice shares one settable `Target`; the model treats each copy as its own value. Item identity and that aliasing are not modelled.
- Agents.Agent.constructor requires a nonempty name. The source reads `name[0]` for the short name and would fault on an empty one; the world only ever builds "Agent1" and "Agent2", and that fault is not modelled.
- The two `PrintWorldState` calls inside `World.Update` are console output and are left out.
