/**
 * The behaviour of one agent of the simulation as pure functions over a
 * snapshot of its fields (CsharpPatterns/State/Agent.cs and the three state
 * classes under CsharpPatterns/State/States/). The classes in module Agents
 * are proved to follow these functions; the lemmas at the end state what
 * the rules guarantee.
 */
module AgentRules {
  import opened Wrappers
  import opened Vectors
  import opened WorldGrid

  const MinHunger: int := 0
  const MaxHunger: int := 100
  const MinEnergy: int := 0
  const MaxEnergy: int := 100

  /** `IdleState.HungerThreshold`. */
  const IdleHungerThreshold: int := 50
  /** `HungryState.HungerThreshold` and `HungryState.EnergyThreshold`. */
  const HungryHungerThreshold: int := 20
  const HungryEnergyThreshold: int := 10
  /** `SleepingState.HungerThreshold` and `SleepingState.EnergyThreshold`. */
  const SleepingHungerThreshold: int := 60
  const SleepingEnergyThreshold: int := 50

  /** Which of the three state classes the agent's state object is. */
  datatype StateKind = Idle | Hungry | Sleeping

  /** The closure of an `AgentAction`, as the call it makes on the agent. */
  datatype Action = IdleAction | MoveAction(to: Vector2Int) | SleepAction

  /** `Agent.AgentAction`: the closure and its display name. */
  datatype AgentAction = AgentAction(action: Action, name: string)

  /** The mutable fields of an agent together with its state object's
      kind and `foodTarget` (always `MinusOne` outside `HungryState`). */
  datatype AgentView = AgentView(
    position: Vector2Int,
    hunger: int,
    energy: int,
    kind: StateKind,
    foodTarget: Vector2Int,
    actions: seq<AgentAction>,
    lastAction: string)

  const IdleStep: AgentAction := AgentAction(IdleAction, "Idle")
  const SleepStep: AgentAction := AgentAction(SleepAction, "Sleep")

  function DigitChar(d: int): char
    requires 0 <= d < 10
  {
    "0123456789"[d]
  }

  /** Decimal rendering of a natural number, as C# string interpolation does it. */
  function NatToString(n: nat): string
    decreases n
  {
    if n < 10 then [DigitChar(n)] else NatToString(n / 10) + [DigitChar(n % 10)]
  }

  function IntToString(n: int): string {
    if n < 0 then "-" + NatToString(-n) else NatToString(n)
  }

  /** `$"MoveTowards({X},{Y})"` for the food target. */
  function MoveName(target: Vector2Int): string {
    "MoveTowards(" + IntToString(target.x) + "," + IntToString(target.y) + ")"
  }

  /** The agent stands inside the map and its food target, if any, too. */
  predicate Placed(v: AgentView, grid: array2<Label>) {
    InMap(grid, v.position) && (v.foodTarget == MinusOne || InMap(grid, v.foodTarget))
  }

  // ---------------------------------------------------------------------
  // The four resource updates of Agent.cs

  /** `Agent.Idle`: adds `min(100, hunger + 3)` to hunger, with no clamp
      on the sum. */
  function Idled(v: AgentView): (w: AgentView)
    ensures w == v.(hunger := w.hunger)
    ensures v.hunger + 3 <= MaxHunger ==> w.hunger == 2 * v.hunger + 3
    ensures v.hunger + 3 > MaxHunger ==> w.hunger == v.hunger + MaxHunger
    ensures v.hunger >= MinHunger ==> w.hunger > v.hunger
    ensures MinHunger <= v.hunger < IdleHungerThreshold ==> w.hunger <= MaxHunger + 1
  {
    v.(hunger := v.hunger + Min(MaxHunger, v.hunger + 3))
  }

  /** `Agent.Move(x, y)`: three more hunger up to 100, five less energy down
      to 0, and the new position. */
  function Moved(v: AgentView, x: int, y: int): (w: AgentView)
    ensures w == v.(hunger := w.hunger, energy := w.energy, position := Vector2Int(x, y))
    ensures w.hunger <= MaxHunger && w.hunger <= v.hunger + 3
    ensures v.hunger + 3 <= MaxHunger ==> w.hunger == v.hunger + 3
    ensures v.hunger + 3 > MaxHunger ==> w.hunger == MaxHunger
    ensures w.energy >= MinEnergy && w.energy >= v.energy - 5
    ensures v.energy - 5 >= MinEnergy ==> w.energy == v.energy - 5
    ensures v.energy - 5 < MinEnergy ==> w.energy == MinEnergy
  {
    v.(hunger := Min(v.hunger + 3, MaxHunger), energy := Max(MinEnergy, v.energy - 5), position := Vector2Int(x, y))
  }

  /** `Agent.Eat(relief, gain)`: hunger down by `relief` to at least 0,
      energy up by `gain` to at most 100; nothing else changes. */
  function Ate(v: AgentView, relief: int, gain: int): (w: AgentView)
    ensures w == v.(hunger := w.hunger, energy := w.energy)
    ensures w.hunger >= MinHunger && w.hunger >= v.hunger - relief
    ensures v.hunger - relief >= MinHunger ==> w.hunger == v.hunger - relief
    ensures v.hunger - relief < MinHunger ==> w.hunger == MinHunger
    ensures w.energy <= MaxEnergy && w.energy <= v.energy + gain
    ensures v.energy + gain <= MaxEnergy ==> w.energy == v.energy + gain
    ensures v.energy + gain > MaxEnergy ==> w.energy == MaxEnergy
  {
    v.(hunger := Max(MinHunger, v.hunger - relief), energy := Min(MaxEnergy, v.energy + gain))
  }

  /** `Agent.Sleep`: twenty more energy up to 100; hunger is untouched. */
  function Slept(v: AgentView): (w: AgentView)
    ensures w == v.(energy := w.energy)
    ensures w.energy <= MaxEnergy && w.energy <= v.energy + 20
    ensures v.energy + 20 <= MaxEnergy ==> w.energy == v.energy + 20
    ensures v.energy + 20 > MaxEnergy ==> w.energy == MaxEnergy
  {
    v.(energy := Min(MaxEnergy, v.energy + 20))
  }

  /** Invoking the closure of a dequeued action. An action never touches
      the state, the queue, the target or the last action name, and only a
      move changes the position, to the square it was queued with. */
  function Performed(v: AgentView, a: Action): (w: AgentView)
    ensures w.kind == v.kind && w.actions == v.actions && w.foodTarget == v.foodTarget && w.lastAction == v.lastAction
    ensures w.position == if a.MoveAction? then a.to else v.position
  {
    match a
    case IdleAction => Idled(v)
    case MoveAction(to) => Moved(v, to.x, to.y)
    case SleepAction => Slept(v)
  }

  // ---------------------------------------------------------------------
  // The state machine

  /** `agent.ChangeState(new XState(agent))`: the new state object's
      constructor clears the queue (AbstractState.cs), then it replaces the
      old one. */
  function Entered(v: AgentView, k: StateKind): (w: AgentView)
    ensures w.kind == k && w.actions == [] && w.foodTarget == MinusOne
    ensures w.(kind := v.kind, actions := v.actions, foodTarget := v.foodTarget) == v
  {
    v.(kind := k, actions := [], foodTarget := MinusOne)
  }

  /** `IdleState.Evaluate`: hungry from 50 on, otherwise one "Idle" action;
      energy is never read. */
  function IdleEvaluated(v: AgentView): (w: AgentView)
    requires v.kind == Idle
    ensures v.hunger >= IdleHungerThreshold ==> w.kind == Hungry && w.actions == [] && w.foodTarget == MinusOne
    ensures v.hunger < IdleHungerThreshold ==> w.kind == Idle && w.actions == v.actions + [IdleStep] && w.foodTarget == v.foodTarget
    ensures w.(kind := v.kind, actions := v.actions, foodTarget := v.foodTarget) == v
  {
    if v.hunger >= IdleHungerThreshold then Entered(v, Hungry)
    else v.(actions := v.actions + [IdleStep])
  }

  /** `SleepingState.Evaluate`: once energy reaches 50 the agent wakes,
      hungry from 60 on and idle below; otherwise one "Sleep" action. */
  function SleepingEvaluated(v: AgentView): (w: AgentView)
    requires v.kind == Sleeping
    ensures v.energy >= SleepingEnergyThreshold && v.hunger >= SleepingHungerThreshold ==> w.kind == Hungry && w.actions == []
    ensures v.energy >= SleepingEnergyThreshold && v.hunger < SleepingHungerThreshold ==> w.kind == Idle && w.actions == []
    ensures v.energy < SleepingEnergyThreshold ==> w.kind == Sleeping && w.actions == v.actions + [SleepStep] && w.foodTarget == v.foodTarget
    ensures w.kind != Sleeping ==> w.foodTarget == MinusOne
    ensures w.(kind := v.kind, actions := v.actions, foodTarget := v.foodTarget) == v
  {
    if v.energy >= SleepingEnergyThreshold then
      if v.hunger >= SleepingHungerThreshold then Entered(v, Hungry) else Entered(v, Idle)
    else
      v.(actions := v.actions + [SleepStep])
  }

  /** The remembered target must be replaced: there is none, or its cell no
      longer reads "FD". */
  predicate NeedsTarget(v: AgentView, grid: array2<Label>)
    requires v.foodTarget == MinusOne || InMap(grid, v.foodTarget)
    reads grid
  {
    v.foodTarget == MinusOne || grid[v.foodTarget.x, v.foodTarget.y] != Food
  }

  /** The random draws one evaluation may use: an index into `FoodSpots`
      (any value when there is none) and the two collision offsets. */
  ghost predicate DrawsFit(grid: array2<Label>, pick: int, dx: int, dy: int)
    reads grid
  {
    (|Labelled(grid, Food)| == 0 || 0 <= pick < |Labelled(grid, Food)|)
    && -1 <= dx <= 0 && -1 <= dy <= 0
  }

  /** `HungryState.Evaluate`. `None` is the fault of indexing an empty
      `FoodSpots` list when a new target is needed. */
  ghost function HungryEvaluated(v: AgentView, grid: array2<Label>, pick: int, dx: int, dy: int): (r: Option<AgentView>)
    requires v.kind == Hungry && Placed(v, grid) && DrawsFit(grid, pick, dx, dy)
    reads grid
    ensures v.energy <= HungryEnergyThreshold ==> r == Some(Entered(v, Sleeping))
    ensures v.energy > HungryEnergyThreshold && v.hunger <= HungryHungerThreshold ==> r == Some(Entered(v, Idle))
    ensures r == None <==>
      v.energy > HungryEnergyThreshold && v.hunger > HungryHungerThreshold && NeedsTarget(v, grid) && Labelled(grid, Food) == []
    ensures r.Some? && v.energy > HungryEnergyThreshold && v.hunger > HungryHungerThreshold ==>
      var t := r.value.foodTarget;
      && InMap(grid, t) && grid[t.x, t.y] == Food
      && (!NeedsTarget(v, grid) ==> t == v.foodTarget)
      && (NeedsTarget(v, grid) ==> t == Labelled(grid, Food)[pick])
      && r.value == v.(foodTarget := t, actions := v.actions + [
           AgentAction(MoveAction(MoveTowards(grid, v.position.x, v.position.y, t.x, t.y, dx, dy)), MoveName(t))])
  {
    if v.energy <= HungryEnergyThreshold then
      Some(Entered(v, Sleeping))
    else if v.hunger <= HungryHungerThreshold then
      // the inner test repeats the outer one and is never true here
      if v.energy <= HungryEnergyThreshold then Some(Entered(v, Sleeping)) else Some(Entered(v, Idle))
    else
      var spots := Labelled(grid, Food);
      if NeedsTarget(v, grid) && |spots| == 0 then
        None
      else
        var target := if NeedsTarget(v, grid) then spots[pick] else v.foodTarget;
        LabelledIff(grid, Food, target);
        var move := MoveTowards(grid, v.position.x, v.position.y, target.x, target.y, dx, dy);
        Some(v.(foodTarget := target, actions := v.actions + [AgentAction(MoveAction(move), MoveName(target))]))
  }

  /** `state.Evaluate()` dispatched on the state object's class. Only a
      hungry agent can fault, and evaluating only decides: hunger, energy,
      position and the last action name are left as they were. */
  ghost function Evaluated(v: AgentView, grid: array2<Label>, pick: int, dx: int, dy: int): (r: Option<AgentView>)
    requires Placed(v, grid) && DrawsFit(grid, pick, dx, dy)
    reads grid
    ensures v.kind != Hungry ==> r.Some?
    ensures r.Some? ==> r.value.hunger == v.hunger && r.value.energy == v.energy &&
                        r.value.position == v.position && r.value.lastAction == v.lastAction
  {
    match v.kind
    case Idle => Some(IdleEvaluated(v))
    case Hungry => HungryEvaluated(v, grid, pick, dx, dy)
    case Sleeping => Some(SleepingEvaluated(v))
  }

  /** The second half of `Agent.Update`: dequeue at most one action, record
      its name, invoke it. */
  function RanNext(v: AgentView): (w: AgentView)
    ensures v.actions == [] ==> w == v
    ensures v.actions != [] ==> w.actions == v.actions[1..] && w.lastAction == v.actions[0].name
    ensures w.kind == v.kind && w.foodTarget == v.foodTarget
  {
    if |v.actions| > 0 then
      Performed(v.(actions := v.actions[1..], lastAction := v.actions[0].name), v.actions[0].action)
    else
      v
  }

  /** `Agent.Update`: evaluate, then run at most one queued action. It
      faults exactly when the evaluation does, and the state and target the
      evaluation chose stand after the action runs. */
  ghost function Updated(v: AgentView, grid: array2<Label>, pick: int, dx: int, dy: int): (r: Option<AgentView>)
    requires Placed(v, grid) && DrawsFit(grid, pick, dx, dy)
    reads grid
    ensures r.None? <==> Evaluated(v, grid, pick, dx, dy).None?
    ensures r.Some? ==> r.value.kind == Evaluated(v, grid, pick, dx, dy).value.kind &&
                        r.value.foodTarget == Evaluated(v, grid, pick, dx, dy).value.foodTarget
  {
    match Evaluated(v, grid, pick, dx, dy)
    case None => None
    case Some(e) => Some(RanNext(e))
  }

  // ---------------------------------------------------------------------
  // What the rules guarantee

  /** Every evaluation either switches state (and leaves the queue empty)
      or keeps the state and enqueues exactly one action. */
  lemma EvaluateSwitchesOrEnqueues(v: AgentView, grid: array2<Label>, pick: int, dx: int, dy: int)
    requires Placed(v, grid) && DrawsFit(grid, pick, dx, dy)
    requires Evaluated(v, grid, pick, dx, dy).Some?
    ensures var e := Evaluated(v, grid, pick, dx, dy).value;
      (e.kind != v.kind && e.actions == []) ||
      (e.kind == v.kind && |e.actions| == |v.actions| + 1 && e.actions[..|v.actions|] == v.actions)
  {
  }

  /** A switch of state runs no action in the same update: the new state's
      constructor emptied the queue, so hunger, energy, position and the
      last action name are as before. */
  lemma {:induction false} SwitchRunsNoAction(v: AgentView, grid: array2<Label>, pick: int, dx: int, dy: int)
    requires Placed(v, grid) && DrawsFit(grid, pick, dx, dy)
    requires Updated(v, grid, pick, dx, dy).Some?
    requires Updated(v, grid, pick, dx, dy).value.kind != v.kind
    ensures var w := Updated(v, grid, pick, dx, dy).value;
      && w.actions == [] && w.foodTarget == MinusOne
      && w.hunger == v.hunger && w.energy == v.energy
      && w.position == v.position && w.lastAction == v.lastAction
  {
    EvaluateSwitchesOrEnqueues(v, grid, pick, dx, dy);
  }

  /** Between updates the queue is empty and hunger and energy stay in
      range. Hunger can exceed 100 by one: `Agent.Idle` does not clamp. */
  predicate Quiescent(v: AgentView) {
    v.actions == [] && MinHunger <= v.hunger <= MaxHunger + 1 && MinEnergy <= v.energy <= MaxEnergy
  }

  /** An update from a quiescent, placed agent ends quiescent and placed:
      the queue empties again, hunger stays in `[0, 101]`, energy in
      `[0, 100]`, and the agent and its target stay on the map. */
  lemma {:induction false} UpdateKeepsQuiescent(v: AgentView, grid: array2<Label>, pick: int, dx: int, dy: int)
    requires Quiescent(v) && Placed(v, grid) && DrawsFit(grid, pick, dx, dy)
    requires Updated(v, grid, pick, dx, dy).Some?
    ensures Quiescent(Updated(v, grid, pick, dx, dy).value)
    ensures Placed(Updated(v, grid, pick, dx, dy).value, grid)
  {
    EvaluateSwitchesOrEnqueues(v, grid, pick, dx, dy);
    var e := Evaluated(v, grid, pick, dx, dy).value;
    if e.kind == v.kind {
      assert e.actions == [e.actions[0]];
      match v.kind
      case Idle =>
        assert e == v.(actions := [IdleStep]);
      case Sleeping =>
        assert e == v.(actions := [SleepStep]);
      case Hungry =>
        var t := e.foodTarget;
        assert InMap(grid, e.actions[0].action.to);
    }
  }

  /** A meal keeps an agent quiescent and placed: with a non-negative
      relief and gain, hunger and energy only move within their ranges. */
  lemma EatKeepsQuiescent(v: AgentView, grid: array2<Label>, relief: int, gain: int)
    requires Quiescent(v) && Placed(v, grid) && relief >= 0 && gain >= 0
    ensures Quiescent(Ate(v, relief, gain)) && Placed(Ate(v, relief, gain), grid)
  {
  }

  /** `Agent.Update` faults exactly when an awake, hungry agent needs a new
      target and the map shows no food. */
  lemma UpdateFaultsIff(v: AgentView, grid: array2<Label>, pick: int, dx: int, dy: int)
    requires Placed(v, grid) && DrawsFit(grid, pick, dx, dy)
    ensures Updated(v, grid, pick, dx, dy).None? <==>
      v.kind == Hungry && v.energy > HungryEnergyThreshold && v.hunger > HungryHungerThreshold &&
      NeedsTarget(v, grid) && Labelled(grid, Food) == []
  {
  }

  /** The bound 101 is reached: an idle agent at hunger 49 idles to 101. */
  lemma IdleReaches101(grid: array2<Label>, p: Vector2Int)
    requires InMap(grid, p)
    requires |Labelled(grid, Food)| == 0
    ensures var v := AgentView(p, 49, 50, Idle, MinusOne, [], "");
      Updated(v, grid, 0, 0, 0) == Some(v.(hunger := 101, lastAction := "Idle"))
  {
  }
}
