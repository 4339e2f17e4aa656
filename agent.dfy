/**
 * The agent and its state objects (CsharpPatterns/State/Agent.cs and the
 * state classes under CsharpPatterns/State/States/). The three state
 * classes become one class `AgentState` with a `kind` tag; each keeps the agent it was built
 * for, and building one empties that agent's action queue. The static map
 * `World.Map` is passed to the methods that read it.
 */
module Agents {
  import opened Wrappers
  import opened Vectors
  import opened WorldGrid
  import opened AgentRules

  class Agent {
    var position: Vector2Int
    const shortName: Label
    var hunger: int
    var energy: int
    var lastKnownAction: string
    /** `Queue<AgentAction>`: enqueue at the end, dequeue at the front. */
    var actions: seq<AgentAction>
    const name: string
    /** Set right after construction; never null afterwards. */
    var state: AgentState?

    /** The state object belongs to this agent. */
    ghost predicate Valid()
      reads this, state
    {
      state != null && state.agent == this
    }

    /** Everything an update can change, as one value. */
    ghost function View(): AgentView
      requires Valid()
      reads this, state
    {
      AgentView(position, hunger, energy, state.kind, state.foodTarget, actions, lastKnownAction)
    }

    /** `new Agent(x, y, name, hunger, energy)`. A zero `hunger` or `energy`
        is replaced by a draw from `[0, 30)` or `[10, 100)`. */
    constructor (x: int, y: int, name: string, hunger: int, energy: int)
      requires |name| > 0
      ensures Valid() && fresh(state)
      ensures this.name == name && shortName == Label(name[0], name[|name| - 1])
      ensures position == Vector2Int(x, y)
      ensures state.kind == StateKind.Idle && state.foodTarget == MinusOne
      ensures actions == [] && lastKnownAction == ""
      ensures hunger == 0 ==> MinHunger <= this.hunger < 30
      ensures hunger != 0 ==> this.hunger == hunger
      ensures energy == 0 ==> 10 <= this.energy < MaxEnergy
      ensures energy != 0 ==> this.energy == energy
    {
      position := Vector2Int(x, y);
      this.name := name;
      shortName := Label(name[0], name[|name| - 1]);
      this.hunger := 0;
      this.energy := 0;
      lastKnownAction := "";
      actions := [];
      state := null;
      new;
      state := new AgentState(this, StateKind.Idle);
      if hunger == 0 {
        var h :| MinHunger <= h < 30;
        this.hunger := h;
      } else {
        this.hunger := hunger;
      }
      if energy == 0 {
        var e :| 10 <= e < MaxEnergy;
        this.energy := e;
      } else {
        this.energy := energy;
      }
    }

    /** `ChangeState`: only the state reference changes. */
    method ChangeState(s: AgentState)
      modifies this`state
      ensures state == s
    {
      state := s;
    }

    /** `SetPosition`: only the position changes. */
    method SetPosition(x: int, y: int)
      modifies this`position
      ensures position == Vector2Int(x, y)
    {
      position := Vector2Int(x, y);
    }

    method Idle()
      requires Valid()
      modifies this`hunger
      ensures View() == Idled(old(View()))
    {
      hunger := hunger + Min(MaxHunger, hunger + 3);
    }

    method Move(x: int, y: int)
      requires Valid()
      modifies this`hunger, this`energy, this`position
      ensures View() == Moved(old(View()), x, y)
    {
      hunger := Min(hunger + 3, MaxHunger);
      energy := Max(MinEnergy, energy - 5);
      SetPosition(x, y);
    }

    method Eat(relief: int, gain: int)
      requires Valid()
      modifies this`hunger, this`energy
      ensures View() == Ate(old(View()), relief, gain)
    {
      hunger := Max(MinHunger, hunger - relief);
      energy := Min(MaxEnergy, energy + gain);
    }

    method Sleep()
      requires Valid()
      modifies this`energy
      ensures View() == Slept(old(View()))
    {
      energy := Min(MaxEnergy, energy + 20);
    }

    /** `Agent.Update`: let the state evaluate, then dequeue and run at most
        one action. `ok` is false when the evaluation faulted; the ghost
        results name the random draws it used. */
    method Update(grid: array2<Label>) returns (ok: bool, ghost pick: int, ghost dx: int, ghost dy: int)
      requires Valid() && Placed(View(), grid)
      modifies this, state
      ensures Valid() && (state == old(state) || fresh(state))
      ensures DrawsFit(grid, pick, dx, dy)
      ensures Updated(old(View()), grid, pick, dx, dy) == (if ok then Some(View()) else None)
      ensures !ok ==> View() == old(View())
    {
      ok, pick, dx, dy := state.Evaluate(grid);
      if ok {
        RunNextAction();
      }
    }

    /** The second half of `Update`: dequeue at most one action, record its
        name and invoke it. */
    method RunNextAction()
      requires Valid()
      modifies this`actions, this`lastKnownAction, this`hunger, this`energy, this`position
      ensures View() == RanNext(old(View()))
    {
      if |actions| > 0 {
        var action := actions[0];
        actions := actions[1..];
        lastKnownAction := action.name;
        match action.action
        case IdleAction => Idle();
        case MoveAction(to) => Move(to.x, to.y);
        case SleepAction => Sleep();
      }
    }
  }

  class AgentState {
    /** The agent this state was built for (`AbstractState.agent`). */
    const agent: Agent
    const kind: StateKind
    /** `HungryState.foodTarget`; stays `MinusOne` in the other states. */
    var foodTarget: Vector2Int

    /** `AbstractState(agent)`: bind the agent and clear its queue. */
    constructor (agent: Agent, kind: StateKind)
      modifies agent`actions
      ensures this.agent == agent && this.kind == kind && foodTarget == MinusOne
      ensures agent.actions == []
    {
      this.agent := agent;
      this.kind := kind;
      foodTarget := MinusOne;
      new;
      agent.actions := [];
    }

    /** `Evaluate()`, dispatched on the class the state object stands for. */
    method Evaluate(grid: array2<Label>) returns (ok: bool, ghost pick: int, ghost dx: int, ghost dy: int)
      requires agent.Valid() && agent.state == this && Placed(agent.View(), grid)
      modifies this, agent`actions, agent`state
      ensures agent.Valid() && (agent.state == this || fresh(agent.state))
      ensures DrawsFit(grid, pick, dx, dy)
      ensures Evaluated(old(agent.View()), grid, pick, dx, dy) == (if ok then Some(agent.View()) else None)
      ensures !ok ==> agent.View() == old(agent.View())
    {
      match kind
      case Idle =>
        EvaluateIdle();
        ok, pick, dx, dy := true, 0, 0, 0;
      case Sleeping =>
        EvaluateSleeping();
        ok, pick, dx, dy := true, 0, 0, 0;
      case Hungry =>
        ok, pick, dx, dy := EvaluateHungry(grid);
    }

    /** `IdleState.Evaluate`. */
    method EvaluateIdle()
      requires kind == Idle && agent.Valid() && agent.state == this
      modifies agent`actions, agent`state
      ensures agent.Valid() && (agent.state == this || fresh(agent.state))
      ensures agent.View() == IdleEvaluated(old(agent.View()))
    {
      if agent.hunger >= IdleHungerThreshold {
        var next := new AgentState(agent, Hungry);
        agent.ChangeState(next);
      } else {
        agent.actions := agent.actions + [IdleStep];
      }
    }

    /** `SleepingState.Evaluate`. */
    method EvaluateSleeping()
      requires kind == Sleeping && agent.Valid() && agent.state == this
      modifies agent`actions, agent`state
      ensures agent.Valid() && (agent.state == this || fresh(agent.state))
      ensures agent.View() == SleepingEvaluated(old(agent.View()))
    {
      if agent.energy >= SleepingEnergyThreshold {
        if agent.hunger >= SleepingHungerThreshold {
          var next := new AgentState(agent, Hungry);
          agent.ChangeState(next);
        } else {
          var next := new AgentState(agent, Idle);
          agent.ChangeState(next);
        }
      } else {
        agent.actions := agent.actions + [SleepStep];
      }
    }

    /** `HungryState.Evaluate`: sleep when exhausted, idle when fed,
        otherwise keep or re-pick a food target and enqueue one step
        toward it. */
    method EvaluateHungry(grid: array2<Label>) returns (ok: bool, ghost pick: int, ghost dx: int, ghost dy: int)
      requires kind == Hungry && agent.Valid() && agent.state == this && Placed(agent.View(), grid)
      modifies this, agent`actions, agent`state
      ensures agent.Valid() && (agent.state == this || fresh(agent.state))
      ensures DrawsFit(grid, pick, dx, dy)
      ensures HungryEvaluated(old(agent.View()), grid, pick, dx, dy) == (if ok then Some(agent.View()) else None)
      ensures !ok ==> agent.View() == old(agent.View())
    {
      ok, pick, dx, dy := true, 0, 0, 0;
      if agent.energy <= HungryEnergyThreshold {
        var next := new AgentState(agent, Sleeping);
        agent.ChangeState(next);
      } else if agent.hunger <= HungryHungerThreshold {
        // The source repeats the energy test here; on this branch it is false.
        var next := new AgentState(agent, if agent.energy <= HungryEnergyThreshold then Sleeping else Idle);
        agent.ChangeState(next);
      } else {
        if foodTarget == MinusOne || grid[foodTarget.x, foodTarget.y] != Food {
          var spots := FoodSpots(grid);
          if |spots| == 0 {
            // `spots[rng.Next(0, 0)]` indexes an empty list
            ok := false;
            return;
          }
          var i :| 0 <= i < |spots|;
          pick := i;
          foodTarget := spots[i];
        }
        var ox :| -1 <= ox <= 0;
        var oy :| -1 <= oy <= 0;
        dx, dy := ox, oy;
        var move := MoveTowards(grid, agent.position.x, agent.position.y, foodTarget.x, foodTarget.y, ox, oy);
        agent.actions := agent.actions + [AgentAction(MoveAction(move), MoveName(foodTarget))];
      }
    }
  }
}
